/**
 * The results page: without results in the navigation state it sends the
 * user back to the upload page; otherwise it shows the table, or a
 * "No Results Found" panel when the list is empty.
 */
module ResultsPage {
  import opened Wrappers
  import opened Screening

  /** The part of the page below the "Back to Upload" button. */
  datatype Body =
    | NoResultsPanel(goTo: string)   // the "Go to Upload" button's target
    | Table(results: seq<ScreeningResult>, jobDescription: Option<string>)

  datatype Render =
    | Redirect(to: string)             // `navigate('/upload')` and render nothing
    | Page(backTo: string, body: Body) // the "Back to Upload" button's target, then the body

  /** `ResultsPage` given `location.state`. A present but empty list passes the guard. */
  function RenderResults(state: Option<RouteState>): (r: Render)
    ensures r.Redirect? <==> state.None? || state.value.results.None?
    ensures r.Page? ==> (r.body.NoResultsPanel? <==> |state.value.results.value| == 0)
    ensures r.Page? && r.body.Table? ==>
      r.body.results == state.value.results.value && r.body.jobDescription == state.value.jobDescription
  {
    if state.None? || state.value.results.None? then Redirect(UploadPath)
    else
      var results := state.value.results.value;
      if |results| > 0 then Page(UploadPath, Table(results, state.value.jobDescription))
      else Page(UploadPath, NoResultsPanel(UploadPath))
  }

  /** Every way off the page leads to the upload page. */
  lemma AllExitsToUpload(state: Option<RouteState>)
    ensures RenderResults(state).Redirect? ==> RenderResults(state).to == UploadPath
    ensures RenderResults(state).Page? ==> RenderResults(state).backTo == UploadPath
    ensures RenderResults(state).Page? && RenderResults(state).body.NoResultsPanel? ==>
      RenderResults(state).body.goTo == UploadPath
  {
  }

  /** A non-empty list is shown in the table, unchanged. */
  lemma NonEmptyShowsTable(results: seq<ScreeningResult>, jobDescription: Option<string>)
    requires |results| > 0
    ensures RenderResults(Some(RouteState(Some(results), jobDescription))) ==
      Page(UploadPath, Table(results, jobDescription))
  {
  }
}
