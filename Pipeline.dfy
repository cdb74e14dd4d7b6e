/**
 * How the parts fit together: the body an upload component sends is the
 * one the view reads, the view's answer goes through the component's
 * success path into the navigation state, and the results page and table
 * show it.
 */
module Pipeline {
  import opened Wrappers
  import opened Text
  import opened Screening
  import opened FormData
  import opened Sorting
  import Views
  import ResumeUpload
  import ResumeForm
  import ResultsPage
  import ResultsTable

  /** A description that passes the client's blank check is non-empty, so it passes the view's check. */
  lemma NonBlankNonEmpty(s: string)
    requires !IsBlank(JavaScript, s)
    ensures s != ""
  {
    assert Strip(JavaScript, "") == "";
  }

  /** The view reads back what an upload component sent, so a valid submission is always ranked, never refused. */
  lemma ValidSubmissionRanked(nlp: Views.Nlp, s: ResumeUpload.UploadState)
    requires ResumeUpload.ValidationError(s.jobDescription, s.files) == None
    ensures var form := ResumeUpload.Submitted(s).request.value.form;
      Views.DescriptionOf(form) == s.jobDescription &&
      Views.ResumesOf(form) == s.files &&
      Views.Screen(nlp, Views.DescriptionOf(form), Views.ResumesOf(form)).Ranked?
  {
    ResumeUpload.ValidSubmissionSends(s);
    NonBlankNonEmpty(s.jobDescription);
    Views.ScreenRanked(nlp, s.jobDescription, s.files);
  }

  /**
   * The upload component accepts `.doc` files and names whose suffix is in
   * upper case, but the view picks an extractor only for the lower-case
   * suffixes `.pdf` and `.docx`: such a resume is scored as if it held no
   * text.
   */
  lemma AcceptedButUnread(nlp: Views.Nlp, jdText: string, skills: set<string>, file: File)
    requires EndsWith(file.name, ".doc") || EndsWith(file.name, ".PDF") || EndsWith(file.name, ".DOCX")
    ensures ResumeUpload.IconFor(ResumeUpload.DocType) == ResumeUpload.DocumentIcon
    ensures Views.ExtractText(nlp, file) == ""
    ensures var r := Views.ScoreFile(nlp, jdText, skills, file);
      r.matchedSkills == Views.ExtractInfo(nlp, "", skills) &&
      r.semanticSimilarity == nlp.round2(nlp.similarity(jdText, ""))
  {
    ResumeUpload.AcceptedTypeIcons();
    Views.ExtractorForIff(file.name);
    // Each of these suffixes ends in a letter that neither `.pdf` nor `.docx` ends in.
    var n := |file.name|;
    if EndsWith(file.name, ".doc") {
      assert file.name[n - 4..][3] == file.name[n - 1] == 'c';
    } else if EndsWith(file.name, ".PDF") {
      assert file.name[n - 4..][3] == file.name[n - 1] == 'F';
    } else {
      assert file.name[n - 5..][4] == file.name[n - 1] == 'X';
    }
  }

  /** Giving client ids changes no score, so ranked order survives it. */
  lemma AssignIdsKeepsOrder(data: seq<ScreeningResult>)
    requires NonIncreasing(data)
    ensures NonIncreasing(ResumeUpload.AssignIds(data))
  {
    ResumeUpload.AssignIdsSpec(data);
  }

  /**
   * The whole upload flow: for a valid submission and a successful answer
   * from the view, the results page shows the table (never the empty
   * panel), with one row per file, usable row ids, the submitted
   * description in its panel, and a best match holding the top score.
   */
  lemma UploadFlowShowsTable(nlp: Views.Nlp, s: ResumeUpload.UploadState)
    requires ResumeUpload.ValidationError(s.jobDescription, s.files) == None
    ensures
      var step := ResumeUpload.Submitted(s);
      var form := step.request.value.form;
      var response := Views.Screen(nlp, Views.DescriptionOf(form), Views.ResumesOf(form));
      response.Ranked? &&
      var after := ResumeUpload.Responded(step.state, step.request.value, Succeeded(response.results));
      var page := ResultsPage.RenderResults(after.navigation.value.state);
      && page.Page? && page.body.Table?
      && |page.body.results| == |s.files|
      && ResultsTable.RowIdsUsable(page.body.results)
      && ResultsTable.DescriptionPanel(page.body.jobDescription) == Some(s.jobDescription)
      && (forall r :: r in page.body.results ==>
            ResultsTable.BestMatch(page.body.results).value.finalScore >= r.finalScore)
  {
    var step := ResumeUpload.Submitted(s);
    var form := step.request.value.form;
    ValidSubmissionRanked(nlp, s);
    NonBlankNonEmpty(s.jobDescription);
    Views.ScreenRanked(nlp, s.jobDescription, s.files);
    var rs := Views.Screen(nlp, s.jobDescription, s.files).results;
    var shown := ResumeUpload.AssignIds(rs);
    ResumeUpload.AssignIdsDistinct(rs);
    AssignIdsKeepsOrder(rs);
    ResultsTable.BestMatchIsTop(shown);
    ResultsPage.NonEmptyShowsTable(shown, Some(s.jobDescription));
  }

  /**
   * The plain form's "Check Results" navigation carries no description, so
   * the table shows no description panel; its rows are the view's answer
   * as sent, without ids.
   */
  lemma ResumeFormFlowShowsTable(nlp: Views.Nlp, s: ResumeForm.FormState)
    requires !s.isUploaded && !s.isUploading
    requires s.jobDescription != "" && |s.resumes| > 0
    ensures
      var sent := ResumeForm.Submitted(s);
      var form := sent.action.form;
      var response := Views.Screen(nlp, Views.DescriptionOf(form), Views.ResumesOf(form));
      response.Ranked? &&
      var after := ResumeForm.Responded(sent.state, Succeeded(response.results));
      var shown := ResumeForm.Submitted(after).action.navigation;
      var page := ResultsPage.RenderResults(shown.state);
      page == ResultsPage.Page(UploadPath, ResultsPage.Table(response.results, None))
      && ResultsTable.DescriptionPanel(page.body.jobDescription) == None
      && (forall i :: 0 <= i < |page.body.results| ==> page.body.results[i].id.None?)
  {
    ResumeForm.FirstSubmitSends(s);
    Views.ScreenRanked(nlp, s.jobDescription, s.resumes);
  }
}
