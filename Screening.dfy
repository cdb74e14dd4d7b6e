/** The records that travel between the upload components, the screening service and the results page. */
module Screening {
  import opened Wrappers

  /** An uploaded resume: its file name and the MIME type the browser reports for it. */
  datatype File = File(name: string, mimeType: string)

  /**
   * One resume's match data. The service sends no `id`; the upload
   * component adds one on the client.
   */
  datatype ScreeningResult = ScreeningResult(
    id: Option<nat>,
    name: string,
    matchedSkills: seq<string>,
    semanticSimilarity: real,
    skillMatchRatio: real,
    finalScore: real)

  /** The navigation state handed to the results page; a missing key is `None`. */
  datatype RouteState = RouteState(results: Option<seq<ScreeningResult>>, jobDescription: Option<string>)

  /** A call of `navigate(path, { state })`. */
  datatype Navigation = Navigate(path: string, state: Option<RouteState>)

  const ResultsPath := "/results"
  const UploadPath := "/upload"
}
