/**
 * The plain upload form: a first submission sends the screening request,
 * and once results have arrived the same button opens the results page.
 */
module ResumeForm {
  import opened Wrappers
  import opened Screening
  import opened FormData

  /** The five `useState` values of the form. */
  datatype FormState = FormState(
    jobDescription: string,
    resumes: seq<File>,
    results: seq<ScreeningResult>,
    isUploading: bool,
    isUploaded: bool)

  const Initial := FormState("", [], [], false, false)

  /** What a submission does besides changing the state. */
  datatype SubmitAction =
    | ShowResults(navigation: Navigation)
    | SendRequest(form: seq<Part>)

  datatype SubmitStep = SubmitStep(state: FormState, action: SubmitAction)

  /** `handleSubmit` up to the awaited request. */
  function Submitted(s: FormState): SubmitStep {
    if s.isUploaded then
      SubmitStep(s, ShowResults(Navigate(ResultsPath, Some(RouteState(Some(s.results), None)))))
    else
      SubmitStep(s.(isUploading := true), SendRequest(ScreeningForm(s.jobDescription, s.resumes)))
  }

  /** `handleSubmit` after the request settles. */
  function Responded(s: FormState, outcome: Outcome<seq<ScreeningResult>>): FormState {
    match outcome
    case Succeeded(data) => s.(results := data, isUploading := false, isUploaded := true)
    case Failed => s.(isUploading := false)
  }

  /** The submit button's text. */
  function ButtonLabel(s: FormState): (caption: string)
    ensures caption == "Evaluating..." <==> s.isUploading
    ensures caption == "Check Results" <==> !s.isUploading && s.isUploaded
    ensures caption == "Rank the resumes" <==> !s.isUploading && !s.isUploaded
  {
    if s.isUploading then "Evaluating..."
    else if s.isUploaded then "Check Results"
    else "Rank the resumes"
  }

  predicate ButtonDisabled(s: FormState) {
    s.isUploading
  }

  /** Once results are in, submitting only navigates, with those results and no description, and changes nothing. */
  lemma UploadedSubmitNavigates(s: FormState)
    requires s.isUploaded
    ensures Submitted(s).state == s
    ensures Submitted(s).action == ShowResults(Navigate(ResultsPath, Some(RouteState(Some(s.results), None))))
  {
  }

  /** Before that, submitting sets `isUploading` and sends the description and every file in order. */
  lemma FirstSubmitSends(s: FormState)
    requires !s.isUploaded
    ensures Submitted(s).state == s.(isUploading := true)
    ensures Submitted(s).action.SendRequest?
    ensures FilesUnder(Submitted(s).action.form, ResumesKey) == s.resumes
    ensures TextUnder(Submitted(s).action.form, DescriptionKey) == Some(s.jobDescription)
  {
    FormRoundTrip(s.jobDescription, s.resumes);
  }

  /** Success stores the response and marks the upload done; failure only clears `isUploading`. */
  lemma RespondedOutcome(s: FormState, outcome: Outcome<seq<ScreeningResult>>)
    ensures !Responded(s, outcome).isUploading
    ensures outcome.Succeeded? ==> Responded(s, outcome).results == outcome.data && Responded(s, outcome).isUploaded
    ensures outcome.Failed? ==> Responded(s, outcome) == s.(isUploading := false)
  {
  }

  /** A successful first round trip leaves the button reading "Check Results", enabled, and the next press showing the response. */
  lemma UploadLifecycle(s: FormState, data: seq<ScreeningResult>)
    requires !s.isUploaded
    ensures var during := Submitted(s).state;
      ButtonLabel(during) == "Evaluating..." && ButtonDisabled(during)
    ensures var after := Responded(Submitted(s).state, Succeeded(data));
      ButtonLabel(after) == "Check Results" && !ButtonDisabled(after) &&
      Submitted(after).action == ShowResults(Navigate(ResultsPath, Some(RouteState(Some(data), None))))
  {
  }

  /** A failed first round trip returns the form to its previous state, so the next press retries. */
  lemma FailedUploadRetries(s: FormState)
    requires !s.isUploaded && !s.isUploading
    ensures Responded(Submitted(s).state, Failed) == s
    ensures ButtonLabel(Responded(Submitted(s).state, Failed)) == "Rank the resumes"
  {
  }

  class ResumeForm {
    var jobDescription: string
    var resumes: seq<File>
    var results: seq<ScreeningResult>
    var isUploading: bool
    var isUploaded: bool

    function State(): FormState
      reads this
    {
      FormState(jobDescription, resumes, results, isUploading, isUploaded)
    }

    constructor ()
      ensures State() == Initial
    {
      jobDescription := "";
      resumes := [];
      results := [];
      isUploading := false;
      isUploaded := false;
    }

    /** The text area's `onChange`. */
    method SetJobDescription(text: string)
      modifies this
      ensures State() == old(State()).(jobDescription := text)
    {
      jobDescription := text;
    }

    /** `handleFileChange`: the picker's selection replaces the list. */
    method HandleFileChange(selected: seq<File>)
      modifies this
      ensures State() == old(State()).(resumes := selected)
    {
      resumes := selected;
    }

    method Submit() returns (action: SubmitAction)
      modifies this
      ensures SubmitStep(State(), action) == Submitted(old(State()))
    {
      if isUploaded {
        return ShowResults(Navigate(ResultsPath, Some(RouteState(Some(results), None))));
      }
      var form := BuildForm(jobDescription, resumes);
      isUploading := true;
      action := SendRequest(form);
    }

    method Complete(outcome: Outcome<seq<ScreeningResult>>)
      modifies this
      ensures State() == Responded(old(State()), outcome)
    {
      match outcome
      case Succeeded(data) =>
        results := data;
        isUploading := false;
        isUploaded := true;
      case Failed =>
        isUploading := false;
    }
  }
}
