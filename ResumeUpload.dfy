/**
 * The drag-and-drop upload component: its file list, its validation of a
 * submission, its `loading`/`error`/`success` flags around the screening
 * request, the client-side ids it gives the results, and the file icons.
 *
 * The component's state is a class; each handler is a method whose new
 * state is a pure transition of the old one, and the properties of the
 * handlers are lemmas about those transitions.
 */
module ResumeUpload {
  import opened Wrappers
  import opened Text
  import opened Screening
  import opened FormData

  const BlankDescriptionError := "Please enter a job description"
  const NoFilesError := "Please upload at least one resume"
  const RequestFailedError := "Failed to analyze resumes. Please try again."

  /** The five `useState` values of the component. */
  datatype UploadState = UploadState(
    jobDescription: string,
    files: seq<File>,
    loading: bool,
    error: Option<string>,
    success: bool)

  const Initial := UploadState("", [], false, None, false)

  // ---- validation ----

  /** The message `handleSubmit` shows before sending anything, checking the description first. */
  function ValidationError(jobDescription: string, files: seq<File>): (e: Option<string>)
    ensures e == Some(BlankDescriptionError) <==> IsBlank(JavaScript, jobDescription)
    ensures e == Some(NoFilesError) <==> !IsBlank(JavaScript, jobDescription) && |files| == 0
    ensures e == None <==> !IsBlank(JavaScript, jobDescription) && |files| > 0
  {
    if IsBlank(JavaScript, jobDescription) then Some(BlankDescriptionError)
    else if |files| == 0 then Some(NoFilesError)
    else None
  }

  /** The `disabled` expression of the "Analyze Resumes" button. */
  predicate SubmitDisabled(s: UploadState) {
    s.loading || |s.files| == 0 || IsBlank(JavaScript, s.jobDescription)
  }

  /** The button is enabled exactly when no request is running and the submission would pass validation. */
  lemma SubmitEnabledIff(s: UploadState)
    ensures !SubmitDisabled(s) <==> !s.loading && ValidationError(s.jobDescription, s.files) == None
  {
  }

  // ---- the file list ----

  /** `onDrop`: the accepted files go after the ones already listed. */
  function Dropped(files: seq<File>, accepted: seq<File>): (r: seq<File>)
    ensures |r| == |files| + |accepted|
    ensures r[..|files|] == files && r[|files|..] == accepted
  {
    files + accepted
  }

  /** `removeFile(i)`: a copy of the list with element `i` spliced out. */
  function RemoveAt(files: seq<File>, i: nat): (r: seq<File>)
    requires i < |files|
    ensures |r| == |files| - 1
    ensures forall j :: 0 <= j < i ==> r[j] == files[j]
    ensures forall j :: i <= j < |r| ==> r[j] == files[j + 1]
    ensures multiset(r) + multiset{files[i]} == multiset(files)
  {
    assert files == files[..i] + [files[i]] + files[i + 1..];
    files[..i] + files[i + 1..]
  }

  /** Removing the file just dropped gives the previous list back. */
  lemma DropThenRemove(files: seq<File>, f: File)
    ensures RemoveAt(Dropped(files, [f]), |files|) == files
  {
    var r := RemoveAt(Dropped(files, [f]), |files|);
    assert forall j :: 0 <= j < |files| ==> r[j] == files[j];
  }

  // ---- the request and its outcome ----

  /**
   * A request in flight: the multipart body, and the description as it
   * was when the user submitted (the handler's closure keeps that value).
   */
  datatype PendingRequest = PendingRequest(jobDescription: string, form: seq<Part>)

  /** The new state after a submission, and the request sent, if any. */
  datatype SubmitStep = SubmitStep(state: UploadState, request: Option<PendingRequest>)

  function Submitted(s: UploadState): SubmitStep {
    match ValidationError(s.jobDescription, s.files)
    case Some(message) => SubmitStep(s.(error := Some(message)), None)
    case None =>
      SubmitStep(s.(loading := true),
                 Some(PendingRequest(s.jobDescription, ScreeningForm(s.jobDescription, s.files))))
  }

  /** `{ id: index + 1, ...item }`: the item's own `id`, when it has one, wins. */
  function AssignId(item: ScreeningResult, index: nat): ScreeningResult {
    if item.id.Some? then item else item.(id := Some(index + 1))
  }

  function AssignIds(data: seq<ScreeningResult>): (results: seq<ScreeningResult>)
    ensures |results| == |data|
  {
    seq(|data|, i requires 0 <= i < |data| => AssignId(data[i], i))
  }

  /** The new state after the request settles, and the navigation it triggers, if any. */
  datatype ResponseStep = ResponseStep(state: UploadState, navigation: Option<Navigation>)

  function Responded(s: UploadState, request: PendingRequest, outcome: Outcome<seq<ScreeningResult>>): ResponseStep {
    match outcome
    case Succeeded(data) =>
      var results := AssignIds(data);
      ResponseStep(s.(loading := false, success := true),
                   Some(Navigate(ResultsPath, Some(RouteState(Some(results), Some(request.jobDescription))))))
    case Failed =>
      ResponseStep(s.(error := Some(RequestFailedError), loading := false), None)
  }

  /** A blank description is reported, whatever the files, and nothing is sent. */
  lemma BlankDescriptionRejected(s: UploadState)
    requires IsBlank(JavaScript, s.jobDescription)
    ensures Submitted(s).request == None
    ensures Submitted(s).state == s.(error := Some(BlankDescriptionError))
  {
  }

  /** With a description but no files, the missing files are reported and nothing is sent. */
  lemma NoFilesRejected(s: UploadState)
    requires !IsBlank(JavaScript, s.jobDescription) && |s.files| == 0
    ensures Submitted(s).request == None
    ensures Submitted(s).state == s.(error := Some(NoFilesError))
  {
  }

  /**
   * A valid submission sets `loading` and sends a body from which the
   * service reads back the description and every file in list order.
   */
  lemma ValidSubmissionSends(s: UploadState)
    requires ValidationError(s.jobDescription, s.files) == None
    ensures Submitted(s).state == s.(loading := true)
    ensures Submitted(s).request.Some?
    ensures FilesUnder(Submitted(s).request.value.form, ResumesKey) == s.files
    ensures TextUnder(Submitted(s).request.value.form, DescriptionKey) == Some(s.jobDescription)
  {
    FormRoundTrip(s.jobDescription, s.files);
  }

  /** A request is sent exactly when validation passes, and then `loading` is set. */
  lemma RequestIff(s: UploadState)
    ensures Submitted(s).request.Some? <==> ValidationError(s.jobDescription, s.files) == None
    ensures Submitted(s).request.Some? ==> Submitted(s).state.loading
  {
  }

  /** Whatever the outcome, `loading` is false afterwards and the file list is untouched. */
  lemma RespondedClearsLoading(s: UploadState, request: PendingRequest, outcome: Outcome<seq<ScreeningResult>>)
    ensures !Responded(s, request, outcome).state.loading
    ensures Responded(s, request, outcome).state.files == s.files
    ensures Responded(s, request, outcome).state.jobDescription == s.jobDescription
  {
  }

  /**
   * Success navigates to the results page with the id-tagged results and
   * the submitted description; failure shows the error and stays.
   */
  lemma RespondedOutcome(s: UploadState, request: PendingRequest, outcome: Outcome<seq<ScreeningResult>>)
    ensures outcome.Succeeded? ==>
      Responded(s, request, outcome).state.success &&
      Responded(s, request, outcome).navigation ==
        Some(Navigate(ResultsPath, Some(RouteState(Some(AssignIds(outcome.data)), Some(request.jobDescription)))))
    ensures outcome.Failed? ==>
      Responded(s, request, outcome).navigation == None &&
      Responded(s, request, outcome).state.error == Some(RequestFailedError) &&
      Responded(s, request, outcome).state.success == s.success
  {
  }

  /**
   * Every item keeps all its fields but `id`; an item without an id gets
   * its one-based position, and one with an id keeps it.
   */
  lemma AssignIdsSpec(data: seq<ScreeningResult>)
    ensures forall i :: 0 <= i < |data| ==> AssignIds(data)[i].(id := data[i].id) == data[i]
    ensures forall i :: 0 <= i < |data| && data[i].id.None? ==> AssignIds(data)[i].id == Some(i + 1)
    ensures forall i :: 0 <= i < |data| && data[i].id.Some? ==> AssignIds(data)[i] == data[i]
  {
  }

  /** Items the service sends without ids get distinct ids 1..n. */
  lemma AssignIdsDistinct(data: seq<ScreeningResult>)
    requires forall i :: 0 <= i < |data| ==> data[i].id.None?
    ensures forall i, j :: 0 <= i < j < |data| ==> AssignIds(data)[i].id != AssignIds(data)[j].id
    ensures forall i :: 0 <= i < |data| ==> AssignIds(data)[i].id.Some? && 1 <= AssignIds(data)[i].id.value <= |data|
  {
  }

  // ---- file icons ----

  /** The icons of the file list: red PDF, blue document, grey generic file. */
  datatype FileIcon = PdfIcon | DocumentIcon | GenericIcon

  const PdfType := "application/pdf"
  const DocxType := "application/vnd.openxmlformats-officedocument.wordprocessingml.document"
  const DocType := "application/msword"

  /** `getFileIcon(fileType)`. */
  function IconFor(fileType: string): (icon: FileIcon)
    ensures icon == PdfIcon <==> fileType == PdfType
    ensures icon == DocumentIcon <==>
      fileType != PdfType && (Contains(fileType, "word") || Contains(fileType, "document"))
  {
    if fileType == PdfType then PdfIcon
    else if Contains(fileType, "word") || Contains(fileType, "document") then DocumentIcon
    else GenericIcon
  }

  lemma EndsWithContains(s: string, t: string)
    requires EndsWith(s, t)
    ensures Contains(s, t)
  {
    OccursContains(s, t, |s| - |t|);
  }

  /** Each type the drop zone accepts gets its own kind of icon: PDF, or document for both Word types. */
  lemma AcceptedTypeIcons()
    ensures IconFor(PdfType) == PdfIcon
    ensures IconFor(DocxType) == DocumentIcon
    ensures IconFor(DocType) == DocumentIcon
  {
    EndsWithContains(DocxType, "document");
    EndsWithContains(DocType, "word");
  }

  // ---- the component ----

  class UploadForm {
    var jobDescription: string
    var files: seq<File>
    var loading: bool
    var error: Option<string>
    var success: bool

    function State(): UploadState
      reads this
    {
      UploadState(jobDescription, files, loading, error, success)
    }

    constructor ()
      ensures State() == Initial
    {
      jobDescription := "";
      files := [];
      loading := false;
      error := None;
      success := false;
    }

    /** The description field's `onChange`. */
    method SetJobDescription(text: string)
      modifies this
      ensures State() == old(State()).(jobDescription := text)
    {
      jobDescription := text;
    }

    method OnDrop(accepted: seq<File>)
      modifies this
      ensures State() == old(State()).(files := Dropped(old(files), accepted))
    {
      files := files + accepted;
    }

    /** The delete button of row `i`. */
    method RemoveFile(i: nat)
      requires i < |files|
      modifies this
      ensures State() == old(State()).(files := RemoveAt(old(files), i))
    {
      var newFiles := files;
      newFiles := newFiles[..i] + newFiles[i + 1..];
      files := newFiles;
    }

    /** "Clear all". */
    method ClearFiles()
      modifies this
      ensures State() == old(State()).(files := [])
    {
      files := [];
    }

    /** `handleSubmit` up to the awaited request: validation, then `loading` and the body. */
    method Submit() returns (request: Option<PendingRequest>)
      modifies this
      ensures SubmitStep(State(), request) == Submitted(old(State()))
    {
      if IsBlank(JavaScript, jobDescription) {
        error := Some(BlankDescriptionError);
        return None;
      }
      if |files| == 0 {
        error := Some(NoFilesError);
        return None;
      }
      loading := true;
      var form := BuildForm(jobDescription, files);
      request := Some(PendingRequest(jobDescription, form));
    }

    /** `handleSubmit` after the awaited request settles. */
    method Complete(request: PendingRequest, outcome: Outcome<seq<ScreeningResult>>) returns (navigation: Option<Navigation>)
      modifies this
      ensures ResponseStep(State(), navigation) == Responded(old(State()), request, outcome)
    {
      match outcome
      case Succeeded(data) =>
        var results := AssignIds(data);
        navigation := Some(Navigate(ResultsPath, Some(RouteState(Some(results), Some(request.jobDescription)))));
        loading := false;
        success := true;
      case Failed =>
        error := Some(RequestFailedError);
        loading := false;
        navigation := None;
    }

    /** Closing the error snackbar. */
    method DismissError()
      modifies this
      ensures State() == old(State()).(error := None)
    {
      error := None;
    }

    /** Closing the success snackbar. */
    method DismissSuccess()
      modifies this
      ensures State() == old(State()).(success := false)
    {
      success := false;
    }
  }
}
