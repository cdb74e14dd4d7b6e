/**
 * The multipart body the upload components send, and how the Django
 * view reads it back (`request.data.get`, `request.FILES.getlist`).
 */
module FormData {
  import opened Wrappers
  import opened Screening

  datatype Part = TextPart(key: string, value: string) | FilePart(key: string, file: File)

  const DescriptionKey := "job_description"
  const ResumesKey := "resumes"

  /** One `resumes` part per file, in list order. */
  function ResumeParts(files: seq<File>): seq<Part> {
    seq(|files|, i requires 0 <= i < |files| => FilePart(ResumesKey, files[i]))
  }

  /** The body both upload components build: the description, then every file. */
  function ScreeningForm(description: string, files: seq<File>): seq<Part> {
    [TextPart(DescriptionKey, description)] + ResumeParts(files)
  }

  /** The `formData.append` loop over the selected files. */
  method BuildForm(description: string, files: seq<File>) returns (form: seq<Part>)
    ensures form == ScreeningForm(description, files)
  {
    form := [TextPart(DescriptionKey, description)];
    var i := 0;
    while i < |files|
      invariant 0 <= i <= |files|
      invariant form == ScreeningForm(description, files[..i])
    {
      assert ResumeParts(files[..i + 1]) == ResumeParts(files[..i]) + [FilePart(ResumesKey, files[i])];
      form := form + [FilePart(ResumesKey, files[i])];
      i := i + 1;
    }
    assert files[..i] == files;
  }

  /** `request.FILES.getlist(key)`: the files sent under `key`, in order. */
  function FilesUnder(form: seq<Part>, key: string): seq<File>
    decreases |form|
  {
    if |form| == 0 then []
    else
      var rest := FilesUnder(form[1..], key);
      if form[0].FilePart? && form[0].key == key then [form[0].file] + rest else rest
  }

  /** `request.data.get(key)`: the last text value sent under `key`, if any. */
  function TextUnder(form: seq<Part>, key: string): Option<string>
    decreases |form|
  {
    if |form| == 0 then None
    else
      var rest := TextUnder(form[1..], key);
      if rest.Some? then rest
      else if form[0].TextPart? && form[0].key == key then Some(form[0].value)
      else None
  }

  lemma {:induction false} ResumePartsRead(files: seq<File>)
    ensures FilesUnder(ResumeParts(files), ResumesKey) == files
    ensures TextUnder(ResumeParts(files), DescriptionKey) == None
    decreases |files|
  {
    if |files| > 0 {
      assert ResumeParts(files)[1..] == ResumeParts(files[1..]);
      ResumePartsRead(files[1..]);
      assert files == [files[0]] + files[1..];
    }
  }

  /** The view reads back exactly the description and the files, in order, that the client sent. */
  lemma FormRoundTrip(description: string, files: seq<File>)
    ensures FilesUnder(ScreeningForm(description, files), ResumesKey) == files
    ensures TextUnder(ScreeningForm(description, files), DescriptionKey) == Some(description)
  {
    var form := ScreeningForm(description, files);
    assert form[1..] == ResumeParts(files);
    ResumePartsRead(files);
  }
}
