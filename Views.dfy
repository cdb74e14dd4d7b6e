/**
 * The screening API view: input validation, keyword extraction from the
 * job description, text extraction by file suffix, per-file scoring and
 * the final ranking.
 */
module Views {
  import opened Wrappers
  import opened Text
  import opened Screening
  import opened FormData
  import opened Sorting

  /**
   * The libraries the view calls, which the model does not interpret:
   * spaCy's noun chunks and PhraseMatcher, the sentence-embedding
   * similarity, PyMuPDF, docx2txt and Python's `round(x, 2)`.
   */
  datatype Nlp = Nlp(
    nounChunks: string -> seq<string>,              // texts of the noun chunks of a text
    phraseMatches: (string, set<string>) -> seq<string>,  // texts of the spans of a text matching the phrases
    similarity: (string, string) -> real,          // cosine similarity of two texts' embeddings
    pdfPages: File -> seq<string>,                 // the text of each page of a PDF
    docxText: File -> string,                      // the text of a DOCX document
    round2: real -> real)                          // rounding to two decimals

  datatype Response = BadRequest(status: nat, error: string) | Ranked(results: seq<ScreeningResult>)

  const MissingInput := "Job description and at least one resume are required."

  // ---- extract_text ----

  datatype Extractor = PdfExtractor | DocxExtractor | NoExtractor

  /** The extractor chosen by the file name's suffix (case-sensitive). */
  function ExtractorFor(fileName: string): Extractor {
    if EndsWith(fileName, ".pdf") then PdfExtractor
    else if EndsWith(fileName, ".docx") then DocxExtractor
    else NoExtractor
  }

  /** Each extractor is chosen exactly for its suffix; no name has both suffixes. */
  lemma ExtractorForIff(fileName: string)
    ensures ExtractorFor(fileName) == PdfExtractor <==> EndsWith(fileName, ".pdf")
    ensures ExtractorFor(fileName) == DocxExtractor <==> EndsWith(fileName, ".docx")
    ensures ExtractorFor(fileName) == NoExtractor <==> !EndsWith(fileName, ".pdf") && !EndsWith(fileName, ".docx")
  {
    // The two suffixes end in different letters.
    var n := |fileName|;
    if EndsWith(fileName, ".pdf") {
      assert fileName[n - 4..][3] == fileName[n - 1];
    }
    if EndsWith(fileName, ".docx") {
      assert fileName[n - 5..][4] == fileName[n - 1];
    }
  }

  /** The text of all pages, in page order. */
  function Concat(pages: seq<string>): string
    decreases |pages|
  {
    if |pages| == 0 then "" else pages[0] + Concat(pages[1..])
  }

  lemma {:induction false} ConcatAppend(pages: seq<string>, page: string)
    ensures Concat(pages + [page]) == Concat(pages) + page
    decreases |pages|
  {
    if |pages| > 0 {
      assert (pages + [page])[1..] == pages[1..] + [page];
      ConcatAppend(pages[1..], page);
    } else {
      assert pages + [page] == [page];
    }
  }

  /** `extract_text_from_pdf`: appends each page's text in turn. */
  method ExtractTextFromPdf(pages: seq<string>) returns (text: string)
    ensures text == Concat(pages)
  {
    text := "";
    var i := 0;
    while i < |pages|
      invariant 0 <= i <= |pages|
      invariant text == Concat(pages[..i])
    {
      ConcatAppend(pages[..i], pages[i]);
      assert pages[..i + 1] == pages[..i] + [pages[i]];
      text := text + pages[i];
      i := i + 1;
    }
    assert pages[..i] == pages;
  }

  /** `extract_text`: the text the chosen extractor produces; other files give "". */
  function ExtractText(nlp: Nlp, file: File): string {
    match ExtractorFor(file.name)
    case PdfExtractor => Concat(nlp.pdfPages(file))
    case DocxExtractor => nlp.docxText(file)
    case NoExtractor => ""
  }

  // ---- extract_keywords_from_jd ----

  /** A candidate skill: between one and three whitespace-separated words. */
  predicate IsSkillPhrase(phrase: string) {
    1 <= |Words(Python, phrase)| <= 3
  }

  /** The stripped noun chunks of one to three words. */
  function Keywords(chunks: seq<string>): set<string> {
    set c | c in chunks && IsSkillPhrase(Strip(Python, c)) :: Strip(Python, c)
  }

  /** `extract_keywords_from_jd`: adds each qualifying stripped chunk to a set. */
  method ExtractKeywordsFromJd(nlp: Nlp, jdText: string) returns (skills: set<string>)
    ensures skills == Keywords(nlp.nounChunks(Lower(jdText)))
  {
    var chunks := nlp.nounChunks(Lower(jdText));
    skills := {};
    for i := 0 to |chunks|
      invariant skills == Keywords(chunks[..i])
    {
      var phrase := Strip(Python, chunks[i]);
      assert chunks[..i + 1] == chunks[..i] + [chunks[i]];
      if 1 <= |Words(Python, phrase)| <= 3 {
        skills := skills + {phrase};
      }
    }
    assert chunks[..|chunks|] == chunks;
  }

  lemma StripStable(s: string)
    ensures TrimStart(Python, s) == s <==> |s| == 0 || !IsSpace(Python, s[0])
    ensures TrimEnd(Python, s) == s <==> |s| == 0 || !IsSpace(Python, s[|s| - 1])
  {
  }

  /** Stripping a stripped string changes nothing. */
  lemma StripIdempotent(s: string)
    ensures Strip(Python, Strip(Python, s)) == Strip(Python, s)
  {
    var t := TrimStart(Python, s);
    var u := TrimEnd(Python, t);
    if |u| > 0 {
      assert u[0] == t[0];
    }
    StripStable(u);
  }

  /**
   * A phrase is a keyword exactly when some chunk strips to it and it has
   * one to three words; every keyword is already stripped.
   */
  lemma KeywordsIff(chunks: seq<string>, phrase: string)
    ensures phrase in Keywords(chunks) <==>
      IsSkillPhrase(phrase) && exists c :: c in chunks && Strip(Python, c) == phrase
    ensures phrase in Keywords(chunks) ==> Strip(Python, phrase) == phrase && !IsBlank(Python, phrase)
  {
    if phrase in Keywords(chunks) {
      var c :| c in chunks && IsSkillPhrase(Strip(Python, c)) && Strip(Python, c) == phrase;
      StripIdempotent(c);
      WordsEmptyIff(Python, phrase);
    }
  }

  // ---- extract_info ----

  /** `extract_info`: the distinct matched texts of the lower-cased resume, sorted. */
  function ExtractInfo(nlp: Nlp, resumeText: string, jdSkills: set<string>): seq<string> {
    SortedUnique(nlp.phraseMatches(Lower(resumeText), jdSkills))
  }

  /** The matched skills are strictly ascending and are exactly the distinct matched texts. */
  lemma ExtractInfoSorted(nlp: Nlp, resumeText: string, jdSkills: set<string>)
    ensures StrictlyAscending(ExtractInfo(nlp, resumeText, jdSkills))
    ensures forall m :: m in ExtractInfo(nlp, resumeText, jdSkills) <==>
      m in nlp.phraseMatches(Lower(resumeText), jdSkills)
    ensures forall i, j :: 0 <= i < j < |ExtractInfo(nlp, resumeText, jdSkills)| ==>
      ExtractInfo(nlp, resumeText, jdSkills)[i] != ExtractInfo(nlp, resumeText, jdSkills)[j]
  {
    AscendingDistinct(ExtractInfo(nlp, resumeText, jdSkills));
  }

  // ---- scoring ----

  /** `len(matched) / total if total else 0`. */
  function SkillScore(matched: nat, total: nat): (r: real)
    ensures total == 0 ==> r == 0.0
    ensures total > 0 ==> r * (total as real) == matched as real
    ensures matched <= total ==> 0.0 <= r <= 1.0
  {
    if total == 0 then 0.0 else (matched as real) / (total as real)
  }

  /** A list without repeats drawn from a set is no longer than the set. */
  lemma {:induction false} DistinctWithin(s: seq<string>, bound: set<string>)
    requires forall i, j :: 0 <= i < j < |s| ==> s[i] != s[j]
    requires forall x :: x in s ==> x in bound
    ensures |s| <= |bound|
    decreases |s|
  {
    if |s| > 0 {
      forall x | x in s[1..] ensures x in bound - {s[0]} {
        var m :| 0 <= m < |s[1..]| && s[1..][m] == x;
        assert s[m + 1] == x;
      }
      DistinctWithin(s[1..], bound - {s[0]});
    }
  }

  /** When the matcher only reports job-description phrases, the skill ratio lies in [0, 1]. */
  lemma SkillRatioBounded(nlp: Nlp, resumeText: string, jdSkills: set<string>)
    requires forall m :: m in nlp.phraseMatches(Lower(resumeText), jdSkills) ==> m in jdSkills
    ensures 0.0 <= SkillScore(|ExtractInfo(nlp, resumeText, jdSkills)|, |jdSkills|) <= 1.0
  {
    var matched := ExtractInfo(nlp, resumeText, jdSkills);
    ExtractInfoSorted(nlp, resumeText, jdSkills);
    DistinctWithin(matched, jdSkills);
  }

  /**
   * The matcher compares lower-cased tokens but reports each span's own
   * text, spacing included. A resume that writes the one skill "front-end"
   * both as "front-end" and as "front - end" yields two distinct matched
   * texts, and the ratio reaches 2.
   */
  lemma SkillRatioExceedsOne(nlp: Nlp, resumeText: string)
    requires nlp.phraseMatches(Lower(resumeText), {"front-end"}) == ["front-end", "front - end"]
    ensures ExtractInfo(nlp, resumeText, {"front-end"}) == ["front - end", "front-end"]
    ensures SkillScore(|ExtractInfo(nlp, resumeText, {"front-end"})|, |{"front-end"}|) == 2.0
  {
    var a, b := "front - end", "front-end";
    ExtractInfoSorted(nlp, resumeText, {"front-end"});
    assert LexLess(a, b) by {
      assert a[..5] == b[..5] && a[5] == ' ' && b[5] == '-';
      LexAfterCommonPrefix(a, b, 5);
    }
    AscendingPair(ExtractInfo(nlp, resumeText, {"front-end"}), a, b);
  }

  /** A strictly ascending list whose members are exactly `a` and `b`, with `a` first in order, is `[a, b]`. */
  lemma AscendingPair(r: seq<string>, a: string, b: string)
    requires StrictlyAscending(r) && LexLess(a, b)
    requires forall x :: x in r <==> x == a || x == b
    ensures r == [a, b]
  {
    assert a in r && b in r;
    AscendingDistinct(r);
    DistinctCard(r);
    assert (set x | x in r) == {a, b};
    LexIrreflexive(a);
    LexAntisymmetric(a, b);
    assert |r| == 2;
    assert LexLess(r[0], r[1]);
  }

  /** Two strings that agree before position `k` and differ upwards there are ordered. */
  lemma {:induction false} LexAfterCommonPrefix(a: string, b: string, k: nat)
    requires k < |a| && k < |b| && a[..k] == b[..k] && a[k] < b[k]
    ensures LexLess(a, b)
    decreases k
  {
    if k > 0 {
      assert a[0] == a[..k][0] && b[0] == b[..k][0];
      assert a[1..][..k - 1] == a[..k][1..] && b[1..][..k - 1] == b[..k][1..];
      LexAfterCommonPrefix(a[1..], b[1..], k - 1);
    }
  }

  /** A list without repeats has as many distinct members as elements. */
  lemma {:induction false} DistinctCard(s: seq<string>)
    requires forall i, j :: 0 <= i < j < |s| ==> s[i] != s[j]
    ensures |set x | x in s| == |s|
    decreases |s|
  {
    if |s| > 0 {
      var rest := s[1..];
      assert forall i, j :: 0 <= i < j < |rest| ==> rest[i] != rest[j] by {
        forall i, j | 0 <= i < j < |rest| ensures rest[i] != rest[j] {
          assert rest[i] == s[i + 1] && rest[j] == s[j + 1];
        }
      }
      DistinctCard(rest);
      assert s[0] !in rest by {
        forall m | 0 <= m < |rest| ensures rest[m] != s[0] {
          assert rest[m] == s[m + 1];
        }
      }
      assert (set x | x in s) == (set x | x in rest) + {s[0]} by {
        forall x ensures x in s <==> x in rest || x == s[0] {
          if x in s {
            var m :| 0 <= m < |s| && s[m] == x;
            if m > 0 { assert rest[m - 1] == x; }
          }
          if x in rest {
            var m :| 0 <= m < |rest| && rest[m] == x;
            assert s[m + 1] == x;
          }
        }
      }
    }
  }

  // ---- the skill ratio as evidently intended ----

  /** The description's skills some match was reported for, each once. */
  function FoundSkills(skillIds: seq<string>, jdSkills: set<string>): (found: set<string>)
    ensures found <= jdSkills
    ensures forall k :: k in found <==> k in jdSkills && k in skillIds
  {
    set k | k in jdSkills && k in skillIds
  }

  /**
   * The share of the description's skills found in the resume, counting
   * each skill once however the resume spaces it. `skillIds` are the
   * skills the matcher reports when every skill is registered under its
   * own match id, rather than the matched span texts.
   */
  function FoundSkillRatio(skillIds: seq<string>, jdSkills: set<string>): (r: real)
    ensures 0.0 <= r <= 1.0
    ensures |jdSkills| > 0 ==> r * (|jdSkills| as real) == |FoundSkills(skillIds, jdSkills)| as real
  {
    var found := FoundSkills(skillIds, jdSkills);
    assert |jdSkills| == |found| + |jdSkills - found| by {
      assert jdSkills == found + (jdSkills - found);
    }
    SkillScore(|found|, |jdSkills|)
  }

  /** On the resume above, the two spellings count as the one skill they match. */
  lemma FoundSkillRatioCountsOnce()
    ensures FoundSkillRatio(["front-end", "front-end"], {"front-end"}) == 1.0
  {
    assert FoundSkills(["front-end", "front-end"], {"front-end"}) == {"front-end"};
  }

  /** Where the matched texts are the description's own skills, the two ratios agree. */
  lemma FoundSkillRatioAgrees(nlp: Nlp, resumeText: string, jdSkills: set<string>)
    requires forall m :: m in nlp.phraseMatches(Lower(resumeText), jdSkills) ==> m in jdSkills
    ensures SkillScore(|ExtractInfo(nlp, resumeText, jdSkills)|, |jdSkills|) ==
      FoundSkillRatio(nlp.phraseMatches(Lower(resumeText), jdSkills), jdSkills)
  {
    var matches := nlp.phraseMatches(Lower(resumeText), jdSkills);
    var r := ExtractInfo(nlp, resumeText, jdSkills);
    ExtractInfoSorted(nlp, resumeText, jdSkills);
    DistinctCard(r);
    assert FoundSkills(matches, jdSkills) == set x | x in r;
  }

  /** The record built for one uploaded file. */
  function ScoreFile(nlp: Nlp, jdText: string, jdSkills: set<string>, file: File): ScreeningResult {
    var text := ExtractText(nlp, file);
    var matched := ExtractInfo(nlp, text, jdSkills);
    var semantic := nlp.similarity(jdText, text);
    var skill := SkillScore(|matched|, |jdSkills|);
    ScreeningResult(None, file.name, matched, nlp.round2(semantic), nlp.round2(skill),
                    nlp.round2(0.7 * semantic + 0.3 * skill))
  }

  /** One record per file, in upload order. */
  function ScoreFiles(nlp: Nlp, jdText: string, jdSkills: set<string>, files: seq<File>): (rs: seq<ScreeningResult>)
    ensures |rs| == |files|
  {
    seq(|files|, i requires 0 <= i < |files| => ScoreFile(nlp, jdText, jdSkills, files[i]))
  }

  /** The i-th result is about the i-th uploaded file: it carries that file's name, and no id. */
  lemma ScoreFilesNames(nlp: Nlp, jdText: string, jdSkills: set<string>, files: seq<File>)
    ensures forall i :: 0 <= i < |files| ==>
      ScoreFiles(nlp, jdText, jdSkills, files)[i].name == files[i].name &&
      ScoreFiles(nlp, jdText, jdSkills, files)[i].id == None
  {
  }

  /** What the view answers for a description and a file list. */
  function Screen(nlp: Nlp, jdText: string, files: seq<File>): Response {
    if jdText == "" || |files| == 0 then BadRequest(400, MissingInput)
    else
      var skills := Keywords(nlp.nounChunks(Lower(jdText)));
      Ranked(Rank(ScoreFiles(nlp, jdText, skills, files)))
  }

  /** `request.data.get('job_description', '')`. */
  function DescriptionOf(form: seq<Part>): string {
    TextUnder(form, DescriptionKey).GetOr("")
  }

  /** `request.FILES.getlist('resumes')`. */
  function ResumesOf(form: seq<Part>): seq<File> {
    FilesUnder(form, ResumesKey)
  }

  /** `post`: validates, scores each file in a loop, then ranks. */
  method Post(nlp: Nlp, form: seq<Part>) returns (response: Response)
    ensures response == Screen(nlp, DescriptionOf(form), ResumesOf(form))
  {
    var jdText := DescriptionOf(form);
    var files := ResumesOf(form);
    if jdText == "" || |files| == 0 {
      return BadRequest(400, MissingInput);
    }
    var jdSkills := ExtractKeywordsFromJd(nlp, jdText);
    var results: seq<ScreeningResult> := [];
    for i := 0 to |files|
      invariant |results| == i
      invariant forall j :: 0 <= j < i ==> results[j] == ScoreFile(nlp, jdText, jdSkills, files[j])
    {
      var resumeText := ExtractText(nlp, files[i]);
      var matched := ExtractInfo(nlp, resumeText, jdSkills);
      var semantic := nlp.similarity(jdText, resumeText);
      var skill := SkillScore(|matched|, |jdSkills|);
      var finalScore := nlp.round2(0.7 * semantic + 0.3 * skill);
      var result := ScreeningResult(None, files[i].name, matched, nlp.round2(semantic),
                                    nlp.round2(skill), finalScore);
      assert result == ScoreFile(nlp, jdText, jdSkills, files[i]);
      results := results + [result];
    }
    assert results == ScoreFiles(nlp, jdText, jdSkills, files);
    response := Ranked(Rank(results));
    assert response == Screen(nlp, jdText, files);
  }

  /** The view answers 400 exactly when the description is empty or no file was sent. */
  lemma ScreenRejectsIff(nlp: Nlp, jdText: string, files: seq<File>)
    ensures Screen(nlp, jdText, files).BadRequest? <==> jdText == "" || |files| == 0
    ensures Screen(nlp, jdText, files).BadRequest? ==>
      Screen(nlp, jdText, files) == BadRequest(400, MissingInput)
  {
  }

  /**
   * A successful answer has one record per uploaded file, carries no ids,
   * is in non-increasing score order, is a permutation of the per-file
   * records, and keeps upload order among equal scores.
   */
  lemma ScreenRanked(nlp: Nlp, jdText: string, files: seq<File>)
    requires jdText != "" && |files| > 0
    ensures Screen(nlp, jdText, files).Ranked?
    ensures var rs := Screen(nlp, jdText, files).results;
      var scored := ScoreFiles(nlp, jdText, Keywords(nlp.nounChunks(Lower(jdText))), files);
      && |rs| == |files|
      && multiset(rs) == multiset(scored)
      && NonIncreasing(rs)
      && (forall k :: WithScore(rs, k) == WithScore(scored, k))
      && (forall i :: 0 <= i < |rs| ==> rs[i].id.None?)
  {
    var scored := ScoreFiles(nlp, jdText, Keywords(nlp.nounChunks(Lower(jdText))), files);
    var rs := Rank(scored);
    RankPermutation(scored);
    RankSorted(scored);
    forall k ensures WithScore(rs, k) == WithScore(scored, k) { RankStable(scored, k); }
    forall i | 0 <= i < |rs| ensures rs[i].id.None? {
      assert rs[i] in multiset(scored);
    }
  }

  /** The names of `rs`, in order. */
  function Names(rs: seq<ScreeningResult>): seq<string> {
    seq(|rs|, i requires 0 <= i < |rs| => rs[i].name)
  }

  lemma {:induction false} InsertNames(x: ScreeningResult, s: seq<ScreeningResult>)
    ensures multiset(Names(InsertByScore(x, s))) == multiset(Names(s)) + multiset{x.name}
    decreases |s|
  {
    if |s| > 0 && s[0].finalScore > x.finalScore {
      InsertNames(x, s[1..]);
      assert Names([s[0]] + InsertByScore(x, s[1..])) == [s[0].name] + Names(InsertByScore(x, s[1..]));
      assert Names(s) == [s[0].name] + Names(s[1..]);
    } else {
      assert Names([x] + s) == [x.name] + Names(s);
    }
  }

  lemma {:induction false} RankNames(rs: seq<ScreeningResult>)
    ensures multiset(Names(Rank(rs))) == multiset(Names(rs))
    decreases |rs|
  {
    if |rs| > 0 {
      RankNames(rs[1..]);
      InsertNames(rs[0], Rank(rs[1..]));
      assert Names(rs) == [rs[0].name] + Names(rs[1..]);
    }
  }

  /** Each uploaded file name appears in the answer exactly as often as it was uploaded. */
  lemma ScreenNames(nlp: Nlp, jdText: string, files: seq<File>)
    requires jdText != "" && |files| > 0
    ensures multiset(Names(Screen(nlp, jdText, files).results)) ==
      multiset(seq(|files|, i requires 0 <= i < |files| => files[i].name))
  {
    var scored := ScoreFiles(nlp, jdText, Keywords(nlp.nounChunks(Lower(jdText))), files);
    RankNames(scored);
    assert Names(scored) == seq(|files|, i requires 0 <= i < |files| => files[i].name);
  }
}
