/**
 * The data logic of the results table: the search filter, the CSV export
 * text, the summary cards (total, average score, best match) and the
 * colour bands of the similarity, skill and score cells.
 */
module ResultsTable {
  import opened Wrappers
  import opened Text
  import opened Screening
  import opened Sorting

  // ---- search filter ----

  /** The row's name, or one of its matched skills, contains the term, ignoring case. */
  predicate Matches(r: ScreeningResult, searchTerm: string) {
    var term := Lower(searchTerm);
    Contains(Lower(r.name), term) || exists s :: s in r.matchedSkills && Contains(Lower(s), term)
  }

  /** `results.filter(...)` with the search term of the text field. */
  function FilterResults(results: seq<ScreeningResult>, searchTerm: string): seq<ScreeningResult>
    decreases |results|
  {
    if |results| == 0 then []
    else
      var rest := FilterResults(results[1..], searchTerm);
      if Matches(results[0], searchTerm) then [results[0]] + rest else rest
  }

  /** `a` is `b` with some elements left out, the rest in their order. */
  predicate IsSubsequence<T(==)>(a: seq<T>, b: seq<T>)
    decreases |b|
  {
    |a| == 0 || (|b| > 0 && ((a[0] == b[0] && IsSubsequence(a[1..], b[1..])) || IsSubsequence(a, b[1..])))
  }

  /** The filtered rows are a subsequence of the results: nothing added, order kept. */
  lemma {:induction false} FilterSubsequence(results: seq<ScreeningResult>, searchTerm: string)
    ensures IsSubsequence(FilterResults(results, searchTerm), results)
    decreases |results|
  {
    if |results| > 0 {
      FilterSubsequence(results[1..], searchTerm);
      var f := FilterResults(results, searchTerm);
      if Matches(results[0], searchTerm) {
        assert f[0] == results[0] && f[1..] == FilterResults(results[1..], searchTerm);
      }
    }
  }

  /** Every matching row is kept as often as it occurs, and no other row is. */
  lemma {:induction false} FilterCounts(results: seq<ScreeningResult>, searchTerm: string, x: ScreeningResult)
    ensures multiset(FilterResults(results, searchTerm))[x] ==
      if Matches(x, searchTerm) then multiset(results)[x] else 0
    decreases |results|
  {
    if |results| > 0 {
      FilterCounts(results[1..], searchTerm, x);
      assert results == [results[0]] + results[1..];
    }
  }

  /** A row is shown exactly when it is in the results and matches the term. */
  lemma FilterKeepsIff(results: seq<ScreeningResult>, searchTerm: string, x: ScreeningResult)
    ensures x in FilterResults(results, searchTerm) <==> x in results && Matches(x, searchTerm)
  {
    FilterCounts(results, searchTerm, x);
    assert x in FilterResults(results, searchTerm) <==> multiset(FilterResults(results, searchTerm))[x] > 0;
    assert x in results <==> multiset(results)[x] > 0;
  }

  /** With an empty search term every row matches, so all results are shown in order. */
  lemma {:induction false} FilterEmptyTerm(results: seq<ScreeningResult>)
    ensures FilterResults(results, "") == results
    decreases |results|
  {
    if |results| > 0 {
      assert Lower("") == "";
      ContainsEmpty(Lower(results[0].name));
      FilterEmptyTerm(results[1..]);
    }
  }

  // ---- CSV export ----

  /** The number formatting the export uses, which the model does not interpret. */
  datatype Formatter = Formatter(
    fixed1: real -> string,   // `x.toFixed(1)`
    number: real -> string)   // a number converted to text by `join`

  const CsvHeaders: seq<string> := ["Name", "Matched Skills", "Semantic Match", "Skill Match", "Final Score"]

  function Percent(fmt: Formatter, ratio: real): string {
    fmt.fixed1(ratio * 100.0) + "%"
  }

  /** The five exported values of one result. */
  function CsvFields(r: ScreeningResult, fmt: Formatter): seq<string> {
    [r.name, Join(r.matchedSkills, ", "), Percent(fmt, r.semanticSimilarity),
     Percent(fmt, r.skillMatchRatio), fmt.number(r.finalScore)]
  }

  /** One data line: the fields joined by commas, with no quoting. */
  function CsvRow(r: ScreeningResult, fmt: Formatter): string {
    Join(CsvFields(r, fmt), ",")
  }

  /** The header line, then one line per result (all results, not the filtered ones). */
  function CsvLines(results: seq<ScreeningResult>, fmt: Formatter): seq<string> {
    [Join(CsvHeaders, ",")] + seq(|results|, i requires 0 <= i < |results| => CsvRow(results[i], fmt))
  }

  /** The text `handleExportCSV` puts in the downloaded file. */
  function CsvText(results: seq<ScreeningResult>, fmt: Formatter): string {
    Join(CsvLines(results, fmt), "\n")
  }

  /** No exported field contains `c`. */
  predicate FieldsAvoid(results: seq<ScreeningResult>, fmt: Formatter, c: char) {
    forall i, j :: 0 <= i < |results| && 0 <= j < 5 ==> c !in CsvFields(results[i], fmt)[j]
  }

  lemma HeaderAvoids(c: char)
    requires c == ',' || c == '\n' || c == '"'
    ensures forall j :: 0 <= j < |CsvHeaders| ==> c !in CsvHeaders[j]
  {
  }

  /** A comma-joined line contains the separator only where the parts do or between them. */
  lemma {:induction false} JoinAvoids(parts: seq<string>, sep: string, c: char)
    requires c !in sep
    requires forall j :: 0 <= j < |parts| ==> c !in parts[j]
    ensures c !in Join(parts, sep)
    decreases |parts|
  {
    if |parts| > 1 { JoinAvoids(parts[1..], sep, c); }
  }

  /**
   * When no field contains a newline, splitting the file at newlines gives
   * the header line and then exactly one line per result, in order.
   */
  lemma CsvLineStructure(results: seq<ScreeningResult>, fmt: Formatter)
    requires FieldsAvoid(results, fmt, '\n')
    ensures Split(CsvText(results, fmt), '\n') == CsvLines(results, fmt)
    ensures |Split(CsvText(results, fmt), '\n')| == |results| + 1
    ensures Split(CsvText(results, fmt), '\n')[0] == Join(CsvHeaders, ",")
    ensures forall i :: 0 <= i < |results| ==>
      Split(CsvText(results, fmt), '\n')[i + 1] == CsvRow(results[i], fmt)
  {
    var lines := CsvLines(results, fmt);
    HeaderAvoids('\n');
    JoinAvoids(CsvHeaders, ",", '\n');
    forall i | 0 <= i < |lines| ensures '\n' !in lines[i] {
      if i > 0 {
        var fields := CsvFields(results[i - 1], fmt);
        assert forall j :: 0 <= j < |fields| ==> '\n' !in fields[j];
        JoinAvoids(fields, ",", '\n');
      }
    }
    SplitJoin(lines, '\n');
  }

  /** When no field contains a comma, splitting a data line at commas gives its five fields in order. */
  lemma CsvRowFields(r: ScreeningResult, fmt: Formatter)
    requires forall j :: 0 <= j < 5 ==> ',' !in CsvFields(r, fmt)[j]
    ensures Split(CsvRow(r, fmt), ',') == CsvFields(r, fmt)
  {
    SplitJoin(CsvFields(r, fmt), ',');
  }

  /**
   * As written, a result with two matched skills exports a line that a
   * reader splitting at commas sees as six fields, not five: the skill
   * list's own ", " is not quoted.
   */
  lemma CsvRowSplitsSkillList(r: ScreeningResult, fmt: Formatter)
    requires |r.matchedSkills| == 2
    requires forall j :: 0 <= j < 5 && j != 1 ==> ',' !in CsvFields(r, fmt)[j]
    requires ',' !in r.matchedSkills[0] && ',' !in r.matchedSkills[1]
    ensures |Split(CsvRow(r, fmt), ',')| == 6
    ensures Split(CsvRow(r, fmt), ',') != CsvFields(r, fmt)
  {
    var f := CsvFields(r, fmt);
    var a, b := r.matchedSkills[0], r.matchedSkills[1];
    assert Join(r.matchedSkills, ", ") == a + ", " + b by {
      assert r.matchedSkills[1..] == [b];
    }
    var pieces := [f[0], a, " " + b, f[2], f[3], f[4]];
    assert Join(f, ",") == Join(pieces, ",") by {
      assert f[1] == a + "," + (" " + b);
      assert f[1..][1..][1..][1..] == [f[4]];
      assert pieces[1..][1..][1..][1..][1..] == [f[4]];
      assert Join(f[1..][1..][1..], ",") == f[3] + "," + f[4];
      assert Join(pieces[1..][1..][1..][1..], ",") == f[3] + "," + f[4];
      assert pieces[1..][1..][1..] == [f[2], f[3], f[4]] == f[1..][1..];
      assert Join(pieces[1..], ",") == a + "," + (" " + b + "," + Join(f[1..][1..], ","));
    }
    assert ',' !in " " + b;
    SplitJoin(pieces, ',');
  }

  // ---- summary cards ----

  /** `results.reduce((total, r) => total + r.final_score, 0)`. */
  function SumScores(results: seq<ScreeningResult>): real
    decreases |results|
  {
    if |results| == 0 then 0.0 else SumScores(results[..|results| - 1]) + results[|results| - 1].finalScore
  }

  /** The "Average Score" card: the mean final score, or `None` ("N/A") for no results. */
  function AverageScore(results: seq<ScreeningResult>): (avg: Option<real>)
    ensures avg.None? <==> |results| == 0
    ensures avg.Some? ==> avg.value * (|results| as real) == SumScores(results)
  {
    if |results| == 0 then None else Some(SumScores(results) / (|results| as real))
  }

  /** Every score lies within [lo, hi], so the sum lies within [n*lo, n*hi]. */
  lemma {:induction false} SumBounds(results: seq<ScreeningResult>, lo: real, hi: real)
    requires forall i :: 0 <= i < |results| ==> lo <= results[i].finalScore <= hi
    ensures (|results| as real) * lo <= SumScores(results) <= (|results| as real) * hi
    decreases |results|
  {
    if |results| > 0 {
      SumBounds(results[..|results| - 1], lo, hi);
    }
  }

  /** The average lies between the lowest and the highest score present. */
  lemma AverageBounds(results: seq<ScreeningResult>, lo: real, hi: real)
    requires |results| > 0
    requires forall i :: 0 <= i < |results| ==> lo <= results[i].finalScore <= hi
    ensures lo <= AverageScore(results).value <= hi
  {
    SumBounds(results, lo, hi);
    var n := |results| as real;
    var avg := AverageScore(results).value;
    assert avg * n == SumScores(results);
    assert n * lo <= n * avg <= n * hi;
  }

  /** When every score is `c`, the average is `c`. */
  lemma AverageOfEqualScores(results: seq<ScreeningResult>, c: real)
    requires |results| > 0
    requires forall i :: 0 <= i < |results| ==> results[i].finalScore == c
    ensures AverageScore(results) == Some(c)
  {
    AverageBounds(results, c, c);
  }

  datatype TextColor = SuccessMain | WarningMain | TextPrimary

  /** The average card's colour: green from 0.6, amber below, plain for no results. */
  function AverageColor(results: seq<ScreeningResult>): (c: TextColor)
    ensures c == TextPrimary <==> |results| == 0
    ensures c == SuccessMain <==> |results| > 0 && AverageScore(results).value >= 0.6
    ensures c == WarningMain <==> |results| > 0 && AverageScore(results).value < 0.6
  {
    match AverageScore(results)
    case None => TextPrimary
    case Some(avg) => if avg >= 0.6 then SuccessMain else WarningMain
  }

  /** The "Best Match" card: the first result, when there is one. */
  function BestMatch(results: seq<ScreeningResult>): (best: Option<ScreeningResult>)
    ensures best.None? <==> |results| == 0
    ensures best.Some? ==> best.value in results
    ensures |results| > 0 ==> best == Some(results[0])
  {
    if |results| > 0 then Some(results[0]) else None
  }

  /** On ranked results the first one has the highest final score. */
  lemma BestMatchIsTop(results: seq<ScreeningResult>)
    requires NonIncreasing(results) && |results| > 0
    ensures forall r :: r in results ==> BestMatch(results).value.finalScore >= r.finalScore
  {
    forall r | r in results ensures results[0].finalScore >= r.finalScore {
      var i :| 0 <= i < |results| && results[i] == r;
      if i > 0 { assert results[0].finalScore >= results[i].finalScore; }
    }
  }

  // ---- the description panel and row ids ----

  /** The "Job Description" panel: shown, with the text, only for a non-empty description (default `''`). */
  function DescriptionPanel(jobDescription: Option<string>): (panel: Option<string>)
    ensures panel.Some? <==> jobDescription.Some? && jobDescription.value != ""
    ensures panel.Some? ==> panel.value == jobDescription.value
  {
    var text := jobDescription.GetOr("");
    if text != "" then Some(text) else None
  }

  /** What `getRowId={(row) => row.id}` needs: every row has an id and no two rows share one. */
  predicate RowIdsUsable(results: seq<ScreeningResult>) {
    (forall i :: 0 <= i < |results| ==> results[i].id.Some?) &&
    (forall i, j :: 0 <= i < j < |results| ==> results[i].id != results[j].id)
  }

  // ---- colour bands ----

  datatype Tone = Success | Primary | Info | Warning | Error

  /** The five bands of the similarity and skill-match chips. */
  function RatioTone(v: real): (t: Tone)
    ensures t == Success <==> 0.8 <= v
    ensures t == Primary <==> 0.6 <= v < 0.8
    ensures t == Info <==> 0.4 <= v < 0.6
    ensures t == Warning <==> 0.2 <= v < 0.4
    ensures t == Error <==> v < 0.2
  {
    if v >= 0.8 then Success
    else if v >= 0.6 then Primary
    else if v >= 0.4 then Info
    else if v >= 0.2 then Warning
    else Error
  }

  /** The four bands of the score dot; it never uses the info colour. */
  function ScoreTone(score: real): (t: Tone)
    ensures t != Info
    ensures t == Success <==> 0.75 <= score
    ensures t == Primary <==> 0.6 <= score < 0.75
    ensures t == Warning <==> 0.4 <= score < 0.6
    ensures t == Error <==> score < 0.4
  {
    if score >= 0.75 then Success
    else if score >= 0.6 then Primary
    else if score >= 0.4 then Warning
    else Error
  }

  /** How good a tone reads, from error to success. */
  function Level(t: Tone): nat {
    match t
    case Error => 0
    case Warning => 1
    case Info => 2
    case Primary => 3
    case Success => 4
  }

  /** A higher value never gets a worse band. */
  lemma TonesMonotone(v: real, w: real)
    requires v <= w
    ensures Level(RatioTone(v)) <= Level(RatioTone(w))
    ensures Level(ScoreTone(v)) <= Level(ScoreTone(w))
  {
  }
}
