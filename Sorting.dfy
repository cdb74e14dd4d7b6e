/**
 * The two uses of Python's `sorted` in the screening view: ranking the
 * results by `final_score` (descending, stable) and `sorted(set(...))`
 * on the matched skill texts.
 */
module Sorting {
  import opened Text
  import opened Screening

  // ---- Ranking by final score ----

  /** Scores never increase along `rs`. */
  predicate NonIncreasing(rs: seq<ScreeningResult>) {
    forall i, j :: 0 <= i < j < |rs| ==> rs[i].finalScore >= rs[j].finalScore
  }

  /** The results whose final score is `k`, in their order in `rs`. */
  function WithScore(rs: seq<ScreeningResult>, k: real): seq<ScreeningResult>
    decreases |rs|
  {
    if |rs| == 0 then []
    else (if rs[0].finalScore == k then [rs[0]] else []) + WithScore(rs[1..], k)
  }

  /** Places `x` after every element scoring strictly higher and before the rest. */
  function InsertByScore(x: ScreeningResult, s: seq<ScreeningResult>): seq<ScreeningResult>
    decreases |s|
  {
    if |s| == 0 then [x]
    else if s[0].finalScore > x.finalScore then [s[0]] + InsertByScore(x, s[1..])
    else [x] + s
  }

  lemma {:induction false} InsertPermutation(x: ScreeningResult, s: seq<ScreeningResult>)
    ensures multiset(InsertByScore(x, s)) == multiset(s) + multiset{x}
    decreases |s|
  {
    if |s| > 0 && s[0].finalScore > x.finalScore {
      InsertPermutation(x, s[1..]);
      assert s == [s[0]] + s[1..];
    }
  }

  /** An element placed inside a non-increasing list lands below the head it passes. */
  lemma InsertBelowHead(x: ScreeningResult, s: seq<ScreeningResult>)
    requires NonIncreasing(s) && |s| > 0 && s[0].finalScore > x.finalScore
    ensures forall j :: 0 <= j < |InsertByScore(x, s[1..])| ==>
      s[0].finalScore >= InsertByScore(x, s[1..])[j].finalScore
  {
    var rest := InsertByScore(x, s[1..]);
    InsertPermutation(x, s[1..]);
    forall j | 0 <= j < |rest| ensures s[0].finalScore >= rest[j].finalScore {
      assert rest[j] in multiset(rest);
      if rest[j] != x {
        assert rest[j] in multiset(s[1..]);
        var m :| 0 <= m < |s[1..]| && s[1..][m] == rest[j];
        assert s[m + 1] == rest[j];
      }
    }
  }

  lemma {:induction false} InsertSorted(x: ScreeningResult, s: seq<ScreeningResult>)
    requires NonIncreasing(s)
    ensures NonIncreasing(InsertByScore(x, s))
    decreases |s|
  {
    if |s| > 0 && s[0].finalScore > x.finalScore {
      var rest := InsertByScore(x, s[1..]);
      assert NonIncreasing(s[1..]) by {
        forall i, j | 0 <= i < j < |s[1..]| ensures s[1..][i].finalScore >= s[1..][j].finalScore {
          assert s[1..][i] == s[i + 1] && s[1..][j] == s[j + 1];
        }
      }
      InsertSorted(x, s[1..]);
      InsertBelowHead(x, s);
      var r := [s[0]] + rest;
      assert InsertByScore(x, s) == r;
      forall i, j | 0 <= i < j < |r| ensures r[i].finalScore >= r[j].finalScore {
        if i > 0 { assert r[i] == rest[i - 1] && r[j] == rest[j - 1]; }
        else { assert r[j] == rest[j - 1]; }
      }
    }
  }

  /**
   * `sorted(results, key=final_score, reverse=True)`: a stable sort, so
   * results with equal scores keep their order in `rs`.
   */
  function Rank(rs: seq<ScreeningResult>): seq<ScreeningResult>
    decreases |rs|
  {
    if |rs| == 0 then [] else InsertByScore(rs[0], Rank(rs[1..]))
  }

  /** The ranking lists every result exactly as often as `rs` does. */
  lemma {:induction false} RankPermutation(rs: seq<ScreeningResult>)
    ensures multiset(Rank(rs)) == multiset(rs)
    ensures |Rank(rs)| == |rs|
    decreases |rs|
  {
    if |rs| > 0 {
      RankPermutation(rs[1..]);
      InsertPermutation(rs[0], Rank(rs[1..]));
      assert rs == [rs[0]] + rs[1..];
    }
    assert |multiset(Rank(rs))| == |Rank(rs)|;
  }

  /** The ranking is in non-increasing order of final score. */
  lemma {:induction false} RankSorted(rs: seq<ScreeningResult>)
    ensures NonIncreasing(Rank(rs))
    decreases |rs|
  {
    if |rs| > 0 {
      RankSorted(rs[1..]);
      InsertSorted(rs[0], Rank(rs[1..]));
    }
  }

  lemma {:induction false} InsertWithScore(x: ScreeningResult, s: seq<ScreeningResult>, k: real)
    ensures WithScore(InsertByScore(x, s), k) == (if x.finalScore == k then [x] else []) + WithScore(s, k)
    decreases |s|
  {
    if |s| > 0 && s[0].finalScore > x.finalScore {
      var rest := InsertByScore(x, s[1..]);
      InsertWithScore(x, s[1..], k);
      assert ([s[0]] + rest)[1..] == rest;
    } else {
      assert ([x] + s)[1..] == s;
    }
  }

  /** Stability: for every score, the results with that score appear in upload order. */
  lemma {:induction false} RankStable(rs: seq<ScreeningResult>, k: real)
    ensures WithScore(Rank(rs), k) == WithScore(rs, k)
    decreases |rs|
  {
    if |rs| > 0 {
      RankStable(rs[1..], k);
      InsertWithScore(rs[0], Rank(rs[1..]), k);
    }
  }

  // ---- sorted(set(texts)) ----

  /** Each element is `<` the next, so the list is sorted and has no duplicates. */
  predicate StrictlyAscending(s: seq<string>) {
    forall i :: 0 <= i < |s| - 1 ==> LexLess(s[i], s[i + 1])
  }

  /** Adds `x` to a strictly ascending list unless it is already there. */
  function InsertUnique(x: string, s: seq<string>): (r: seq<string>)
    requires StrictlyAscending(s)
    ensures StrictlyAscending(r)
    ensures forall y :: y in r <==> y in s || y == x
    ensures |s| > 0 ==> |r| > 0 && (r[0] == x || r[0] == s[0])
    decreases |s|
  {
    if |s| == 0 then [x]
    else if x == s[0] then s
    else if LexLess(x, s[0]) then [x] + s
    else
      LexTotal(x, s[0]);
      var rest := InsertUnique(x, s[1..]);
      [s[0]] + rest
  }

  /** `sorted(set(xs))` on strings. */
  function SortedUnique(xs: seq<string>): (r: seq<string>)
    ensures StrictlyAscending(r)
    ensures forall y :: y in r <==> y in xs
    decreases |xs|
  {
    if |xs| == 0 then [] else InsertUnique(xs[0], SortedUnique(xs[1..]))
  }

  /** A strictly ascending list is ascending between any two positions, not only neighbours. */
  lemma {:induction false} AscendingPairwise(s: seq<string>, i: int, j: int)
    requires StrictlyAscending(s)
    requires 0 <= i < j < |s|
    ensures LexLess(s[i], s[j])
    decreases j - i
  {
    if j > i + 1 {
      AscendingPairwise(s, i + 1, j);
      LexTransitive(s[i], s[i + 1], s[j]);
    }
  }

  /** A strictly ascending list repeats no element. */
  lemma AscendingDistinct(s: seq<string>)
    requires StrictlyAscending(s)
    ensures forall i, j :: 0 <= i < j < |s| ==> s[i] != s[j]
  {
    forall i, j | 0 <= i < j < |s| ensures s[i] != s[j] {
      AscendingPairwise(s, i, j);
      LexIrreflexive(s[i]);
    }
  }

  /** The head of a strictly ascending list is below every other element. */
  lemma AscendingLeast(s: seq<string>, y: string)
    requires StrictlyAscending(s)
    ensures y in s ==> y == s[0] || LexLess(s[0], y)
  {
    if y in s {
      var m :| 0 <= m < |s| && s[m] == y;
      if m > 0 { AscendingPairwise(s, 0, m); }
    }
  }

  /** Two strictly ascending lists with the same elements are equal: `sorted(set(...))` has one answer. */
  lemma {:induction false} AscendingUnique(s: seq<string>, t: seq<string>)
    requires StrictlyAscending(s) && StrictlyAscending(t)
    requires forall y :: y in s <==> y in t
    ensures s == t
    decreases |s|
  {
    if |s| > 0 { assert s[0] in s; }
    if |t| > 0 { assert t[0] in t; }
    if |s| > 0 && |t| > 0 {
      // Both heads are the least element of the common set.
      AscendingLeast(t, s[0]);
      AscendingLeast(s, t[0]);
      LexAntisymmetric(s[0], t[0]);
      assert s[0] == t[0];
      AscendingDistinct(s);
      AscendingDistinct(t);
      forall y ensures y in s[1..] <==> y in t[1..] {
        if y in s[1..] {
          var m :| 1 <= m < |s| && s[m] == y;
          assert y != s[0];
        }
        if y in t[1..] {
          var m :| 1 <= m < |t| && t[m] == y;
          assert y != t[0];
        }
        assert y in s <==> y == s[0] || y in s[1..] by { assert s == [s[0]] + s[1..]; }
        assert y in t <==> y == t[0] || y in t[1..] by { assert t == [t[0]] + t[1..]; }
      }
      AscendingUnique(s[1..], t[1..]);
      assert s == [s[0]] + s[1..] && t == [t[0]] + t[1..];
    }
  }
}
