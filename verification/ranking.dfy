/** Candidate ranking in `run_pipeline` (pipeline/modal_app.py): every
    candidate carries its validation report, the results are sorted with the
    key `(0 if passed else 1, -score)` and the first one is the best. Python's
    `list.sort` is stable; it is specified here by a stable insertion sort,
    whose output is proved sorted, a permutation of its input and, for the
    results list (built in candidate-id order), ordered by id among ties. */
module Ranking {
  import opened Common

  /** The two keys `_rank_key` reads from `r["validation"]`. */
  datatype Validation = Validation(passed: Option<bool>, score: Option<real>)

  /** One entry of `results`. */
  datatype Candidate = Candidate(
    candidateId: nat,
    seed: int,
    cleanedGlb: string,
    validation: Validation)

  /** `0 if v.get("passed") else 1`: a missing "passed" is falsy. */
  function PassClass(c: Candidate): int {
    if c.validation.passed == Some(true) then 0 else 1
  }

  /** `v.get("score", 0)` */
  function Score(c: Candidate): real {
    c.validation.score.GetOr(0.0)
  }

  /** The order of the key tuples: `(pass class, -score)` compared
      lexicographically. */
  predicate KeyLess(a: Candidate, b: Candidate) {
    PassClass(a) < PassClass(b) || (PassClass(a) == PassClass(b) && -Score(a) < -Score(b))
  }

  predicate KeyLe(a: Candidate, b: Candidate) {
    !KeyLess(b, a)
  }

  /** Passing candidates come first, and within a class the higher score. */
  lemma KeyOrderMeaning(a: Candidate, b: Candidate)
    ensures KeyLess(a, b) <==>
      (a.validation.passed == Some(true) && b.validation.passed != Some(true))
      || ((a.validation.passed == Some(true)) == (b.validation.passed == Some(true)) && Score(a) > Score(b))
  {
  }

  // ---------------------------------------------------------------------------
  // The stable sort
  // ---------------------------------------------------------------------------

  /** Inserts `x` before the first element that does not rank strictly
      ahead of it, so that `x` stays ahead of the elements it ties with. */
  function Insert(x: Candidate, s: seq<Candidate>): (r: seq<Candidate>)
    ensures |r| == |s| + 1
    ensures multiset(r) == multiset(s) + multiset{x}
  {
    if s == [] then [x]
    else if KeyLess(s[0], x) then
      assert s == [s[0]] + s[1..];
      [s[0]] + Insert(x, s[1..])
    else [x] + s
  }

  /** `results.sort(key=_rank_key)` on a list given in its original order. */
  function SortByRank(s: seq<Candidate>): (r: seq<Candidate>)
    ensures |r| == |s|
    ensures multiset(r) == multiset(s)
  {
    if s == [] then []
    else
      assert s == [s[0]] + s[1..];
      Insert(s[0], SortByRank(s[1..]))
  }

  predicate Sorted(s: seq<Candidate>) {
    forall i, j :: 0 <= i < j < |s| ==> KeyLe(s[i], s[j])
  }

  lemma {:induction false} InsertSorted(x: Candidate, s: seq<Candidate>)
    requires Sorted(s)
    ensures Sorted(Insert(x, s))
  {
    if s != [] && KeyLess(s[0], x) {
      InsertSorted(x, s[1..]);
      var t := Insert(x, s[1..]);
      forall k | 0 <= k < |t|
        ensures KeyLe(s[0], t[k])
      {
        assert t[k] in multiset(t);
        if t[k] != x {
          assert t[k] in multiset(s[1..]);
          var m :| 0 <= m < |s[1..]| && s[1..][m] == t[k];
          assert s[m + 1] == t[k];
        }
      }
    }
  }

  /** The sort's output is ordered by the key. */
  lemma {:induction false} SortSorted(s: seq<Candidate>)
    ensures Sorted(SortByRank(s))
  {
    if s != [] {
      SortSorted(s[1..]);
      InsertSorted(s[0], SortByRank(s[1..]));
    }
  }

  // ---------------------------------------------------------------------------
  // Stability: ties keep candidate-id order
  // ---------------------------------------------------------------------------

  /** `a` is listed before `b`: it ranks strictly ahead, or ties and has the
      smaller candidate id. */
  predicate Ahead(a: Candidate, b: Candidate) {
    KeyLess(a, b) || (KeyLe(a, b) && a.candidateId < b.candidateId)
  }

  predicate Ranked(s: seq<Candidate>) {
    forall i, j :: 0 <= i < j < |s| ==> Ahead(s[i], s[j])
  }

  predicate IdsIncreasing(s: seq<Candidate>) {
    forall i, j :: 0 <= i < j < |s| ==> s[i].candidateId < s[j].candidateId
  }

  lemma {:induction false} InsertRanked(x: Candidate, s: seq<Candidate>)
    requires Ranked(s)
    requires forall k :: 0 <= k < |s| ==> x.candidateId < s[k].candidateId
    ensures Ranked(Insert(x, s))
  {
    if s == [] {
    } else if KeyLess(s[0], x) {
      InsertRanked(x, s[1..]);
      var t := Insert(x, s[1..]);
      forall k | 0 <= k < |t|
        ensures Ahead(s[0], t[k])
      {
        assert t[k] in multiset(t);
        if t[k] != x {
          assert t[k] in multiset(s[1..]);
          var m :| 0 <= m < |s[1..]| && s[1..][m] == t[k];
          assert s[m + 1] == t[k];
        }
      }
    } else {
      var t := [x] + s;
      forall k | 1 <= k < |t|
        ensures Ahead(x, t[k])
      {
        if k > 1 {
          assert Ahead(s[0], s[k - 1]);
        }
      }
    }
  }

  /** On a list in candidate-id order the sort lists every candidate ahead of
      the ones after it: by key, and by id among equal keys. */
  lemma {:induction false} SortRanked(s: seq<Candidate>)
    requires IdsIncreasing(s)
    ensures Ranked(SortByRank(s))
  {
    if s != [] {
      SortRanked(s[1..]);
      var r := SortByRank(s[1..]);
      forall k | 0 <= k < |r|
        ensures s[0].candidateId < r[k].candidateId
      {
        assert r[k] in multiset(s[1..]);
        var m :| 0 <= m < |s[1..]| && s[1..][m] == r[k];
        assert s[m + 1] == r[k];
      }
      InsertRanked(s[0], r);
    }
  }

  // ---------------------------------------------------------------------------
  // The results list and the best candidate
  // ---------------------------------------------------------------------------

  /** `seeds = [base_seed + i * 1000 for i in range(num_candidates)]` */
  function Seeds(baseSeed: int, n: nat): (s: seq<int>)
    ensures |s| == n
  {
    seq(n, i => baseSeed + i * 1000)
  }

  /** Candidate seeds are 1000 apart, so no two candidates share one. */
  lemma SeedsDistinct(baseSeed: int, n: nat)
    ensures forall i :: 0 <= i < n ==> Seeds(baseSeed, n)[i] == baseSeed + 1000 * i
    ensures forall i, j :: 0 <= i < j < n ==> Seeds(baseSeed, n)[j] - Seeds(baseSeed, n)[i] >= 1000
  {
  }

  /** `results`: entry `cid` has id `cid`, seed `seeds[cid]` and the
      candidate's cleaned GLB and report. */
  function Results(seeds: seq<int>, cleaned: seq<string>, reports: seq<Validation>): (r: seq<Candidate>)
    requires |cleaned| == |seeds| && |reports| == |seeds|
    ensures |r| == |seeds| && IdsIncreasing(r)
    ensures forall cid :: 0 <= cid < |r| ==>
      r[cid].candidateId == cid && r[cid].seed == seeds[cid]
      && r[cid].cleanedGlb == cleaned[cid] && r[cid].validation == reports[cid]
  {
    seq(|seeds|, cid requires 0 <= cid < |seeds| => Candidate(cid, seeds[cid], cleaned[cid], reports[cid]))
  }

  /** `best = results[0]` after the sort; None where Python raises
      `IndexError` on an empty list. */
  function Best(results: seq<Candidate>): (b: Option<Candidate>)
    ensures b.None? <==> results == []
    ensures b.Some? ==> b.value in results
  {
    if results == [] then None
    else
      var sorted := SortByRank(results);
      assert sorted[0] in multiset(results);
      Some(sorted[0])
  }

  /** The best candidate ranks at least as high as every candidate; so if
      any candidate passed, the best one passed, and it has the highest
      score of its class. */
  lemma BestRanksFirst(results: seq<Candidate>)
    requires results != []
    ensures forall c :: c in results ==> KeyLe(Best(results).value, c)
    ensures (exists c :: c in results && c.validation.passed == Some(true)) ==>
      Best(results).value.validation.passed == Some(true)
    ensures forall c :: c in results && PassClass(c) == PassClass(Best(results).value) ==>
      Score(c) <= Score(Best(results).value)
  {
    var sorted := SortByRank(results);
    SortSorted(results);
    forall c | c in results
      ensures KeyLe(sorted[0], c)
    {
      assert c in multiset(sorted);
      var k :| 0 <= k < |sorted| && sorted[k] == c;
      if k > 0 {
        assert KeyLe(sorted[0], sorted[k]);
      }
    }
  }

  /** Among the candidates whose key equals the best one's, the best has
      the lowest candidate id. */
  lemma BestFirstAmongTies(results: seq<Candidate>)
    requires results != [] && IdsIncreasing(results)
    ensures forall c :: c in results && c != Best(results).value && KeyLe(c, Best(results).value) ==>
      Best(results).value.candidateId < c.candidateId
  {
    var sorted := SortByRank(results);
    SortRanked(results);
    forall c | c in results && c != sorted[0] && KeyLe(c, sorted[0])
      ensures sorted[0].candidateId < c.candidateId
    {
      assert c in multiset(sorted);
      var k :| 0 <= k < |sorted| && sorted[k] == c;
      assert Ahead(sorted[0], sorted[k]);
    }
  }

  /** The summary's `best_seed` is the seed derived from the best
      candidate's id. */
  lemma BestSeed(baseSeed: int, cleaned: seq<string>, reports: seq<Validation>)
    requires |cleaned| == |reports| && |reports| > 0
    ensures var results := Results(Seeds(baseSeed, |reports|), cleaned, reports);
      var b := Best(results).value;
      b.candidateId < |reports| && b.seed == baseSeed + 1000 * b.candidateId
      && b.validation == reports[b.candidateId]
  {
    var results := Results(Seeds(baseSeed, |reports|), cleaned, reports);
    var b := Best(results).value;
    var k :| 0 <= k < |results| && results[k] == b;
  }
}
