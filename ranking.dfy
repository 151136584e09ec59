/** Ranking and report truncation in `main` of bot_saham.py:
    `final_candidates.sort(key=score, reverse=True)`, the top-15 slice, and
    the cut of an over-long report to 4000 characters. Python's sort is
    stable also with reverse=True, so candidates with equal scores keep the
    order in which the batches produced them. */
module Ranking {
  import opened Scoring

  const TopN: nat := 15
  const MessageLimit: nat := 4000
  const CutMarker: string := "\n...(terpotong)"

  /** Non-increasing by score. */
  predicate Descending(xs: seq<Candidate>)
  {
    forall i, j :: 0 <= i < j < |xs| ==> xs[i].score >= xs[j].score
  }

  /** The candidates with score s, in list order. */
  function WithScore(xs: seq<Candidate>, s: int): seq<Candidate>
  {
    if xs == [] then []
    else (if xs[0].score == s then [xs[0]] else []) + WithScore(xs[1..], s)
  }

  /** Places c in front of the first candidate that does not outscore it. */
  function Insert(c: Candidate, ys: seq<Candidate>): seq<Candidate>
  {
    if ys == [] || c.score >= ys[0].score then [c] + ys
    else [ys[0]] + Insert(c, ys[1..])
  }

  /** A stable sort by descending score (insertion sort). */
  function SortByScore(xs: seq<Candidate>): seq<Candidate>
  {
    if xs == [] then [] else Insert(xs[0], SortByScore(xs[1..]))
  }

  lemma {:induction false} InsertPermutes(c: Candidate, ys: seq<Candidate>)
    ensures multiset(Insert(c, ys)) == multiset(ys) + multiset{c}
    decreases |ys|
  {
    if ys != [] && c.score < ys[0].score {
      InsertPermutes(c, ys[1..]);
      assert ys == [ys[0]] + ys[1..];
    }
  }

  lemma {:induction false} InsertKeepsOrder(c: Candidate, ys: seq<Candidate>)
    requires Descending(ys)
    ensures Descending(Insert(c, ys))
    decreases |ys|
  {
    if ys != [] && c.score < ys[0].score {
      var tail := Insert(c, ys[1..]);
      InsertKeepsOrder(c, ys[1..]);
      InsertPermutes(c, ys[1..]);
      forall k | 0 <= k < |tail| ensures ys[0].score >= tail[k].score {
        assert tail[k] in multiset(tail);
        if tail[k] != c {
          assert tail[k] in multiset(ys[1..]);
          var m :| 0 <= m < |ys[1..]| && ys[1..][m] == tail[k];
          assert ys[m + 1] == tail[k];
        }
      }
      var r := [ys[0]] + tail;
      forall i, j | 0 <= i < j < |r| ensures r[i].score >= r[j].score {
        if i > 0 { assert r[i] == tail[i - 1] && r[j] == tail[j - 1]; }
        else { assert r[j] == tail[j - 1]; }
      }
    }
  }

  /** The sorted list is non-increasing in score and a permutation of the
      input. */
  lemma {:induction false} SortByScoreSorts(xs: seq<Candidate>)
    ensures Descending(SortByScore(xs))
    ensures multiset(SortByScore(xs)) == multiset(xs)
  {
    if xs != [] {
      SortByScoreSorts(xs[1..]);
      InsertKeepsOrder(xs[0], SortByScore(xs[1..]));
      InsertPermutes(xs[0], SortByScore(xs[1..]));
      assert xs == [xs[0]] + xs[1..];
    }
  }

  lemma {:induction false} InsertStable(c: Candidate, ys: seq<Candidate>, s: int)
    ensures WithScore(Insert(c, ys), s) == (if c.score == s then [c] else []) + WithScore(ys, s)
    decreases |ys|
  {
    var own := if c.score == s then [c] else [];
    if ys == [] || c.score >= ys[0].score {
      var r := [c] + ys;
      assert r[0] == c && r[1..] == ys;
      assert WithScore(r, s) == own + WithScore(ys, s);
    } else {
      var head := if ys[0].score == s then [ys[0]] else [];
      var tail := Insert(c, ys[1..]);
      var r := [ys[0]] + tail;
      assert r[0] == ys[0] && r[1..] == tail;
      assert WithScore(r, s) == head + WithScore(tail, s);
      InsertStable(c, ys[1..], s);
      assert WithScore(ys, s) == head + WithScore(ys[1..], s);
      assert c.score == s ==> head == [];
    }
  }

  /** Stability: for every score, the candidates with that score appear in
      the sorted list in the same order as in the input. */
  lemma {:induction false} SortByScoreStable(xs: seq<Candidate>, s: int)
    ensures WithScore(SortByScore(xs), s) == WithScore(xs, s)
  {
    if xs != [] {
      SortByScoreStable(xs[1..], s);
      InsertStable(xs[0], SortByScore(xs[1..]), s);
    }
  }

  /** `sort(..., reverse=True)` followed by `[:15]`: at most 15 candidates,
      the highest scores first, each of them one of the inputs, and a prefix
      of the stable sorted order. */
  function TopPicks(xs: seq<Candidate>): (top: seq<Candidate>)
    ensures |top| == if |xs| < TopN then |xs| else TopN
    ensures Descending(top)
    ensures multiset(top) <= multiset(xs)
    ensures forall c, d :: c in top && d in xs && d !in top ==> c.score >= d.score
  {
    var sorted := SortByScore(xs);
    SortByScoreSorts(xs);
    var n := if |sorted| < TopN then |sorted| else TopN;
    assert sorted == sorted[..n] + sorted[n..];
    forall c, d | c in sorted[..n] && d in xs && d !in sorted[..n] ensures c.score >= d.score {
      assert d in multiset(sorted);
      var i :| 0 <= i < n && sorted[i] == c;
      var j :| 0 <= j < |sorted| && sorted[j] == d;
      assert j >= n;
    }
    sorted[..n]
  }

  /** Taking a prefix of a list keeps, for every score, a prefix of the
      candidates with that score. */
  lemma {:induction false} WithScorePrefix(ys: seq<Candidate>, n: nat, s: int)
    requires n <= |ys|
    ensures WithScore(ys[..n], s) <= WithScore(ys, s)
    decreases n
  {
    if n > 0 {
      WithScorePrefix(ys[1..], n - 1, s);
      assert ys[..n][0] == ys[0] && ys[..n][1..] == ys[1..][..n - 1];
    }
  }

  /** Ties keep their order: for every score, the top picks with that score
      are the first candidates with that score in the order the batches
      produced them. */
  lemma TopPicksStable(xs: seq<Candidate>, s: int)
    ensures WithScore(TopPicks(xs), s) <= WithScore(xs, s)
  {
    var sorted := SortByScore(xs);
    var n := if |sorted| < TopN then |sorted| else TopN;
    SortByScoreSorts(xs);
    assert TopPicks(xs) == sorted[..n];
    WithScorePrefix(sorted, n, s);
    SortByScoreStable(xs, s);
  }

  /** `msg[:4000] + "\n...(terpotong)"` when the report is longer than 4000
      characters: a short report is sent as it is; a long one keeps its first
      4000 characters and ends with the cut marker. */
  function CutMessage(msg: string): (out: string)
    ensures |msg| <= MessageLimit ==> out == msg
    ensures |msg| > MessageLimit ==>
      |out| == MessageLimit + |CutMarker| && out[..MessageLimit] == msg[..MessageLimit] && out[MessageLimit..] == CutMarker
    ensures |out| <= MessageLimit + |CutMarker|
  {
    if |msg| > MessageLimit then msg[..MessageLimit] + CutMarker else msg
  }
}
