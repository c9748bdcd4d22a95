/**
 The k best hits over several collections (`_searcher` in `apps/api/fleet_api/routers/chat.py`):
 merging the k best of each collection gives the scores of the k best of all of them.
 */
module Ranking {
  import opened Sorting

  /** What a search returns for one chunk. */
  datatype Hit = Hit(id: string, score: real, documentId: int, chunkRef: string, content: string, redacted: bool)

  function Scores(hits: seq<Hit>): (scores: seq<real>)
    ensures |scores| == |hits|
    ensures forall i | 0 <= i < |hits| :: scores[i] == hits[i].score
  {
    seq(|hits|, i requires 0 <= i < |hits| => hits[i].score)
  }

  function Score(hit: Hit): real {
    hit.score
  }

  function Take<T>(items: seq<T>, k: nat): seq<T> {
    if |items| <= k then items else items[..k]
  }

  function Best(hits: seq<Hit>, k: nat): seq<Hit> {
    Take(Sort(Score, hits), k)
  }

  function Concat(lists: seq<seq<Hit>>): seq<Hit> {
    if lists == [] then [] else lists[0] + Concat(lists[1..])
  }

  /** Extends the hits collection by collection, then sorts and cuts. */
  method Merge(answers: seq<seq<Hit>>, k: nat) returns (hits: seq<Hit>)
    ensures hits == Best(Concat(answers), k)
  {
    hits := [];
    for i := 0 to |answers|
      invariant Concat(answers) == hits + Concat(answers[i..])
    {
      assert answers[i..][1..] == answers[i + 1..];
      hits := hits + answers[i];
    }
    assert hits + [] == hits;
    hits := Sort(Score, hits);
    hits := if |hits| <= k then hits else hits[..k];
  }

  // ---- Sorting

  /** How many hits score at least `t`. */
  function AtLeast(hits: seq<Hit>, t: real): nat {
    if hits == [] then 0 else (if hits[0].score >= t then 1 else 0) + AtLeast(hits[1..], t)
  }

  function Min(a: nat, b: nat): nat {
    if a <= b then a else b
  }

  lemma {:induction false} AtLeastAppend(a: seq<Hit>, b: seq<Hit>, t: real)
    ensures AtLeast(a + b, t) == AtLeast(a, t) + AtLeast(b, t)
  {
    if a == [] {
      assert a + b == b;
    } else {
      assert (a + b)[0] == a[0] && (a + b)[1..] == a[1..] + b;
      AtLeastAppend(a[1..], b, t);
    }
  }

  lemma {:induction false} InsertCounts(hit: Hit, hits: seq<Hit>, t: real)
    ensures AtLeast(Insert(Score, hit, hits), t) == AtLeast(hits, t) + (if hit.score >= t then 1 else 0)
  {
    if hits == [] || hits[0].score < hit.score {
      assert ([hit] + hits)[1..] == hits;
    } else {
      InsertCounts(hit, hits[1..], t);
      var rest := Insert(Score, hit, hits[1..]);
      assert ([hits[0]] + rest)[1..] == rest;
    }
  }

  lemma SplitLast(hits: seq<Hit>, n: nat, t: real)
    requires n == |hits| - 1
    ensures hits == hits[..n] + [hits[n]]
    ensures AtLeast(hits, t) == AtLeast(hits[..n], t) + (if hits[n].score >= t then 1 else 0)
  {
    assert hits == hits[..n] + [hits[n]];
    AtLeastAppend(hits[..n], [hits[n]], t);
    assert AtLeast([hits[n]][1..], t) == 0;
  }

  lemma {:induction false} SortCounts(hits: seq<Hit>, t: real)
    ensures AtLeast(Sort(Score, hits), t) == AtLeast(hits, t)
  {
    hide Insert, AtLeast;
    if hits != [] {
      var n := |hits| - 1;
      SortCounts(hits[..n], t);
      SplitLast(hits, n, t);
      InsertCounts(hits[n], Sort(Score, hits[..n]), t);
    }
  }

  /** In descending order the hits above a threshold come first. */
  lemma {:induction false} TakeCounts(hits: seq<Hit>, k: nat, t: real)
    requires Descending(Score, hits)
    ensures AtLeast(Take(hits, k), t) == Min(k, AtLeast(hits, t))
    decreases |hits|
  {
    if |hits| <= k {
      AtLeastBound(hits, t);
    } else if k == 0 {
      assert Take(hits, 0) == [];
    } else {
      assert Take(hits, k)[1..] == Take(hits[1..], k - 1);
      TakeCounts(hits[1..], k - 1, t);
      if hits[0].score < t {
        NoneAbove(hits, t);
        NoneAbove(hits[1..], t);
      }
    }
  }

  lemma {:induction false} AtLeastBound(hits: seq<Hit>, t: real)
    ensures AtLeast(hits, t) <= |hits|
  {
    if hits != [] {
      AtLeastBound(hits[1..], t);
    }
  }

  lemma {:induction false} NoneAbove(hits: seq<Hit>, t: real)
    requires forall i | 0 <= i < |hits| :: hits[i].score < t
    ensures AtLeast(hits, t) == 0
  {
    if hits != [] {
      NoneAbove(hits[1..], t);
    }
  }

  lemma TakeDescending(hits: seq<Hit>, k: nat)
    requires Descending(Score, hits)
    ensures Descending(Score, Take(hits, k))
  {
  }

  /** The k best hold as many hits above any threshold as there are, up to k. */
  lemma BestCounts(hits: seq<Hit>, k: nat, t: real)
    ensures AtLeast(Best(hits, k), t) == Min(k, AtLeast(hits, t))
    ensures Descending(Score, Best(hits, k))
  {
    SortCounts(hits, t);
    SortPermutes(Score, hits);
    TakeCounts(Sort(Score, hits), k, t);
    TakeDescending(Sort(Score, hits), k);
  }

  lemma HeadCounts(hits: seq<Hit>)
    ensures hits != [] ==> AtLeast(hits, hits[0].score) >= 1
  {
  }

  lemma BelowHead(hits: seq<Hit>, t: real)
    requires hits != [] && Descending(Score, hits)
    ensures hits[0].score < t ==> AtLeast(hits, t) == 0
  {
    if hits[0].score < t {
      NoneAbove(hits, t);
    }
  }

  lemma TailCounts(hits: seq<Hit>, t: real)
    requires hits != []
    ensures AtLeast(hits, t) == (if hits[0].score >= t then 1 else 0) + AtLeast(hits[1..], t)
    ensures Descending(Score, hits) ==> Descending(Score, hits[1..])
    ensures Scores(hits) == [hits[0].score] + Scores(hits[1..])
  {
  }

  lemma NoCounts(t: real)
    ensures AtLeast([], t) == 0
  {
  }

  /** Descending lists with the same counts at every threshold have the same scores. */
  lemma {:induction false} SameCountsSameScores(a: seq<Hit>, b: seq<Hit>)
    requires Descending(Score, a) && Descending(Score, b)
    requires forall t :: AtLeast(a, t) == AtLeast(b, t)
    ensures Scores(a) == Scores(b)
    decreases |a|
  {
    hide AtLeast, Descending;
    HeadCounts(a);
    HeadCounts(b);
    if a == [] || b == [] {
      NoCounts(if a == [] && b == [] then 0.0 else if a == [] then b[0].score else a[0].score);
    } else {
      BelowHead(a, b[0].score);
      BelowHead(b, a[0].score);
      forall t
        ensures AtLeast(a[1..], t) == AtLeast(b[1..], t)
      {
        TailCounts(a, t);
        TailCounts(b, t);
      }
      TailCounts(a, 0.0);
      TailCounts(b, 0.0);
      SameCountsSameScores(a[1..], b[1..]);
    }
  }

  // ---- Merging

  /** Each collection answers with its own k best. */
  function Answers(collections: seq<seq<Hit>>, k: nat): (answers: seq<seq<Hit>>)
    ensures |answers| == |collections|
    ensures forall i | 0 <= i < |collections| :: answers[i] == Best(collections[i], k)
  {
    seq(|collections|, i requires 0 <= i < |collections| => Best(collections[i], k))
  }

  lemma {:induction false} AnswersCount(collections: seq<seq<Hit>>, k: nat, t: real)
    ensures Min(k, AtLeast(Concat(Answers(collections, k)), t)) == Min(k, AtLeast(Concat(collections), t))
    decreases |collections|
  {
    if collections != [] {
      var first, rest := collections[0], collections[1..];
      assert Answers(collections, k)[1..] == Answers(rest, k);
      AnswersCount(rest, k, t);
      BestCounts(first, k, t);
      AtLeastAppend(Best(first, k), Concat(Answers(rest, k)), t);
      AtLeastAppend(first, Concat(rest), t);
    }
  }

  /** Cutting each collection to its k best before merging loses no score among the k best overall. */
  lemma MergedBestIsBestOfAll(collections: seq<seq<Hit>>, k: nat)
    ensures Scores(Best(Concat(Answers(collections, k)), k)) == Scores(Best(Concat(collections), k))
  {
    var merged, all := Best(Concat(Answers(collections, k)), k), Best(Concat(collections), k);
    BestCounts(Concat(Answers(collections, k)), k, 0.0);
    BestCounts(Concat(collections), k, 0.0);
    forall t
      ensures AtLeast(merged, t) == AtLeast(all, t)
    {
      BestCounts(Concat(Answers(collections, k)), k, t);
      BestCounts(Concat(collections), k, t);
      AnswersCount(collections, k, t);
    }
    SameCountsSameScores(merged, all);
  }
}
