/** The ordering of classifier scores in `classifyAndFetch` (src/scan.js):
    the score indices sorted by descending score. `Array.prototype.sort` is
    stable, so indices with equal scores keep their ascending order. */
module Ranking {

  /** Index `a` comes before index `b`: a strictly higher score, or the
      same score and a smaller index. */
  predicate Ahead(scores: seq<real>, a: nat, b: nat)
    requires a < |scores| && b < |scores|
  {
    scores[a] > scores[b] || (scores[a] == scores[b] && a < b)
  }

  predicate InRange(scores: seq<real>, xs: seq<nat>) {
    forall i :: 0 <= i < |xs| ==> xs[i] < |scores|
  }

  /** Every index is ahead of every later one. */
  predicate Ranked(scores: seq<real>, xs: seq<nat>)
    requires InRange(scores, xs)
  {
    forall i, j :: 0 <= i < j < |xs| ==> Ahead(scores, xs[i], xs[j])
  }

  /** The indices 0, 1, ..., n - 1 in order. */
  function Range(n: nat): (r: seq<nat>)
    ensures |r| == n
    ensures forall i :: 0 <= i < n ==> r[i] == i
  {
    if n == 0 then [] else Range(n - 1) + [n - 1]
  }

  /** Inserts `x` after every index with a score at least as high. */
  function Insert(scores: seq<real>, x: nat, xs: seq<nat>): (r: seq<nat>)
    requires x < |scores| && InRange(scores, xs)
    ensures InRange(scores, r)
    ensures forall i :: 0 <= i < |r| ==> r[i] == x || r[i] in xs
    decreases |xs|
  {
    if |xs| == 0 then [x]
    else if scores[xs[0]] >= scores[x] then [xs[0]] + Insert(scores, x, xs[1..])
    else [x] + xs
  }

  /** The first `n` indices, ranked. */
  function RankPrefix(scores: seq<real>, n: nat): (r: seq<nat>)
    requires n <= |scores|
    ensures InRange(scores, r)
    ensures forall i :: 0 <= i < |r| ==> r[i] < n
  {
    if n == 0 then [] else Insert(scores, n - 1, RankPrefix(scores, n - 1))
  }

  /** Inserting adds exactly one occurrence of `x`. */
  lemma {:induction false} InsertPermutes(scores: seq<real>, x: nat, xs: seq<nat>)
    requires x < |scores| && InRange(scores, xs)
    ensures multiset(Insert(scores, x, xs)) == multiset(xs) + multiset{x}
    decreases |xs|
  {
    if |xs| > 0 && scores[xs[0]] >= scores[x] {
      InsertPermutes(scores, x, xs[1..]);
      assert xs == [xs[0]] + xs[1..];
    }
  }

  /** The first `n` indices, ranked, are a rearrangement of 0, ..., n - 1. */
  lemma {:induction false} RankPrefixPermutes(scores: seq<real>, n: nat)
    requires n <= |scores|
    ensures multiset(RankPrefix(scores, n)) == multiset(Range(n))
  {
    if n > 0 {
      var m: nat, xs := n - 1, RankPrefix(scores, n - 1);
      RankPrefixPermutes(scores, m);
      InsertPermutes(scores, m, xs);
      assert RankPrefix(scores, n) == Insert(scores, m, xs);
      assert Range(n) == Range(m) + [m];
      assert multiset(Range(n)) == multiset(Range(m)) + multiset{m};
    }
  }

  lemma {:induction false} InsertRanked(scores: seq<real>, x: nat, xs: seq<nat>)
    requires x < |scores| && InRange(scores, xs)
    requires Ranked(scores, xs)
    requires forall i :: 0 <= i < |xs| ==> xs[i] < x
    ensures Ranked(scores, Insert(scores, x, xs))
    decreases |xs|
  {
    var r := Insert(scores, x, xs);
    if |xs| == 0 {
    } else if scores[xs[0]] >= scores[x] {
      var t := Insert(scores, x, xs[1..]);
      InsertRanked(scores, x, xs[1..]);
      assert r == [xs[0]] + t;
      forall j | 0 <= j < |t| ensures Ahead(scores, xs[0], t[j]) {
        if t[j] != x {
          var m :| 0 <= m < |xs[1..]| && xs[1..][m] == t[j];
          assert xs[m + 1] == t[j];
        }
      }
    } else {
      assert r == [x] + xs;
      forall j | 0 <= j < |xs| ensures Ahead(scores, x, xs[j]) {
        if j > 0 {
          assert Ahead(scores, xs[0], xs[j]);
        }
      }
    }
  }

  lemma RangeMembers(n: nat, x: nat)
    ensures x in multiset(Range(n)) <==> x < n
  {
  }

  lemma {:induction false} RankPrefixRanked(scores: seq<real>, n: nat)
    requires n <= |scores|
    ensures Ranked(scores, RankPrefix(scores, n))
  {
    if n > 0 {
      var xs := RankPrefix(scores, n - 1);
      RankPrefixRanked(scores, n - 1);
      assert InRange(scores, xs);
      assert forall i :: 0 <= i < |xs| ==> xs[i] < n - 1;
      assert RankPrefix(scores, n) == Insert(scores, n - 1, xs);
      InsertRanked(scores, n - 1, xs);
    }
  }

  /** `sorted` in `classifyAndFetch`: a permutation of all score indices
      in non-increasing score order, ties in ascending index order. */
  function SortedIndices(scores: seq<real>): (r: seq<nat>)
    ensures |r| == |scores|
    ensures InRange(scores, r)
    ensures forall i :: 0 <= i < |scores| ==> i in r
    ensures forall i, j :: 0 <= i < j < |r| ==> r[i] != r[j]
    ensures Ranked(scores, r)
    ensures forall i, j :: 0 <= i < j < |r| ==> scores[r[i]] >= scores[r[j]]
  {
    var r := RankPrefix(scores, |scores|);
    RankPrefixRanked(scores, |scores|);
    RankPrefixPermutes(scores, |scores|);
    assert |r| == |multiset(r)| == |multiset(Range(|scores|))| == |scores|;
    assert forall i :: 0 <= i < |scores| ==> i in r by {
      forall i | 0 <= i < |scores| ensures i in r {
        RangeMembers(|scores|, i);
        assert i in multiset(r);
      }
    }
    r
  }

  /** Dropping the first index keeps a sequence ranked. */
  lemma RankedTail(scores: seq<real>, a: seq<nat>)
    requires |a| > 0 && InRange(scores, a) && Ranked(scores, a)
    ensures InRange(scores, a[1..]) && Ranked(scores, a[1..])
  {
  }

  /** Two ranked arrangements of the same indices start with the same one:
      each head would otherwise be ahead of the other. */
  lemma RankedHeads(scores: seq<real>, a: seq<nat>, b: seq<nat>)
    requires InRange(scores, a) && InRange(scores, b)
    requires Ranked(scores, a) && Ranked(scores, b)
    requires multiset(a) == multiset(b)
    requires |a| > 0
    ensures |b| > 0 && a[0] == b[0]
  {
    assert a[0] in multiset(b);
    var j :| 0 <= j < |b| && b[j] == a[0];
    assert b[0] in multiset(a);
    var i :| 0 <= i < |a| && a[i] == b[0];
  }

  /** The ranked order is the only one: any permutation of the same indices
      in which every index is ahead of the later ones equals it, so a stable
      sort by descending score can produce nothing else. */
  lemma {:induction false} RankedUnique(scores: seq<real>, a: seq<nat>, b: seq<nat>)
    requires InRange(scores, a) && InRange(scores, b)
    requires Ranked(scores, a) && Ranked(scores, b)
    requires multiset(a) == multiset(b)
    ensures a == b
    decreases |a|
  {
    if |a| == 0 {
      assert |b| == |multiset(b)| == 0;
    } else {
      RankedHeads(scores, a, b);
      RankedTail(scores, a);
      RankedTail(scores, b);
      assert a == [a[0]] + a[1..] && b == [b[0]] + b[1..];
      assert multiset(a[1..]) == multiset(a) - multiset{a[0]};
      assert multiset(b[1..]) == multiset(b) - multiset{b[0]};
      RankedUnique(scores, a[1..], b[1..]);
    }
  }
}
