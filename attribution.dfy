/** Ranking the per-column attributions of one prediction:
    `vals.abs().sort_values(ascending=False).head(5)` and the direction
    label shown beside each kept column. */
module Attribution {

  datatype Direction = Increase | Decrease

  /** One displayed factor: the column, its attribution magnitude, and
      whether its signed attribution raises or lowers the risk. */
  datatype Factor = Factor(feature: string, impact: real, direction: Direction)

  /** How many factors are kept. */
  const TopCount := 5

  function Abs(x: real): (y: real)
    ensures y >= 0.0 && (y == x || y == -x)
  {
    if x < 0.0 then -x else x
  }

  function Min(a: int, b: int): int {
    if a <= b then a else b
  }

  /** Every entry of `s` is a position of `vals`. */
  predicate Positions(vals: seq<real>, s: seq<int>) {
    forall k :: 0 <= k < |s| ==> 0 <= s[k] < |vals|
  }

  /** The positions in `s` have non-increasing magnitude. */
  ghost predicate ByMagnitude(vals: seq<real>, s: seq<int>)
    requires Positions(vals, s)
  {
    forall a, b :: 0 <= a < b < |s| ==> Abs(vals[s[a]]) >= Abs(vals[s[b]])
  }

  /** Inserts position `i` into a list ranked by magnitude, after the entries
      of larger magnitude and before the others. */
  function Insert(vals: seq<real>, i: int, s: seq<int>): (r: seq<int>)
    requires 0 <= i < |vals| && Positions(vals, s)
    ensures multiset(r) == multiset(s) + multiset{i}
    ensures Positions(vals, r)
  {
    if |s| == 0 then [i]
    else if Abs(vals[s[0]]) <= Abs(vals[i]) then [i] + s
    else
      assert s == [s[0]] + s[1..];
      [s[0]] + Insert(vals, i, s[1..])
  }

  /** No entry of `s` has magnitude above `m`. */
  ghost predicate AtMost(vals: seq<real>, s: seq<int>, m: real)
    requires Positions(vals, s)
  {
    forall k :: 0 <= k < |s| ==> Abs(vals[s[k]]) <= m
  }

  lemma RankedCons(vals: seq<real>, x: int, rest: seq<int>)
    requires 0 <= x < |vals| && Positions(vals, rest)
    requires ByMagnitude(vals, rest) && AtMost(vals, rest, Abs(vals[x]))
    ensures ByMagnitude(vals, [x] + rest)
  {
    var r := [x] + rest;
    forall a, b | 0 <= a < b < |r| ensures Abs(vals[r[a]]) >= Abs(vals[r[b]]) {
      if a == 0 {
        assert r[b] == rest[b - 1];
      } else {
        assert r[a] == rest[a - 1] && r[b] == rest[b - 1];
      }
    }
  }

  lemma {:induction false} InsertAtMost(vals: seq<real>, i: int, s: seq<int>, m: real)
    requires 0 <= i < |vals| && Positions(vals, s)
    requires AtMost(vals, s, m) && Abs(vals[i]) <= m
    ensures AtMost(vals, Insert(vals, i, s), m)
  {
    if |s| > 0 && Abs(vals[s[0]]) > Abs(vals[i]) {
      InsertAtMost(vals, i, s[1..], m);
      var rest := Insert(vals, i, s[1..]);
      assert Insert(vals, i, s) == [s[0]] + rest;
    }
  }

  /** Inserting keeps a ranked list ranked. */
  lemma {:induction false} InsertRanked(vals: seq<real>, i: int, s: seq<int>)
    requires 0 <= i < |vals| && Positions(vals, s) && ByMagnitude(vals, s)
    ensures ByMagnitude(vals, Insert(vals, i, s))
  {
    if |s| == 0 {
      assert Insert(vals, i, s) == [i];
    } else if Abs(vals[s[0]]) <= Abs(vals[i]) {
      RankedCons(vals, i, s);
    } else {
      var rest := Insert(vals, i, s[1..]);
      InsertRanked(vals, i, s[1..]);
      InsertAtMost(vals, i, s[1..], Abs(vals[s[0]]));
      RankedCons(vals, s[0], rest);
    }
  }

  /** Orders the positions `idx` by non-increasing magnitude. */
  function Rank(vals: seq<real>, idx: seq<int>): (r: seq<int>)
    requires Positions(vals, idx)
    ensures multiset(r) == multiset(idx)
    ensures Positions(vals, r) && ByMagnitude(vals, r)
  {
    if |idx| == 0 then []
    else
      assert idx == [idx[0]] + idx[1..];
      var rest := Rank(vals, idx[1..]);
      InsertRanked(vals, idx[0], rest);
      Insert(vals, idx[0], rest)
  }

  /** The positions 0, 1, ..., n - 1. */
  function Range(n: nat): (r: seq<int>)
    ensures |r| == n && forall k :: 0 <= k < n ==> r[k] == k
  {
    seq(n, k requires 0 <= k < n => k)
  }

  /** Positions of the kept columns, largest magnitude first. */
  function TopIndices(vals: seq<real>): (t: seq<int>)
    ensures |t| == Min(TopCount, |vals|) && Positions(vals, t)
  {
    Rank(vals, Range(|vals|))[..Min(TopCount, |vals|)]
  }

  /** The factors shown for attributions `vals` over schema `columns`
      (lines 81-86): column name, magnitude, and "increase" exactly when the
      signed attribution is positive. */
  function TopFactors(columns: seq<string>, vals: seq<real>): (top: seq<Factor>)
    requires |columns| == |vals|
    ensures |top| == |TopIndices(vals)|
  {
    var t := TopIndices(vals);
    seq(|t|, k requires 0 <= k < |t| =>
      Factor(columns[t[k]], Abs(vals[t[k]]), if vals[t[k]] > 0.0 then Increase else Decrease))
  }

  lemma RangeOnce(n: nat, x: int)
    ensures multiset(Range(n))[x] == if 0 <= x < n then 1 else 0
  {
    var r := Range(n);
    if n > 0 {
      assert r == Range(n - 1) + [n - 1];
      RangeOnce(n - 1, x);
    }
  }

  /** A list with the same elements as `0 .. n - 1` repeats none of them and
      holds each of them. */
  lemma PermutationOfRange(s: seq<int>, n: nat)
    requires multiset(s) == multiset(Range(n))
    ensures forall a, b :: 0 <= a < b < |s| ==> s[a] != s[b]
    ensures forall x :: 0 <= x < n ==> x in s
  {
    forall a, b | 0 <= a < b < |s| ensures s[a] != s[b] {
      if s[a] == s[b] {
        assert s == s[..b] + s[b..];
        assert s[a] in s[..b] && s[b] in s[b..];
        assert multiset(s)[s[a]] == multiset(s[..b])[s[a]] + multiset(s[b..])[s[a]];
        RangeOnce(n, s[a]);
        assert false;
      }
    }
    forall x | 0 <= x < n ensures x in s {
      RangeOnce(n, x);
      assert x in multiset(s);
    }
  }

  /** The kept positions are distinct, ranked, and dominate every position
      left out. */
  lemma TopIndicesRanked(vals: seq<real>)
    ensures var t := TopIndices(vals);
      && (forall a, b :: 0 <= a < b < |t| ==> t[a] != t[b])
      && ByMagnitude(vals, t)
      && (forall j, k :: 0 <= j < |vals| && j !in t && 0 <= k < |t| ==> Abs(vals[j]) <= Abs(vals[t[k]]))
  {
    var n := |vals|;
    var s := Rank(vals, Range(n));
    var m := Min(TopCount, n);
    var t := TopIndices(vals);
    assert t == s[..m];
    PermutationOfRange(s, n);
    forall a, b | 0 <= a < b < |t| ensures t[a] != t[b] && Abs(vals[t[a]]) >= Abs(vals[t[b]]) {
      assert t[a] == s[a] && t[b] == s[b];
    }
    TopIndicesDominate(vals);
  }

  /** Every position left out has a magnitude no larger than any kept one. */
  lemma TopIndicesDominate(vals: seq<real>)
    ensures forall j, k :: 0 <= j < |vals| && j !in TopIndices(vals) && 0 <= k < |TopIndices(vals)| ==>
      Abs(vals[j]) <= Abs(vals[TopIndices(vals)[k]])
  {
    var n := |vals|;
    var s := Rank(vals, Range(n));
    var m := Min(TopCount, n);
    var t := TopIndices(vals);
    assert t == s[..m];
    PermutationOfRange(s, n);
    forall j, k | 0 <= j < n && j !in t && 0 <= k < m
      ensures Abs(vals[j]) <= Abs(vals[t[k]])
    {
      assert j in s;
      var p :| 0 <= p < |s| && s[p] == j;
      assert forall q :: 0 <= q < m ==> t[q] == s[q];
      assert p >= m;
      assert t[k] == s[k];
    }
  }

  /** What lines 82-86 promise about the displayed factors: min(5, n) of
      them, distinct columns, largest magnitude first; every column left out
      has a magnitude no larger than any kept one; and a factor is labelled
      "increase" exactly when its signed attribution is positive (zero and
      negative values read "decrease"). */
  lemma TopFactorsRanked(columns: seq<string>, vals: seq<real>)
    requires |columns| == |vals|
    ensures var top, t := TopFactors(columns, vals), TopIndices(vals);
      && |top| == Min(TopCount, |columns|)
      && (forall a, b :: 0 <= a < b < |t| ==> t[a] != t[b])
      && (forall k :: 0 <= k < |top| ==> top[k].feature == columns[t[k]] && top[k].impact == Abs(vals[t[k]]))
      && (forall a, b :: 0 <= a < b < |top| ==> top[a].impact >= top[b].impact)
      && (forall j, k :: 0 <= j < |vals| && j !in t && 0 <= k < |top| ==> Abs(vals[j]) <= top[k].impact)
      && (forall k :: 0 <= k < |top| ==> (top[k].direction == Increase <==> vals[t[k]] > 0.0))
  {
    TopIndicesRanked(vals);
  }
}
