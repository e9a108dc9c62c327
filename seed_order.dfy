/** The fair-seeding order of the bracket (src/DoubleElimination.ts:27-32). */
module SeedOrder {
  import opened Arith

  /** One doubling level: every seed a becomes the pair a, 2^level + 1 - a. */
  function Expand(s: seq<int>, level: nat): (r: seq<int>)
    ensures |r| == 2 * |s|
  {
    if s == [] then [] else [s[0], Pow2(level) + 1 - s[0]] + Expand(s[1..], level)
  }

  lemma {:induction false} ExpandAt(s: seq<int>, level: nat, k: nat)
    requires k < |s|
    ensures Expand(s, level)[2 * k] == s[k]
    ensures Expand(s, level)[2 * k + 1] == Pow2(level) + 1 - s[k]
  {
    if k > 0 {
      ExpandAt(s[1..], level, k - 1);
    }
  }

  lemma {:induction false} ExpandSnoc(s: seq<int>, x: int, level: nat)
    ensures Expand(s + [x], level) == Expand(s, level) + [x, Pow2(level) + 1 - x]
  {
    if s == [] {
      assert s + [x] == [x];
    } else {
      assert (s + [x])[1..] == s[1..] + [x];
      ExpandSnoc(s[1..], x, level);
    }
  }

  /** The seed order of a bracket with 2^e first-round slots (e >= 1). */
  function Order(e: nat): (r: seq<int>)
    requires e >= 1
    ensures |r| == Pow2(e)
  {
    if e == 1 then [1, 2] else Expand(Order(e - 1), e)
  }

  lemma OrderTwo()
    ensures Order(1) == [1, 2]
    ensures Order(2) == [1, 4, 2, 3]
  {
    assert Pow2(2) == 4;
    assert Expand([2], 2) == [2, 3] + Expand([], 2);
  }

  /** One splice of the inner loop turns one more seed into its pair. */
  lemma SpliceStep(prev: seq<int>, level: nat, k: nat, j: nat, bracket: seq<int>)
    requires k < |prev| && j == 2 * k
    requires bracket == Expand(prev[..k], level) + prev[k..]
    ensures j < |bracket| && bracket[j] == prev[k]
    ensures bracket[..j + 1] + [Pow2(level) + 1 - bracket[j]] + bracket[j + 1..]
         == Expand(prev[..k + 1], level) + prev[k + 1..]
  {
    var e := Expand(prev[..k], level);
    var x := prev[k];
    assert prev[k..] == [x] + prev[k + 1..];
    assert bracket == e + [x] + prev[k + 1..];
    InsertAfter(e, x, Pow2(level) + 1 - x, prev[k + 1..]);
    assert prev[..k + 1] == prev[..k] + [x];
    ExpandSnoc(prev[..k], x, level);
  }

  /** Inserting y right after the x that follows e. */
  lemma InsertAfter(e: seq<int>, x: int, y: int, rest: seq<int>)
    ensures var s := e + [x] + rest;
      s[..|e| + 1] + [y] + s[|e| + 1..] == e + [x, y] + rest
  {
    var s := e + [x] + rest;
    assert s[..|e| + 1] == e + [x];
    assert s[|e| + 1..] == rest;
  }

  /** The inner loop at lines 29-31: the array grows by one at every step
      while j advances by two, so the walk visits each original seed once. */
  method SpliceLevel(prev: seq<int>, level: nat) returns (bracket: seq<int>)
    ensures bracket == Expand(prev, level)
  {
    bracket := prev;
    var j := 0;
    ghost var k := 0;
    while j < |bracket|
      invariant j == 2 * k && k <= |prev|
      invariant bracket == Expand(prev[..k], level) + prev[k..]
      decreases |prev| - k
    {
      SpliceStep(prev, level, k, j, bracket);
      bracket := bracket[..j + 1] + [Pow2(level) + 1 - bracket[j]] + bracket[j + 1..];
      j, k := j + 2, k + 1;
    }
    assert prev[..|prev|] == prev;
  }

  /** The loop at lines 27-32: starts from [1, 4, 2, 3] and applies one
      doubling level for each of 3 .. floorExp. */
  method BuildSeedOrder(floorExp: int) returns (bracket: seq<int>)
    ensures bracket == Order(if floorExp < 2 then 2 else floorExp)
  {
    bracket := [1, 4, 2, 3];
    OrderTwo();
    var i := 3;
    while i <= floorExp
      invariant 3 <= i
      invariant i <= 3 || i <= floorExp + 1
      invariant bracket == Order(i - 1)
    {
      bracket := SpliceLevel(bracket, i);
      i := i + 1;
    }
  }

  /** s holds each of 1 .. n exactly once. */
  ghost predicate IsPermutation(s: seq<int>, n: nat)
  {
    && |s| == n
    && (forall k :: 0 <= k < |s| ==> 1 <= s[k] <= n)
    && (forall k, l :: 0 <= k < l < |s| ==> s[k] != s[l])
  }

  /** The seed order is a permutation of 1 .. 2^e. */
  lemma {:induction false} OrderIsPermutation(e: nat)
    requires e >= 1
    ensures IsPermutation(Order(e), Pow2(e))
  {
    if e > 1 {
      var s := Order(e - 1);
      OrderIsPermutation(e - 1);
      var r := Order(e);
      assert Pow2(e) == 2 * Pow2(e - 1);
      forall k | 0 <= k < |r|
        ensures 1 <= r[k] <= Pow2(e)
        ensures k % 2 == 0 ==> r[k] == s[k / 2] <= Pow2(e - 1)
        ensures k % 2 == 1 ==> r[k] == Pow2(e) + 1 - s[k / 2] > Pow2(e - 1)
      {
        ExpandAt(s, e, k / 2);
        assert k == 2 * (k / 2) || k == 2 * (k / 2) + 1;
      }
      forall k, l | 0 <= k < l < |r|
        ensures r[k] != r[l]
      {
        if k % 2 == l % 2 {
          assert k / 2 != l / 2;
        }
      }
    }
  }

  /** Each first-round pair of seeds sums to 2^e + 1, its first seed is the
      seed one level down, and seed 1 comes first. */
  lemma {:induction false} OrderPairs(e: nat, k: nat)
    requires e >= 2 && k < Pow2(e - 1)
    ensures Order(e)[2 * k] == Order(e - 1)[k]
    ensures Order(e)[2 * k] + Order(e)[2 * k + 1] == Pow2(e) + 1
    ensures Order(e)[0] == 1
  {
    ExpandAt(Order(e - 1), e, k);
    OrderStartsWithOne(e);
  }

  lemma {:induction false} OrderStartsWithOne(e: nat)
    requires e >= 1
    ensures Order(e)[0] == 1
  {
    if e > 1 {
      OrderStartsWithOne(e - 1);
      ExpandAt(Order(e - 1), e, 0);
    }
  }

  /** Number of entries of s greater than t. */
  function CountAbove(s: seq<int>, t: int): nat
  {
    if s == [] then 0 else (if s[0] > t then 1 else 0) + CountAbove(s[1..], t)
  }

  /** Number of entries of s not greater than t. */
  function CountAtMost(s: seq<int>, t: int): nat
  {
    if s == [] then 0 else (if s[0] <= t then 1 else 0) + CountAtMost(s[1..], t)
  }

  lemma {:induction false} CountSplit(s: seq<int>, t: int)
    ensures CountAbove(s, t) + CountAtMost(s, t) == |s|
  {
    if s != [] {
      CountSplit(s[1..], t);
    }
  }

  lemma {:induction false} CountAboveExpand(s: seq<int>, level: nat, t: int)
    ensures CountAbove(Expand(s, level), t) == CountAbove(s, t) + CountAtMost(s, Pow2(level) - t)
  {
    if s != [] {
      var m := Pow2(level) + 1 - s[0];
      assert Expand(s, level)[2..] == Expand(s[1..], level);
      assert CountAbove(Expand(s, level), t)
          == (if s[0] > t then 1 else 0) + (if m > t then 1 else 0) + CountAbove(Expand(s[1..], level), t);
      CountAboveExpand(s[1..], level, t);
    }
  }

  lemma {:induction false} CountAboveBounded(s: seq<int>, n: int, t: int)
    requires forall k :: 0 <= k < |s| ==> s[k] <= n
    requires n <= t
    ensures CountAbove(s, t) == 0
  {
    if s != [] {
      CountAboveBounded(s[1..], n, t);
    }
  }

  lemma {:induction false} CountAtMostAll(s: seq<int>, t: int)
    requires forall k :: 0 <= k < |s| ==> s[k] <= t
    ensures CountAtMost(s, t) == |s|
  {
    if s != [] {
      CountAtMostAll(s[1..], t);
    }
  }

  lemma OrderOneCount(t: int)
    requires 0 <= t <= 2
    ensures CountAbove(Order(1), t) == 2 - t
  {
    OrderTwo();
    assert [1, 2][1..] == [2];
    assert CountAbove([2], t) == (if 2 > t then 1 else 0) + CountAbove([], t);
  }

  /** Every seed of the order lies in 1 .. 2^e. */
  lemma {:induction false} OrderRange(e: nat)
    requires e >= 1
    ensures forall k :: 0 <= k < |Order(e)| ==> 1 <= Order(e)[k] <= Pow2(e)
  {
    OrderIsPermutation(e);
  }

  /** Exactly 2^e - t seeds of the order exceed t, for every threshold 0 <= t <= 2^e. */
  lemma {:induction false} OrderCountAbove(e: nat, t: int)
    requires e >= 1 && 0 <= t <= Pow2(e)
    ensures CountAbove(Order(e), t) == Pow2(e) - t
  {
    if e == 1 {
      OrderOneCount(t);
    } else if t <= Pow2(e - 1) {
      OrderCountAbove(e - 1, t);
      OrderCountAboveLow(e, t);
    } else {
      OrderCountAbove(e - 1, Pow2(e) - t);
      OrderCountAboveHigh(e, t);
    }
  }

  lemma OrderCountAboveLow(e: nat, t: int)
    requires e >= 2 && 0 <= t <= Pow2(e - 1)
    requires CountAbove(Order(e - 1), t) == Pow2(e - 1) - t
    ensures CountAbove(Order(e), t) == Pow2(e) - t
  {
    var s := Order(e - 1);
    OrderRange(e - 1);
    CountAboveExpand(s, e, t);
    CountAtMostAll(s, Pow2(e) - t);
  }

  lemma OrderCountAboveHigh(e: nat, t: int)
    requires e >= 2 && Pow2(e - 1) < t <= Pow2(e)
    requires CountAbove(Order(e - 1), Pow2(e) - t) == Pow2(e - 1) - (Pow2(e) - t)
    ensures CountAbove(Order(e), t) == Pow2(e) - t
  {
    var s := Order(e - 1);
    OrderRange(e - 1);
    CountAboveExpand(s, e, t);
    CountSplit(s, Pow2(e) - t);
    CountAboveBounded(s, Pow2(e - 1), t);
  }

  /** Positions of s (ascending) whose entry exceeds t. */
  function Above(s: seq<int>, t: int): (r: seq<nat>)
    ensures forall k :: 0 <= k < |r| ==> r[k] < |s| && s[r[k]] > t
  {
    if s == [] then []
    else Above(s[..|s| - 1], t) + (if s[|s| - 1] > t then [|s| - 1] else [])
  }

  lemma {:induction false} CountAboveSnoc(s: seq<int>, x: int, t: int)
    ensures CountAbove(s + [x], t) == CountAbove(s, t) + (if x > t then 1 else 0)
  {
    if s != [] {
      assert (s + [x])[1..] == s[1..] + [x];
      CountAboveSnoc(s[1..], x, t);
    }
  }

  lemma {:induction false} AboveCount(s: seq<int>, t: int)
    ensures |Above(s, t)| == CountAbove(s, t)
  {
    if s != [] {
      var p := s[..|s| - 1];
      AboveCount(p, t);
      assert s == p + [s[|s| - 1]];
      CountAboveSnoc(p, s[|s| - 1], t);
    }
  }

  /** Above lists the positions in increasing order. */
  lemma {:induction false} AboveIncreasing(s: seq<int>, t: int)
    ensures forall k, l :: 0 <= k < l < |Above(s, t)| ==> Above(s, t)[k] < Above(s, t)[l]
  {
    if s != [] {
      AboveIncreasing(s[..|s| - 1], t);
    }
  }

  /** Every position whose entry exceeds t is listed. */
  lemma {:induction false} AboveComplete(s: seq<int>, t: int, p: nat)
    requires p < |s| && s[p] > t
    ensures p in Above(s, t)
  {
    if p < |s| - 1 {
      AboveComplete(s[..|s| - 1], t, p);
    }
  }

  /** The positions listed for a prefix of s are a prefix of those listed for s. */
  lemma {:induction false} AbovePrefix(s: seq<int>, t: int, p: nat)
    requires p <= |s|
    ensures Above(s[..p], t) <= Above(s, t)
  {
    if p < |s| {
      var q := s[..|s| - 1];
      assert q[..p] == s[..p];
      AbovePrefix(q, t, p);
    } else {
      assert s[..p] == s;
    }
  }

  /** Above grows by the new position exactly when the new entry exceeds t. */
  lemma AboveSnoc(s: seq<int>, p: nat, t: int)
    requires p < |s|
    ensures Above(s[..p + 1], t) == Above(s[..p], t) + (if s[p] > t then [p] else [])
  {
    assert s[..p + 1][..p] == s[..p];
  }
}
