/** The round structure the source lays out for N players, as a sequence of
    round sizes starting at the starting round
    (src/DoubleElimination.ts:19-24, 41-46, 49-66, 105, 113-144). */
module Layout {
  import opened Arith

  /** floorExp of line 21. */
  function F(n: nat): nat requires n >= 1 { FloorLog2(n) }

  /** ceilExp of line 22. */
  function C(n: nat): nat requires n >= 1 { CeilLog2(n) }

  /** remainder of line 24: the players beyond the largest power of two. */
  function Rem(n: nat): (r: nat)
    requires n >= 1
    ensures r < Pow2(F(n))
    ensures r == 0 <==> C(n) == F(n)
  {
    n - Pow2(F(n))
  }

  /** 2^(floorExp - 1): the size of the first full winners round. */
  function Half(n: nat): (h: nat)
    requires n >= 4
    ensures 2 * h == Pow2(F(n)) && h >= 2
  {
    Pow2MonotoneFour(n);
    Pow2(F(n) - 1)
  }

  lemma Pow2MonotoneFour(n: nat)
    requires n >= 4
    ensures F(n) >= 2
  {
    if F(n) < 2 {
      Pow2Monotone(F(n) + 1, 2);
    }
  }

  /** Offset of the first winners round: one past the bye round when there is one. */
  function Wb(n: nat): nat requires n >= 1 { if Rem(n) == 0 then 0 else 1 }

  /** Offset of the grand-final slot, roundDiff - startingRound. */
  function Gf(n: nat): (d: nat)
    requires n >= 1
    ensures d == Wb(n) + F(n)
  {
    C(n)
  }

  /** Number of losers pre-fill rounds (lines 113-132). */
  function PrefillCount(n: nat): nat
    requires n >= 4
  {
    if Rem(n) == 0 then 0 else if Rem(n) <= Half(n) then 1 else 2
  }

  /** Offset of the first losers round of the main ladder. */
  function Lb(n: nat): nat requires n >= 4 { Gf(n) + 1 + PrefillCount(n) }

  /** 2^e, 2^(e-1), ..., 1: the winners rounds. */
  function Halving(e: nat): (r: seq<nat>)
    ensures |r| == e + 1
    ensures forall k :: 0 <= k <= e ==> r[k] == Pow2(e - k)
  {
    if e == 0 then [1] else [Pow2(e)] + Halving(e - 1)
  }

  /** 2^l, 2^l, 2^(l-1), 2^(l-1), ..., 1, 1: the losers ladder of lines 135-144. */
  function Ladder(l: nat): (r: seq<nat>)
    ensures |r| == 2 * (l + 1)
    ensures forall k :: 0 <= k < |r| ==> r[k] == Pow2(l - k / 2)
  {
    if l == 0 then [1, 1] else [Pow2(l), Pow2(l)] + Ladder(l - 1)
  }

  function ByeRounds(n: nat): seq<nat>
    requires n >= 1
  {
    if Rem(n) == 0 then [] else [Rem(n)]
  }

  function Prefill(n: nat): (r: seq<nat>)
    requires n >= 4
    ensures |r| == PrefillCount(n)
  {
    if Rem(n) == 0 then []
    else if Rem(n) <= Half(n) then [Rem(n)]
    else [Rem(n) - Half(n), Half(n)]
  }

  /** The sizes of the rounds startingRound, startingRound + 1, ... in order
      (lines 41-46, 49-66, 105, 113-144). */
  function RoundSizes(n: nat): (r: seq<nat>)
    requires n >= 4
  {
    ByeRounds(n) + Halving(F(n) - 1) + [1] + Prefill(n) + Ladder(F(n) - 2)
  }

  /** The size of round startingRound + i, case by case: the bye round of
      `remainder` matches if any, the winners rounds halving from
      2^(floorExp-1) down to 1, the single grand-final slot, the pre-fill
      rounds, then two rounds of 2^l for l = floorExp-2 down to 0. */
  function SizeAt(n: nat, i: nat): (s: nat)
    requires n >= 4 && i < Lb(n) + 2 * (F(n) - 1)
    ensures s >= 1
  {
    Pow2MonotoneFour(n);
    if i < Wb(n) then Rem(n)
    else if i < Gf(n) then Pow2(Gf(n) - 1 - i)
    else if i == Gf(n) then 1
    else if i < Lb(n) then (if i == Gf(n) + 1 && Rem(n) <= Half(n) then Rem(n) else if i == Gf(n) + 1 then Rem(n) - Half(n) else Half(n))
    else Pow2(F(n) - 2 - (i - Lb(n)) / 2)
  }

  lemma RoundSizesLength(n: nat)
    requires n >= 4
    ensures |RoundSizes(n)| == Lb(n) + 2 * (F(n) - 1)
  {
    Pow2MonotoneFour(n);
  }

  /** The concatenated layout agrees with the case-by-case sizes. */
  lemma RoundSizesAt(n: nat, i: nat)
    requires n >= 4 && i < Lb(n) + 2 * (F(n) - 1)
    ensures |RoundSizes(n)| == Lb(n) + 2 * (F(n) - 1)
    ensures RoundSizes(n)[i] == SizeAt(n, i)
  {
    Pow2MonotoneFour(n);
    var s3 := ByeRounds(n) + Halving(F(n) - 1) + [1] + Prefill(n);
    var l := Ladder(F(n) - 2);
    assert RoundSizes(n) == s3 + l;
    assert |s3| == Lb(n);
    if i < Lb(n) {
      assert RoundSizes(n)[i] == s3[i];
      FrontAt(n, i);
    } else {
      assert RoundSizes(n)[i] == l[i - Lb(n)];
    }
  }

  lemma FrontAt(n: nat, i: nat)
    requires n >= 4 && i < Lb(n)
    ensures var s3 := ByeRounds(n) + Halving(F(n) - 1) + [1] + Prefill(n);
      |s3| == Lb(n) && s3[i] == SizeAt(n, i)
  {
    Pow2MonotoneFour(n);
    var s1 := ByeRounds(n) + Halving(F(n) - 1);
    var s2 := s1 + [1];
    var s3 := s2 + Prefill(n);
    assert |s1| == Gf(n);
    if i <= Gf(n) {
      assert s3[i] == s2[i];
      if i < Gf(n) {
        assert s2[i] == s1[i];
        WinnersAt(n, i);
      }
    } else {
      assert s3[i] == Prefill(n)[i - Gf(n) - 1];
    }
  }

  lemma WinnersAt(n: nat, i: nat)
    requires n >= 4 && i < Gf(n)
    ensures var s1 := ByeRounds(n) + Halving(F(n) - 1);
      |s1| == Gf(n) && s1[i] == SizeAt(n, i)
  {
    Pow2MonotoneFour(n);
    var s1 := ByeRounds(n) + Halving(F(n) - 1);
    if i < Wb(n) {
      assert s1[i] == ByeRounds(n)[i];
    } else {
      assert s1[i] == Halving(F(n) - 1)[i - Wb(n)];
    }
  }

  /** The sizes the cross-linking of step 12 relies on: the bye round has
      `remainder` matches, the first real round 2^(floorExp-1), the first
      ladder round half as many, and the pre-fill rounds as laid out. */
  lemma LinkSizes(n: nat)
    requires n >= 4
    ensures Gf(n) + 1 + PrefillCount(n) == Lb(n) < Lb(n) + 2 * (F(n) - 1)
    ensures Half(n) == 2 * Pow2(F(n) - 2)
    ensures Rem(n) == 0 ==> SizeAt(n, 0) == Half(n)
    ensures Rem(n) != 0 ==> SizeAt(n, 0) == Rem(n) && SizeAt(n, 1) == Half(n)
    ensures 2 * SizeAt(n, Lb(n)) == Half(n)
    ensures 0 < Rem(n) <= Half(n) ==> SizeAt(n, Gf(n) + 1) == Rem(n)
    ensures Rem(n) > Half(n) ==> SizeAt(n, Gf(n) + 1) == Rem(n) - Half(n) && SizeAt(n, Gf(n) + 2) == Half(n)
  {
    Pow2MonotoneFour(n);
  }
}
