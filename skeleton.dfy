/** The round/match skeleton: the bye round, the winners rounds with their
    win pointers, the grand-final slot and the losers rounds
    (src/DoubleElimination.ts:38-66, 104-144). */
module Skeleton {
  import opened Arith
  import opened Layout
  import opened Arena

  /** `Math.ceil(m / 2)` for a match number m >= 0. */
  function CeilHalf(m: nat): (r: nat)
    ensures 2 * r - 1 <= m <= 2 * r
  {
    (m + 1) / 2
  }

  /** One `for (i = 0; i < k; i++) matches.push({ round, match: i + 1, ... })`
      loop, pushing a fresh round of k blank matches. */
  method PushRound<P>(a: Matches<P>, round: int, k: nat)
    requires round == a.first + |a.rounds| && k >= 1
    modifies a
    ensures a.rounds == old(a.rounds) + [Blanks(k)]
  {
    var i := 0;
    while i < k
      invariant 0 <= i <= k
      invariant a.rounds == old(a.rounds) + (if i == 0 then [] else [Blanks(i)])
    {
      a.Push(Slot(round, i + 1));
      assert i == 0 ==> [Blank<P>()] == Blanks(1);
      assert i > 0 ==> Blanks<P>(i) + [Blank()] == Blanks(i + 1);
      i := i + 1;
    }
  }

  /** Step 4 (lines 41-46): the bye round of `remainder` matches, if any. */
  method AddByeRound<P>(a: Matches<P>, round: int, remainder: nat) returns (next: int)
    requires a.rounds == [] && round == a.first
    modifies a
    ensures next == round + (if remainder == 0 then 0 else 1)
    ensures a.rounds == if remainder == 0 then [] else [Blanks(remainder)]
  {
    next := round;
    if remainder != 0 {
      PushRound(a, next, remainder);
      next := next + 1;
    }
  }

  /** A winners-round match whose win pointer names match ceil(m / 2) of round `next`. */
  function Advancing<P>(next: int, j: nat): Match<P>
  {
    Blank().(win := Some(Slot(next, CeilHalf(j + 1))))
  }

  /** Every match of the row wins into match ceil(m / 2) of round `next`. */
  ghost predicate AllAdvancing<P>(row: seq<Match<P>>, next: int)
  {
    forall j :: 0 <= j < |row| ==> row[j] == Advancing(next, j)
  }

  /** Lines 55-60: every match m of round `round - 1` wins into
      `{ round, match: ceil(m / 2) }`. */
  method LinkToNext<P>(a: Matches<P>, round: int)
    requires |a.rounds| >= 2 && round == a.first + |a.rounds| - 1
    requires |a.rounds[|a.rounds| - 2]| <= 2 * |a.rounds[|a.rounds| - 1]|
    requires AllBlank(a.rounds[|a.rounds| - 2])
    modifies a
    ensures |a.rounds| == |old(a.rounds)|
    ensures forall i :: 0 <= i < |a.rounds| && i != |a.rounds| - 2 ==> a.rounds[i] == old(a.rounds)[i]
    ensures var p := |a.rounds| - 2;
      |a.rounds[p]| == |old(a.rounds)[p]| && AllAdvancing(a.rounds[p], round)
  {
    var p := |a.rounds| - 2;
    var count := a.Size(round - 1);
    var j := 0;
    while j < count
      invariant 0 <= j <= count && |a.rounds| == |old(a.rounds)|
      invariant forall i :: 0 <= i < |a.rounds| && i != p ==> a.rounds[i] == old(a.rounds)[i]
      invariant |a.rounds[p]| == count
      invariant forall k :: 0 <= k < count ==> a.rounds[p][k] == if k < j then Advancing(round, k) else Blank()
    {
      a.SetWin(Slot(round - 1, j + 1), Slot(round, CeilHalf(j + 1)));
      j := j + 1;
    }
  }

  /** Step 5 (lines 49-66): the do-while loop that pushes rounds of
      2^matchExp matches for matchExp = floorExp-1 down to 0, linking each
      finished round to the next one. */
  method AddWinnersRounds<P>(a: Matches<P>, round: int, n: nat) returns (next: int)
    requires n >= 4
    requires round == a.first + Wb(n) && |a.rounds| == Wb(n)
    modifies a
    ensures next == a.first + Gf(n) && |a.rounds| == Gf(n)
    ensures a.rounds[..Wb(n)] == old(a.rounds)
    ensures forall i :: Wb(n) <= i < Gf(n) ==> |a.rounds[i]| == Pow2(Gf(n) - 1 - i)
    ensures forall i :: Wb(n) <= i < Gf(n) - 1 ==> AllAdvancing(a.rounds[i], a.first + i + 1)
    ensures AllBlank(a.rounds[Gf(n) - 1])
  {
    var startingRound := a.first;
    var wb, gf := Wb(n), Gf(n);
    var ceilExp := C(n);
    assert gf == startingRound + ceilExp - a.first;
    next := round;
    var matchExp: int := F(n) - 1;
    var iterated := false;
    var more := true;
    while more
      invariant round <= next <= startingRound + ceilExp
      invariant more ==> next < startingRound + ceilExp
      invariant !more ==> next == startingRound + ceilExp
      invariant matchExp == gf - 1 - (next - startingRound) && iterated == (next > round)
      invariant |a.rounds| == next - startingRound
      invariant a.rounds[..wb] == old(a.rounds)
      invariant forall i :: wb <= i < |a.rounds| ==> |a.rounds[i]| == Pow2(gf - 1 - i)
      invariant forall i :: wb <= i < |a.rounds| - 1 ==> AllAdvancing(a.rounds[i], a.first + i + 1)
      invariant |a.rounds| > wb ==> AllBlank(a.rounds[|a.rounds| - 1])
      decreases startingRound + ceilExp - next
    {
      WinnersStep(a, next, matchExp, iterated, wb, gf);
      iterated := true;
      next := next + 1;
      matchExp := matchExp - 1;
      more := next < startingRound + ceilExp;
    }
  }

  /** One pass of the do-while body of step 5. */
  method WinnersStep<P>(a: Matches<P>, next: int, matchExp: int, iterated: bool, wb: nat, gf: nat)
    requires next == a.first + |a.rounds| && wb <= |a.rounds| < gf
    requires matchExp == gf - 1 - |a.rounds| && iterated == (|a.rounds| > wb)
    requires forall i :: wb <= i < |a.rounds| ==> |a.rounds[i]| == Pow2(gf - 1 - i)
    requires forall i :: wb <= i < |a.rounds| - 1 ==> AllAdvancing(a.rounds[i], a.first + i + 1)
    requires |a.rounds| > wb ==> AllBlank(a.rounds[|a.rounds| - 1])
    modifies a
    ensures |a.rounds| == |old(a.rounds)| + 1
    ensures a.rounds[..wb] == old(a.rounds)[..wb]
    ensures forall i :: wb <= i < |a.rounds| ==> |a.rounds[i]| == Pow2(gf - 1 - i)
    ensures forall i :: wb <= i < |a.rounds| - 1 ==> AllAdvancing(a.rounds[i], a.first + i + 1)
    ensures AllBlank(a.rounds[|a.rounds| - 1])
  {
    ghost var r0 := a.rounds;
    PushRound(a, next, Pow2(matchExp));
    ghost var mid := a.rounds;
    assert mid == r0 + [Blanks(Pow2(matchExp))];
    if iterated {
      assert Pow2(matchExp + 1) == 2 * Pow2(matchExp);
      LinkToNext(a, next);
      forall i | wb <= i < |a.rounds| - 1
        ensures AllAdvancing(a.rounds[i], a.first + i + 1)
      {
        if i < |a.rounds| - 2 {
          assert a.rounds[i] == r0[i];
        }
      }
      forall i | wb <= i < |a.rounds|
        ensures |a.rounds[i]| == Pow2(gf - 1 - i)
      {
        assert |a.rounds[i]| == |mid[i]|;
      }
      assert a.rounds[|a.rounds| - 1] == mid[|a.rounds| - 1];
      assert a.rounds[..wb] == r0[..wb] by {
        forall i | 0 <= i < wb ensures a.rounds[i] == r0[i] { }
      }
    } else {
      assert a.rounds[..wb] == r0[..wb];
    }
  }

  /** Step 8 (lines 104-111): the single grand-final slot; the first match of
      the winners final wins into it. */
  method AddGrandFinal<P>(a: Matches<P>, round: int) returns (next: int)
    requires |a.rounds| >= 1 && round == a.first + |a.rounds|
    requires |a.rounds[|a.rounds| - 1]| >= 1
    modifies a
    ensures next == round + 1 && |a.rounds| == |old(a.rounds)| + 1
    ensures a.rounds[..|old(a.rounds)| - 1] == old(a.rounds)[..|old(a.rounds)| - 1]
    ensures var w := |old(a.rounds)| - 1;
      && |a.rounds[w]| == |old(a.rounds)[w]|
      && a.rounds[w][0] == old(a.rounds)[w][0].(win := Some(Slot(round, 1)))
      && a.rounds[w][1..] == old(a.rounds)[w][1..]
    ensures a.rounds[|a.rounds| - 1] == [Blank()]
  {
    a.Push(Slot(round, 1));
    // `matches.find(m => m.round === round - 1)`: the first match of the winners final.
    var prev := Slot(round - 1, 1);
    if a.Has(prev) {
      a.SetWin(prev, Slot(round, 1));
    }
    next := round + 1;
  }

  /** Step 9 (lines 113-132): the losers pre-fill rounds that absorb the
      losers of the bye round. */
  method AddPrefill<P>(a: Matches<P>, round: int, n: nat) returns (next: int)
    requires n >= 4 && round == a.first + |a.rounds|
    modifies a
    ensures next == round + PrefillCount(n)
    ensures a.rounds == old(a.rounds) + seq(PrefillCount(n), i requires 0 <= i < PrefillCount(n) => Blanks(Prefill(n)[i]))
  {
    var remainder := Rem(n);
    var half := Pow2(F(n) - 1);
    next := round;
    if remainder != 0 {
      if remainder <= half {
        PushRound(a, next, remainder);
        next := next + 1;
      } else {
        PushRound(a, next, remainder - half);
        next := next + 1;
        PushRound(a, next, half);
        next := next + 1;
      }
    }
  }

  /** The inner `for (side = 0; side < 2; side++)` loop of step 10. */
  method PushSides<P>(a: Matches<P>, round: int, loserExp: nat) returns (next: int)
    requires round == a.first + |a.rounds|
    modifies a
    ensures next == round + 2
    ensures a.rounds == old(a.rounds) + [Blanks(Pow2(loserExp)), Blanks(Pow2(loserExp))]
  {
    next := round;
    var side := 0;
    while side < 2
      invariant 0 <= side <= 2 && next == round + side && next == a.first + |a.rounds|
      invariant a.rounds == old(a.rounds) + seq(side, _ => Blanks<P>(Pow2(loserExp)))
    {
      PushRound(a, next, Pow2(loserExp));
      assert seq(side + 1, _ => Blanks<P>(Pow2(loserExp))) == seq(side, _ => Blanks<P>(Pow2(loserExp))) + [Blanks(Pow2(loserExp))];
      next := next + 1;
      side := side + 1;
    }
  }

  /** Rows base.. of rs are the losers ladder below exponent top: two blank
      rounds of 2^top matches, two of 2^(top-1), and so on. */
  ghost predicate LosersLadder<P>(rs: seq<seq<Match<P>>>, base: nat, top: int)
  {
    forall i :: base <= i < |rs| ==>
      (i - base) / 2 <= top && AllBlank(rs[i]) && |rs[i]| == Pow2(top - (i - base) / 2)
  }

  /** One more pair of rounds of 2^e matches extends the ladder. */
  lemma LadderGrow<P>(rs: seq<seq<Match<P>>>, base: nat, top: int, e: nat)
    requires base <= |rs| && |rs| == base + 2 * (top - e) && LosersLadder(rs, base, top)
    ensures LosersLadder(rs + [Blanks(Pow2(e)), Blanks(Pow2(e))], base, top)
  {
    var rs' := rs + [Blanks(Pow2(e)), Blanks(Pow2(e))];
    var k := 2 * (top - e);
    forall i | base <= i < |rs'|
      ensures (i - base) / 2 <= top && AllBlank(rs'[i]) && |rs'[i]| == Pow2(top - (i - base) / 2)
    {
      if i < base + k {
        assert rs'[i] == rs[i];
      } else {
        assert (i - base) / 2 == top - e;
        assert rs'[i] == Blanks(Pow2(e));
      }
    }
  }

  /** Step 10 (lines 134-144): the do-while loop over loserExp = floorExp-2
      down to 0, two rounds of 2^loserExp matches each. */
  method AddLosersLadder<P>(a: Matches<P>, round: int, n: nat) returns (next: int)
    requires n >= 4 && round == a.first + |a.rounds|
    modifies a
    ensures next == round + 2 * (F(n) - 1) && next == a.first + |a.rounds|
    ensures forall i :: 0 <= i < |old(a.rounds)| ==> a.rounds[i] == old(a.rounds)[i]
    ensures LosersLadder(a.rounds, |old(a.rounds)|, F(n) - 2)
  {
    Pow2MonotoneFour(n);
    var top := F(n) - 2;
    var base := |a.rounds|;
    next := round;
    var loserExp: int := top;
    // The do-while body runs at least once, as top >= 0.
    while loserExp > -1
      invariant -1 <= loserExp <= top
      invariant next == round + 2 * (top - loserExp) && next == a.first + |a.rounds|
      invariant forall i :: 0 <= i < base ==> a.rounds[i] == old(a.rounds)[i]
      invariant LosersLadder(a.rounds, base, top)
      decreases loserExp + 1
    {
      next := LadderStep(a, next, base, top, loserExp);
      loserExp := loserExp - 1;
    }
  }

  /** One pass of the do-while body of step 10. */
  method LadderStep<P>(a: Matches<P>, round: int, base: nat, top: int, loserExp: nat) returns (next: int)
    requires round == a.first + |a.rounds| && base <= |a.rounds| == base + 2 * (top - loserExp)
    requires LosersLadder(a.rounds, base, top)
    modifies a
    ensures next == round + 2 && next == a.first + |a.rounds|
    ensures forall i :: 0 <= i < |old(a.rounds)| ==> a.rounds[i] == old(a.rounds)[i]
    ensures LosersLadder(a.rounds, base, top)
  {
    LadderGrow(a.rounds, base, top, loserExp);
    next := PushSides(a, round, loserExp);
  }
}
