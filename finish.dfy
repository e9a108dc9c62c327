/** Step 13 of src/DoubleElimination.ts (lines 290-309): the loss
    pointers of the winners rounds that step 12 leaves unrouted. */
module Finish {
  import opened Arith
  import opened Layout
  import opened FillPattern
  import opened Arena
  import opened CrossLink

  /** The number of matches of row j, zero outside the arena: what
      `matches.filter(m => m.round === startingRound + j).length` counts. */
  function Len<P>(rs: seq<seq<Match<P>>>, j: int): nat
  {
    if 0 <= j < |rs| then |rs[j]| else 0
  }

  /** Row of `winRound` after step 12: the first winners round step 13 links. */
  function LinkStart(n: nat): nat
    requires n >= 4
  {
    if 0 < Rem(n) <= Half(n) then 2 else 1
  }

  /** Row of `loseRound` after step 12. */
  function LoseStart(n: nat): nat
    requires n >= 4
  {
    if Rem(n) > Half(n) then Lb(n) - 1 else Lb(n) + 1
  }

  /** The counter `ff` when step 13 reaches winners row i. */
  function Shifts(n: nat, i: nat): nat
    requires n >= 4
  {
    var k := i - Wb(n);
    if Rem(n) > Half(n) then (if k <= 1 then 0 else k - 1) else (if k <= 2 then 0 else k - 2)
  }

  /** loseRound - winRound + ff + r of line 294, as a row. */
  function Base(n: nat, i: nat): int
    requires n >= 4
  {
    LoseStart(n) - LinkStart(n) + Shifts(n, i) + i
  }

  /** The losers row that winners row i drops its losers into: the second
      ladder round of the pair whose size is that of row i, or, for the
      first real winners round in the large case, the second pre-fill round. */
  function DropRow(n: nat, i: nat): int
    requires n >= 4
  {
    var k := i - Wb(n);
    if k == 0 then Gf(n) + 2 else Lb(n) + 2 * k - 1
  }

  lemma Pow2Even(k: nat)
    requires k >= 1
    ensures Pow2(k) % 2 == 0 && Pow2(k) == 2 * Pow2(k - 1)
  {
    var h := Pow2(k - 1);
    assert Pow2(k) == 2 * h;
    assert (2 * h) % 2 == 0;
  }

  /** Step 13 at winners row i, as the layout decides it: the size
      comparison of lines 299-302 picks DropRow(n, i), that losers round has
      exactly as many matches as row i, and that number is a power of two. */
  ghost predicate Plan<P>(rs: seq<seq<Match<P>>>, n: nat, i: nat)
    requires n >= 4
  {
    var b := Base(n, i);
    && DropRow(n, i) == (if Len(rs, b) == Len(rs, b + 1) then b + 1 else b)
    && Shifts(n, i + 1) == Shifts(n, i) + (DropRow(n, i) - b)
    && 0 <= DropRow(n, i) < |rs| && i < |rs| && |rs[DropRow(n, i)]| == |rs[i]|
    && (|rs[i]| % 2 == 0 || |rs[i]| == 1)
  }

  lemma ShiftPlan<P>(rs: seq<seq<Match<P>>>, n: nat, i: nat)
    requires n >= 4 && Shaped(rs, n) && LinkStart(n) <= i < Gf(n)
    ensures Plan(rs, n, i)
  {
    if Rem(n) > Half(n) && i == 1 {
      ShiftPlanFirstLarge(rs, n, i);
    } else if Rem(n) <= Half(n) && i == Wb(n) + 1 {
      ShiftPlanFirst(rs, n, i);
    } else {
      ShiftPlanPair(rs, n, i);
    }
  }

  /** Large case, first real winners round: its losers stay in the second
      pre-fill round, which is twice the size of the first ladder round. */
  lemma ShiftPlanFirstLarge<P>(rs: seq<seq<Match<P>>>, n: nat, i: nat)
    requires n >= 4 && Shaped(rs, n) && Rem(n) > Half(n) && i == 1
    ensures Plan(rs, n, i)
  {
    Pow2MonotoneFour(n);
    assert Base(n, i) == Gf(n) + 2 == DropRow(n, i) && Shifts(n, i + 1) == Shifts(n, i) == 0;
    assert |rs[Gf(n) + 2]| == SizeAt(n, Gf(n) + 2) == Half(n);
    assert |rs[i]| == SizeAt(n, i) == Half(n);
    assert |rs[Gf(n) + 3]| == SizeAt(n, Gf(n) + 3) == Pow2(F(n) - 2);
    Pow2Even(F(n) - 1);
  }

  /** Perfect and small cases, first winners round after step 12: its losers
      go to the second ladder round, whose successor is half as large or
      missing. */
  lemma ShiftPlanFirst<P>(rs: seq<seq<Match<P>>>, n: nat, i: nat)
    requires n >= 4 && Shaped(rs, n) && Rem(n) <= Half(n) && i == Wb(n) + 1 && i < Gf(n)
    ensures Plan(rs, n, i)
  {
    Pow2MonotoneFour(n);
    assert Base(n, i) == Lb(n) + 1 == DropRow(n, i) && Shifts(n, i + 1) == Shifts(n, i) == 0;
    assert |rs[Lb(n) + 1]| == SizeAt(n, Lb(n) + 1) == Pow2(F(n) - 2);
    assert |rs[i]| == SizeAt(n, i) == Pow2(F(n) - 2);
    if F(n) > 2 {
      Pow2Even(F(n) - 2);
    }
    if Lb(n) + 2 < |rs| {
      assert |rs[Lb(n) + 2]| == SizeAt(n, Lb(n) + 2) == Pow2(F(n) - 3);
    }
  }

  /** Every later winners round meets a ladder pair of its own size and
      takes the second round of the pair. */
  lemma ShiftPlanPair<P>(rs: seq<seq<Match<P>>>, n: nat, i: nat)
    requires n >= 4 && Shaped(rs, n) && LinkStart(n) <= i < Gf(n)
    requires !(Rem(n) > Half(n) && i == 1) && !(Rem(n) <= Half(n) && i == Wb(n) + 1)
    ensures Plan(rs, n, i)
  {
    Pow2MonotoneFour(n);
    var k := i - Wb(n);
    var b := Base(n, i);
    assert k >= 1;
    assert b == Lb(n) + 2 * k - 2 && b + 1 == DropRow(n, i) && Shifts(n, i + 1) == Shifts(n, i) + 1;
    assert (b - Lb(n)) / 2 == k - 1 && (b + 1 - Lb(n)) / 2 == k - 1;
    assert |rs[b]| == SizeAt(n, b) == Pow2(F(n) - 1 - k);
    assert |rs[b + 1]| == SizeAt(n, b + 1) == Pow2(F(n) - 1 - k);
    assert |rs[i]| == SizeAt(n, i) == Pow2(F(n) - 1 - k);
    if F(n) - 1 - k >= 1 {
      Pow2Even(F(n) - 1 - k);
    }
  }

  /** Winners round `orig` of step-13 phase fc after its losers were routed:
      match m + 1 loses into match Pattern(|orig|, fc)[m] of round target. */
  ghost predicate Dropped<P>(cur: seq<Match<P>>, orig: seq<Match<P>>, target: int, fc: nat)
  {
    && |cur| == |orig|
    && forall m {:trigger cur[m]} :: 0 <= m < |orig| ==>
         cur[m] == orig[m].(loss := Some(Slot(target, Pattern(|orig|, fc)[m])))
  }

  /** Lines 305-308: losers match j + 1 of round lA takes the loser of the
      winners match numbered fp[j] of round r, when there is one. fp is its
      own inverse, so winners match m + 1 is the one named by fp[m]. */
  method DropLosers<P>(a: Matches<P>, ghost w: nat, r: int, lA: int, fp: seq<int>)
    requires r == a.first + w && w < |a.rounds|
    requires |fp| == |a.rounds[w]| && Involutive(fp)
    modifies a
    ensures |a.rounds| == |old(a.rounds)| && |a.rounds[w]| == |old(a.rounds)[w]|
    ensures forall i :: 0 <= i < |a.rounds| && i != w ==> a.rounds[i] == old(a.rounds)[i]
    ensures forall m {:trigger a.rounds[w][m]} :: 0 <= m < |a.rounds[w]| ==>
      a.rounds[w][m] == if fp[m] <= a.Size(lA) then old(a.rounds)[w][m].(loss := Some(Slot(lA, fp[m])))
                        else old(a.rounds)[w][m]
  {
    ghost var row := a.rounds[w];
    var count := a.Size(lA);
    var j := 0;
    forall m | 0 <= m < |fp|
      ensures 1 <= fp[m]
    {
      assert Partnered(fp, m);
    }
    while j < count
      invariant 0 <= j <= count && count == a.Size(lA)
      invariant |a.rounds| == |old(a.rounds)| && |a.rounds[w]| == |row|
      invariant forall i :: 0 <= i < |a.rounds| ==> |a.rounds[i]| == |old(a.rounds)[i]|
      invariant forall i :: 0 <= i < |a.rounds| && i != w ==> a.rounds[i] == old(a.rounds)[i]
      invariant forall m {:trigger a.rounds[w][m]} :: 0 <= m < |row| ==>
        a.rounds[w][m] == if fp[m] <= j then row[m].(loss := Some(Slot(lA, fp[m]))) else row[m]
    {
      forall m | 0 <= m < |fp|
        ensures 1 <= fp[m] <= |fp| && (j < |fp| ==> (fp[m] == j + 1 <==> m == fp[j] - 1))
      {
        assert Partnered(fp, m);
        if j < |fp| {
          assert Partnered(fp, j);
        }
      }
      if j < |fp| {
        a.SetLoss(Slot(r, fp[j]), Slot(lA, j + 1));
      }
      j := j + 1;
    }
  }

  /** One winners round of step 13 (lines 303-308), with a losers round of
      the same size: every match gets its loss pointer from the pattern. */
  method DropRound<P>(a: Matches<P>, ghost w: nat, r: int, lA: int, ghost fc: nat, fp: seq<int>)
    requires r == a.first + w && w < |a.rounds| && a.Size(lA) == |a.rounds[w]|
    requires fp == Pattern(|a.rounds[w]|, fc) && (|fp| % 2 == 0 || |fp| == 1)
    modifies a
    ensures |a.rounds| == |old(a.rounds)| && forall i :: 0 <= i < |a.rounds| ==> |a.rounds[i]| == |old(a.rounds)[i]|
    ensures forall i :: 0 <= i < |a.rounds| && i != w ==> a.rounds[i] == old(a.rounds)[i]
    ensures Dropped(a.rounds[w], old(a.rounds)[w], lA, fc)
  {
    PatternInvolution(|fp|, fc);
    forall m | 0 <= m < |fp|
      ensures fp[m] <= |fp|
    {
      assert Partnered(fp, m);
    }
    DropLosers(a, w, r, lA, fp);
  }

  /** One pass of the loop of lines 292-309 at winners round r: the size
      test picks the losers round lA (base, or the next round when both are
      the same size), then the losers of round r are routed in phase fc.
      `shift` is what the pass adds to `ff`. */
  method FinishStep<P>(a: Matches<P>, ghost s0: seq<seq<Match<P>>>, ghost i: nat, r: int, base: int, fc: nat,
                       ghost target: int) returns (shift: nat)
    requires r == a.first + i && i < |s0| && fc == i
    requires |a.rounds| == |s0| && forall j :: 0 <= j < |s0| ==> |a.rounds[j]| == |s0[j]|
    requires a.rounds[i] == s0[i]
    requires target == (if Len(s0, base - a.first) == Len(s0, base - a.first + 1) then base + 1 else base)
    requires Len(s0, target - a.first) == |s0[i]| && (|s0[i]| % 2 == 0 || |s0[i]| == 1)
    modifies a
    ensures shift == target - base
    ensures |a.rounds| == |s0| && forall j :: 0 <= j < |s0| ==> |a.rounds[j]| == |s0[j]|
    ensures forall j :: 0 <= j < |a.rounds| && j != i ==> a.rounds[j] == old(a.rounds)[j]
    ensures Dropped(a.rounds[i], s0[i], target, i)
  {
    var lA := base;
    shift := 0;
    if a.Size(base) == a.Size(base + 1) {
      lA := base + 1;
      shift := 1;
    }
    var fp := Pattern(a.Size(r), fc);
    DropRound(a, i, r, lA, fc, fp);
  }

  /** What one pass of step 13 needs to know about winners row i: with
      base the round loseRound - winRound + ff + r for ff = shifts[i], the
      size test picks targets[i], a losers round as large as row i, whose
      size is a power of two, and ff moves on to shifts[i + 1]. */
  ghost predicate PassPlan<P>(s0: seq<seq<Match<P>>>, first: int, d: int, shifts: seq<int>, targets: seq<int>, i: nat)
  {
    && i < |s0| && i < |targets| && i + 1 < |shifts|
    && var base := first + d + shifts[i] + i;
       && targets[i] == (if Len(s0, base - first) == Len(s0, base - first + 1) then base + 1 else base)
       && Len(s0, targets[i] - first) == |s0[i]| && (|s0[i]| % 2 == 0 || |s0[i]| == 1)
       && shifts[i + 1] == shifts[i] + (targets[i] - base)
  }

  /** Winners rows lo .. hi - 1 of rs are those of s0 with their losers
      routed into the rounds of targets. */
  ghost predicate DroppedFrom<P>(rs: seq<seq<Match<P>>>, s0: seq<seq<Match<P>>>, targets: seq<int>, lo: nat, hi: int)
  {
    forall i :: lo <= i < hi ==> i < |rs| && i < |s0| && i < |targets| && Dropped(rs[i], s0[i], targets[i], i)
  }

  /** The loop of lines 292-309, over winners rows lo .. hi - 1, given the
      plan its size tests follow. */
  method FinishLoop<P>(a: Matches<P>, winRound: int, loseRound: int, fillCount: nat, roundDiff: int,
                       ghost lo: nat, ghost hi: nat, ghost d: int, ghost shifts: seq<int>, ghost targets: seq<int>)
    requires d == loseRound - winRound && winRound == a.first + lo && fillCount == lo && roundDiff == a.first + hi && lo <= hi <= |a.rounds|
    requires |shifts| > hi && shifts[lo] == 0
    requires forall i :: lo <= i < hi ==> PassPlan(a.rounds, a.first, d, shifts, targets, i)
    modifies a
    ensures |a.rounds| == |old(a.rounds)| && forall i :: 0 <= i < |a.rounds| ==> |a.rounds[i]| == |old(a.rounds)[i]|
    ensures forall i :: 0 <= i < |a.rounds| && !(lo <= i < hi) ==> a.rounds[i] == old(a.rounds)[i]
    ensures DroppedFrom(a.rounds, old(a.rounds), targets, lo, hi)
  {
    ghost var s0: seq<seq<Match<P>>> := a.rounds;
    var ff := 0;
    var fc := fillCount;
    var r := winRound;
    while r < roundDiff
      invariant winRound <= r <= roundDiff
      invariant ff == shifts[r - a.first] && fc == r - a.first
      invariant |a.rounds| == |s0| && forall i :: 0 <= i < |s0| ==> |a.rounds[i]| == |s0[i]|
      invariant forall i :: 0 <= i < |s0| && !(lo <= i < r - a.first) ==> a.rounds[i] == old(a.rounds)[i]
      invariant DroppedFrom(a.rounds, old(a.rounds), targets, lo, r - a.first)
    {
      ghost var i := r - a.first;
      assert PassPlan(s0, a.first, d, shifts, targets, i);
      var shift := FinishStep(a, s0, i, r, loseRound - winRound + ff + r, fc, targets[i]);
      ff := ff + shift;
      fc := fc + 1;
      r := r + 1;
    }
  }

  /** The arena s3 after step 13 on s2. */
  ghost predicate Stage13<P>(s3: seq<seq<Match<P>>>, s2: seq<seq<Match<P>>>, n: nat, first: int)
    requires n >= 4
  {
    && |s3| == |s2| > Gf(n) && (forall i :: 0 <= i < |s3| ==> |s3[i]| == |s2[i]|)
    && (forall i :: 0 <= i < |s3| && !(LinkStart(n) <= i < Gf(n)) ==> s3[i] == s2[i])
    && forall i :: LinkStart(n) <= i < Gf(n) ==> Dropped(s3[i], s2[i], first + DropRow(n, i), i)
  }

  /** Step 13 (lines 290-309) from the cursors step 12 leaves: every match
      of winners row i, from LinkStart(n) up to the winners final, loses
      into the losers round DropRow(n, i) at the place fillPattern gives it
      in phase i. */
  method FinishCrossLinks<P>(a: Matches<P>, n: nat, winRound: int, loseRound: int, fillCount: nat)
    requires n >= 4 && Shaped(a.rounds, n)
    requires winRound == a.first + LinkStart(n) && loseRound == a.first + LoseStart(n) && fillCount == LinkStart(n)
    modifies a
    ensures Stage13(a.rounds, old(a.rounds), n, a.first)
  {
    var roundDiff := a.first + Gf(n);
    ghost var shifts := seq(Gf(n) + 1, i requires 0 <= i <= Gf(n) => Shifts(n, i));
    ghost var targets := seq(Gf(n), i requires 0 <= i < Gf(n) => a.first + DropRow(n, i));
    ghost var d := LoseStart(n) - LinkStart(n);
    PlanAll(a.rounds, n, a.first, d, shifts, targets);
    FinishLoop(a, winRound, loseRound, fillCount, roundDiff, LinkStart(n), Gf(n), d, shifts, targets);
    forall i | LinkStart(n) <= i < Gf(n)
      ensures Dropped(a.rounds[i], old(a.rounds)[i], a.first + DropRow(n, i), i)
    {
      assert targets[i] == a.first + DropRow(n, i);
    }
  }

  lemma PlanAll<P>(s0: seq<seq<Match<P>>>, n: nat, first: int, d: int, shifts: seq<int>, targets: seq<int>)
    requires n >= 4 && Shaped(s0, n) && d == LoseStart(n) - LinkStart(n)
    requires |shifts| == Gf(n) + 1 && forall i :: 0 <= i <= Gf(n) ==> shifts[i] == Shifts(n, i)
    requires |targets| == Gf(n) && forall i :: 0 <= i < Gf(n) ==> targets[i] == first + DropRow(n, i)
    ensures LinkStart(n) <= Gf(n) < |s0| && shifts[LinkStart(n)] == 0
    ensures forall i :: LinkStart(n) <= i < Gf(n) ==> PassPlan(s0, first, d, shifts, targets, i)
  {
    Pow2MonotoneFour(n);
    forall i | LinkStart(n) <= i < Gf(n)
      ensures PassPlan(s0, first, d, shifts, targets, i)
    {
      ShiftPlan(s0, n, i);
    }
  }
}
