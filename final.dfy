/** Steps 14 and 15 (lines 311-331): the win pointers along the losers
    bracket and from the losers final into the grand final. */
module Final {
  import opened Arith
  import opened Layout
  import opened Arena
  import opened CrossLink
  import opened Finish

  /** `matches.reduce((mx, m) => Math.max(mx, m.round), seed)`: the largest
      round number of any match, or seed when that is larger. */
  function Highest<P>(first: int, rs: seq<seq<Match<P>>>, seed: int): (m: int)
    ensures m >= seed
    ensures forall i :: 0 <= i < |rs| && rs[i] != [] ==> first + i <= m
    ensures m == seed || (exists i :: 0 <= i < |rs| && rs[i] != [] && m == first + i)
  {
    if rs == [] then seed
    else
      var m := Highest(first, rs[..|rs| - 1], seed);
      assert forall i :: 0 <= i < |rs| - 1 ==> rs[..|rs| - 1][i] == rs[i];
      if rs[|rs| - 1] != [] && first + |rs| - 1 > m then first + |rs| - 1 else m
  }

  /** With every round present, folding from the first round number finds
      the last round. */
  lemma HighestIsLast<P>(first: int, rs: seq<seq<Match<P>>>)
    requires rs != [] && forall i :: 0 <= i < |rs| ==> rs[i] != []
    ensures Highest(first, rs, first) == first + |rs| - 1
  {
    assert rs[|rs| - 1] != [];
  }

  /** Lines 321-323: losers match j + 1 of a round of `size` matches advances to
      match j + 1 of the next round when both rounds are the same size, and
      to match floor(j / 2) + 1 otherwise. */
  function Advance(size: nat, next: nat, j: nat): (k: nat)
    ensures j < size && (size == next || size == 2 * next) ==> k < next
  {
    if size == next then j else j / 2
  }

  /** Round `orig` after the pass of lines 318-324 towards a next round of
      nextSize matches: a match gets its win pointer when the match it
      advances to exists. */
  ghost predicate Forwarded<P>(cur: seq<Match<P>>, orig: seq<Match<P>>, next: int, nextSize: nat)
  {
    && |cur| == |orig|
    && forall j {:trigger cur[j]} :: 0 <= j < |orig| ==>
         cur[j] == if Advance(|orig|, nextSize, j) < nextSize
                   then orig[j].(win := Some(Slot(next, Advance(|orig|, nextSize, j) + 1)))
                   else orig[j]
  }

  /** Every match of round `orig` advances into an existing match of the
      next round, of nextSize matches. */
  ghost predicate Advanced<P>(cur: seq<Match<P>>, orig: seq<Match<P>>, next: int, nextSize: nat)
  {
    && |cur| == |orig|
    && forall j {:trigger cur[j]} :: 0 <= j < |orig| ==>
         && Advance(|orig|, nextSize, j) < nextSize
         && cur[j] == orig[j].(win := Some(Slot(next, Advance(|orig|, nextSize, j) + 1)))
  }

  /** The pass of lines 318-324 for round r, at row w of the arena (possibly
      past its end, where there is nothing to link). */
  method LinkForward<P>(a: Matches<P>, r: int, ghost w: nat)
    requires r == a.first + w
    modifies a
    ensures |a.rounds| == |old(a.rounds)| && forall i :: 0 <= i < |a.rounds| ==> |a.rounds[i]| == |old(a.rounds)[i]|
    ensures forall i :: 0 <= i < |a.rounds| && i != w ==> a.rounds[i] == old(a.rounds)[i]
    ensures w < |a.rounds| ==> Forwarded(a.rounds[w], old(a.rounds)[w], r + 1, Len(old(a.rounds), w + 1))
  {
    var sizeA := a.Size(r);
    var sizeB := a.Size(r + 1);
    ghost var s0: seq<seq<Match<P>>> := a.rounds;
    var j := 0;
    while j < sizeA
      invariant 0 <= j <= sizeA
      invariant |a.rounds| == |s0| && forall i :: 0 <= i < |s0| ==> |a.rounds[i]| == |s0[i]|
      invariant forall i :: 0 <= i < |s0| && i != w ==> a.rounds[i] == s0[i]
      invariant w < |s0| ==> forall k {:trigger a.rounds[w][k]} :: 0 <= k < |s0[w]| ==>
        a.rounds[w][k] == if k < j && Advance(sizeA, sizeB, k) < sizeB
                          then s0[w][k].(win := Some(Slot(r + 1, Advance(sizeA, sizeB, k) + 1)))
                          else s0[w][k]
    {
      var t := if sizeA == sizeB then j else j / 2;
      if t < sizeB {
        a.SetWin(Slot(r, j + 1), Slot(r + 1, t + 1));
      }
      j := j + 1;
    }
  }

  /** Forwarding towards an empty next round changes nothing. */
  lemma ForwardedNowhere<P>(cur: seq<Match<P>>, orig: seq<Match<P>>, next: int)
    requires Forwarded(cur, orig, next, 0)
    ensures cur == orig
  {
    forall j | 0 <= j < |orig|
      ensures cur[j] == orig[j]
    {
    }
  }

  /** Forwarding into a round of the same size or half the size links
      every match. */
  lemma ForwardedAll<P>(cur: seq<Match<P>>, orig: seq<Match<P>>, next: int, nextSize: nat)
    requires Forwarded(cur, orig, next, nextSize) && (nextSize == |orig| || 2 * nextSize == |orig|)
    ensures Advanced(cur, orig, next, nextSize)
  {
    forall j | 0 <= j < |orig|
      ensures Advance(|orig|, nextSize, j) < nextSize
    {
    }
  }

  /** Row of the first losers round step 14 links: roundDiff + 1 without
      byes, roundDiff + 2 with them (line 314). */
  function LinkFrom(n: nat): nat
    requires n >= 1
  {
    if Rem(n) == 0 then Gf(n) + 1 else Gf(n) + 2
  }

  /** From LinkFrom(n) on, each round of the layout is followed by a round
      of the same size or of half its size, and every round has a match. */
  lemma LadderShrinks<P>(rs: seq<seq<Match<P>>>, n: nat, i: nat)
    requires n >= 4 && Shaped(rs, n) && LinkFrom(n) <= i < |rs| - 1
    ensures |rs[i + 1]| == |rs[i]| || 2 * |rs[i + 1]| == |rs[i]|
  {
    LinkSizes(n);
    if i < Lb(n) {
      assert i == Gf(n) + 2 && i + 1 == Lb(n) && Rem(n) > Half(n);
      assert |rs[i]| == SizeAt(n, i) == Half(n);
      assert |rs[i + 1]| == SizeAt(n, i + 1);
    } else {
      var t := i - Lb(n);
      assert |rs[i]| == SizeAt(n, i) == Pow2(F(n) - 2 - t / 2);
      assert |rs[i + 1]| == SizeAt(n, i + 1) == Pow2(F(n) - 2 - (t + 1) / 2);
      if t % 2 == 1 {
        assert (t + 1) / 2 == t / 2 + 1;
        Pow2Even(F(n) - 2 - t / 2);
      } else {
        assert (t + 1) / 2 == t / 2;
      }
    }
  }

  lemma LadderSteps<P>(rs: seq<seq<Match<P>>>, n: nat)
    requires n >= 4 && Shaped(rs, n)
    ensures LinkFrom(n) < |rs| - 1 && forall i :: 0 <= i < |rs| ==> rs[i] != []
    ensures forall i :: LinkFrom(n) <= i < |rs| - 1 ==> |rs[i + 1]| == |rs[i]| || 2 * |rs[i + 1]| == |rs[i]|
  {
    LinkSizes(n);
    forall i | 0 <= i < |rs|
      ensures rs[i] != []
    {
      assert |rs[i]| == SizeAt(n, i);
    }
    forall i | LinkFrom(n) <= i < |rs| - 1
      ensures |rs[i + 1]| == |rs[i]| || 2 * |rs[i + 1]| == |rs[i]|
    {
      LadderShrinks(rs, n, i);
    }
  }

  /** The loop of lines 313-325 from row lo up to round maxR, through rounds
      that keep or halve their size. maxR may lie past the last round: the
      passes there, and the pass of the last round itself, find no next
      round and change nothing. */
  method ForwardLoop<P>(a: Matches<P>, r0: int, maxR: int, ghost lo: nat)
    requires r0 == a.first + lo && lo < |a.rounds| && maxR >= a.first + |a.rounds| - 1
    requires forall i :: lo <= i < |a.rounds| - 1 ==> |a.rounds[i + 1]| == |a.rounds[i]| || 2 * |a.rounds[i + 1]| == |a.rounds[i]|
    modifies a
    ensures |a.rounds| == |old(a.rounds)| && forall i :: 0 <= i < |a.rounds| ==> |a.rounds[i]| == |old(a.rounds)[i]|
    ensures forall i :: 0 <= i < |a.rounds| && !(lo <= i < |a.rounds| - 1) ==> a.rounds[i] == old(a.rounds)[i]
    ensures forall i :: lo <= i < |a.rounds| - 1 ==> Advanced(a.rounds[i], old(a.rounds)[i], a.first + i + 1, |old(a.rounds)[i + 1]|)
  {
    ghost var s0: seq<seq<Match<P>>> := a.rounds;
    ghost var hi := |s0| - 1;
    var r := r0;
    while r < maxR
      invariant r0 <= r <= maxR
      invariant |a.rounds| == |s0| && forall i :: 0 <= i < |s0| ==> |a.rounds[i]| == |s0[i]|
      invariant forall i :: 0 <= i < |s0| && !(lo <= i < r - a.first && i < hi) ==> a.rounds[i] == s0[i]
      invariant forall i :: lo <= i < r - a.first && i < hi ==> Advanced(a.rounds[i], s0[i], a.first + i + 1, |s0[i + 1]|)
    {
      ghost var w := r - a.first;
      LinkForward(a, r, w);
      if w < hi {
        ForwardedAll(a.rounds[w], s0[w], r + 1, |s0[w + 1]|);
      } else if w == hi {
        ForwardedNowhere(a.rounds[w], s0[w], r + 1);
      }
      r := r + 1;
    }
  }

  /** Step 14 (lines 311-325): from the first losers round after the
      pre-fill rounds it links, every losers round but the last advances
      each match into the next round, one to one or two to one. Returns
      the last round number. */
  method FinalPointers<P>(a: Matches<P>, n: nat, roundDiff: int) returns (maxR: int)
    requires n >= 4 && Shaped(a.rounds, n) && roundDiff == a.first + Gf(n)
    modifies a
    ensures maxR == a.first + |a.rounds| - 1
    ensures |a.rounds| == |old(a.rounds)| && forall i :: 0 <= i < |a.rounds| ==> |a.rounds[i]| == |old(a.rounds)[i]|
    ensures forall i :: 0 <= i < |a.rounds| && !(LinkFrom(n) <= i < |a.rounds| - 1) ==> a.rounds[i] == old(a.rounds)[i]
    ensures forall i :: LinkFrom(n) <= i < |a.rounds| - 1 ==>
      Advanced(a.rounds[i], old(a.rounds)[i], a.first + i + 1, |old(a.rounds)[i + 1]|)
  {
    LadderSteps(a.rounds, n);
    maxR := Highest(a.first, a.rounds, a.first);
    HighestIsLast(a.first, a.rounds);
    var r := if Rem(n) == 0 then roundDiff + 1 else roundDiff + 2;
    ForwardLoop(a, r, maxR, LinkFrom(n));
  }

  /** Step 14 as written: maxR folds from 0 (line 312), so it is the last
      round or 0, whichever is larger. The loop then runs up to maxR; the
      passes past the last round change nothing, so the rounds end up as
      in FinalPointers. */
  method FinalPointersAsWritten<P>(a: Matches<P>, n: nat, roundDiff: int) returns (maxR: int)
    requires n >= 4 && Shaped(a.rounds, n) && roundDiff == a.first + Gf(n)
    modifies a
    ensures maxR == if a.first + |a.rounds| - 1 >= 0 then a.first + |a.rounds| - 1 else 0
    ensures |a.rounds| == |old(a.rounds)| && forall i :: 0 <= i < |a.rounds| ==> |a.rounds[i]| == |old(a.rounds)[i]|
    ensures forall i :: 0 <= i < |a.rounds| && !(LinkFrom(n) <= i < |a.rounds| - 1) ==> a.rounds[i] == old(a.rounds)[i]
    ensures forall i :: LinkFrom(n) <= i < |a.rounds| - 1 ==>
      Advanced(a.rounds[i], old(a.rounds)[i], a.first + i + 1, |old(a.rounds)[i + 1]|)
  {
    LadderSteps(a.rounds, n);
    maxR := Highest(a.first, a.rounds, 0);
    HighestFromZero(a.first, a.rounds);
    var r := if Rem(n) == 0 then roundDiff + 1 else roundDiff + 2;
    ForwardLoop(a, r, maxR, LinkFrom(n));
  }

  /** The fold from 0 over an arena with every round present: the last
      round when that is not negative, 0 otherwise. */
  lemma HighestFromZero<P>(first: int, rs: seq<seq<Match<P>>>)
    requires rs != [] && forall i :: 0 <= i < |rs| ==> rs[i] != []
    ensures Highest(first, rs, 0) == if first + |rs| - 1 >= 0 then first + |rs| - 1 else 0
  {
    assert rs[|rs| - 1] != [];
  }

  /** Step 15 (lines 327-331): the first match of round maxR wins into the
      grand-final slot, match 1 of roundDiff, when round maxR has a match. */
  method Championship<P>(a: Matches<P>, roundDiff: int, maxR: int)
    modifies a
    ensures old(a.Has(Slot(maxR, 1))) ==>
      var k := maxR - a.first;
      a.rounds == old(a.rounds)[k := old(a.rounds)[k][0 := old(a.rounds)[k][0].(win := Some(Slot(roundDiff, 1)))]]
    ensures !old(a.Has(Slot(maxR, 1))) ==> a.rounds == old(a.rounds)
  {
    if a.Has(Slot(maxR, 1)) {
      a.SetWin(Slot(maxR, 1), Slot(roundDiff, 1));
    }
  }

  /** As written, maxR folds from 0 (line 312). When every round number is
      negative that fold returns 0, no match has round 0, and step 15 leaves
      the losers final without a win pointer. */
  lemma FoldFromZeroMissesFinal<P>(first: int, rs: seq<seq<Match<P>>>)
    requires rs != [] && (forall i :: 0 <= i < |rs| ==> rs[i] != []) && first + |rs| <= 0
    ensures Highest(first, rs, 0) == 0 != first + |rs| - 1
    ensures !(first <= Highest(first, rs, 0) < first + |rs|)
  {
  }

  /** The losers final of a four-player bracket starting at round -20 is
      round -16, while the fold from 0 names round 0. */
  lemma FoldFromZeroExample()
    ensures var rs: seq<seq<Match<int>>> := seq(5, _ => [Blank()]);
      Highest(-20, rs, 0) == 0 && Highest(-20, rs, -20) == -16
  {
    var rs: seq<seq<Match<int>>> := seq(5, _ => [Blank()]);
    FoldFromZeroMissesFinal(-20, rs);
    HighestIsLast(-20, rs);
  }
}
