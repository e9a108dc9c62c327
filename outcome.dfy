/** What the arena DoubleElimination returns guarantees
    (src/DoubleElimination.ts:26-331): its layout, the seating of the first
    rounds, where every winners and losers match sends its players, and that
    no pointer dangles. */
module Outcome {
  import opened Arith
  import opened Layout
  import opened SeedOrder
  import opened FillPattern
  import opened Arena
  import opened Skeleton
  import opened Seeding
  import opened Routes
  import opened CrossLink
  import opened Finish
  import opened Final
  import opened Bracket

  /** The pointer p, when present, names match 1 .. SizeAt of a round of
      the layout for n players starting at round first. */
  predicate Within(n: nat, first: int, p: Option<Slot>)
    requires n >= 4
  {
    p.Some? ==>
      && first <= p.value.round < first + Rows(n)
      && 1 <= p.value.number <= SizeAt(n, p.value.round - first)
  }

  lemma WithinAt(n: nat, first: int, i: nat, d: Slot)
    requires n >= 4 && i < Rows(n) && d.round == first + i && 1 <= d.number <= SizeAt(n, i)
    ensures Within(n, first, Some(d))
  {
  }

  /** Winners match m of a round wins into match ceil(m / 2) of the next
      one, which exists: half as many matches, or the grand-final slot
      after the last winners round. */
  lemma AdvancingWithin(n: nat, first: int, i: nat, j: nat)
    requires n >= 4 && Wb(n) <= i < Gf(n) && j < SizeAt(n, i)
    ensures Within(n, first, Some(Slot(first + i + 1, CeilHalf(j + 1))))
  {
    LinkSizes(n);
    Pow2MonotoneFour(n);
    if i + 1 < Gf(n) {
      Pow2Even(Gf(n) - 1 - i);
    }
  }

  /** The drawn win pointers (lines 55-60, 91, 98, 106-109) name existing matches. */
  lemma DrawnWinWithin<P>(players: seq<P>, first: int, i: nat, j: nat)
    requires |players| >= 4 && i < Rows(|players|) && j < SizeAt(|players|, i)
    ensures Within(|players|, first, DrawnMatch(players, first, i, j).win)
    ensures DrawnMatch(players, first, i, j).loss == None
  {
    var n := |players|;
    if i < Wb(n) {
      ByeWinWithin(players, first, j);
    } else if i < Gf(n) {
      AdvancingWithin(n, first, i, j);
    }
  }

  /** A bye match wins into the first-round match that held the displaced
      seed's slot q, match q / 2 + 1 of 2^(floorExp-1). */
  lemma ByeWinWithin<P>(players: seq<P>, first: int, j: nat)
    requires |players| >= 4 && Rem(|players|) != 0 && j < Rem(|players|)
    ensures Within(|players|, first, DrawnMatch(players, first, 0, j).win)
  {
    var n := |players|;
    var b, t := SeedBracket(n), Threshold(n);
    LinkSizes(n);
    DisplacedCount(n);
    var q := Above(b, t)[j];
    assert q < |b| == 2 * Half(n);
    assert DrawnMatch(players, first, 0, j).win == Some(Slot(first + 1, q / 2 + 1));
  }

  /** The loss pointers of steps 12 and 13 name existing losers matches. */
  lemma LossWithin<P>(players: seq<P>, first: int, i: nat, j: nat)
    requires |players| >= 4 && i < Gf(|players|) && j < SizeAt(|players|, i)
    ensures Within(|players|, first, Some(LossOf(players, first, i, j)))
    ensures LossOf(players, first, i, j).round > first + Gf(|players|)
  {
    var n := |players|;
    LinkSizes(n);
    if i >= LinkStart(n) {
      DropWithin(players, first, i, j);
    } else if Rem(n) == 0 {
      Pow2MonotoneFour(n);
    } else if Rem(n) <= Half(n) {
      if i == 1 {
        SecondRoundWithin(players, first, j);
      }
    } else {
      LargeLossWithin(players, first, j);
    }
  }

  /** Step 13: winners row i drops into row DropRow(n, i), which is as
      large as row i, in the order of the pattern of phase i. */
  lemma DropWithin<P>(players: seq<P>, first: int, i: nat, j: nat)
    requires |players| >= 4 && LinkStart(|players|) <= i < Gf(|players|) && j < SizeAt(|players|, i)
    ensures Within(|players|, first, Some(LossOf(players, first, i, j)))
    ensures LossOf(players, first, i, j).round > first + Gf(|players|)
  {
    var n := |players|;
    var d := Drawn(players, first);
    ShiftPlan(d, n, i);
    PatternIsPermutation(SizeAt(n, i), i);
  }

  /** Step 12, small case: the second round's losers go to the pre-fill
      round, at a slot below its size, or to the first ladder round. */
  lemma SecondRoundWithin<P>(players: seq<P>, first: int, j: nat)
    requires |players| >= 4 && 0 < Rem(|players|) <= Half(|players|) && j < SizeAt(|players|, 1)
    ensures Within(|players|, first, Some(SmallSecondLoss(players, first, j)))
    ensures SmallSecondLoss(players, first, j).round > first + Gf(|players|)
  {
    var n := |players|;
    LinkSizes(n);
    DrawnSeated(players, first);
    SecondRoundLossWithin(DrawnRow(players, first, 1), n, first, j);
  }

  lemma SecondRoundLossWithin<P>(row: seq<Match<P>>, n: nat, first: int, j: nat)
    requires n >= 4 && 0 < Rem(n) <= Half(n) && Seated(row, n) && j < |row|
    ensures Within(n, first, Some(SecondRoundLoss(row, first + Gf(n) + 1, j)))
    ensures SecondRoundLoss(row, first + Gf(n) + 1, j).round > first + Gf(n)
  {
    var p := |row| - 1 - j;
    var x := p / 2;
    assert 2 * (x + 1) <= |row|;
    if p % 2 == 0 {
      assert j == |row| - 1 - 2 * x;
      SecondRoundFirstWithin(row, n, first, x);
    } else {
      assert j == |row| - 2 - 2 * x;
      SecondRoundSecondWithin(row, n, first, x);
    }
  }

  /** The first loser of pair x goes to the pre-fill round when the pair
      holds a bye, and to ladder match x + 1 otherwise. */
  lemma SecondRoundFirstWithin<P>(row: seq<Match<P>>, n: nat, first: int, x: nat)
    requires n >= 4 && 0 < Rem(n) <= Half(n) && Seated(row, n) && 2 * x + 2 <= |row|
    ensures Within(n, first, Some(SecondRoundLoss(row, first + Gf(n) + 1, |row| - 1 - 2 * x)))
    ensures SecondRoundLoss(row, first + Gf(n) + 1, |row| - 1 - 2 * x).round > first + Gf(n)
  {
    SecondRoundLossFirst(row, first + Gf(n) + 1, x);
    if HasBye(row[2 * x]) || HasBye(row[2 * x + 1]) {
      AltBound(row, n, x);
      SecondRoundAltWithin(n, first, Hits(row, x));
    } else {
      SecondRoundLadderWithin(n, first, x);
    }
  }

  /** The second loser of pair x always goes to ladder match x + 1. */
  lemma SecondRoundSecondWithin<P>(row: seq<Match<P>>, n: nat, first: int, x: nat)
    requires n >= 4 && 0 < Rem(n) <= Half(n) && |row| == Half(n) && 2 * x + 2 <= |row|
    ensures Within(n, first, Some(SecondRoundLoss(row, first + Gf(n) + 1, |row| - 2 - 2 * x)))
    ensures SecondRoundLoss(row, first + Gf(n) + 1, |row| - 2 - 2 * x).round > first + Gf(n)
  {
    SecondRoundLossSecond(row, first + Gf(n) + 1, x);
    SecondRoundLadderWithin(n, first, x);
  }

  /** Pre-fill match h + 1, for h below the remainder, exists. */
  lemma SecondRoundAltWithin(n: nat, first: int, h: nat)
    requires n >= 4 && 0 < Rem(n) <= Half(n) && h < Rem(n)
    ensures Within(n, first, Some(Slot(first + Gf(n) + 1, h + 1)))
  {
    LinkSizes(n);
    WithinAt(n, first, Gf(n) + 1, Slot(first + Gf(n) + 1, h + 1));
  }

  /** Losers match x + 1 of the first ladder round, for 2(x + 1) at most
      the size of the first real round, exists. */
  lemma SecondRoundLadderWithin(n: nat, first: int, x: nat)
    requires n >= 4 && 0 < Rem(n) <= Half(n) && 2 * (x + 1) <= Half(n)
    ensures Within(n, first, Some(Slot(first + Gf(n) + 2, x + 1)))
  {
    LinkSizes(n);
    WithinAt(n, first, Gf(n) + 2, Slot(first + Gf(n) + 2, x + 1));
  }

  /** Step 12, large case: the demand list names the pre-fill rounds only. */
  lemma LargeLossWithin<P>(players: seq<P>, first: int, j: nat)
    requires |players| >= 4 && Rem(|players|) > Half(|players|) && j < Rem(|players|)
    ensures Within(|players|, first, Some(LargeLoss(players, first, j)))
    ensures LargeLoss(players, first, j).round > first + Gf(|players|)
  {
    var n := |players|;
    var row := DrawnRow(players, first, 1);
    LinkSizes(n);
    DrawnSeated(players, first);
    DemandWithin(row, n, first, j);
    var d := Demands(row, first + Gf(n) + 1, first + Gf(n) + 2)[j];
    assert LargeLoss(players, first, j) == d;
  }

  lemma DemandWithin<P>(row: seq<Match<P>>, n: nat, first: int, j: nat)
    requires n >= 4 && Rem(n) > Half(n) && Seated(row, n) && j < Rem(n)
    ensures |Demands(row, first + Gf(n) + 1, first + Gf(n) + 2)| == Rem(n)
    ensures Within(n, first, Some(Demands(row, first + Gf(n) + 1, first + Gf(n) + 2)[j]))
    ensures Demands(row, first + Gf(n) + 1, first + Gf(n) + 2)[j].round > first + Gf(n)
  {
    var lbA, lbB := first + Gf(n) + 1, first + Gf(n) + 2;
    LargeRoutes(row, n);
    DemandsLength(row, lbA, lbB);
    DemandsRange(row, lbA, lbB);
    DemandSlotWithin(n, first, Demands(row, lbA, lbB)[j]);
  }

  /** A slot of the first pre-fill round below remainder - half, or of the
      second one below half, exists. */
  lemma DemandSlotWithin(n: nat, first: int, d: Slot)
    requires n >= 4 && Rem(n) > Half(n)
    requires || (d.round == first + Gf(n) + 1 && 1 <= d.number <= Rem(n) - Half(n))
             || (d.round == first + Gf(n) + 2 && 1 <= d.number <= Half(n))
    ensures Within(n, first, Some(d)) && d.round > first + Gf(n)
  {
    LinkSizes(n);
    if d.round == first + Gf(n) + 1 {
      WithinAt(n, first, Gf(n) + 1, d);
    } else {
      WithinAt(n, first, Gf(n) + 2, d);
    }
  }

  /** The win pointers of the losers rounds (steps 12, 14 and 15) name
      existing matches. */
  lemma WinWithin<P>(players: seq<P>, first: int, i: nat, j: nat)
    requires |players| >= 4 && Gf(|players|) < i < Rows(|players|) && j < SizeAt(|players|, i)
    ensures Within(|players|, first, Some(WinOf(players, first, i, j)))
  {
    var n := |players|;
    LinkSizes(n);
    Pow2MonotoneFour(n);
    if i < LinkFrom(n) {
      PrefillRouteWithin(players, first, i, j);
    } else if i < Rows(n) - 1 {
      LadderShrinksAt(n, i, j);
    }
  }

  /** Lines 228-244, 281-287: pre-fill match j + 1 wins into an existing
      match of the next round. */
  lemma PrefillRouteWithin<P>(players: seq<P>, first: int, i: nat, j: nat)
    requires |players| >= 4 && Gf(|players|) < i < LinkFrom(|players|) && j < SizeAt(|players|, i)
    ensures 1 <= PrefillRoute(players, first, i, j) <= SizeAt(|players|, i + 1)
  {
    var n := |players|;
    LinkSizes(n);
    var row := DrawnRow(players, first, 1);
    DrawnSeated(players, first);
    if Rem(n) <= Half(n) {
      SmallRoutes(row, n);
      var r := NullRoutes(row);
      assert PrefillRoute(players, first, i, j) == r[j] <= CeilHalf(|row|);
      assert CeilHalf(Half(n)) == SizeAt(n, i + 1);
    } else {
      LargeRoutes(row, n);
      var r := EmptyMatches(row);
      assert PrefillRoute(players, first, i, j) == r[j] <= |row|;
    }
  }

  /** Step 14: a ladder round is as large as the next one or twice as
      large, so match floor(j / 2) + 1 or j + 1 exists. */
  lemma LadderShrinksAt(n: nat, i: nat, j: nat)
    requires n >= 4 && LinkFrom(n) <= i < Rows(n) - 1 && j < SizeAt(n, i)
    ensures Advance(SizeAt(n, i), SizeAt(n, i + 1), j) < SizeAt(n, i + 1)
  {
    LinkSizes(n);
    Pow2MonotoneFour(n);
    if i >= Lb(n) && (i + 1 - Lb(n)) / 2 != (i - Lb(n)) / 2 {
      Pow2Even(F(n) - 2 - (i - Lb(n)) / 2);
    }
  }

  /** Every pointer of match j + 1 of round first + i names an existing match. */
  lemma LinkedWithin<P>(players: seq<P>, first: int, i: nat, j: nat)
    requires |players| >= 4 && i < Rows(|players|) && j < SizeAt(|players|, i)
    ensures Within(|players|, first, LinkedMatch(players, first, i, j).win)
    ensures Within(|players|, first, LinkedMatch(players, first, i, j).loss)
  {
    var n := |players|;
    DrawnWinWithin(players, first, i, j);
    if i < Gf(n) {
      LossWithin(players, first, i, j);
    } else if i > Gf(n) {
      WinWithin(players, first, i, j);
    }
  }

  /** No dangling pointers: every `win` and `loss` of the returned arena
      names a match that is in it. */
  lemma AllResolved<P>(players: seq<P>, first: int)
    requires |players| >= 4
    ensures AllResolve(first, Linked(players, first))
  {
    var l: seq<seq<Match<P>>> := Linked(players, first);
    forall i, j | 0 <= i < |l| && 0 <= j < |l[i]|
      ensures Names(first, l, l[i][j].win) && Names(first, l, l[i][j].loss)
    {
      var m := LinkedMatch(players, first, i, j);
      assert l[i][j] == m;
      LinkedWithin(players, first, i, j);
      NamesOfWithin(players, first, m.win);
      NamesOfWithin(players, first, m.loss);
    }
  }

  /** No dangling pointers in the arena as written either: each of its
      pointers is the corrected arena's, or missing. */
  lemma WrittenResolved<P>(players: seq<P>, first: int)
    requires |players| >= 4
    ensures AllResolve(first, Written(players, first))
  {
    var u: seq<seq<Match<P>>> := Written(players, first);
    forall i, j | 0 <= i < |u| && 0 <= j < |u[i]|
      ensures Names(first, u, u[i][j].win) && Names(first, u, u[i][j].loss)
    {
      var m := WrittenMatch(players, first, i, j);
      assert u[i][j] == m;
      LinkedWithin(players, first, i, j);
      WrittenNamesOfWithin(players, first, m.win);
      WrittenNamesOfWithin(players, first, m.loss);
    }
  }

  lemma WrittenNamesOfWithin<P>(players: seq<P>, first: int, p: Option<Slot>)
    requires |players| >= 4 && Within(|players|, first, p)
    ensures Names(first, Written(players, first), p)
  {
    if p.Some? {
      var rs := Written(players, first);
      var i := p.value.round - first;
      assert |rs| == Rows(|players|);
      assert |rs[i]| == SizeAt(|players|, i);
    }
  }

  /** Which pointers the arena as written lacks (lines 172, 209, 268, 273
      and 312): a winners match has no loss pointer exactly when Missed
      names it, the losers final has no win pointer exactly when the last
      round is below 0, and every pointer it has, and every seat, is the
      corrected arena's. */
  lemma WrittenPointers<P>(players: seq<P>, first: int, i: nat, j: nat)
    requires |players| >= 4 && i < Rows(|players|) && j < SizeAt(|players|, i)
    ensures var n := |players|;
      var w := Written(players, first)[i][j];
      var l := Linked(players, first)[i][j];
      && (i < Gf(n) ==> (w.loss.None? <==> Missed(n, i, j)))
      && (i == Rows(n) - 1 ==> (w.win.None? <==> first + i < 0))
      && (w.loss.Some? ==> w.loss == l.loss)
      && (w.win.Some? ==> w.win == l.win)
      && w.player1 == l.player1 && w.player2 == l.player2
  {
    var n := |players|;
    assert Written(players, first)[i][j] == WrittenMatch(players, first, i, j);
    assert Linked(players, first)[i][j] == LinkedMatch(players, first, i, j);
    LinkSizes(n);
    if i < Gf(n) {
      LossWithin(players, first, i, j);
    }
    LosersFinal(players, first);
  }

  /** Step 12 as written, perfect case: with 4 players from round 1,
      winners match (1, 2) gets no loss pointer, where the corrected arena
      sends its loser to (4, 1). */
  lemma PerfectExample(players: seq<int>)
    requires |players| == 4
    ensures Written(players, 1)[0][1].loss == None
    ensures Linked(players, 1)[0][1].loss == Some(Slot(4, 1))
  {
    assert FloorLog2(4) == 2 && Pow2(2) == 4;
    assert Rem(4) == 0 && Gf(4) == 2 && Lb(4) == 3;
    assert Written(players, 1)[0][1] == WrittenMatch(players, 1, 0, 1);
    assert Linked(players, 1)[0][1] == LinkedMatch(players, 1, 0, 1);
  }

  /** Step 12 as written, small case: with 5 players no match of the first
      real round gets a loss pointer. */
  lemma SmallExample(players: seq<int>, first: int, j: nat)
    requires |players| == 5 && j < SizeAt(5, 1)
    ensures Written(players, first)[1][j].loss == None
    ensures Linked(players, first)[1][j].loss.Some?
  {
    assert FloorLog2(5) == 2 && Pow2(2) == 4;
    assert Rem(5) == 1 && Half(5) == 2;
    WrittenPointers(players, first, 1, j);
  }

  /** Step 12 as written, large case: with 7 players only bye match 1 gets
      a loss pointer; matches 2 and 3 get none. */
  lemma LargeExample(players: seq<int>, first: int, j: nat)
    requires |players| == 7 && 0 < j < SizeAt(7, 0)
    ensures Written(players, first)[0][j].loss == None
    ensures Linked(players, first)[0][j].loss.Some?
  {
    assert FloorLog2(7) == 2 && Pow2(2) == 4;
    assert Rem(7) == 3 && Half(7) == 2;
    WrittenPointers(players, first, 0, j);
  }

  /** Line 312 as written: with 4 players from round -20 the last round is
      -16, maxR stays 0, and the losers final gets no win pointer, where
      the corrected fold sends it to the grand final (-18, 1). */
  lemma FoldExample(players: seq<int>)
    requires |players| == 4
    ensures Written(players, -20)[4][0].win == None
    ensures Linked(players, -20)[4][0].win == Some(Slot(-18, 1))
  {
    assert FloorLog2(4) == 2 && Pow2(2) == 4;
    assert Rem(4) == 0 && Gf(4) == 2 && Lb(4) == 3;
    LosersFinal(players, -20);
    WrittenPointers(players, -20, 4, 0);
  }

  lemma NamesOfWithin<P>(players: seq<P>, first: int, p: Option<Slot>)
    requires |players| >= 4 && Within(|players|, first, p)
    ensures Names(first, Linked(players, first), p)
  {
    if p.Some? {
      var rs := Linked(players, first);
      var i := p.value.round - first;
      assert |rs| == Rows(|players|);
      assert |rs[i]| == SizeAt(|players|, i);
    }
  }

  /** Rounds run from startingRound without a gap, round startingRound + i
      holding RoundSizes(n)[i] matches numbered 1 .. RoundSizes(n)[i]. */
  lemma LinkedLayout<P>(players: seq<P>, first: int)
    requires |players| >= 4
    ensures |Linked(players, first)| == |RoundSizes(|players|)|
    ensures forall i :: 0 <= i < |Linked(players, first)| ==> |Linked(players, first)[i]| == RoundSizes(|players|)[i]
  {
    var n := |players|;
    RoundSizesLength(n);
    forall i | 0 <= i < Rows(n)
      ensures |Linked(players, first)[i]| == RoundSizes(n)[i]
    {
      RoundSizesAt(n, i);
    }
  }

  /** The first real round (lines 68-75, 78-101): match k + 1 gets the
      players of seeds bracket[2k] and bracket[2k + 1], except that a seed
      above 2^floorExp - remainder has been moved to the bye round and left
      a null seat. Exactly `remainder` seats are null. */
  lemma FirstRoundSeats<P>(players: seq<P>, first: int)
    requires |players| >= 4
    ensures var n, b, t := |players|, SeedBracket(|players|), Threshold(|players|);
      var row := Linked(players, first)[Wb(n)];
      && |row| == Half(n)
      && (forall k :: 0 <= k < |row| ==>
            && row[k].player1 == (if b[2 * k] > t then None else Seed(players, b[2 * k]))
            && row[k].player2 == (if b[2 * k + 1] > t then None else Seed(players, b[2 * k + 1])))
      && NullCount(row) == Rem(n)
  {
    var n, b, t := |players|, SeedBracket(|players|), Threshold(|players|);
    LinkSizes(n);
    var row := Linked(players, first)[Wb(n)];
    forall k | 0 <= k < |row|
      ensures row[k].player1 == (if b[2 * k] > t then None else Seed(players, b[2 * k]))
      ensures row[k].player2 == (if b[2 * k + 1] > t then None else Seed(players, b[2 * k + 1]))
    {
      SeatAt(players, first, k);
    }
    if Rem(n) != 0 {
      DrawnSeated(players, first);
      SameSeatsSeated(DrawnRow(players, first, 1), row, n);
      SeatedNulls(row, n);
    } else {
      SeedBracketRange(n);
      NoNulls(row, n);
    }
  }

  lemma SeatAt<P>(players: seq<P>, first: int, k: nat)
    requires |players| >= 4 && k < Half(|players|)
    ensures var n, b, t := |players|, SeedBracket(|players|), Threshold(|players|);
      Wb(n) < Rows(n) && k < SizeAt(n, Wb(n))
      && LinkedMatch(players, first, Wb(n), k).player1 == (if b[2 * k] > t then None else Seed(players, b[2 * k]))
      && LinkedMatch(players, first, Wb(n), k).player2 == (if b[2 * k + 1] > t then None else Seed(players, b[2 * k + 1]))
  {
    var n := |players|;
    LinkSizes(n);
    var d := DrawnMatch(players, first, Wb(n), k);
    assert LinkedMatch(players, first, Wb(n), k).player1 == d.player1;
    assert LinkedMatch(players, first, Wb(n), k).player2 == d.player2;
  }

  lemma SameSeatsSeated<P>(row: seq<Match<P>>, row': seq<Match<P>>, n: nat)
    requires n >= 4 && Seated(row, n) && |row'| == |row|
    requires forall k :: 0 <= k < |row| ==> row'[k].player1 == row[k].player1 && row'[k].player2 == row[k].player2
    ensures Seated(row', n)
  {
  }

  /** With no bye round every seat of the first round holds a player. */
  lemma NoNulls<P>(row: seq<Match<P>>, n: nat)
    requires n >= 4 && Rem(n) == 0
    requires forall k :: 0 <= k < |row| ==> row[k].player1.Some? && row[k].player2.Some?
    ensures NullCount(row) == 0
  {
  }

  /** Linking sets only pointers: the seats stay as drawn, and so do the
      win pointers of the winners rounds and of the grand final. */
  lemma KeepsDrawn<P>(players: seq<P>, first: int, i: nat, j: nat)
    requires |players| >= 4 && i < Rows(|players|) && j < SizeAt(|players|, i)
    ensures LinkedMatch(players, first, i, j).player1 == DrawnMatch(players, first, i, j).player1
    ensures LinkedMatch(players, first, i, j).player2 == DrawnMatch(players, first, i, j).player2
    ensures i <= Gf(|players|) ==> LinkedMatch(players, first, i, j).win == DrawnMatch(players, first, i, j).win
  {
  }

  /** Bye match j + 1 (lines 78-101) is built for q, the j-th displaced slot
      of the first real round: the displaced seed against seed
      2^ceilExp + 1 - seed, a player beyond 2^floorExp, the winner going to
      the first-round match that held slot q, whose seat is now null. */
  lemma ByeAt<P>(players: seq<P>, first: int, j: nat)
    requires |players| >= 4 && Rem(|players|) != 0 && j < Rem(|players|)
    ensures var n, b, t := |players|, SeedBracket(|players|), Threshold(|players|);
      |Above(b, t)| == Rem(n) &&
      var q := Above(b, t)[j];
      var m := LinkedMatch(players, first, 0, j);
      && q < |b| && b[q] > t
      && m.player1 == Seed(players, b[q]) && m.player1.Some?
      && m.player2 == Seed(players, Pow2(C(n)) + 1 - b[q]) && m.player2.Some?
      && Pow2(F(n)) < Pow2(C(n)) + 1 - b[q] <= n
      && m.win == Some(Slot(first + 1, q / 2 + 1))
      && q / 2 < SizeAt(n, 1)
      && (if q % 2 == 0 then LinkedMatch(players, first, 1, q / 2).player1
          else LinkedMatch(players, first, 1, q / 2).player2).None?
  {
    var n, b, t := |players|, SeedBracket(|players|), Threshold(|players|);
    ByeDrawn(players, first, j);
    var q := Above(b, t)[j];
    KeepsDrawn(players, first, 0, j);
    LinkSizes(n);
    KeepsDrawn(players, first, 1, q / 2);
  }

  /** With distinct players, no player is in two bye matches. */
  lemma ByePlayersDistinct<P>(players: seq<P>, first: int, j1: nat, j2: nat)
    requires |players| >= 4 && Distinct(players) && Rem(|players|) != 0 && j1 < j2 < Rem(|players|)
    ensures LinkedMatch(players, first, 0, j1).player1 != LinkedMatch(players, first, 0, j2).player1
  {
    var n, b, t := |players|, SeedBracket(|players|), Threshold(|players|);
    LinkSizes(n);
    AboveIncreasing(b, t);
    Pow2MonotoneFour(n);
    OrderIsPermutation(F(n));
    ByeAt(players, first, j1);
    ByeAt(players, first, j2);
  }

  lemma ByeDrawn<P>(players: seq<P>, first: int, j: nat)
    requires |players| >= 4 && Rem(|players|) != 0 && j < Rem(|players|)
    ensures var n, b, t := |players|, SeedBracket(|players|), Threshold(|players|);
      |Above(b, t)| == Rem(n) &&
      var q := Above(b, t)[j];
      var m := DrawnMatch(players, first, 0, j);
      && q < |b| && b[q] > t
      && m.player1 == Seed(players, b[q]) && m.player1.Some?
      && m.player2 == Seed(players, Pow2(C(n)) + 1 - b[q]) && m.player2.Some?
      && Pow2(F(n)) < Pow2(C(n)) + 1 - b[q] <= n
      && m.win == Some(Slot(first + 1, q / 2 + 1))
      && q / 2 < SizeAt(n, 1)
      && (if q % 2 == 0 then DrawnMatch(players, first, 1, q / 2).player1
          else DrawnMatch(players, first, 1, q / 2).player2).None?
  {
    var n, b, t := |players|, SeedBracket(|players|), Threshold(|players|);
    DisplacedCount(n);
    var q := Above(b, t)[j];
    assert q < |b| && b[q] > t;
    assert DrawnMatch(players, first, 0, j) == ByeMatch(players, b, n, first + 1, q);
    ByeMatchSeats(players, first + 1, q);
    DisplacedSeat(players, first, q);
  }

  /** The bye match for a displaced slot q seats two players. */
  lemma ByeMatchSeats<P>(players: seq<P>, next: int, q: nat)
    requires |players| >= 4 && q < |SeedBracket(|players|)| && SeedBracket(|players|)[q] > Threshold(|players|)
    ensures var n, b := |players|, SeedBracket(|players|);
      var m := ByeMatch(players, b, n, next, q);
      && m.player1 == Seed(players, b[q]) && m.player1.Some?
      && m.player2 == Seed(players, Pow2(C(n)) + 1 - b[q]) && m.player2.Some?
      && Pow2(F(n)) < Pow2(C(n)) + 1 - b[q] <= n
      && m.win == Some(Slot(next, q / 2 + 1))
  {
    SeedBracketRange(|players|);
    MirrorInRange(|players|, q);
  }

  /** The first-round seat of a displaced slot q is drawn null. */
  lemma DisplacedSeat<P>(players: seq<P>, first: int, q: nat)
    requires |players| >= 4 && Rem(|players|) != 0
    requires q < |SeedBracket(|players|)| && SeedBracket(|players|)[q] > Threshold(|players|)
    ensures q / 2 < SizeAt(|players|, 1)
    ensures (if q % 2 == 0 then DrawnMatch(players, first, 1, q / 2).player1
             else DrawnMatch(players, first, 1, q / 2).player2).None?
  {
    var n, b := |players|, SeedBracket(|players|);
    LinkSizes(n);
    SeedBracketRange(n);
    assert q == 2 * (q / 2) || q == 2 * (q / 2) + 1;
  }

  /** Every seed that step 7 displaces has a bye match. */
  lemma ByeForEveryDisplaced<P>(players: seq<P>, first: int, q: nat)
    requires |players| >= 4 && Rem(|players|) != 0
    requires q < |SeedBracket(|players|)| && SeedBracket(|players|)[q] > Threshold(|players|)
    ensures exists j ::
      (0 <= j < Rem(|players|)
       && LinkedMatch(players, first, 0, j).player1 == Seed(players, SeedBracket(|players|)[q])
       && LinkedMatch(players, first, 0, j).win == Some(Slot(first + 1, q / 2 + 1)))
  {
    var n, b, t := |players|, SeedBracket(|players|), Threshold(|players|);
    LinkSizes(n);
    DisplacedCount(n);
    AboveComplete(b, t, q);
    var j :| 0 <= j < |Above(b, t)| && Above(b, t)[j] == q;
    ByeAt(players, first, j);
  }

  /** Lines 55-60 and 106-109: winners match j + 1 of a winners round wins
      into match ceil((j + 1) / 2) of the next round; the last winners
      round wins into the grand-final slot (roundDiff, 1). */
  lemma WinnersAdvance<P>(players: seq<P>, first: int, i: nat, j: nat)
    requires |players| >= 4 && Wb(|players|) <= i < Gf(|players|) && j < SizeAt(|players|, i)
    ensures LinkedMatch(players, first, i, j).win == Some(Slot(first + i + 1, CeilHalf(j + 1)))
    ensures i == Gf(|players|) - 1 ==> LinkedMatch(players, first, i, j).win == Some(Slot(first + Gf(|players|), 1))
  {
    var n := |players|;
    KeepsDrawn(players, first, i, j);
    Pow2MonotoneFour(n);
  }

  /** Lines 318-324: a losers match j + 1 of the ladder wins into match
      j + 1 of the next round when both rounds are the same size, and into
      match floor(j / 2) + 1 otherwise; that match exists. */
  lemma LosersAdvance<P>(players: seq<P>, first: int, i: nat, j: nat)
    requires |players| >= 4 && LinkFrom(|players|) <= i < Rows(|players|) - 1 && j < SizeAt(|players|, i)
    ensures var n := |players|;
      var k := if SizeAt(n, i) == SizeAt(n, i + 1) then j else j / 2;
      && k < SizeAt(n, i + 1)
      && LinkedMatch(players, first, i, j).win == Some(Slot(first + i + 1, k + 1))
  {
    var n := |players|;
    LadderShrinksAt(n, i, j);
    assert WinOf(players, first, i, j) == Slot(first + i + 1, Advance(SizeAt(n, i), SizeAt(n, i + 1), j) + 1);
  }

  /** Lines 327-331: the last round is a single losers match, which wins
      into the grand-final slot (roundDiff, 1). */
  lemma LosersFinal<P>(players: seq<P>, first: int)
    requires |players| >= 4
    ensures var n := |players|;
      && Gf(n) < Rows(n) - 1 && SizeAt(n, Rows(n) - 1) == 1
      && LinkedMatch(players, first, Rows(n) - 1, 0).win == Some(Slot(first + Gf(n), 1))
  {
    var n := |players|;
    LinkSizes(n);
    Pow2MonotoneFour(n);
  }

  /** Line 105: the grand-final slot is one blank match; nothing links out of it. */
  lemma GrandFinalBlank<P>(players: seq<P>, first: int)
    requires |players| >= 4
    ensures Gf(|players|) < Rows(|players|) && LinkedRow(players, first, Gf(|players|)) == [Blank()]
  {
    LinkSizes(|players|);
  }

  /** Step 13 (lines 290-309) through fillPattern: winners round i sends its
      losers into one losers round of the same size, a different match for
      each loser, so every match of that round gets exactly one. */
  lemma DropsSpread<P>(players: seq<P>, first: int, i: nat, j1: nat, j2: nat)
    requires |players| >= 4 && LinkStart(|players|) <= i < Gf(|players|)
    requires j1 < SizeAt(|players|, i) && j2 < SizeAt(|players|, i)
    ensures var n := |players|;
      && Gf(n) < DropRow(n, i) < Rows(n) && SizeAt(n, DropRow(n, i)) == SizeAt(n, i)
      && LinkedMatch(players, first, i, j1).loss.Some?
      && LinkedMatch(players, first, i, j1).loss.value.round == first + DropRow(n, i)
      && (j1 != j2 <==> LinkedMatch(players, first, i, j1).loss != LinkedMatch(players, first, i, j2).loss)
  {
    var n := |players|;
    ShiftPlan(Drawn(players, first), n, i);
    PatternIsPermutation(SizeAt(n, i), i);
    LinkSizes(n);
  }

  /** Every winners match has a loss pointer, and it names a match of the
      losers bracket: a round after the grand-final slot. */
  lemma LossesIntoLosers<P>(players: seq<P>, first: int, i: nat, j: nat)
    requires |players| >= 4 && i < Gf(|players|) && j < SizeAt(|players|, i)
    ensures LinkedMatch(players, first, i, j).loss.Some?
    ensures first + Gf(|players|) < LinkedMatch(players, first, i, j).loss.value.round < first + Rows(|players|)
  {
    LossWithin(players, first, i, j);
  }
}
