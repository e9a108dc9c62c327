/** The function DoubleElimination of src/DoubleElimination.ts (lines 4-334):
    steps 2-15 composed, and proved to produce one closed-form arena. */
module Bracket {
  import opened Arith
  import opened Layout
  import opened SeedOrder
  import opened FillPattern
  import opened Arena
  import opened Skeleton
  import opened Seeding
  import opened Routes
  import opened CrossLink
  import opened Finish
  import opened Final

  /** The number of rounds laid out for n players. */
  function Rows(n: nat): nat
    requires n >= 4
  {
    Lb(n) + 2 * (F(n) - 1)
  }

  /** Match j + 1 of round first + i once the rounds are laid out and seated
      (lines 26-144): the bye round holds each displaced seed against its
      mirror and wins into the first-round match the seed came from; the
      first real round holds the seeds that stayed; every winners match wins
      into match ceil(m / 2) of the next round; the grand final, the
      pre-fill and the ladder rounds are blank. */
  function DrawnMatch<P>(players: seq<P>, first: int, i: nat, j: nat): Match<P>
    requires |players| >= 4 && i < Rows(|players|) && j < SizeAt(|players|, i)
  {
    var n := |players|;
    var b := SeedBracket(n);
    var t := Threshold(n);
    if i < Wb(n) then
      DisplacedCount(n);
      ByeMatch(players, b, n, first + 1, Above(b, t)[j])
    else if i == Wb(n) then
      Advancing(first + i + 1, j).(player1 := Cut(players, b, t, |b|, 2 * j), player2 := Cut(players, b, t, |b|, 2 * j + 1))
    else if i < Gf(n) then Advancing(first + i + 1, j)
    else Blank()
  }

  function DrawnRow<P>(players: seq<P>, first: int, i: nat): seq<Match<P>>
    requires |players| >= 4 && i < Rows(|players|)
  {
    seq(SizeAt(|players|, i), j requires 0 <= j < SizeAt(|players|, i) => DrawnMatch(players, first, i, j))
  }

  /** The arena once step 10 is done, before any loss pointer is set. */
  function Drawn<P>(players: seq<P>, first: int): seq<seq<Match<P>>>
    requires |players| >= 4
  {
    seq(Rows(|players|), i requires 0 <= i < Rows(|players|) => DrawnRow(players, first, i))
  }

  /** With no bye round no seed is displaced, so every seat of the first
      round keeps its seed. */
  lemma CutNothing<P>(players: seq<P>, q: nat)
    requires |players| >= 4 && Rem(|players|) == 0 && q < |SeedBracket(|players|)|
    ensures Cut(players, SeedBracket(|players|), Threshold(|players|), |SeedBracket(|players|)|, q)
         == Seed(players, SeedBracket(|players|)[q])
  {
    SeedBracketRange(|players|);
  }

  /** The bye round after step 7: displaced seed number j + 1, in slot
      order, against its mirror. */
  lemma ByeRowDrawn<P>(w2: seq<seq<Match<P>>>, w1: seq<seq<Match<P>>>, players: seq<P>, first: int)
    requires |players| >= 4 && Rem(|players|) != 0
    requires Fed(w2, w1, players, |players|, first + 1, |SeedBracket(|players|)|, Rem(|players|))
    ensures w2[0] == DrawnRow(players, first, 0)
  {
    var n := |players|;
    var b := SeedBracket(n);
    LinkSizes(n);
    DisplacedCount(n);
    assert b[..|b|] == b;
    forall j | 0 <= j < |w2[0]|
      ensures w2[0][j] == DrawnMatch(players, first, 0, j)
    {
    }
  }

  /** The first real round after steps 6-7: the seeds that stayed, each
      match advancing to ceil(m / 2) of the next round. */
  lemma SeatRowDrawn<P>(r0: seq<Match<P>>, r1: seq<Match<P>>, r2: seq<Match<P>>, players: seq<P>, first: int)
    requires var n := |players|;
      n >= 4 && |r0| == Half(n) && AllAdvancing(r0, first + Wb(n) + 1) && |r1| == |r0|
    requires forall k :: 0 <= k < |r1| ==>
      r1[k] == r0[k].(player1 := Seed(players, SeedBracket(|players|)[2 * k]), player2 := Seed(players, SeedBracket(|players|)[2 * k + 1]))
    requires Rem(|players|) == 0 ==> r2 == r1
    requires Rem(|players|) != 0 ==>
      MainFed(r2, r1, players, SeedBracket(|players|), Threshold(|players|), |SeedBracket(|players|)|)
    ensures r2 == DrawnRow(players, first, Wb(|players|))
  {
    var n := |players|;
    LinkSizes(n);
    forall j | 0 <= j < |r2|
      ensures r2[j] == DrawnMatch(players, first, Wb(n), j)
    {
      if Rem(n) == 0 {
        CutNothing(players, 2 * j);
        CutNothing(players, 2 * j + 1);
      }
    }
  }

  /** The arena w0 after steps 4-5 (AddByeRound, AddWinnersRounds). */
  ghost predicate Laid<P>(w0: seq<seq<Match<P>>>, n: nat, first: int)
    requires n >= 4
  {
    && |w0| == Gf(n) && (Rem(n) != 0 ==> w0[0] == Blanks(Rem(n)))
    && (forall i :: Wb(n) <= i < Gf(n) ==> |w0[i]| == Pow2(Gf(n) - 1 - i))
    && (forall i :: Wb(n) <= i < Gf(n) - 1 ==> AllAdvancing(w0[i], first + i + 1))
    && AllBlank(w0[Gf(n) - 1])
  }

  /** The arena w1 after step 6 (SeedMainRound) on w0. */
  ghost predicate MainSeeded<P>(w1: seq<seq<Match<P>>>, w0: seq<seq<Match<P>>>, players: seq<P>, bracket: seq<int>,
                                startRound: int, first: int)
  {
    && |w1| == |w0|
    && (forall i :: 0 <= i < |w1| && i != startRound - first ==> w1[i] == w0[i])
    && (first <= startRound < first + |w1| ==>
          var w := startRound - first;
          && |w1[w]| == |w0[w]| && 2 * |w1[w]| <= |bracket|
          && forall k :: 0 <= k < |w1[w]| ==>
               w1[w][k] == w0[w][k].(player1 := Seed(players, bracket[2 * k]), player2 := Seed(players, bracket[2 * k + 1])))
  }

  /** The arena w2 after step 7 (FeedByes) on w1. */
  ghost predicate ByesFed<P>(w2: seq<seq<Match<P>>>, w1: seq<seq<Match<P>>>, players: seq<P>, n: nat, first: int)
    requires n >= 4
  {
    && (Rem(n) == 0 ==> w2 == w1)
    && (Rem(n) != 0 ==> Fed(w2, w1, players, n, first + 1, |SeedBracket(n)|, Rem(n)))
  }

  /** The winners rounds and the bye round after steps 4-7. */
  lemma FrontDrawn<P>(w0: seq<seq<Match<P>>>, w1: seq<seq<Match<P>>>, w2: seq<seq<Match<P>>>,
                      players: seq<P>, first: int, i: nat)
    requires |players| >= 4 && i < Gf(|players|) - 1
    requires Laid(w0, |players|, first)
    requires MainSeeded(w1, w0, players, SeedBracket(|players|), first + Wb(|players|), first)
    requires ByesFed(w2, w1, players, |players|, first)
    ensures i < |w2| && w2[i] == DrawnRow(players, first, i)
  {
    var n := |players|;
    LinkSizes(n);
    if i < Wb(n) {
      ByeRowDrawn(w2, w1, players, first);
    } else if i == Wb(n) {
      SeatRowDrawn(w0[i], w1[i], w2[i], players, first);
    } else {
      assert w2[i] == w0[i];
      forall j | 0 <= j < |w2[i]|
        ensures w2[i][j] == DrawnMatch(players, first, i, j)
      {
      }
    }
  }

  /** All winners rounds after steps 4-7: the rows up to the semi-final
      as drawn, the winners final still blank. */
  lemma FrontAll<P>(w0: seq<seq<Match<P>>>, w1: seq<seq<Match<P>>>, w2: seq<seq<Match<P>>>, players: seq<P>, first: int)
    requires |players| >= 4
    requires Laid(w0, |players|, first)
    requires MainSeeded(w1, w0, players, SeedBracket(|players|), first + Wb(|players|), first)
    requires ByesFed(w2, w1, players, |players|, first)
    ensures |w2| == Gf(|players|)
    ensures forall i :: 0 <= i < Gf(|players|) - 1 ==> w2[i] == DrawnRow(players, first, i)
    ensures |w2[Gf(|players|) - 1]| == 1 && AllBlank(w2[Gf(|players|) - 1])
  {
    var n := |players|;
    LinkSizes(n);
    forall i | 0 <= i < Gf(n) - 1
      ensures w2[i] == DrawnRow(players, first, i)
    {
      FrontDrawn(w0, w1, w2, players, first, i);
    }
    assert w2[Gf(n) - 1] == w0[Gf(n) - 1];
  }

  /** The rounds appended by steps 8-10 (lines 104-144) after the
      winners rounds: the grand-final slot, the pre-fill and the ladder,
      all blank, and the winners final now winning into the grand final. */
  lemma BackDrawn<P>(w2: seq<seq<Match<P>>>, g: seq<seq<Match<P>>>, p: seq<seq<Match<P>>>, rs: seq<seq<Match<P>>>,
                     players: seq<P>, first: int)
    requires |players| >= 4
    requires var n := |players|;
      && |w2| == Gf(n) && (forall i :: 0 <= i < Gf(n) - 1 ==> w2[i] == DrawnRow(players, first, i))
      && |w2[Gf(n) - 1]| == 1 && AllBlank(w2[Gf(n) - 1])
    requires var w := |w2| - 1;
      && |g| == |w2| + 1 && g[..w] == w2[..w]
      && |g[w]| == |w2[w]| && g[w][0] == w2[w][0].(win := Some(Slot(first + Gf(|players|), 1)))
      && g[|g| - 1] == [Blank()]
    requires var n := |players|;
      p == g + seq(PrefillCount(n), i requires 0 <= i < PrefillCount(n) => Blanks(Prefill(n)[i]))
    requires var n := |players|;
      && |rs| == |p| + 2 * (F(n) - 1) && (forall i :: 0 <= i < |p| ==> rs[i] == p[i])
      && LosersLadder(rs, |p|, F(n) - 2)
    ensures rs == Drawn(players, first)
  {
    BackFront(w2, g, players, first);
    BackPrefill(g, p, players, first);
    BackLadder(p, rs, players, first);
  }

  /** Step 8: the winners rounds and the grand-final slot as drawn. */
  lemma BackFront<P>(w2: seq<seq<Match<P>>>, g: seq<seq<Match<P>>>, players: seq<P>, first: int)
    requires |players| >= 4
    requires var n := |players|;
      && |w2| == Gf(n) && (forall i :: 0 <= i < Gf(n) - 1 ==> w2[i] == DrawnRow(players, first, i))
      && |w2[Gf(n) - 1]| == 1 && AllBlank(w2[Gf(n) - 1])
    requires var w := |w2| - 1;
      && |g| == |w2| + 1 && g[..w] == w2[..w]
      && |g[w]| == |w2[w]| && g[w][0] == w2[w][0].(win := Some(Slot(first + Gf(|players|), 1)))
      && g[|g| - 1] == [Blank()]
    ensures |g| == Gf(|players|) + 1 && forall i :: 0 <= i < |g| ==> g[i] == DrawnRow(players, first, i)
  {
    var n := |players|;
    LinkSizes(n);
    forall i | 0 <= i < |g|
      ensures g[i] == DrawnRow(players, first, i)
    {
      if i < Gf(n) - 1 {
        assert g[i] == w2[i];
      } else if i == Gf(n) - 1 {
        assert g[i] == [Advancing(first + Gf(n), 0)];
      } else {
        BlankDrawn(g[i], players, first, i);
      }
    }
  }

  /** Step 9: the pre-fill rounds, blank, as drawn. */
  lemma BackPrefill<P>(g: seq<seq<Match<P>>>, p: seq<seq<Match<P>>>, players: seq<P>, first: int)
    requires |players| >= 4
    requires |g| == Gf(|players|) + 1 && forall i :: 0 <= i < |g| ==> g[i] == DrawnRow(players, first, i)
    requires var n := |players|;
      p == g + seq(PrefillCount(n), i requires 0 <= i < PrefillCount(n) => Blanks(Prefill(n)[i]))
    ensures |p| == Lb(|players|) && forall i :: 0 <= i < |p| ==> p[i] == DrawnRow(players, first, i)
  {
    var n := |players|;
    LinkSizes(n);
    forall i | 0 <= i < |p|
      ensures p[i] == DrawnRow(players, first, i)
    {
      if i < |g| {
        assert p[i] == g[i];
      } else {
        assert p[i] == Blanks(Prefill(n)[i - Gf(n) - 1]);
        PrefillSize(n, i);
        BlankDrawn(p[i], players, first, i);
      }
    }
  }

  /** Step 10: the losers ladder, blank, completes the drawn arena. */
  lemma BackLadder<P>(p: seq<seq<Match<P>>>, rs: seq<seq<Match<P>>>, players: seq<P>, first: int)
    requires |players| >= 4
    requires |p| == Lb(|players|) && forall i :: 0 <= i < |p| ==> p[i] == DrawnRow(players, first, i)
    requires var n := |players|;
      && |rs| == |p| + 2 * (F(n) - 1) && (forall i :: 0 <= i < |p| ==> rs[i] == p[i])
      && LosersLadder(rs, |p|, F(n) - 2)
    ensures rs == Drawn(players, first)
  {
    var n := |players|;
    forall i | 0 <= i < |rs|
      ensures rs[i] == DrawnRow(players, first, i)
    {
      if i < |p| {
        assert rs[i] == p[i];
      } else {
        LadderDrawn(rs, players, first, i);
      }
    }
  }

  /** A row of blank matches of the laid-out size, from the grand-final
      slot on, is the row as drawn. */
  lemma BlankDrawn<P>(row: seq<Match<P>>, players: seq<P>, first: int, i: nat)
    requires |players| >= 4 && Gf(|players|) <= i < Rows(|players|)
    requires |row| == SizeAt(|players|, i) && AllBlank(row)
    ensures row == DrawnRow(players, first, i)
  {
  }

  lemma PrefillSize(n: nat, i: nat)
    requires n >= 4 && Gf(n) < i < Lb(n)
    ensures Prefill(n)[i - Gf(n) - 1] == SizeAt(n, i)
  {
  }

  /** The rows of the losers ladder are drawn blank. */
  lemma LadderDrawn<P>(rs: seq<seq<Match<P>>>, players: seq<P>, first: int, i: nat)
    requires |players| >= 4 && |rs| == Rows(|players|) && Lb(|players|) <= i < |rs|
    requires LosersLadder(rs, Lb(|players|), F(|players|) - 2)
    ensures rs[i] == DrawnRow(players, first, i)
  {
    Pow2MonotoneFour(|players|);
    BlankDrawn(rs[i], players, first, i);
  }

  /** Steps 4-5 (lines 38-66) on an empty arena: the bye round and the
      winners rounds, each winning into the next. */
  method LayWinners<P>(a: Matches<P>, n: nat) returns (round: int)
    requires n >= 4 && a.rounds == []
    modifies a
    ensures round == a.first + Gf(n) && Laid(a.rounds, n, a.first)
  {
    round := AddByeRound(a, a.first, Rem(n));
    round := AddWinnersRounds(a, round, n);
  }

  /** Steps 6-7 (lines 68-101) on the laid-out winners rounds: the main
      round seated from the seed order, then the byes fed into it. */
  method SeatWinners<P(==)>(a: Matches<P>, players: seq<P>, bracket: seq<int>)
    requires |players| >= 4 && Distinct(players) && bracket == SeedBracket(|players|)
    requires Laid(a.rounds, |players|, a.first)
    modifies a
    ensures |a.rounds| == Gf(|players|)
    ensures forall i :: 0 <= i < Gf(|players|) - 1 ==> a.rounds[i] == DrawnRow(players, a.first, i)
    ensures |a.rounds[Gf(|players|) - 1]| == 1 && AllBlank(a.rounds[Gf(|players|) - 1])
  {
    var n := |players|;
    LinkSizes(n);
    ghost var w0 := a.rounds;
    SeedMainRound(a, players, bracket, a.first + Wb(n));
    ghost var w1 := a.rounds;
    assert MainSeeded(w1, w0, players, bracket, a.first + Wb(n), a.first);
    FeedByes(a, players, n);
    assert ByesFed(a.rounds, w1, players, n, a.first);
    FrontAll(w0, w1, a.rounds, players, a.first);
  }

  /** Steps 2-7 (lines 26-101) on an empty arena: the seed order, the bye
      round, the winners rounds, the seating and the byes. */
  method DrawWinners<P(==)>(a: Matches<P>, players: seq<P>) returns (round: int)
    requires |players| >= 4 && Distinct(players) && a.rounds == []
    modifies a
    ensures round == a.first + Gf(|players|) && |a.rounds| == Gf(|players|)
    ensures forall i :: 0 <= i < Gf(|players|) - 1 ==> a.rounds[i] == DrawnRow(players, a.first, i)
    ensures |a.rounds[Gf(|players|) - 1]| == 1 && AllBlank(a.rounds[Gf(|players|) - 1])
  {
    var n := |players|;
    Pow2MonotoneFour(n);
    var bracket := BuildSeedOrder(F(n));
    round := LayWinners(a, n);
    SeatWinners(a, players, bracket);
  }

  /** Steps 2-10 (lines 26-144) on an empty arena: steps 2-7, then the
      grand-final slot, the pre-fill rounds and the losers ladder. Returns
      roundDiff, the round of the grand-final slot. */
  method Draw<P(==)>(a: Matches<P>, players: seq<P>) returns (roundDiff: int)
    requires |players| >= 4 && Distinct(players) && a.rounds == []
    modifies a
    ensures roundDiff == a.first + Gf(|players|)
    ensures a.rounds == Drawn(players, a.first)
  {
    var n := |players|;
    var round := DrawWinners(a, players);
    ghost var w2 := a.rounds;
    round := AddGrandFinal(a, round);
    roundDiff := round - 1;
    ghost var g := a.rounds;
    round := AddPrefill(a, round, n);
    ghost var p := a.rounds;
    round := AddLosersLadder(a, round, n);
    BackDrawn(w2, g, p, a.rounds, players, a.first);
  }

  /** The first real round as drawn, when there is a bye round: a seat is
      null exactly when its seed was displaced. */
  lemma DrawnSeated<P>(players: seq<P>, first: int)
    requires |players| >= 4 && Rem(|players|) != 0
    ensures Seated(DrawnRow(players, first, 1), |players|)
  {
    var n := |players|;
    LinkSizes(n);
    SeedBracketRange(n);
  }

  /** The loss pointer of winners match j + 1 of round first + i
      (lines 159-309): the first rounds as step 12 routes them in each of
      the three cases of the bye count, the later ones into the DropRow
      round through the rotating pattern of phase i. */
  function LossOf<P>(players: seq<P>, first: int, i: nat, j: nat): Slot
    requires |players| >= 4 && i < Gf(|players|) && j < SizeAt(|players|, i)
  {
    var n := |players|;
    if i >= LinkStart(n) then Slot(first + DropRow(n, i), Pattern(SizeAt(n, i), i)[j])
    else if Rem(n) == 0 then Slot(first + Lb(n), CeilHalf(j + 1))
    else if Rem(n) <= Half(n) then
      if i == 0 then Slot(first + Gf(n) + 1, j + 1) else SmallSecondLoss(players, first, j)
    else LargeLoss(players, first, j)
  }

  /** Small case, first real round (lines 192-225): through SecondRoundLoss. */
  function SmallSecondLoss<P>(players: seq<P>, first: int, j: nat): Slot
    requires |players| >= 4 && 0 < Rem(|players|) <= Half(|players|) && j < Half(|players|)
  {
    LinkSizes(|players|);
    SecondRoundLoss(DrawnRow(players, first, 1), first + Gf(|players|) + 1, j)
  }

  /** Large case, bye round (lines 248-278): demand j of the demand list. */
  function LargeLoss<P>(players: seq<P>, first: int, j: nat): Slot
    requires |players| >= 4 && Rem(|players|) > Half(|players|) && j < Rem(|players|)
  {
    var n := |players|;
    var row := DrawnRow(players, first, 1);
    LinkSizes(n);
    DrawnSeated(players, first);
    LargeRoutes(row, n);
    DemandsLength(row, first + Gf(n) + 1, first + Gf(n) + 2);
    Demands(row, first + Gf(n) + 1, first + Gf(n) + 2)[j]
  }

  /** The win pointer of losers match j + 1 of round first + i
      (lines 159-288, 311-331): the pre-fill round's routes of step 12, the
      next ladder round at match j + 1 or floor(j / 2) + 1, and from the
      losers final to the grand final. */
  function WinOf<P>(players: seq<P>, first: int, i: nat, j: nat): Slot
    requires |players| >= 4 && Gf(|players|) < i < Rows(|players|) && j < SizeAt(|players|, i)
  {
    var n := |players|;
    if i < LinkFrom(n) then Slot(first + i + 1, PrefillRoute(players, first, i, j))
    else if i < Rows(n) - 1 then Slot(first + i + 1, Advance(SizeAt(n, i), SizeAt(n, i + 1), j) + 1)
    else Slot(first + Gf(n), 1)
  }

  /** The match of the next round that pre-fill match j + 1 wins into
      (lines 228-244, 281-287): the j-th route of the first real round. */
  function PrefillRoute<P>(players: seq<P>, first: int, i: nat, j: nat): int
    requires |players| >= 4 && Gf(|players|) < i < LinkFrom(|players|) && j < SizeAt(|players|, i)
  {
    var n := |players|;
    var row := DrawnRow(players, first, 1);
    LinkSizes(n);
    DrawnSeated(players, first);
    if Rem(n) <= Half(n) then
      SmallRoutes(row, n);
      NullRoutes(row)[j]
    else
      LargeRoutes(row, n);
      EmptyMatches(row)[j]
  }

  /** Match j + 1 of round first + i as DoubleElimination returns it: the
      winners rounds gain their loss pointers, the losers rounds their win
      pointers, and the grand final stays as drawn. */
  function LinkedMatch<P>(players: seq<P>, first: int, i: nat, j: nat): Match<P>
    requires |players| >= 4 && i < Rows(|players|) && j < SizeAt(|players|, i)
  {
    var n := |players|;
    var d := DrawnMatch(players, first, i, j);
    if i < Gf(n) then d.(loss := Some(LossOf(players, first, i, j)))
    else if i == Gf(n) then d
    else d.(win := Some(WinOf(players, first, i, j)))
  }

  function LinkedRow<P>(players: seq<P>, first: int, i: nat): seq<Match<P>>
    requires |players| >= 4 && i < Rows(|players|)
  {
    seq(SizeAt(|players|, i), j requires 0 <= j < SizeAt(|players|, i) => LinkedMatch(players, first, i, j))
  }

  /** The arena DoubleElimination returns. */
  function Linked<P>(players: seq<P>, first: int): seq<seq<Match<P>>>
    requires |players| >= 4
  {
    seq(Rows(|players|), i requires 0 <= i < Rows(|players|) => LinkedRow(players, first, i))
  }

  /** The arena s2 after step 12 (CrossLink) on s1. */
  ghost predicate Stage12<P>(s2: seq<seq<Match<P>>>, s1: seq<seq<Match<P>>>, n: nat, first: int)
    requires n >= 4
  {
    && |s2| == |s1| > 0 && (forall i :: 0 <= i < |s2| ==> |s2[i]| == |s1[i]|)
    && (Rem(n) == 0 ==>
          && (forall i :: 1 <= i < |s2| ==> s2[i] == s1[i])
          && forall k :: 0 <= k < |s2[0]| ==> s2[0][k] == s1[0][k].(loss := Some(Slot(first + Lb(n), CeilHalf(k + 1)))))
    && (0 < Rem(n) <= Half(n) ==> SmallLinked(s2, s1, n, first))
    && (Rem(n) > Half(n) ==> LargeLinked(s2, s1, n, first))
  }

  /** The arena s4 after the loop of step 14 (FinalPointers) on s3. */
  ghost predicate Stage14<P>(s4: seq<seq<Match<P>>>, s3: seq<seq<Match<P>>>, n: nat, first: int)
    requires n >= 1
  {
    && |s4| == |s3| && (forall i :: 0 <= i < |s4| ==> |s4[i]| == |s3[i]|)
    && (forall i :: 0 <= i < |s4| && !(LinkFrom(n) <= i < |s4| - 1) ==> s4[i] == s3[i])
    && forall i :: LinkFrom(n) <= i < |s4| - 1 ==> Advanced(s4[i], s3[i], first + i + 1, |s3[i + 1]|)
  }

  /** Perfect power of two (lines 165-178): the first round loses into
      match ceil(m / 2) of the first ladder round. */
  lemma PerfectRow<P>(r1: seq<Match<P>>, r2: seq<Match<P>>, players: seq<P>, first: int)
    requires |players| >= 4 && Rem(|players|) == 0 && r1 == DrawnRow(players, first, 0) && |r2| == |r1|
    requires forall k :: 0 <= k < |r2| ==> r2[k] == r1[k].(loss := Some(Slot(first + Lb(|players|), CeilHalf(k + 1))))
    ensures r2 == LinkedRow(players, first, 0)
  {
    LinkSizes(|players|);
  }

  /** Small remainder (lines 180-225): bye match k + 1 loses into pre-fill
      match k + 1. */
  lemma SmallByeRow<P>(r1: seq<Match<P>>, r2: seq<Match<P>>, players: seq<P>, first: int)
    requires |players| >= 4 && 0 < Rem(|players|) <= Half(|players|) && r1 == DrawnRow(players, first, 0) && |r2| == |r1|
    requires forall k :: 0 <= k < |r2| ==> r2[k] == r1[k].(loss := Some(Slot(first + Gf(|players|) + 1, k + 1)))
    ensures r2 == LinkedRow(players, first, 0)
  {
    LinkSizes(|players|);
  }

  /** Small remainder: the first real round loses as SecondRoundLoss says. */
  lemma SecondRow<P>(r1: seq<Match<P>>, r2: seq<Match<P>>, players: seq<P>, first: int)
    requires |players| >= 4 && 0 < Rem(|players|) <= Half(|players|) && r1 == DrawnRow(players, first, 1)
    requires SecondRoundLosses(r2, r1, first + Gf(|players|) + 1)
    ensures r2 == LinkedRow(players, first, 1)
  {
    var n := |players|;
    LinkSizes(n);
    forall j | 0 <= j < SizeAt(n, 1)
      ensures r2[j] == LinkedMatch(players, first, 1, j)
    {
      assert r2[j] == r1[j].(loss := Some(SecondRoundLoss(r1, first + Gf(n) + 1, j)));
    }
  }

  /** Large remainder: bye match j + 1 keeps its drawn seats and gains
      demand j as its loss pointer. */
  lemma ByeLoss<P>(players: seq<P>, first: int, j: nat)
    requires |players| >= 4 && Rem(|players|) > Half(|players|) && j < Rem(|players|) == SizeAt(|players|, 0)
    ensures LinkedMatch(players, first, 0, j) == DrawnMatch(players, first, 0, j).(loss := Some(LargeLoss(players, first, j)))
  {
  }

  /** Large remainder (lines 247-279): the bye matches lose into the slots
      Demands lists for the first real round. */
  lemma LargeByeRow<P>(r1: seq<Match<P>>, r2: seq<Match<P>>, row: seq<Match<P>>, players: seq<P>, first: int)
    requires |players| >= 4 && Rem(|players|) > Half(|players|)
    requires r1 == DrawnRow(players, first, 0) && row == DrawnRow(players, first, 1) && |r2| == |r1|
    requires var n := |players|;
      |Demands(row, first + Gf(n) + 1, first + Gf(n) + 2)| == |r1| &&
      forall k {:trigger r2[k]} :: 0 <= k < |r2| ==> r2[k] == r1[k].(loss := Some(Demands(row, first + Gf(n) + 1, first + Gf(n) + 2)[k]))
    ensures r2 == LinkedRow(players, first, 0)
  {
    var n := |players|;
    LinkSizes(n);
    forall j | 0 <= j < SizeAt(n, 0)
      ensures r2[j] == LinkedMatch(players, first, 0, j)
    {
      ByeLoss(players, first, j);
      assert r2[j] == r1[j].(loss := Some(Demands(row, first + Gf(n) + 1, first + Gf(n) + 2)[j]));
    }
  }

  /** A winners round of step 13 (lines 290-309). */
  lemma DroppedRow<P>(r1: seq<Match<P>>, r3: seq<Match<P>>, players: seq<P>, first: int, i: nat)
    requires |players| >= 4 && LinkStart(|players|) <= i < Gf(|players|) && r1 == DrawnRow(players, first, i)
    requires Dropped(r3, r1, first + DropRow(|players|, i), i)
    ensures r3 == LinkedRow(players, first, i)
  {
    var n := |players|;
    LinkSizes(n);
    forall j | 0 <= j < SizeAt(n, i)
      ensures r3[j] == LinkedMatch(players, first, i, j)
    {
      assert r3[j] == r1[j].(loss := Some(Slot(first + DropRow(n, i), Pattern(|r1|, i)[j])));
    }
  }

  /** Pre-fill match j + 1 keeps its drawn seats and gains the win pointer
      of its route. */
  lemma PrefillWin<P>(players: seq<P>, first: int, j: nat)
    requires |players| >= 4 && Rem(|players|) != 0 && j < SizeAt(|players|, Gf(|players|) + 1)
    ensures var n := |players|;
      LinkedMatch(players, first, Gf(n) + 1, j)
        == DrawnMatch(players, first, Gf(n) + 1, j).(win := Some(Slot(first + Gf(n) + 2, PrefillRoute(players, first, Gf(n) + 1, j))))
  {
  }

  /** Small remainder: the pre-fill round wins into the seat routes of the
      first real round (lines 228-244). */
  lemma SmallPrefillRow<P>(r1: seq<Match<P>>, r2: seq<Match<P>>, row: seq<Match<P>>, players: seq<P>, first: int)
    requires |players| >= 4 && 0 < Rem(|players|) <= Half(|players|)
    requires r1 == DrawnRow(players, first, Gf(|players|) + 1) && row == DrawnRow(players, first, 1)
    requires |r2| == |r1| == |NullRoutes(row)|
    requires forall i {:trigger r2[i]} :: 0 <= i < |r2| ==> r2[i] == r1[i].(win := Some(Slot(first + Gf(|players|) + 2, NullRoutes(row)[i])))
    ensures r2 == LinkedRow(players, first, Gf(|players|) + 1)
  {
    var n := |players|;
    LinkSizes(n);
    forall j | 0 <= j < SizeAt(n, Gf(n) + 1)
      ensures r2[j] == LinkedMatch(players, first, Gf(n) + 1, j)
    {
      PrefillWin(players, first, j);
      assert PrefillRoute(players, first, Gf(n) + 1, j) == NullRoutes(row)[j];
    }
  }

  /** Large remainder: the pre-fill round wins into the empty matches of
      the first real round (lines 281-287). */
  lemma LargePrefillRow<P>(r1: seq<Match<P>>, r2: seq<Match<P>>, row: seq<Match<P>>, players: seq<P>, first: int)
    requires |players| >= 4 && Rem(|players|) > Half(|players|)
    requires r1 == DrawnRow(players, first, Gf(|players|) + 1) && row == DrawnRow(players, first, 1)
    requires |r2| == |r1| == |EmptyMatches(row)|
    requires forall i {:trigger r2[i]} :: 0 <= i < |r2| ==> r2[i] == r1[i].(win := Some(Slot(first + Gf(|players|) + 2, EmptyMatches(row)[i])))
    ensures r2 == LinkedRow(players, first, Gf(|players|) + 1)
  {
    var n := |players|;
    LinkSizes(n);
    forall j | 0 <= j < SizeAt(n, Gf(n) + 1)
      ensures r2[j] == LinkedMatch(players, first, Gf(n) + 1, j)
    {
      PrefillWin(players, first, j);
      assert PrefillRoute(players, first, Gf(n) + 1, j) == EmptyMatches(row)[j];
    }
  }

  /** A ladder round of step 14 (lines 313-325). */
  lemma LadderRow<P>(r1: seq<Match<P>>, r4: seq<Match<P>>, players: seq<P>, first: int, i: nat)
    requires |players| >= 4 && LinkFrom(|players|) <= i < Rows(|players|) - 1 && r1 == DrawnRow(players, first, i)
    requires Advanced(r4, r1, first + i + 1, SizeAt(|players|, i + 1))
    ensures r4 == LinkedRow(players, first, i)
  {
    var n := |players|;
    LinkSizes(n);
    forall j | 0 <= j < SizeAt(n, i)
      ensures r4[j] == LinkedMatch(players, first, i, j)
    {
      assert r4[j] == r1[j].(win := Some(Slot(first + i + 1, Advance(|r1|, SizeAt(n, i + 1), j) + 1)));
    }
  }

  /** What steps 13-15 leave alone. */
  lemma Frame13<P>(s2: seq<seq<Match<P>>>, s3: seq<seq<Match<P>>>, n: nat, first: int, i: nat)
    requires n >= 4 && Stage13(s3, s2, n, first) && i < |s3| && !(LinkStart(n) <= i < Gf(n))
    ensures s3[i] == s2[i]
  {
  }

  lemma Frame14<P>(s3: seq<seq<Match<P>>>, s4: seq<seq<Match<P>>>, n: nat, first: int, i: nat)
    requires n >= 4 && Stage14(s4, s3, n, first) && i < |s4| && !(LinkFrom(n) <= i < |s4| - 1)
    ensures s4[i] == s3[i]
  {
  }

  lemma Frame15<P>(s4: seq<seq<Match<P>>>, s5: seq<seq<Match<P>>>, w: Slot, i: nat)
    requires |s4| > 0 && |s4[|s4| - 1]| > 0 && i < |s4| - 1
    requires var k := |s4| - 1; s5 == s4[k := s4[k][0 := s4[k][0].(win := Some(w))]]
    ensures s5[i] == s4[i]
  {
  }

  /** What step 12 leaves alone: every round but the bye round, the first
      real round and the first pre-fill round. */
  lemma Frame12<P>(s1: seq<seq<Match<P>>>, s2: seq<seq<Match<P>>>, n: nat, first: int, i: nat)
    requires n >= 4 && Stage12(s2, s1, n, first) && i < |s2|
    requires i >= LinkStart(n) && (i != Gf(n) + 1 || Rem(n) == 0)
    ensures s2[i] == s1[i]
  {
    if 0 < Rem(n) <= Half(n) {
      assert SmallLinkedAt(s2, s1, Gf(n) + 1, first);
    } else if Rem(n) > Half(n) {
      assert LargeLinkedAt(s2, s1, Gf(n) + 1, first);
    }
  }

  /** The rounds step 12 gives loss pointers. */
  lemma EarlyAt<P>(s1: seq<seq<Match<P>>>, s2: seq<seq<Match<P>>>, players: seq<P>, first: int, i: nat)
    requires |players| >= 4 && i < LinkStart(|players|) && Stage12(s2, s1, |players|, first)
    requires 1 < |s1| && i < |s1| && s1[i] == DrawnRow(players, first, i) && s1[1] == DrawnRow(players, first, 1)
    ensures s2[i] == LinkedRow(players, first, i)
  {
    var n := |players|;
    LinkSizes(n);
    if Rem(n) == 0 {
      PerfectRow(s1[0], s2[0], players, first);
    } else if Rem(n) <= Half(n) {
      assert SmallLinkedAt(s2, s1, Gf(n) + 1, first);
      if i == 0 {
        SmallByeRow(s1[0], s2[0], players, first);
      } else {
        SecondRow(s1[1], s2[1], players, first);
      }
    } else {
      assert LargeLinkedAt(s2, s1, Gf(n) + 1, first);
      LargeByeRow(s1[0], s2[0], s1[1], players, first);
    }
  }

  /** The pre-fill round step 12 gives win pointers. */
  lemma PrefillAt<P>(s1: seq<seq<Match<P>>>, s2: seq<seq<Match<P>>>, players: seq<P>, first: int, i: nat)
    requires |players| >= 4 && Gf(|players|) < i < LinkFrom(|players|) && Stage12(s2, s1, |players|, first)
    requires 1 < |s1| && i < |s1| && s1[i] == DrawnRow(players, first, i) && s1[1] == DrawnRow(players, first, 1)
    ensures s2[i] == LinkedRow(players, first, i)
  {
    var n := |players|;
    if Rem(n) <= Half(n) {
      assert SmallLinkedAt(s2, s1, Gf(n) + 1, first);
      SmallPrefillRow(s1[i], s2[i], s1[1], players, first);
    } else {
      assert LargeLinkedAt(s2, s1, Gf(n) + 1, first);
      LargePrefillRow(s1[i], s2[i], s1[1], players, first);
    }
  }

  /** The losers final, linked to the grand final by step 15 (lines 327-331). */
  lemma LastRow<P>(r1: seq<Match<P>>, r5: seq<Match<P>>, players: seq<P>, first: int)
    requires |players| >= 4 && r1 == DrawnRow(players, first, Rows(|players|) - 1) && |r1| > 0
    requires r5 == r1[0 := r1[0].(win := Some(Slot(first + Gf(|players|), 1)))]
    ensures r5 == LinkedRow(players, first, Rows(|players|) - 1)
  {
    var n := |players|;
    LinkSizes(n);
    assert r5[0] == LinkedMatch(players, first, Rows(n) - 1, 0);
  }

  /** The step that sets the pointers of row i: step 12 the bye round, the
      first real round (small case) and the first pre-fill round, step 13
      the other winners rounds, step 14 the ladder, step 15 the losers
      final. The grand final gets none; it counts with step 12. */
  function StageOf(n: nat, i: nat): nat
    requires n >= 4
  {
    if i < LinkStart(n) || Gf(n) <= i < LinkFrom(n) then 12
    else if i < Gf(n) then 13
    else if i < Rows(n) - 1 then 14
    else 15
  }

  /** Row i once linked: as the source returns it when `written`, as the
      corrected model does otherwise. */
  function FinalRow<P>(players: seq<P>, first: int, i: nat, written: bool): seq<Match<P>>
    requires |players| >= 4 && i < Rows(|players|)
  {
    if written then WrittenRow(players, first, i) else LinkedRow(players, first, i)
  }

  /** The arena once steps 12 .. k are done: the rounds those steps link
      are final (as written or corrected), the others still as drawn. */
  ghost predicate Progress<P>(rs: seq<seq<Match<P>>>, players: seq<P>, first: int, k: nat, written: bool)
    requires |players| >= 4
  {
    && |rs| == Rows(|players|)
    && forall i :: 0 <= i < |rs| ==>
         rs[i] == if StageOf(|players|, i) <= k then FinalRow(players, first, i, written) else DrawnRow(players, first, i)
  }

  lemma ProgressShaped<P>(rs: seq<seq<Match<P>>>, players: seq<P>, first: int, k: nat, written: bool)
    requires |players| >= 4 && Progress(rs, players, first, k, written)
    ensures Shaped(rs, |players|)
  {
    forall i | 0 <= i < |rs|
      ensures |rs[i]| == SizeAt(|players|, i)
    {
      if written {
        assert |WrittenRow(players, first, i)| == SizeAt(|players|, i);
      }
    }
  }

  /** The grand final gets no pointer. */
  lemma GrandFinalRow<P>(players: seq<P>, first: int)
    requires |players| >= 4
    ensures LinkedRow(players, first, Gf(|players|)) == DrawnRow(players, first, Gf(|players|))
  {
    LinkSizes(|players|);
  }

  lemma Progress12<P>(s1: seq<seq<Match<P>>>, s2: seq<seq<Match<P>>>, players: seq<P>, first: int)
    requires |players| >= 4 && Progress(s1, players, first, 11, false) && Stage12(s2, s1, |players|, first)
    ensures Progress(s2, players, first, 12, false)
  {
    var n := |players|;
    LinkSizes(n);
    assert s1[1] == DrawnRow(players, first, 1);
    forall i | 0 <= i < Rows(n)
      ensures s2[i] == if StageOf(n, i) <= 12 then LinkedRow(players, first, i) else DrawnRow(players, first, i)
    {
      assert s1[i] == DrawnRow(players, first, i);
      if i < LinkStart(n) {
        EarlyAt(s1, s2, players, first, i);
      } else if i == Gf(n) {
        Frame12(s1, s2, n, first, i);
        GrandFinalRow(players, first);
      } else if Gf(n) < i < LinkFrom(n) {
        PrefillAt(s1, s2, players, first, i);
      } else {
        Frame12(s1, s2, n, first, i);
      }
    }
  }

  lemma Progress13<P>(s2: seq<seq<Match<P>>>, s3: seq<seq<Match<P>>>, players: seq<P>, first: int, written: bool)
    requires |players| >= 4 && Progress(s2, players, first, 12, written) && Stage13(s3, s2, |players|, first)
    ensures Progress(s3, players, first, 13, written)
  {
    var n := |players|;
    forall i | 0 <= i < Rows(n)
      ensures s3[i] == if StageOf(n, i) <= 13 then FinalRow(players, first, i, written) else DrawnRow(players, first, i)
    {
      if LinkStart(n) <= i < Gf(n) {
        DroppedRow(s2[i], s3[i], players, first, i);
        WrittenAgrees(players, first, i);
      } else {
        Frame13(s2, s3, n, first, i);
      }
    }
  }

  lemma Progress14<P>(s3: seq<seq<Match<P>>>, s4: seq<seq<Match<P>>>, players: seq<P>, first: int, written: bool)
    requires |players| >= 4 && Progress(s3, players, first, 13, written) && Stage14(s4, s3, |players|, first)
    ensures Progress(s4, players, first, 14, written)
  {
    var n := |players|;
    LinkSizes(n);
    forall i | 0 <= i < Rows(n)
      ensures s4[i] == if StageOf(n, i) <= 14 then FinalRow(players, first, i, written) else DrawnRow(players, first, i)
    {
      if LinkFrom(n) <= i < Rows(n) - 1 {
        assert |s3[i + 1]| == SizeAt(n, i + 1);
        LadderRow(s3[i], s4[i], players, first, i);
        WrittenAgrees(players, first, i);
      } else {
        Frame14(s3, s4, n, first, i);
      }
    }
  }

  lemma Progress15<P>(s4: seq<seq<Match<P>>>, s5: seq<seq<Match<P>>>, players: seq<P>, first: int)
    requires |players| >= 4 && Progress(s4, players, first, 14, false)
    requires var k := |s4| - 1;
      |s4[k]| > 0 && s5 == s4[k := s4[k][0 := s4[k][0].(win := Some(Slot(first + Gf(|players|), 1)))]]
    ensures s5 == Linked(players, first)
  {
    var n := |players|;
    var w := Slot(first + Gf(n), 1);
    LinkSizes(n);
    forall i | 0 <= i < Rows(n)
      ensures s5[i] == LinkedRow(players, first, i)
    {
      if i == Rows(n) - 1 {
        LastRow(s4[i], s5[i], players, first);
      } else {
        Frame15(s4, s5, w, i);
      }
    }
  }

  /** The drawn arena, before any pointer. */
  lemma DrawnProgress<P>(players: seq<P>, first: int, written: bool)
    requires |players| >= 4
    ensures Progress(Drawn(players, first), players, first, 11, written)
  {
  }

  /** Step 12 (lines 159-287). */
  method LinkFirst<P>(a: Matches<P>, players: seq<P>) returns (winRound: int, loseRound: int, fillCount: nat)
    requires |players| >= 4 && Progress(a.rounds, players, a.first, 11, false)
    modifies a
    ensures Progress(a.rounds, players, a.first, 12, false)
    ensures winRound == a.first + LinkStart(|players|) && loseRound == a.first + LoseStart(|players|)
    ensures fillCount == LinkStart(|players|)
  {
    var n := |players|;
    ghost var s1 := a.rounds;
    ProgressShaped(s1, players, a.first, 11, false);
    if Rem(n) != 0 {
      assert s1[1] == DrawnRow(players, a.first, 1);
      DrawnSeated(players, a.first);
    }
    winRound, loseRound, fillCount := CrossLink.CrossLink(a, n);
    assert Stage12(a.rounds, s1, n, a.first);
    Progress12(s1, a.rounds, players, a.first);
  }

  /** Step 13 (lines 290-309). */
  method LinkDrops<P>(a: Matches<P>, players: seq<P>, winRound: int, loseRound: int, fillCount: nat, ghost written: bool)
    requires |players| >= 4 && Progress(a.rounds, players, a.first, 12, written)
    requires winRound == a.first + LinkStart(|players|) && loseRound == a.first + LoseStart(|players|)
    requires fillCount == LinkStart(|players|)
    modifies a
    ensures Progress(a.rounds, players, a.first, 13, written)
  {
    ghost var s2 := a.rounds;
    ProgressShaped(s2, players, a.first, 12, written);
    FinishCrossLinks(a, |players|, winRound, loseRound, fillCount);
    assert Stage13(a.rounds, s2, |players|, a.first);
    Progress13(s2, a.rounds, players, a.first, written);
  }

  /** Step 14 (lines 311-325). Returns maxR, the last round. */
  method LinkLadder<P>(a: Matches<P>, players: seq<P>, roundDiff: int) returns (maxR: int)
    requires |players| >= 4 && Progress(a.rounds, players, a.first, 13, false)
    requires roundDiff == a.first + Gf(|players|)
    modifies a
    ensures Progress(a.rounds, players, a.first, 14, false)
    ensures maxR == a.first + Rows(|players|) - 1
  {
    ghost var s3 := a.rounds;
    ProgressShaped(s3, players, a.first, 13, false);
    maxR := FinalPointers(a, |players|, roundDiff);
    assert Stage14(a.rounds, s3, |players|, a.first);
    Progress14(s3, a.rounds, players, a.first, false);
  }

  /** Step 15 (lines 327-331). */
  method LinkChampion<P>(a: Matches<P>, players: seq<P>, roundDiff: int, maxR: int)
    requires |players| >= 4 && Progress(a.rounds, players, a.first, 14, false)
    requires roundDiff == a.first + Gf(|players|) && maxR == a.first + Rows(|players|) - 1
    modifies a
    ensures a.rounds == Linked(players, a.first)
  {
    var n := |players|;
    ghost var s4 := a.rounds;
    LinkSizes(n);
    assert |s4[|s4| - 1]| == SizeAt(n, Rows(n) - 1) > 0;
    assert a.Has(Slot(maxR, 1));
    Championship(a, roundDiff, maxR);
    Progress15(s4, a.rounds, players, a.first);
  }

  /** `DoubleElimination(players, startingRound)` without the shuffle
      (lines 9-333): the arena is exactly Linked(players, startingRound). */
  method DoubleElimination<P(==)>(players: seq<P>, startingRound: int) returns (a: Matches<P>)
    requires |players| >= 4 && Distinct(players)
    ensures a.first == startingRound && a.rounds == Linked(players, startingRound)
  {
    a := new Matches(startingRound);
    var roundDiff := Draw(a, players);
    DrawnProgress(players, a.first, false);
    var winRound, loseRound, fillCount := LinkFirst(a, players);
    LinkDrops(a, players, winRound, loseRound, fillCount, false);
    var maxR := LinkLadder(a, players, roundDiff);
    LinkChampion(a, players, roundDiff, maxR);
  }


  /** The winners matches that step 12 as written leaves without a loss
      pointer (lines 172, 209, 268 and 273): every bye match but match 1 in
      the perfect and the large case, every match of the first real round
      in the small case. */
  predicate Missed(n: nat, i: nat, j: nat)
    requires n >= 4
  {
    || (Rem(n) == 0 && i == 0 && j > 0)
    || (0 < Rem(n) <= Half(n) && i == 1)
    || (Rem(n) > Half(n) && i == 0 && j > 0)
  }

  /** Match j + 1 of round first + i as the source, as written, returns it:
      LinkedMatch, except that the matches Missed names have no loss pointer
      and, when the last round is below 0, the losers final has no win
      pointer (line 312). */
  function WrittenMatch<P>(players: seq<P>, first: int, i: nat, j: nat): Match<P>
    requires |players| >= 4 && i < Rows(|players|) && j < SizeAt(|players|, i)
  {
    var n := |players|;
    var l := LinkedMatch(players, first, i, j);
    if Missed(n, i, j) then l.(loss := None)
    else if i == Rows(n) - 1 && first + i < 0 then l.(win := None)
    else l
  }

  function WrittenRow<P>(players: seq<P>, first: int, i: nat): seq<Match<P>>
    requires |players| >= 4 && i < Rows(|players|)
  {
    seq(SizeAt(|players|, i), j requires 0 <= j < SizeAt(|players|, i) => WrittenMatch(players, first, i, j))
  }

  /** The arena the source, as written, returns. */
  function Written<P>(players: seq<P>, first: int): seq<seq<Match<P>>>
    requires |players| >= 4
  {
    seq(Rows(|players|), i requires 0 <= i < Rows(|players|) => WrittenRow(players, first, i))
  }

  /** Away from the rounds step 12 links and from a losers final below
      round 0, the source as written and the corrected model agree. */
  lemma WrittenAgrees<P>(players: seq<P>, first: int, i: nat)
    requires |players| >= 4 && LinkStart(|players|) <= i < Rows(|players|)
    requires i == Rows(|players|) - 1 ==> first + i >= 0
    ensures WrittenRow(players, first, i) == LinkedRow(players, first, i)
  {
  }

  /** A losers final below round 0 keeps the blank record it was drawn with. */
  lemma WrittenLastDrawn<P>(players: seq<P>, first: int)
    requires |players| >= 4 && first + Rows(|players|) - 1 < 0
    ensures WrittenRow(players, first, Rows(|players|) - 1) == DrawnRow(players, first, Rows(|players|) - 1)
  {
    LinkSizes(|players|);
  }

  /** The arena s2 after step 12 as written (CrossLinkAsWritten) on s1. */
  ghost predicate Stage12Written<P>(s2: seq<seq<Match<P>>>, s1: seq<seq<Match<P>>>, n: nat, first: int)
    requires n >= 4
  {
    && |s2| == |s1| > 0 && (forall i :: 0 <= i < |s2| ==> |s2[i]| == |s1[i]|)
    && (Rem(n) == 0 ==> 0 < |s1[0]| && s2 == s1[0 := s1[0][0 := s1[0][0].(loss := Some(Slot(first + Lb(n), 1)))]])
    && (0 < Rem(n) <= Half(n) ==> SmallWrittenAt(s2, s1, Gf(n) + 1, first))
    && (Rem(n) > Half(n) ==> LargeWrittenAt(s2, s1, Gf(n) + 1, first))
  }

  /** What step 12 as written leaves alone. */
  lemma Frame12Written<P>(s1: seq<seq<Match<P>>>, s2: seq<seq<Match<P>>>, n: nat, first: int, i: nat)
    requires n >= 4 && Stage12Written(s2, s1, n, first) && i < |s2|
    requires i >= LinkStart(n) && (i != Gf(n) + 1 || Rem(n) == 0)
    ensures s2[i] == s1[i]
  {
    if 0 < Rem(n) <= Half(n) {
      assert SmallWrittenAt(s2, s1, Gf(n) + 1, first);
    } else if Rem(n) > Half(n) {
      assert LargeWrittenAt(s2, s1, Gf(n) + 1, first);
    }
  }

  /** The rounds step 12 as written gives loss pointers, or leaves without. */
  lemma EarlyWrittenAt<P>(s1: seq<seq<Match<P>>>, s2: seq<seq<Match<P>>>, players: seq<P>, first: int, i: nat)
    requires |players| >= 4 && i < LinkStart(|players|) && Stage12Written(s2, s1, |players|, first)
    requires 1 < |s1| && i < |s1| && s1[i] == DrawnRow(players, first, i) && s1[1] == DrawnRow(players, first, 1)
    ensures s2[i] == WrittenRow(players, first, i)
  {
    var n := |players|;
    LinkSizes(n);
    if Rem(n) == 0 {
      EarlyPerfectWritten(s1, s2, players, first);
    } else if Rem(n) <= Half(n) {
      EarlySmallWritten(s1, s2, players, first, i);
    } else {
      EarlyLargeWritten(s1, s2, players, first);
    }
  }

  lemma EarlyPerfectWritten<P>(s1: seq<seq<Match<P>>>, s2: seq<seq<Match<P>>>, players: seq<P>, first: int)
    requires |players| >= 4 && Rem(|players|) == 0 && Stage12Written(s2, s1, |players|, first)
    requires 0 < |s1| && s1[0] == DrawnRow(players, first, 0)
    ensures s2[0] == WrittenRow(players, first, 0)
  {
    var n := |players|;
    LinkSizes(n);
    forall j | 0 <= j < SizeAt(n, 0)
      ensures s2[0][j] == WrittenMatch(players, first, 0, j)
    {
    }
  }

  lemma EarlySmallWritten<P>(s1: seq<seq<Match<P>>>, s2: seq<seq<Match<P>>>, players: seq<P>, first: int, i: nat)
    requires |players| >= 4 && 0 < Rem(|players|) <= Half(|players|) && i < 2
    requires Stage12Written(s2, s1, |players|, first)
    requires 1 < |s1| && s1[i] == DrawnRow(players, first, i) && s1[1] == DrawnRow(players, first, 1)
    ensures s2[i] == WrittenRow(players, first, i)
  {
    var n := |players|;
    LinkSizes(n);
    assert SmallWrittenAt(s2, s1, Gf(n) + 1, first);
    if i == 0 {
      SmallByeRow(s1[0], s2[0], players, first);
      SmallByeWritten(players, first);
    } else {
      assert s2[1] == s1[1];
      SecondRowWritten(players, first);
    }
  }

  /** Small case: the bye round keeps the loss pointers step 12 gives it. */
  lemma SmallByeWritten<P>(players: seq<P>, first: int)
    requires |players| >= 4 && 0 < Rem(|players|) <= Half(|players|)
    ensures WrittenRow(players, first, 0) == LinkedRow(players, first, 0)
  {
    LinkSizes(|players|);
  }

  /** Small case as written: the first real round stays as drawn. */
  lemma SecondRowWritten<P>(players: seq<P>, first: int)
    requires |players| >= 4 && 0 < Rem(|players|) <= Half(|players|)
    ensures WrittenRow(players, first, 1) == DrawnRow(players, first, 1)
  {
    var n := |players|;
    LinkSizes(n);
    forall j | 0 <= j < SizeAt(n, 1)
      ensures WrittenMatch(players, first, 1, j) == DrawnMatch(players, first, 1, j)
    {
      assert DrawnMatch(players, first, 1, j).loss == None;
    }
  }

  lemma EarlyLargeWritten<P>(s1: seq<seq<Match<P>>>, s2: seq<seq<Match<P>>>, players: seq<P>, first: int)
    requires |players| >= 4 && Rem(|players|) > Half(|players|) && Stage12Written(s2, s1, |players|, first)
    requires 1 < |s1| && s1[0] == DrawnRow(players, first, 0) && s1[1] == DrawnRow(players, first, 1)
    ensures s2[0] == WrittenRow(players, first, 0)
  {
    var n := |players|;
    LinkSizes(n);
    assert LargeWrittenAt(s2, s1, Gf(n) + 1, first);
    forall j | 0 <= j < SizeAt(n, 0)
      ensures s2[0][j] == WrittenMatch(players, first, 0, j)
    {
      if j == 0 {
        assert LinkedMatch(players, first, 0, 0) == DrawnMatch(players, first, 0, 0).(loss := Some(LargeLoss(players, first, 0)));
      }
    }
  }

  /** The pre-fill round step 12 as written gives win pointers, as the
      corrected step does. */
  lemma PrefillWrittenAt<P>(s1: seq<seq<Match<P>>>, s2: seq<seq<Match<P>>>, players: seq<P>, first: int, i: nat)
    requires |players| >= 4 && Gf(|players|) < i < LinkFrom(|players|) && Stage12Written(s2, s1, |players|, first)
    requires 1 < |s1| && i < |s1| && s1[i] == DrawnRow(players, first, i) && s1[1] == DrawnRow(players, first, 1)
    ensures s2[i] == LinkedRow(players, first, i)
  {
    var n := |players|;
    if Rem(n) <= Half(n) {
      assert SmallWrittenAt(s2, s1, Gf(n) + 1, first);
      SmallPrefillRow(s1[i], s2[i], s1[1], players, first);
    } else {
      assert LargeWrittenAt(s2, s1, Gf(n) + 1, first);
      LargePrefillRow(s1[i], s2[i], s1[1], players, first);
    }
  }

  lemma Progress12Written<P>(s1: seq<seq<Match<P>>>, s2: seq<seq<Match<P>>>, players: seq<P>, first: int)
    requires |players| >= 4 && Progress(s1, players, first, 11, true) && Stage12Written(s2, s1, |players|, first)
    ensures Progress(s2, players, first, 12, true)
  {
    var n := |players|;
    LinkSizes(n);
    assert s1[1] == DrawnRow(players, first, 1);
    forall i | 0 <= i < Rows(n)
      ensures s2[i] == if StageOf(n, i) <= 12 then WrittenRow(players, first, i) else DrawnRow(players, first, i)
    {
      assert s1[i] == DrawnRow(players, first, i);
      if i < LinkStart(n) {
        EarlyWrittenAt(s1, s2, players, first, i);
      } else if i == Gf(n) {
        Frame12Written(s1, s2, n, first, i);
        GrandFinalRow(players, first);
        WrittenAgrees(players, first, i);
      } else if Gf(n) < i < LinkFrom(n) {
        PrefillWrittenAt(s1, s2, players, first, i);
        WrittenAgrees(players, first, i);
      } else {
        Frame12Written(s1, s2, n, first, i);
      }
    }
  }

  /** Step 15 as written: with maxR = max(0, last round), the losers final
      is linked when the last round is 0 or more and left alone otherwise. */
  lemma Progress15Written<P>(s4: seq<seq<Match<P>>>, s5: seq<seq<Match<P>>>, players: seq<P>, first: int)
    requires |players| >= 4 && Progress(s4, players, first, 14, true)
    requires first + Rows(|players|) - 1 >= 0 ==> var k := |s4| - 1;
      |s4[k]| > 0 && s5 == s4[k := s4[k][0 := s4[k][0].(win := Some(Slot(first + Gf(|players|), 1)))]]
    requires first + Rows(|players|) - 1 < 0 ==> s5 == s4
    ensures s5 == Written(players, first)
  {
    if first + Rows(|players|) - 1 >= 0 {
      Progress15Linked(s4, s5, players, first);
    } else {
      Progress15Below(s4, players, first);
    }
  }

  /** Step 15 as written when the last round is 0 or more. */
  lemma Progress15Linked<P>(s4: seq<seq<Match<P>>>, s5: seq<seq<Match<P>>>, players: seq<P>, first: int)
    requires |players| >= 4 && Progress(s4, players, first, 14, true) && first + Rows(|players|) - 1 >= 0
    requires var k := |s4| - 1;
      |s4[k]| > 0 && s5 == s4[k := s4[k][0 := s4[k][0].(win := Some(Slot(first + Gf(|players|), 1)))]]
    ensures s5 == Written(players, first)
  {
    var n := |players|;
    var w := Slot(first + Gf(n), 1);
    LinkSizes(n);
    forall i | 0 <= i < Rows(n)
      ensures s5[i] == WrittenRow(players, first, i)
    {
      if i == Rows(n) - 1 {
        LastRow(s4[i], s5[i], players, first);
        WrittenAgrees(players, first, i);
      } else {
        Frame15(s4, s5, w, i);
      }
    }
  }

  /** Step 15 as written when the last round is below 0: nothing changes. */
  lemma Progress15Below<P>(s4: seq<seq<Match<P>>>, players: seq<P>, first: int)
    requires |players| >= 4 && Progress(s4, players, first, 14, true) && first + Rows(|players|) - 1 < 0
    ensures s4 == Written(players, first)
  {
    var n := |players|;
    LinkSizes(n);
    forall i | 0 <= i < Rows(n)
      ensures s4[i] == WrittenRow(players, first, i)
    {
      if i == Rows(n) - 1 {
        WrittenLastDrawn(players, first);
      }
    }
  }

  /** Step 12 as written (lines 159-287). */
  method LinkFirstAsWritten<P>(a: Matches<P>, players: seq<P>) returns (winRound: int, loseRound: int, fillCount: nat)
    requires |players| >= 4 && Progress(a.rounds, players, a.first, 11, true)
    modifies a
    ensures Progress(a.rounds, players, a.first, 12, true)
    ensures winRound == a.first + LinkStart(|players|) && loseRound == a.first + LoseStart(|players|)
    ensures fillCount == LinkStart(|players|)
  {
    var n := |players|;
    ghost var s1 := a.rounds;
    ProgressShaped(s1, players, a.first, 11, true);
    if Rem(n) != 0 {
      assert s1[1] == DrawnRow(players, a.first, 1);
      DrawnSeated(players, a.first);
    }
    winRound, loseRound, fillCount := CrossLinkAsWritten(a, n);
    assert Stage12Written(a.rounds, s1, n, a.first);
    Progress12Written(s1, a.rounds, players, a.first);
  }

  /** Step 14 as written (lines 311-325), maxR folding from 0. */
  method LinkLadderAsWritten<P>(a: Matches<P>, players: seq<P>, roundDiff: int) returns (maxR: int)
    requires |players| >= 4 && Progress(a.rounds, players, a.first, 13, true)
    requires roundDiff == a.first + Gf(|players|)
    modifies a
    ensures Progress(a.rounds, players, a.first, 14, true)
    ensures var last := a.first + Rows(|players|) - 1; maxR == if last >= 0 then last else 0
  {
    ghost var s3 := a.rounds;
    ProgressShaped(s3, players, a.first, 13, true);
    maxR := FinalPointersAsWritten(a, |players|, roundDiff);
    assert Stage14(a.rounds, s3, |players|, a.first);
    Progress14(s3, a.rounds, players, a.first, true);
  }

  /** Step 15 as written (lines 327-331): with maxR = 0 past a negative
      last round no match has round maxR, and nothing changes. */
  method LinkChampionAsWritten<P>(a: Matches<P>, players: seq<P>, roundDiff: int, maxR: int)
    requires |players| >= 4 && Progress(a.rounds, players, a.first, 14, true)
    requires roundDiff == a.first + Gf(|players|)
    requires var last := a.first + Rows(|players|) - 1; maxR == if last >= 0 then last else 0
    modifies a
    ensures a.rounds == Written(players, a.first)
  {
    var n := |players|;
    ghost var s4 := a.rounds;
    LinkSizes(n);
    assert |s4[|s4| - 1]| == SizeAt(n, Rows(n) - 1) > 0;
    if a.first + Rows(n) - 1 >= 0 {
      assert a.Has(Slot(maxR, 1));
    } else {
      assert !a.Has(Slot(maxR, 1));
    }
    Championship(a, roundDiff, maxR);
    Progress15Written(s4, a.rounds, players, a.first);
  }

  /** `DoubleElimination(players, startingRound)` as written, without the
      shuffle (lines 9-333): the searches of step 12 consume their queue
      once per visited match, and maxR folds from 0. The arena is exactly
      Written(players, startingRound). */
  method DoubleEliminationAsWritten<P(==)>(players: seq<P>, startingRound: int) returns (a: Matches<P>)
    requires |players| >= 4 && Distinct(players)
    ensures a.first == startingRound && a.rounds == Written(players, startingRound)
  {
    a := new Matches(startingRound);
    var roundDiff := Draw(a, players);
    DrawnProgress(players, a.first, true);
    var winRound, loseRound, fillCount := LinkFirstAsWritten(a, players);
    LinkDrops(a, players, winRound, loseRound, fillCount, true);
    var maxR := LinkLadderAsWritten(a, players, roundDiff);
    LinkChampionAsWritten(a, players, roundDiff, maxR);
  }
}
