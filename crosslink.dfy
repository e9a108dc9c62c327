/** Step 12 of src/DoubleElimination.ts (lines 159-288): the loss pointers of
    the first winners rounds into the losers bracket, and the win pointers of
    the pre-fill rounds, in the three cases of the bye count. */
module CrossLink {
  import opened Arith
  import opened Layout
  import opened FillPattern
  import opened Arena
  import opened Skeleton
  import opened Seeding
  import opened Routes

  /** Every round has the size of the layout: the arena as step 10 leaves it. */
  ghost predicate Shaped<P>(rs: seq<seq<Match<P>>>, n: nat)
    requires n >= 4
  {
    && |rs| == Lb(n) + 2 * (F(n) - 1)
    && forall i :: 0 <= i < |rs| ==> |rs[i]| == SizeAt(n, i)
  }

  /** Pointer updates keep the shape. */
  lemma ShapedKept<P>(rs: seq<seq<Match<P>>>, rs': seq<seq<Match<P>>>, n: nat)
    requires n >= 4 && Shaped(rs, n) && |rs'| == |rs|
    requires forall i :: 0 <= i < |rs| ==> |rs'[i]| == |rs[i]|
    ensures Shaped(rs', n)
  {
  }

  /** Perfect power of two (lines 165-178): winners match m of the first round
      loses into losers match ceil(m / 2) of the first ladder round. */
  method LinkPerfect<P>(a: Matches<P>, n: nat, winRound: int, loseRound: int, fillCount: nat)
    requires n >= 4 && |a.rounds| > Lb(n) && |a.rounds[0]| == Half(n) && 2 * |a.rounds[Lb(n)]| == Half(n)
    requires winRound == a.first && loseRound == a.first + Lb(n) && fillCount == 0
    modifies a
    ensures |a.rounds| == |old(a.rounds)| && |a.rounds[0]| == |old(a.rounds)[0]|
    ensures forall i :: 1 <= i < |a.rounds| ==> a.rounds[i] == old(a.rounds)[i]
    ensures forall k :: 0 <= k < |a.rounds[0]| ==>
      a.rounds[0][k] == old(a.rounds)[0][k].(loss := Some(Slot(loseRound, CeilHalf(k + 1))))
  {
    var wbSize := a.Size(winRound);
    var fp := Pattern(wbSize, fillCount);
    ghost var order := fp;
    var lms := a.Size(loseRound);
    var l := 0;
    while l < lms
      invariant 0 <= l <= lms && fp == order[2 * l..]
      invariant |a.rounds| == |old(a.rounds)| && |a.rounds[0]| == wbSize
      invariant forall i :: 1 <= i < |a.rounds| ==> a.rounds[i] == old(a.rounds)[i]
      invariant forall k :: 0 <= k < wbSize ==>
        a.rounds[0][k] == if k < 2 * l then old(a.rounds)[0][k].(loss := Some(Slot(loseRound, CeilHalf(k + 1)))) else old(a.rounds)[0][k]
    {
      PatternAt(wbSize, fillCount, 2 * l);
      PatternAt(wbSize, fillCount, 2 * l + 1);
      fp := RoutePair(a, winRound, Slot(loseRound, l + 1), fp);
      l := l + 1;
    }
  }

  /** The `for (let i = 0; i < 2; i++)` loop of lines 171-174: the next two
      entries shifted off the queue fp name the matches of round r that lose
      into `to`. */
  method RoutePair<P>(a: Matches<P>, r: int, to: Slot, fp: seq<int>) returns (rest: seq<int>)
    requires |fp| >= 2 && a.Has(Slot(r, fp[0])) && a.Has(Slot(r, fp[1]))
    modifies a
    ensures rest == fp[2..]
    ensures var w := r - a.first;
      && |a.rounds| == |old(a.rounds)|
      && (forall i :: 0 <= i < |a.rounds| && i != w ==> a.rounds[i] == old(a.rounds)[i])
      && |a.rounds[w]| == |old(a.rounds)[w]|
      && forall k :: 0 <= k < |a.rounds[w]| ==>
           a.rounds[w][k] == if k + 1 == fp[0] || k + 1 == fp[1] then old(a.rounds)[w][k].(loss := Some(to)) else old(a.rounds)[w][k]
  {
    var w := r - a.first;
    rest := fp;
    var i := 0;
    while i < 2
      invariant 0 <= i <= 2 && rest == fp[i..]
      invariant |a.rounds| == |old(a.rounds)| && |a.rounds[w]| == |old(a.rounds)[w]|
      invariant forall q :: 0 <= q < |a.rounds| && q != w ==> a.rounds[q] == old(a.rounds)[q]
      invariant forall k :: 0 <= k < |a.rounds[w]| ==>
        a.rounds[w][k] == if (i > 0 && k + 1 == fp[0]) || (i > 1 && k + 1 == fp[1]) then old(a.rounds)[w][k].(loss := Some(to)) else old(a.rounds)[w][k]
    {
      var v := rest[0];
      rest := rest[1..];
      // `wb.find(wm => wm.match === v)`
      if a.Has(Slot(r, v)) {
        a.SetLoss(Slot(r, v), to);
      }
      i := i + 1;
    }
  }

  /** Small remainder, first pass (lines 181-190): bye match i + 1 loses into
      pre-fill match i + 1. */
  method LinkByeLosers<P>(a: Matches<P>, n: nat, winRound: int, loseRound: int, fillCount: nat)
    requires n >= 4 && |a.rounds| > Gf(n) + 1 && |a.rounds[0]| == |a.rounds[Gf(n) + 1]|
    requires winRound == a.first && loseRound == a.first + Gf(n) + 1 && fillCount == 0
    modifies a
    ensures |a.rounds| == |old(a.rounds)| && |a.rounds[0]| == |old(a.rounds)[0]|
    ensures forall i :: 1 <= i < |a.rounds| ==> a.rounds[i] == old(a.rounds)[i]
    ensures forall k :: 0 <= k < |a.rounds[0]| ==> a.rounds[0][k] == old(a.rounds)[0][k].(loss := Some(Slot(loseRound, k + 1)))
  {
    var wbSize := a.Size(winRound);
    var fp := Pattern(wbSize, fillCount);
    var lms := a.Size(loseRound);
    var i := 0;
    while i < lms
      invariant 0 <= i <= lms
      invariant |a.rounds| == |old(a.rounds)| && |a.rounds[0]| == wbSize
      invariant forall q :: 1 <= q < |a.rounds| ==> a.rounds[q] == old(a.rounds)[q]
      invariant forall k :: 0 <= k < wbSize ==>
        a.rounds[0][k] == if k < i then old(a.rounds)[0][k].(loss := Some(Slot(loseRound, k + 1))) else old(a.rounds)[0][k]
    {
      PatternAt(wbSize, fillCount, i);
      var v := fp[i];
      if a.Has(Slot(winRound, v)) {
        a.SetLoss(Slot(winRound, v), Slot(loseRound, i + 1));
      }
      i := i + 1;
    }
  }

  /** Where the loser of match k + 1 of the first real round goes in the
      small case (lines 192-223), `pre` being the pre-fill round and
      `pre + 1` the first ladder round. The queue is the reversed order, so
      losers match x + 1 takes winners matches h - 2x and h - 2x - 1; when
      matches 2x + 1, 2x + 2 of the row hold a null seat, the first of the
      two goes instead to the next unused pre-fill match. */
  function SecondRoundLoss<P>(row: seq<Match<P>>, pre: int, k: nat): Slot
    requires k < |row|
  {
    var p := |row| - 1 - k;
    var x := p / 2;
    if p % 2 == 0 && 2 * x + 1 < |row| && (HasBye(row[2 * x]) || HasBye(row[2 * x + 1])) then Slot(pre, Hits(row, x) + 1)
    else Slot(pre + 1, x + 1)
  }

  /** Where the loser of winners match h - 2x goes: the first of the two
      feeding losers match x + 1. */
  lemma SecondRoundLossFirst<P>(row: seq<Match<P>>, pre: int, x: nat)
    requires 2 * x + 2 <= |row|
    ensures SecondRoundLoss(row, pre, |row| - 1 - 2 * x)
         == if HasBye(row[2 * x]) || HasBye(row[2 * x + 1]) then Slot(pre, Hits(row, x) + 1) else Slot(pre + 1, x + 1)
  {
    var p := |row| - 1 - (|row| - 1 - 2 * x);
    assert p == 2 * x && p / 2 == x && p % 2 == 0;
  }

  /** The second one, winners match h - 2x - 1, always loses into losers
      match x + 1. */
  lemma SecondRoundLossSecond<P>(row: seq<Match<P>>, pre: int, x: nat)
    requires 2 * x + 2 <= |row|
    ensures SecondRoundLoss(row, pre, |row| - 2 - 2 * x) == Slot(pre + 1, x + 1)
  {
    var p := |row| - 1 - (|row| - 2 - 2 * x);
    assert p == 2 * x + 1 && p / 2 == x && p % 2 == 1;
  }

  /** Row `cur` is `row` with the losers of its last 2x matches routed as
      in the small case. */
  ghost predicate SecondRoundDone<P>(cur: seq<Match<P>>, row: seq<Match<P>>, pre: int, x: nat)
  {
    && |cur| == |row|
    && forall k {:trigger cur[k]} :: 0 <= k < |row| ==>
         cur[k] == if |row| - 1 - k < 2 * x then row[k].(loss := Some(SecondRoundLoss(row, pre, k))) else row[k]
  }

  /** Small remainder, second pass (lines 192-225): the losers of the first
      real round, in reversed order, two per losers match of the first
      ladder round, except that the first loser of each bye route is sent
      back to the pre-fill round instead. */
  method LinkSecondRound<P>(a: Matches<P>, n: nat, winRound: int, loseRound: int, fillCount: nat)
    requires n >= 4 && 0 < Rem(n) <= Half(n) && |a.rounds| > Gf(n) + 2
    requires |a.rounds[1]| == Half(n) && 2 * |a.rounds[Gf(n) + 2]| == Half(n) && |a.rounds[Gf(n) + 1]| == Rem(n)
    requires Seated(a.rounds[1], n)
    requires winRound == a.first + 1 && loseRound == a.first + Gf(n) + 2 && fillCount == 1
    modifies a
    ensures SecondLinked(a.rounds, old(a.rounds), loseRound - 1)
  {
    ghost var row := a.rounds[1];
    var wbSize := a.Size(winRound);
    var fp := Pattern(wbSize, fillCount);
    PatternReversed(wbSize);
    assert Countdown(fp, |row|);
    var byeRoutes := set v | v in NullRoutes(a.rounds[1]);
    RoutesAboveZero(NullRoutes(row), CeilHalf(|row|));
    forall x: nat | 2 * x + 2 <= |row| && (HasBye(row[2 * x]) || HasBye(row[2 * x + 1]))
      ensures Hits(row, x) < |a.rounds[Gf(n) + 1]|
    {
      AltBound(row, n, x);
    }
    RouteSecondRound(a, Gf(n) + 1, winRound, loseRound, fp, byeRoutes, row);
  }

  /** The loop of lines 203-223 over the losers matches of the first ladder
      round, `pre` being the row of the pre-fill round: `alt` counts the
      pre-fill matches handed out, and `row` is the first real round. */
  method RouteSecondRound<P>(a: Matches<P>, ghost pre: nat, winRound: int, loseRound: int, fp: seq<int>,
                             byeRoutes: set<int>, ghost row: seq<Match<P>>)
    requires 1 < pre && pre + 1 < |a.rounds| && winRound == a.first + 1 && loseRound == a.first + pre + 1
    requires row == a.rounds[1] && |row| == 2 * |a.rounds[pre + 1]|
    requires Countdown(fp, |row|) && byeRoutes == RoutesAbove(NullRoutes(row), 0)
    requires forall x: nat :: 2 * x + 2 <= |row| && (HasBye(row[2 * x]) || HasBye(row[2 * x + 1])) ==> Hits(row, x) < |a.rounds[pre]|
    modifies a
    ensures |a.rounds| == |old(a.rounds)| && |a.rounds[1]| == |row|
    ensures forall i :: 0 <= i < |a.rounds| && i != 1 ==> a.rounds[i] == old(a.rounds)[i]
    ensures SecondRoundLosses(a.rounds[1], row, loseRound - 1)
  {
    var queue := fp;
    var routes := byeRoutes;
    var alt := 0;
    var lms := a.Size(loseRound);
    var x := 0;
    while x < lms
      invariant 0 <= x <= lms && Countdown(queue, |row| - 2 * x) && alt == Hits(row, x)
      invariant routes == RoutesAbove(NullRoutes(row), x)
      invariant |a.rounds| == |old(a.rounds)| && SecondRoundDone(a.rounds[1], row, loseRound - 1, x)
      invariant forall i :: 0 <= i < |a.rounds| && i != 1 ==> a.rounds[i] == old(a.rounds)[i]
    {
      CountdownTail(queue, |row| - 2 * x);
      assert a.rounds[pre] == old(a.rounds)[pre];
      queue, alt, routes := SecondRoundStep(a, pre, winRound, loseRound, x, queue, alt, routes, row);
      x := x + 1;
    }
    SecondRoundDoneAll(a.rounds[1], row, loseRound - 1, x);
  }

  /** Once every losers match is done, every match of the first real round is. */
  lemma SecondRoundDoneAll<P>(cur: seq<Match<P>>, row: seq<Match<P>>, pre: int, x: nat)
    requires SecondRoundDone(cur, row, pre, x) && 2 * x == |row|
    ensures SecondRoundLosses(cur, row, pre)
  {
  }

  /** Every match of the first real round `row` has become `cur`'s match
      with the loser pointer `SecondRoundLoss` gives it. */
  ghost predicate SecondRoundLosses<P>(cur: seq<Match<P>>, row: seq<Match<P>>, pre: int)
  {
    |cur| == |row| && forall k {:trigger cur[k]} :: 0 <= k < |row| ==> cur[k] == row[k].(loss := Some(SecondRoundLoss(row, pre, k)))
  }

  /** rs is orig after LinkSecondRound: only the losses of the first ladder
      round (row 1) are set, the pre-fill round being row pre. */
  ghost predicate SecondLinked<P>(rs: seq<seq<Match<P>>>, orig: seq<seq<Match<P>>>, pre: int)
  {
    && |rs| == |orig| > 1
    && (forall i :: 0 <= i < |rs| && i != 1 ==> rs[i] == orig[i])
    && SecondRoundLosses(rs[1], orig[1], pre)
  }

  /** The queue q holds top, top - 1, ..., 1. */
  ghost predicate Countdown(q: seq<int>, top: int)
  {
    |q| == top && forall i :: 0 <= i < |q| ==> q[i] == top - i
  }

  /** Two shifts of a countdown queue leave a countdown from two less. */
  lemma CountdownTail(q: seq<int>, top: int)
    requires Countdown(q, top) && top >= 2
    ensures q[0] == top && q[1] == top - 1 && Countdown(q[2..], top - 2)
  {
  }

  /** One losers match of the first ladder round (lines 205-223), with the
      bookkeeping of `alt` and `byeRoutes`; `pre` is the row of the
      pre-fill round. */
  method SecondRoundStep<P>(a: Matches<P>, ghost pre: nat, winRound: int, loseRound: int, x: nat, fp: seq<int>, alt: nat,
                            byeRoutes: set<int>, ghost row: seq<Match<P>>)
    returns (fp': seq<int>, alt': nat, byeRoutes': set<int>)
    requires 1 < pre < |a.rounds| && winRound == a.first + 1 && loseRound == a.first + pre + 1
    requires 2 * x + 2 <= |row| && |fp| >= 2 && fp[0] == |row| - 2 * x && fp[1] == |row| - 2 * x - 1
    requires alt == Hits(row, x) && (HasBye(row[2 * x]) || HasBye(row[2 * x + 1]) ==> alt < |a.rounds[pre]|)
    requires byeRoutes == RoutesAbove(NullRoutes(row), x)
    requires SecondRoundDone(a.rounds[1], row, loseRound - 1, x)
    modifies a
    ensures fp' == fp[2..] && alt' == Hits(row, x + 1)
    ensures byeRoutes' == RoutesAbove(NullRoutes(row), x + 1)
    ensures |a.rounds| == |old(a.rounds)| && SecondRoundDone(a.rounds[1], row, loseRound - 1, x + 1)
    ensures forall i :: 0 <= i < |a.rounds| && i != 1 ==> a.rounds[i] == old(a.rounds)[i]
  {
    NullRoutesHas(row, x + 1);
    SecondRoundLossFirst(row, loseRound - 1, x);
    SecondRoundLossSecond(row, loseRound - 1, x);
    ghost var before := a.rounds[1];
    fp' := RouteSecondRoundLoser(a, 1, winRound, loseRound, x, fp, alt, x + 1 in byeRoutes);
    ghost var d0 := if x + 1 in byeRoutes then Slot(loseRound - 1, alt + 1) else Slot(loseRound, x + 1);
    SecondRoundDoneStep(before, a.rounds[1], row, loseRound - 1, x, d0, Slot(loseRound, x + 1));
    ByeRoutesStep(NullRoutes(row), x);
    alt', byeRoutes' := alt, byeRoutes;
    if x + 1 in byeRoutes {
      alt' := alt + 1;
      byeRoutes' := byeRoutes - {x + 1};
    }
  }

  /** The routes still in `byeRoutes` once the losers matches 1 .. x are
      done. */
  function RoutesAbove(routes: seq<int>, x: int): (r: set<int>)
    ensures forall v :: v in r <==> v in routes && v > x
  {
    set v | v in routes && v > x
  }

  /** Every route is positive, so at the start none has been deleted. */
  lemma RoutesAboveZero(routes: seq<int>, top: int)
    requires forall i :: 0 <= i < |routes| ==> 1 <= routes[i] <= top
    ensures (set v | v in routes) == RoutesAbove(routes, 0)
  {
  }

  /** Deleting route x + 1 leaves the routes above x + 1; when x + 1 is not
      a route nothing changes. */
  lemma ByeRoutesStep(routes: seq<int>, x: int)
    ensures RoutesAbove(routes, x) - {x + 1} == RoutesAbove(routes, x + 1)
    ensures x + 1 !in routes ==> RoutesAbove(routes, x) == RoutesAbove(routes, x + 1)
  {
  }

  /** Routing the losers of winners matches h - 2x and h - 2x - 1 extends
      the routed suffix of the row by two. */
  lemma SecondRoundDoneStep<P>(before: seq<Match<P>>, after: seq<Match<P>>, row: seq<Match<P>>, pre: int, x: nat,
                               d0: Slot, d1: Slot)
    requires 2 * x + 2 <= |row| && SecondRoundDone(before, row, pre, x) && |after| == |row|
    requires d0 == SecondRoundLoss(row, pre, |row| - 1 - 2 * x) && d1 == SecondRoundLoss(row, pre, |row| - 2 - 2 * x)
    requires forall k :: 0 <= k < |row| ==>
      after[k] == if k + 1 == |row| - 2 * x then before[k].(loss := Some(d0))
                  else if k + 1 == |row| - 2 * x - 1 then before[k].(loss := Some(d1))
                  else before[k]
    ensures SecondRoundDone(after, row, pre, x + 1)
  {
    forall k | 0 <= k < |row|
      ensures after[k] == if |row| - 1 - k < 2 * (x + 1) then row[k].(loss := Some(SecondRoundLoss(row, pre, k))) else row[k]
    {
      assert before[k] == if |row| - 1 - k < 2 * x then row[k].(loss := Some(SecondRoundLoss(row, pre, k))) else row[k];
    }
  }

  /** The body of lines 207-222 for losers match x + 1: two shifts of the
      queue; when x + 1 is still a bye route, the first loser goes to
      pre-fill match alt + 1 and the route is deleted, so the second goes to
      losers match x + 1. */
  method RouteSecondRoundLoser<P>(a: Matches<P>, w: nat, winRound: int, loseRound: int, x: nat, fp: seq<int>, alt: nat, diverted: bool)
    returns (fp': seq<int>)
    requires winRound == a.first + w
    requires |fp| >= 2 && a.Has(Slot(winRound, fp[0])) && a.Has(Slot(winRound, fp[1])) && fp[0] != fp[1]
    requires diverted ==> a.Has(Slot(loseRound - 1, alt + 1))
    modifies a
    ensures fp' == fp[2..]
    ensures |a.rounds| == |old(a.rounds)|
    ensures forall i :: 0 <= i < |a.rounds| ==> |a.rounds[i]| == |old(a.rounds)[i]|
    ensures forall i :: 0 <= i < |a.rounds| && i != w ==> a.rounds[i] == old(a.rounds)[i]
    ensures forall k :: 0 <= k < |a.rounds[w]| ==>
      a.rounds[w][k]
        == if k + 1 == fp[0] then old(a.rounds)[w][k].(loss := Some(if diverted then Slot(loseRound - 1, alt + 1) else Slot(loseRound, x + 1)))
           else if k + 1 == fp[1] then old(a.rounds)[w][k].(loss := Some(Slot(loseRound, x + 1)))
           else old(a.rounds)[w][k]
  {
    fp' := fp;
    var pending := diverted;
    var i := 0;
    while i < 2
      invariant 0 <= i <= 2 && fp' == fp[i..] && (pending <==> diverted && i == 0)
      invariant |a.rounds| == |old(a.rounds)|
      invariant forall q :: 0 <= q < |a.rounds| ==> |a.rounds[q]| == |old(a.rounds)[q]|
      invariant forall q :: 0 <= q < |a.rounds| && q != w ==> a.rounds[q] == old(a.rounds)[q]
      invariant forall k :: 0 <= k < |a.rounds[w]| ==>
        a.rounds[w][k]
          == if i > 0 && k + 1 == fp[0] then old(a.rounds)[w][k].(loss := Some(if diverted then Slot(loseRound - 1, alt + 1) else Slot(loseRound, x + 1)))
             else if i > 1 && k + 1 == fp[1] then old(a.rounds)[w][k].(loss := Some(Slot(loseRound, x + 1)))
             else old(a.rounds)[w][k]
    {
      var v := fp'[0];
      fp' := fp'[1..];
      if a.Has(Slot(winRound, v)) {
        if pending {
          // `byeRoutes.has(lm.match)`: the pre-fill match `alt++`, then the route is deleted
          a.SetLoss(Slot(winRound, v), Slot(loseRound - 1, alt + 1));
          pending := false;
        } else {
          a.SetLoss(Slot(winRound, v), Slot(loseRound, x + 1));
        }
      }
      i := i + 1;
    }
  }

  /** Lines 227-244 and 281-287: pre-fill match i + 1 (row `pre`) advances
      to match routes[i] of the next round, when there is such a match. */
  method LinkBackWins<P>(a: Matches<P>, pre: nat, routes: seq<int>)
    requires pre + 1 < |a.rounds|
    modifies a
    ensures BackWon(a.rounds, old(a.rounds), pre, a.first, routes)
  {
    var round := a.first + pre;
    var count := a.Size(round);
    var i := 0;
    while i < count
      invariant 0 <= i <= count && |a.rounds| == |old(a.rounds)| && |a.rounds[pre]| == count
      invariant forall q :: 0 <= q < |a.rounds| && q != pre ==> a.rounds[q] == old(a.rounds)[q]
      invariant forall k :: 0 <= k < count ==>
        a.rounds[pre][k] == if k < i && k < |routes| && 1 <= routes[k] <= |old(a.rounds)[pre + 1]|
                            then old(a.rounds)[pre][k].(win := Some(Slot(a.first + pre + 1, routes[k])))
                            else old(a.rounds)[pre][k]
    {
      // `matches.find(x => x.round === m.round + 1 && x.match === routes[i])`
      if i < |routes| && a.Has(Slot(round + 1, routes[i])) {
        a.SetWin(Slot(round, i + 1), Slot(round + 1, routes[i]));
      }
      i := i + 1;
    }
  }

  /** rs is orig after LinkBackWins: pre-fill match i + 1 (row pre) wins
      into match routes[i] of the next round when that match exists, and
      nothing else changes. */
  ghost predicate BackWon<P>(rs: seq<seq<Match<P>>>, orig: seq<seq<Match<P>>>, pre: nat, first: int, routes: seq<int>)
  {
    && |rs| == |orig| > pre + 1 && |rs[pre]| == |orig[pre]|
    && (forall i :: 0 <= i < |rs| && i != pre ==> rs[i] == orig[i])
    && forall i :: 0 <= i < |rs[pre]| ==>
         rs[pre][i] == if i < |routes| && 1 <= routes[i] <= |orig[pre + 1]|
                       then orig[pre][i].(win := Some(Slot(first + pre + 1, routes[i])))
                       else orig[pre][i]
  }

  /** fp is 1, 2, ..., |fp|: phase 0 of the fill pattern. */
  ghost predicate Counting(fp: seq<int>)
  {
    forall i :: 0 <= i < |fp| ==> fp[i] == i + 1
  }

  /** Row `cur` is `orig` with the loss of match k + 1 set to D[k] for every
      k below both `upto` and |D|. */
  ghost predicate LargeDone<P>(cur: seq<Match<P>>, orig: seq<Match<P>>, d: seq<Slot>, upto: int)
  {
    && |cur| == |orig|
    && forall k {:trigger cur[k]} :: 0 <= k < |orig| ==>
         cur[k] == if k < upto && k < |d| then orig[k].(loss := Some(d[k])) else orig[k]
  }

  /** Large remainder (lines 247-279): the bye matches lose, in order, into
      the slots `Demands` lists for the first real round. Returns the next
      `loseRound` and `br`, the empty matches of the first real round in
      order (`Array.from(byeRoutes)`). */
  method LinkLarge<P>(a: Matches<P>, n: nat, winRound: int, loseRound: int, fillCount: nat)
    returns (loseRound': int, br: seq<int>)
    requires n >= 4 && Rem(n) > Half(n) && |a.rounds| > Gf(n) + 2
    requires |a.rounds[0]| == Rem(n) && |a.rounds[Gf(n) + 1]| == Rem(n) - Half(n) && |a.rounds[Gf(n) + 2]| == Half(n)
    requires Seated(a.rounds[1], n)
    requires winRound == a.first && loseRound == a.first + Gf(n) + 1 && fillCount == 0
    modifies a
    ensures loseRound' == loseRound + 1 && br == EmptyMatches(old(a.rounds)[1])
    ensures |a.rounds| == |old(a.rounds)| && |a.rounds[0]| == |old(a.rounds)[0]|
    ensures forall i :: 0 <= i < |a.rounds| && i != 0 ==> a.rounds[i] == old(a.rounds)[i]
    ensures LargeDone(a.rounds[0], old(a.rounds)[0], Demands(old(a.rounds)[1], loseRound, loseRound + 1), |a.rounds[0]|)
  {
    ghost var row := a.rounds[1];
    var wbSize := a.Size(winRound);
    loseRound' := loseRound + 1;
    var fp := Pattern(wbSize, fillCount);
    PatternCounting(wbSize);
    br := EmptyMatches(a.rounds[1]);
    var byeRoutes := set v | v in br;
    RoutesAboveZero(br, |row|);
    LargeRoutes(row, n);
    RouteLarge(a, Gf(n) + 1, winRound, loseRound, loseRound', fp, byeRoutes, row);
  }

  /** The loop of lines 265-278 over the matches of lbB, the second
      pre-fill round (row `pre + 1`); lbA is row `pre`. */
  method RouteLarge<P>(a: Matches<P>, ghost pre: nat, winRound: int, lbA: int, lbB: int, fp: seq<int>,
                       byeRoutes: set<int>, ghost row: seq<Match<P>>)
    requires pre + 1 < |a.rounds| && 0 < pre && winRound == a.first && lbA == a.first + pre && lbB == lbA + 1
    requires |fp| == |a.rounds[0]| && Counting(fp) && |row| == |a.rounds[pre + 1]|
    requires byeRoutes == RoutesAbove(EmptyMatches(row), 0) && |EmptyMatches(row)| <= |a.rounds[pre]|
    modifies a
    ensures |a.rounds| == |old(a.rounds)|
    ensures forall i :: 0 <= i < |a.rounds| && i != 0 ==> a.rounds[i] == old(a.rounds)[i]
    ensures LargeDone(a.rounds[0], old(a.rounds)[0], Demands(row, lbA, lbB), |a.rounds[0]|)
  {
    ghost var wb := a.rounds[0];
    var aI := 0;
    var bI := 0;
    var count := a.Size(lbB);
    var x := 0;
    while x < count
      invariant 0 <= x <= count && |a.rounds| == |old(a.rounds)|
      invariant forall i :: 0 <= i < |a.rounds| && i != 0 ==> a.rounds[i] == old(a.rounds)[i]
      invariant aI < |fp| ==> aI == |Demands(row[..x], lbA, lbB)| && bI == |EmptyMatches(row[..x])|
      invariant aI >= |fp| ==> |Demands(row[..x], lbA, lbB)| >= |fp|
      invariant LargeDone(a.rounds[0], wb, Demands(row[..x], lbA, lbB), aI)
    {
      aI, bI := LargeStep(a, pre, winRound, lbA, lbB, x, fp, aI, bI, byeRoutes, row, wb);
      x := x + 1;
    }
    assert row[..x] == row;
  }

  /** One match of lbB (lines 265-278), with the bookkeeping of aI and bI. */
  method LargeStep<P>(a: Matches<P>, ghost pre: nat, winRound: int, lbA: int, lbB: int, x: nat, fp: seq<int>,
                      aI: nat, bI: nat, byeRoutes: set<int>, ghost row: seq<Match<P>>, ghost wb: seq<Match<P>>)
    returns (aI': nat, bI': nat)
    requires pre + 1 < |a.rounds| && 0 < pre && winRound == a.first && lbA == a.first + pre
    requires |fp| == |a.rounds[0]| && Counting(fp) && x < |row|
    requires byeRoutes == RoutesAbove(EmptyMatches(row), 0) && |EmptyMatches(row)| <= |a.rounds[pre]|
    requires aI < |fp| ==> aI == |Demands(row[..x], lbA, lbB)| && bI == |EmptyMatches(row[..x])|
    requires aI >= |fp| ==> |Demands(row[..x], lbA, lbB)| >= |fp|
    requires LargeDone(a.rounds[0], wb, Demands(row[..x], lbA, lbB), aI)
    modifies a
    ensures |a.rounds| == |old(a.rounds)|
    ensures forall i :: 0 <= i < |a.rounds| && i != 0 ==> a.rounds[i] == old(a.rounds)[i]
    ensures aI' < |fp| ==> aI' == |Demands(row[..x + 1], lbA, lbB)| && bI' == |EmptyMatches(row[..x + 1])|
    ensures aI' >= |fp| ==> |Demands(row[..x + 1], lbA, lbB)| >= |fp|
    ensures LargeDone(a.rounds[0], wb, Demands(row[..x + 1], lbA, lbB), aI')
  {
    ghost var before := a.rounds[0];
    ghost var d := Demands(row[..x], lbA, lbB);
    DemandsStep(row, lbA, lbB, x);
    EmptyMatchesHas(row, x + 1);
    if AllBye(row[x]) {
      EmptyMatchesNext(row, x);
    }
    var diverted := x + 1 in byeRoutes;
    ghost var extra := if AllBye(row[x]) then [Slot(lbA, |EmptyMatches(row[..x])| + 1), Slot(lbA, |EmptyMatches(row[..x])| + 1)]
                       else [Slot(lbB, x + 1)];
    aI', bI' := RouteLargeLoser(a, winRound, lbA, lbB, x, fp, aI, bI, diverted);
    LargeDoneStep(before, a.rounds[0], wb, d, extra, aI, aI');
  }

  /** The body of lines 266-277 for match x + 1 of lbB: `fp[aI++]` names a
      bye match unless the pattern is used up; an empty match x + 1 of the
      first real round sends it and the next one to lbA's match bI + 1. */
  method RouteLargeLoser<P>(a: Matches<P>, winRound: int, lbA: int, lbB: int, x: nat, fp: seq<int>, aI: nat, bI: nat,
                            diverted: bool)
    returns (aI': nat, bI': nat)
    requires 0 < |a.rounds| && winRound == a.first && |fp| == |a.rounds[0]| && Counting(fp)
    requires diverted && aI < |fp| ==> a.Has(Slot(lbA, bI + 1))
    modifies a
    ensures |a.rounds| == |old(a.rounds)| && |a.rounds[0]| == |old(a.rounds)[0]|
    ensures forall i :: 0 <= i < |a.rounds| && i != 0 ==> a.rounds[i] == old(a.rounds)[i]
    ensures aI >= |fp| ==> aI' == aI + 1 && a.rounds[0] == old(a.rounds)[0]
    ensures aI < |fp| && diverted ==>
      && aI' == aI + 2 && bI' == bI + 1
      && forall k :: 0 <= k < |fp| ==>
           a.rounds[0][k] == if k == aI || k == aI + 1 then old(a.rounds)[0][k].(loss := Some(Slot(lbA, bI + 1))) else old(a.rounds)[0][k]
    ensures aI < |fp| && !diverted ==>
      && aI' == aI + 1 && bI' == bI
      && forall k :: 0 <= k < |fp| ==>
           a.rounds[0][k] == if k == aI then old(a.rounds)[0][k].(loss := Some(Slot(lbB, x + 1))) else old(a.rounds)[0][k]
  {
    aI', bI' := aI, bI;
    var vA := aI';
    aI' := aI' + 1;
    // `wb.find(wm => wm.match === fp[aI++])`
    if vA >= |fp| || !a.Has(Slot(winRound, fp[vA])) {
      return;
    }
    if diverted {
      var lossM := Slot(lbA, bI' + 1);
      bI' := bI' + 1;
      a.SetLoss(Slot(winRound, fp[vA]), lossM);
      var vB := aI';
      aI' := aI' + 1;
      if vB < |fp| && a.Has(Slot(winRound, fp[vB])) {
        a.SetLoss(Slot(winRound, fp[vB]), lossM);
      }
    } else {
      a.SetLoss(Slot(winRound, fp[vA]), Slot(lbB, x + 1));
    }
  }

  /** One match of lbB extends the routed prefix of the bye round by the
      entries it demands. */
  lemma LargeDoneStep<P>(before: seq<Match<P>>, after: seq<Match<P>>, orig: seq<Match<P>>, d: seq<Slot>, extra: seq<Slot>,
                         aI: nat, aI': nat)
    requires LargeDone(before, orig, d, aI) && |after| == |orig|
    requires aI < |orig| ==> aI == |d| && aI' == aI + |extra|
    requires aI >= |orig| ==> |d| >= |orig| && aI' > aI
    requires forall k :: 0 <= k < |orig| ==>
      after[k] == if aI <= k < aI + |extra| then before[k].(loss := Some(extra[k - aI])) else before[k]
    ensures LargeDone(after, orig, d + extra, aI')
    ensures aI' < |orig| ==> aI' == |d + extra|
    ensures aI' >= |orig| ==> |d + extra| >= |orig|
  {
    forall k | 0 <= k < |orig|
      ensures after[k] == if k < aI' && k < |d + extra| then orig[k].(loss := Some((d + extra)[k])) else orig[k]
    {
      assert before[k] == if k < aI && k < |d| then orig[k].(loss := Some(d[k])) else orig[k];
    }
  }

  /** Step 12 as a whole (lines 159-288), in the three cases of the bye
      count, with the cursors it hands to step 13. */
  method CrossLink<P>(a: Matches<P>, n: nat) returns (winRound: int, loseRound: int, fillCount: nat)
    requires n >= 4 && Shaped(a.rounds, n) && (Rem(n) != 0 ==> Seated(a.rounds[1], n))
    modifies a
    ensures |a.rounds| == |old(a.rounds)| && forall i :: 0 <= i < |a.rounds| ==> |a.rounds[i]| == |old(a.rounds)[i]|
    ensures Rem(n) == 0 ==>
      && winRound == a.first + 1 && loseRound == a.first + Lb(n) + 1 && fillCount == 1
      && (forall i :: 1 <= i < |a.rounds| ==> a.rounds[i] == old(a.rounds)[i])
      && forall k :: 0 <= k < |a.rounds[0]| ==>
           a.rounds[0][k] == old(a.rounds)[0][k].(loss := Some(Slot(a.first + Lb(n), CeilHalf(k + 1))))
    ensures 0 < Rem(n) <= Half(n) ==>
      && winRound == a.first + 2 && loseRound == a.first + Lb(n) + 1 && fillCount == 2
      && SmallLinked(a.rounds, old(a.rounds), n, a.first)
    ensures Rem(n) > Half(n) ==>
      && winRound == a.first + 1 && loseRound == a.first + Lb(n) - 1 && fillCount == 1
      && LargeLinked(a.rounds, old(a.rounds), n, a.first)
  {
    LinkSizes(n);
    assert |a.rounds[0]| == SizeAt(n, 0) && |a.rounds[Lb(n)]| == SizeAt(n, Lb(n));
    if Rem(n) != 0 {
      assert |a.rounds[1]| == SizeAt(n, 1) && |a.rounds[Gf(n) + 1]| == SizeAt(n, Gf(n) + 1);
      assert |a.rounds[Gf(n) + 2]| == SizeAt(n, Gf(n) + 2);
    }
    fillCount := 0;
    winRound := a.first;
    loseRound := a.first + Gf(n) + 1;
    if Rem(n) == 0 {
      LinkPerfect(a, n, winRound, loseRound, fillCount);
      fillCount := fillCount + 1;
      winRound := winRound + 1;
      loseRound := loseRound + 1;
    } else if Rem(n) <= Half(n) {
      CrossLinkSmall(a, n);
      fillCount := 2;
      winRound := winRound + 2;
      loseRound := loseRound + 2;
    } else {
      loseRound := CrossLinkLarge(a, n);
      fillCount := 1;
      winRound := winRound + 1;
    }
  }

  /** What step 12 does in the small case: the bye round loses into the
      pre-fill round in order, the first real round as SecondRoundLoss says,
      and pre-fill match i + 1 advances to the i-th bye route of the first
      real round. */
  ghost predicate SmallLinked<P>(rs: seq<seq<Match<P>>>, orig: seq<seq<Match<P>>>, n: nat, first: int)
    requires n >= 4
  {
    SmallLinkedAt(rs, orig, Gf(n) + 1, first)
  }

  /** `SmallLinked` with the first pre-fill row `pre` given directly. */
  ghost predicate SmallLinkedAt<P>(rs: seq<seq<Match<P>>>, orig: seq<seq<Match<P>>>, pre: nat, first: int)
  {
    && |rs| == |orig| > pre + 1 && pre > 1 && |rs[0]| == |orig[0]| && |rs[1]| == |orig[1]| && |rs[pre]| == |orig[pre]|
    && |NullRoutes(orig[1])| == |orig[pre]|
    && (forall i :: 0 <= i < |rs| && i != 0 && i != 1 && i != pre ==> rs[i] == orig[i])
    && (forall k {:trigger rs[0][k]} :: 0 <= k < |rs[0]| ==> rs[0][k] == orig[0][k].(loss := Some(Slot(first + pre, k + 1))))
    && SecondRoundLosses(rs[1], orig[1], first + pre)
    && forall i {:trigger rs[pre][i]} :: 0 <= i < |rs[pre]| ==> rs[pre][i] == orig[pre][i].(win := Some(Slot(first + pre + 1, NullRoutes(orig[1])[i])))
  }

  /** rs is orig after the two loss-linking passes of the small case: the
      bye matches (row 0) lose into the pre-fill round (row pre), and the
      first ladder round (row 1) loses as `SecondRoundLoss` says. */
  ghost predicate SmallLost<P>(rs: seq<seq<Match<P>>>, orig: seq<seq<Match<P>>>, pre: nat, first: int)
  {
    && |rs| == |orig| > pre + 1 && pre > 1 && |rs[0]| == |orig[0]|
    && (forall i :: 1 < i < |rs| ==> rs[i] == orig[i])
    && (forall k {:trigger rs[0][k]} :: 0 <= k < |rs[0]| ==> rs[0][k] == orig[0][k].(loss := Some(Slot(first + pre, k + 1))))
    && SecondRoundLosses(rs[1], orig[1], first + pre)
  }

  /** Setting losses leaves the routes read back from the seats of the first
      ladder round as they were. */
  lemma SmallLostRoutes<P>(rs: seq<seq<Match<P>>>, orig: seq<seq<Match<P>>>, pre: nat, first: int)
    requires SmallLost(rs, orig, pre, first)
    ensures NullRoutes(rs[1]) == NullRoutes(orig[1])
  {
    assert SameSeats(orig[1], rs[1]);
    SameSeatsRoutes(orig[1], rs[1]);
  }

  /** Chains the bye losers (`s0` to `s1`) and the second-round losers
      (`s1` to `s2`) of the small case. */
  lemma SmallLostCompose<P>(s0: seq<seq<Match<P>>>, s1: seq<seq<Match<P>>>, s2: seq<seq<Match<P>>>, pre: nat, first: int)
    requires 1 < pre && pre + 1 < |s0|
    requires |s1| == |s0| && |s1[0]| == |s0[0]| && (forall i :: 1 <= i < |s1| ==> s1[i] == s0[i])
    requires forall k :: 0 <= k < |s1[0]| ==> s1[0][k] == s0[0][k].(loss := Some(Slot(first + pre, k + 1)))
    requires SecondLinked(s2, s1, first + pre)
    ensures SmallLost(s2, s0, pre, first)
  {
    assert s2[0] == s1[0] && s1[1] == s0[1];
  }

  /** Chains the losses (`s0` to `s2`) and the pre-fill winners (`s2` to
      `s3`) of the small case. */
  lemma SmallCompose<P>(s0: seq<seq<Match<P>>>, s2: seq<seq<Match<P>>>, s3: seq<seq<Match<P>>>,
                        pre: nat, first: int, routes: seq<int>)
    requires SmallLost(s2, s0, pre, first) && 2 * |s0[pre + 1]| == |s0[1]|
    requires |NullRoutes(s0[1])| == |s0[pre]| && routes == NullRoutes(s0[1])
    requires BackWon(s3, s2, pre, first, routes)
    ensures SmallLinkedAt(s3, s0, pre, first)
  {
    assert s3[0] == s2[0] && s3[1] == s2[1];
    assert s2[pre] == s0[pre] && s2[pre + 1] == s0[pre + 1];
    CeilHalfEven(|s0[pre + 1]|);
  }

  /** What step 12 does in the large case: the bye matches lose into the
      slots `Demands` lists, and match i + 1 of the first pre-fill round
      advances to the i-th empty match of the first real round. */
  ghost predicate LargeLinked<P>(rs: seq<seq<Match<P>>>, orig: seq<seq<Match<P>>>, n: nat, first: int)
    requires n >= 4
  {
    LargeLinkedAt(rs, orig, Gf(n) + 1, first)
  }

  /** `LargeLinked` with the first pre-fill row `pre` given directly. */
  ghost predicate LargeLinkedAt<P>(rs: seq<seq<Match<P>>>, orig: seq<seq<Match<P>>>, pre: nat, first: int)
  {
    && |rs| == |orig| > pre + 1 && pre > 1 && |rs[0]| == |orig[0]| && |rs[pre]| == |orig[pre]|
    && |Demands(orig[1], first + pre, first + pre + 1)| == |orig[0]| && |EmptyMatches(orig[1])| == |orig[pre]|
    && (forall i :: 0 <= i < |rs| && i != 0 && i != pre ==> rs[i] == orig[i])
    && (forall k {:trigger rs[0][k]} :: 0 <= k < |rs[0]| ==> rs[0][k] == orig[0][k].(loss := Some(Demands(orig[1], first + pre, first + pre + 1)[k])))
    && forall i {:trigger rs[pre][i]} :: 0 <= i < |rs[pre]| ==> rs[pre][i] == orig[pre][i].(win := Some(Slot(first + pre + 1, EmptyMatches(orig[1])[i])))
  }

  /** Chains the two updates of the large case: the bye-match losers (`s0`
      to `s1`) and the pre-fill winners (`s1` to `s2`). */
  lemma LargeCompose<P>(s0: seq<seq<Match<P>>>, s1: seq<seq<Match<P>>>, s2: seq<seq<Match<P>>>,
                        pre: nat, first: int, routes: seq<int>, demands: seq<Slot>)
    requires 1 < pre && pre + 1 < |s0| && |routes| == |s0[pre]| && |demands| == |s0[0]| && |s0[1]| == |s0[pre + 1]|
    requires routes == EmptyMatches(s0[1]) && demands == Demands(s0[1], first + pre, first + pre + 1)
    requires |s1| == |s0| && (forall i :: 0 <= i < |s1| && i != 0 ==> s1[i] == s0[i])
    requires LargeDone(s1[0], s0[0], demands, |s1[0]|)
    requires BackWon(s2, s1, pre, first, routes)
    ensures LargeLinkedAt(s2, s0, pre, first)
  {
    assert s2[0] == s1[0] && s1[1] == s0[1] && s1[pre + 1] == s0[pre + 1];
    assert s1[pre] == s0[pre];
  }

  lemma CeilHalfEven(q: nat)
    ensures CeilHalf(2 * q) == q
  {
  }

  /** Lines 180-225: the two loss-linking passes of the small case. */
  method SmallLosses<P>(a: Matches<P>, n: nat)
    requires n >= 4 && 0 < Rem(n) <= Half(n) && |a.rounds| > Gf(n) + 2 && Seated(a.rounds[1], n)
    requires |a.rounds[0]| == Rem(n) && |a.rounds[Gf(n) + 1]| == Rem(n) && 2 * |a.rounds[Gf(n) + 2]| == Half(n)
    modifies a
    ensures SmallLost(a.rounds, old(a.rounds), Gf(n) + 1, a.first)
  {
    var pre := Gf(n) + 1;
    ghost var s0: seq<seq<Match<P>>> := a.rounds;
    LinkByeLosers(a, n, a.first, a.first + pre, 0);
    ghost var s1: seq<seq<Match<P>>> := a.rounds;
    var lose := a.first + pre + 1;
    LinkSecondRound(a, n, a.first + 1, lose, 1);
    assert lose - 1 == a.first + pre;
    SmallLostCompose(s0, s1, a.rounds, pre, a.first);
  }

  /** The small case of step 12 (lines 180-245). */
  method CrossLinkSmall<P>(a: Matches<P>, n: nat)
    requires n >= 4 && 0 < Rem(n) <= Half(n) && |a.rounds| > Gf(n) + 2 && Seated(a.rounds[1], n)
    requires |a.rounds[0]| == Rem(n) && |a.rounds[Gf(n) + 1]| == Rem(n) && 2 * |a.rounds[Gf(n) + 2]| == Half(n)
    modifies a
    ensures |a.rounds| == |old(a.rounds)| && forall i :: 0 <= i < |a.rounds| ==> |a.rounds[i]| == |old(a.rounds)[i]|
    ensures SmallLinked(a.rounds, old(a.rounds), n, a.first)
  {
    var pre := Gf(n) + 1;
    ghost var s0: seq<seq<Match<P>>> := a.rounds;
    SmallLosses(a, n);
    ghost var s2: seq<seq<Match<P>>> := a.rounds;
    SmallRoutes(s0[1], n);
    SmallLostRoutes(s2, s0, pre, a.first);
    var routes := NullRoutes(a.rounds[1]);
    LinkBackWins(a, pre, routes);
    SmallCompose(s0, s2, a.rounds, pre, a.first, routes);
  }

  /** The large case of step 12 (lines 247-288); returns the next `loseRound`. */
  method CrossLinkLarge<P>(a: Matches<P>, n: nat) returns (loseRound: int)
    requires n >= 4 && Rem(n) > Half(n) && |a.rounds| > Gf(n) + 2 && Seated(a.rounds[1], n)
    requires |a.rounds[0]| == Rem(n) && |a.rounds[Gf(n) + 1]| == Rem(n) - Half(n) && |a.rounds[Gf(n) + 2]| == Half(n)
    modifies a
    ensures loseRound == a.first + Gf(n) + 2
    ensures |a.rounds| == |old(a.rounds)| && forall i :: 0 <= i < |a.rounds| ==> |a.rounds[i]| == |old(a.rounds)[i]|
    ensures LargeLinked(a.rounds, old(a.rounds), n, a.first)
  {
    var pre := Gf(n) + 1;
    ghost var s0: seq<seq<Match<P>>> := a.rounds;
    ghost var row := a.rounds[1];
    var br;
    loseRound, br := LinkLarge(a, n, a.first, a.first + pre, 0);
    LargeRoutes(row, n);
    DemandsLength(row, a.first + pre, a.first + pre + 1);
    ghost var s1: seq<seq<Match<P>>> := a.rounds;
    LinkBackWins(a, pre, br);
    LargeCompose(s0, s1, a.rounds, pre, a.first, br, Demands(row, a.first + pre, a.first + pre + 1));
  }

  // Step 12 as written. The searches of lines 172, 209, 268 and 273 take
  // their key from a callback with a side effect, and `find` runs the
  // callback once per visited match, not once per search.

  /** `wb.find(wm => wm.match === fp.shift())` over a round of `size`
      matches, from match k + 1 on (lines 172 and 209): every visited match
      shifts one entry off the queue (none once it is empty), and the search
      stops at the first match whose number equals the entry shifted for
      it. Returns that match, if any, and what is left of the queue. */
  function FindShift(size: nat, k: nat, fp: seq<int>): (r: (Option<int>, seq<int>))
    requires k <= size
    ensures var m := if |fp| < size - k then |fp| else size - k;
      r.0.None? ==> r.1 == fp[m..] && forall v :: 0 <= v < m ==> fp[v] != k + 1 + v
    ensures r.0.Some? ==> k < r.0.value <= size && r.0.value - k <= |fp|
    ensures r.0.Some? ==> var v := r.0.value - k - 1;
      && fp[v] == r.0.value && r.1 == fp[v + 1..]
      && forall u :: 0 <= u < v ==> fp[u] != k + 1 + u
    decreases size - k
  {
    if k == size then (None, fp)
    else if |fp| == 0 then FindShift(size, k + 1, fp)
    else if fp[0] == k + 1 then (Some(k + 1), fp[1..])
    else
      var r := FindShift(size, k + 1, fp[1..]);
      assert forall v :: 0 <= v < |fp| - 1 ==> fp[1..][v] == fp[v + 1];
      r
  }

  /** `wb.find(wm => wm.match === fp[aI++])` over a round of `size` matches,
      from match k + 1 on (lines 268 and 273): every visited match reads
      entry aI of the queue (undefined past its end) and moves aI on.
      Returns the match found, if any, and the new aI. */
  function FindIndexed(size: nat, k: nat, fp: seq<int>, aI: nat): (r: (Option<int>, nat))
    requires k <= size
    ensures r.0.None? ==> r.1 == aI + size - k
    ensures r.0.None? ==> forall v :: aI <= v < aI + size - k && v < |fp| ==> fp[v] != k + 1 + v - aI
    ensures r.0.Some? ==> k < r.0.value <= size && aI + r.0.value - k <= |fp|
    ensures r.0.Some? ==> var v := aI + r.0.value - k - 1;
      && fp[v] == r.0.value && r.1 == v + 1
      && forall u :: aI <= u < v ==> fp[u] != k + 1 + u - aI
    decreases size - k
  {
    if k == size then (None, aI)
    else if aI < |fp| && fp[aI] == k + 1 then (Some(k + 1), aI + 1)
    else FindIndexed(size, k + 1, fp, aI + 1)
  }

  /** `if (tgt) tgt.loss = to`: the row once the match a search found, if
      any, loses into `to`. */
  function SetFound<P>(row: seq<Match<P>>, t: Option<int>, to: Slot): (r: seq<Match<P>>)
    ensures |r| == |row|
    ensures forall k :: 0 <= k < |row| ==> r[k] == if t == Some(k + 1) then row[k].(loss := Some(to)) else row[k]
  {
    if t.Some? && 1 <= t.value <= |row| then row[t.value - 1 := row[t.value - 1].(loss := Some(to))] else row
  }

  /** The queue 1, 2, ..., h of lines 167 and 258 against a round of h
      matches. Shifting, the first search finds match 1 and leaves
      2, ..., h; the next compares match m with entry m + 1, finds nothing
      and empties the queue; on the empty queue nothing is found. Indexed,
      the search from aI = 0 finds match 1 and leaves aI = 1, and from any
      aI >= 1 match m meets entry aI + m and nothing is found. */
  lemma CountingSearches(fp: seq<int>)
    requires |fp| >= 1 && Counting(fp)
    ensures FindShift(|fp|, 0, fp) == (Some(1), fp[1..])
    ensures FindShift(|fp|, 0, fp[1..]) == (None, [])
    ensures FindShift(|fp|, 0, []) == (None, [])
    ensures FindIndexed(|fp|, 0, fp, 0) == (Some(1), 1)
    ensures forall aI: nat {:trigger FindIndexed(|fp|, 0, fp, aI)} :: aI >= 1 ==> FindIndexed(|fp|, 0, fp, aI) == (None, aI + |fp|)
  {
    CountingShiftFirst(fp);
    CountingShiftAgain(fp);
    ShiftEmpty(|fp|);
    CountingIndexedFirst(fp);
    forall aI: nat | aI >= 1
      ensures FindIndexed(|fp|, 0, fp, aI) == (None, aI + |fp|)
    {
      CountingIndexedAgain(fp, aI);
    }
  }

  /** The first shifting search over 1, 2, ..., h finds match 1. */
  lemma CountingShiftFirst(fp: seq<int>)
    requires |fp| >= 1 && Counting(fp)
    ensures FindShift(|fp|, 0, fp) == (Some(1), fp[1..])
  {
  }

  /** The second shifting search over 1, 2, ..., h finds nothing. */
  lemma CountingShiftAgain(fp: seq<int>)
    requires |fp| >= 1 && Counting(fp)
    ensures FindShift(|fp|, 0, fp[1..]) == (None, [])
  {
    var q := fp[1..];
    assert forall v :: 0 <= v < |q| ==> q[v] == v + 2;
  }

  /** On the empty queue nothing is found. */
  lemma ShiftEmpty(size: nat)
    ensures FindShift(size, 0, []) == (None, [])
  {
  }

  /** The first indexed search over 1, 2, ..., h finds match 1. */
  lemma CountingIndexedFirst(fp: seq<int>)
    requires |fp| >= 1 && Counting(fp)
    ensures FindIndexed(|fp|, 0, fp, 0) == (Some(1), 1)
  {
  }

  /** An indexed search from aI >= 1 over 1, 2, ..., h finds nothing. */
  lemma CountingIndexedAgain(fp: seq<int>, aI: nat)
    requires |fp| >= 1 && Counting(fp) && aI >= 1
    ensures FindIndexed(|fp|, 0, fp, aI) == (None, aI + |fp|)
  {
    assert forall u :: aI <= u < |fp| ==> fp[u] != u + 1 - aI;
  }

  /** The queue h, h - 1, ..., 1 of line 194 against a round of h matches,
      h even: match m meets entry h - m + 1, which is never m, so the first
      search finds nothing and empties the queue. */
  lemma CountdownSearches(fp: seq<int>, h: nat)
    requires Countdown(fp, h) && h % 2 == 0
    ensures FindShift(h, 0, fp) == (None, [])
    ensures FindShift(h, 0, []) == (None, [])
  {
    assert forall v :: 0 <= v < h ==> fp[v] != v + 1;
  }

  /** One search of line 172 and the assignment of line 173 on round r. */
  method LoseShifted<P>(a: Matches<P>, r: int, to: Slot, fp: seq<int>) returns (rest: seq<int>)
    requires a.first <= r < a.first + |a.rounds|
    modifies a
    ensures var w := r - a.first; var found := FindShift(|old(a.rounds)[w]|, 0, fp);
      rest == found.1 && a.rounds == old(a.rounds)[w := SetFound(old(a.rounds)[w], found.0, to)]
  {
    var found := FindShift(a.Size(r), 0, fp);
    rest := found.1;
    if found.0.Some? {
      a.SetLoss(Slot(r, found.0.value), to);
    }
  }

  /** The `for (let i = 0; i < 2; i++)` loop of lines 171-174 as written:
      two searches by shifting on round r, each found match losing into
      `to`. */
  method RoutePairAsWritten<P>(a: Matches<P>, r: int, to: Slot, fp: seq<int>) returns (rest: seq<int>)
    requires a.first <= r < a.first + |a.rounds|
    modifies a
    ensures var w := r - a.first; var size := |old(a.rounds)[w]|;
      var f1 := FindShift(size, 0, fp); var f2 := FindShift(size, 0, f1.1);
      rest == f2.1 && a.rounds == old(a.rounds)[w := SetFound(SetFound(old(a.rounds)[w], f1.0, to), f2.0, to)]
  {
    ghost var w := r - a.first;
    ghost var s0: seq<seq<Match<P>>> := a.rounds;
    ghost var f1 := FindShift(|s0[w]|, 0, fp);
    rest := fp;
    var i := 0;
    while i < 2
      invariant 0 <= i <= 2
      invariant i == 0 ==> rest == fp && a.rounds == s0
      invariant i == 1 ==> rest == f1.1 && a.rounds == s0[w := SetFound(s0[w], f1.0, to)]
      invariant i == 2 ==> var f2 := FindShift(|s0[w]|, 0, f1.1);
        rest == f2.1 && a.rounds == s0[w := SetFound(SetFound(s0[w], f1.0, to), f2.0, to)]
    {
      rest := LoseShifted(a, r, to, rest);
      i := i + 1;
    }
  }

  /** Lines 165-178 as written: the first search finds match 1, the second
      empties the queue, and no later search finds anything, so winners
      match 1 alone gets a loss pointer. */
  method LinkPerfectAsWritten<P>(a: Matches<P>, n: nat, winRound: int, loseRound: int, fillCount: nat)
    requires n >= 4 && |a.rounds| > Lb(n) && |a.rounds[0]| == Half(n) && 2 * |a.rounds[Lb(n)]| == Half(n)
    requires winRound == a.first && loseRound == a.first + Lb(n) && fillCount == 0
    modifies a
    ensures a.rounds == old(a.rounds)[0 := old(a.rounds)[0][0 := old(a.rounds)[0][0].(loss := Some(Slot(loseRound, 1)))]]
  {
    var wbSize := a.Size(winRound);
    var fp := Pattern(wbSize, fillCount);
    PatternCounting(wbSize);
    RoutePairsAsWritten(a, winRound, loseRound, fp);
  }

  /** The `forEach` of lines 168-175 as written, over the matches of
      loseRound with the queue 1, 2, ..., h. */
  method RoutePairsAsWritten<P>(a: Matches<P>, winRound: int, loseRound: int, fp: seq<int>)
    requires winRound == a.first && 0 < |a.rounds| && 0 < |fp| == |a.rounds[0]| && Counting(fp) && a.Size(loseRound) > 0
    modifies a
    ensures a.rounds == old(a.rounds)[0 := old(a.rounds)[0][0 := old(a.rounds)[0][0].(loss := Some(Slot(loseRound, 1)))]]
  {
    ghost var s0: seq<seq<Match<P>>> := a.rounds;
    ghost var s1 := s0[0 := s0[0][0 := s0[0][0].(loss := Some(Slot(loseRound, 1)))]];
    var queue := fp;
    var lms := a.Size(loseRound);
    var l := 0;
    while l < lms
      invariant 0 <= l <= lms
      invariant l == 0 ==> queue == fp && a.rounds == s0
      invariant l > 0 ==> queue == [] && a.rounds == s1
    {
      queue := RoutePairStep(a, winRound, loseRound, l, fp, queue, s0, s1);
      l := l + 1;
    }
  }

  /** Losers match l + 1 of the loop of lines 168-175 as written: the first
      pair finds match 1 and empties the queue, every later pair finds
      nothing. */
  method RoutePairStep<P>(a: Matches<P>, winRound: int, loseRound: int, l: nat, fp: seq<int>, queue: seq<int>,
                          ghost s0: seq<seq<Match<P>>>, ghost s1: seq<seq<Match<P>>>)
    returns (queue': seq<int>)
    requires winRound == a.first && 0 < |s0| && 0 < |fp| == |s0[0]| && Counting(fp)
    requires s1 == s0[0 := s0[0][0 := s0[0][0].(loss := Some(Slot(loseRound, 1)))]]
    requires l == 0 ==> queue == fp && a.rounds == s0
    requires l > 0 ==> queue == [] && a.rounds == s1
    modifies a
    ensures queue' == [] && a.rounds == s1
  {
    var to := Slot(loseRound, l + 1);
    ghost var row := a.rounds[0];
    assert |row| == |fp|;
    if l == 0 {
      CountingShiftFirst(fp);
      CountingShiftAgain(fp);
      queue' := RoutePairAsWritten(a, winRound, to, queue);
      SetFoundFirst(row, to);
    } else {
      ShiftEmpty(|fp|);
      queue' := RoutePairAsWritten(a, winRound, to, queue);
      SetFoundNone(row, to);
    }
  }

  /** A search that finds match 1 and one that finds nothing. */
  lemma SetFoundFirst<P>(row: seq<Match<P>>, to: Slot)
    requires |row| > 0
    ensures SetFound(SetFound(row, Some(1), to), None, to) == row[0 := row[0].(loss := Some(to))]
  {
  }

  /** Two searches that find nothing. */
  lemma SetFoundNone<P>(row: seq<Match<P>>, to: Slot)
    ensures SetFound(SetFound(row, None, to), None, to) == row
  {
  }

  /** One search of line 209 and the body of lines 210-220 for losers match
      x + 1: the match found, if any, loses into pre-fill match alt + 1
      while x + 1 is still a bye route (which is then deleted), into losers
      match x + 1 otherwise. */
  method LoseSecondShifted<P>(a: Matches<P>, winRound: int, loseRound: int, x: nat, fp: seq<int>, alt: nat,
                              byeRoutes: set<int>)
    returns (fp': seq<int>, alt': nat, byeRoutes': set<int>)
    requires 1 < |a.rounds| && winRound == a.first + 1
    requires FindShift(|a.rounds[1]|, 0, fp).0.Some? && x + 1 in byeRoutes ==> a.Has(Slot(loseRound - 1, alt + 1))
    modifies a
    ensures var found := FindShift(|old(a.rounds)[1]|, 0, fp);
      var diverted := found.0.Some? && x + 1 in byeRoutes;
      && fp' == found.1
      && a.rounds == old(a.rounds)[1 := SetFound(old(a.rounds)[1], found.0,
                                                 if diverted then Slot(loseRound - 1, alt + 1) else Slot(loseRound, x + 1))]
      && alt' == (if diverted then alt + 1 else alt)
      && byeRoutes' == (if diverted then byeRoutes - {x + 1} else byeRoutes)
  {
    var found := FindShift(a.Size(winRound), 0, fp);
    fp', alt', byeRoutes' := found.1, alt, byeRoutes;
    if found.0.Some? {
      if x + 1 in byeRoutes {
        // `matches.filter(x => x.round === loseRound - 1)[alt++]`
        var prevLM := Slot(loseRound - 1, alt' + 1);
        alt' := alt' + 1;
        a.SetLoss(Slot(winRound, found.0.value), prevLM);
        byeRoutes' := byeRoutes - {x + 1};
      } else {
        a.SetLoss(Slot(winRound, found.0.value), Slot(loseRound, x + 1));
      }
    }
  }

  /** Lines 192-225 as written: the queue is h, h - 1, ..., 1 with h even,
      so the first search empties it without a hit and no later search
      finds anything. The first real round gets no loss pointer, `alt` and
      `byeRoutes` never change, and the arena is left as it was. */
  method LinkSecondRoundAsWritten<P>(a: Matches<P>, n: nat, winRound: int, loseRound: int, fillCount: nat)
    requires n >= 4 && 0 < Rem(n) <= Half(n) && |a.rounds| > Gf(n) + 2
    requires |a.rounds[1]| == Half(n) && 2 * |a.rounds[Gf(n) + 2]| == Half(n) && |a.rounds[Gf(n) + 1]| == Rem(n)
    requires Seated(a.rounds[1], n)
    requires winRound == a.first + 1 && loseRound == a.first + Gf(n) + 2 && fillCount == 1
    modifies a
    ensures a.rounds == old(a.rounds)
  {
    var wbSize := a.Size(winRound);
    var fp := Pattern(wbSize, fillCount);
    PatternReversed(wbSize);
    assert Countdown(fp, wbSize);
    var byeRoutes := set v | v in NullRoutes(a.rounds[1]);
    LinkSecondRows(a, winRound, loseRound, fp, byeRoutes);
  }

  /** The loops of lines 205-223 as written, on any arena whose first real
      round has an even number h of matches, against the queue h, ..., 1. */
  method LinkSecondRows<P>(a: Matches<P>, winRound: int, loseRound: int, order: seq<int>, routes: set<int>)
    requires 1 < |a.rounds| && winRound == a.first + 1
    requires Countdown(order, |a.rounds[1]|) && |a.rounds[1]| % 2 == 0
    modifies a
    ensures a.rounds == old(a.rounds)
  {
    CountdownSearches(order, |a.rounds[1]|);
    var fp := order;
    var byeRoutes := routes;
    var alt := 0;
    var lms := a.Size(loseRound);
    var x := 0;
    while x < lms
      invariant 0 <= x <= lms && alt == 0 && byeRoutes == routes && a.rounds == old(a.rounds)
      invariant x == 0 ==> fp == order
      invariant x > 0 ==> fp == []
    {
      var i := 0;
      while i < 2
        invariant 0 <= i <= 2 && alt == 0 && byeRoutes == routes && a.rounds == old(a.rounds)
        invariant x == 0 && i == 0 ==> fp == order
        invariant x > 0 || i > 0 ==> fp == []
      {
        fp, alt, byeRoutes := LoseSecondShifted(a, winRound, loseRound, x, fp, alt, byeRoutes);
        i := i + 1;
      }
      x := x + 1;
    }
  }

  /** One match of lbB (lines 266-277) as written, `diverted` telling
      whether its number is in `byeRoutes`: the search for wA, a return when
      it finds nothing, and the search for wB when diverted. */
  method LargeStepAsWritten<P>(a: Matches<P>, winRound: int, lbA: int, lbB: int, x: nat, fp: seq<int>,
                               aI: nat, bI: nat, diverted: bool)
    returns (aI': nat, bI': nat)
    requires 0 < |a.rounds| && winRound == a.first
    requires diverted && FindIndexed(|a.rounds[0]|, 0, fp, aI).0.Some? ==> a.Has(Slot(lbA, bI + 1))
    modifies a
    ensures var size := |old(a.rounds)[0]|; var fA := FindIndexed(size, 0, fp, aI);
      && (fA.0.None? ==> aI' == fA.1 && bI' == bI && a.rounds == old(a.rounds))
      && (fA.0.Some? && !diverted ==>
            && aI' == fA.1 && bI' == bI
            && a.rounds == old(a.rounds)[0 := SetFound(old(a.rounds)[0], fA.0, Slot(lbB, x + 1))])
      && (fA.0.Some? && diverted ==>
            var fB := FindIndexed(size, 0, fp, fA.1);
            && aI' == fB.1 && bI' == bI + 1
            && a.rounds == old(a.rounds)[0 := SetFound(SetFound(old(a.rounds)[0], fA.0, Slot(lbA, bI + 1)), fB.0, Slot(lbA, bI + 1))])
  {
    var fA := FindIndexed(a.Size(winRound), 0, fp, aI);
    aI', bI' := fA.1, bI;
    if fA.0.None? {
      return;
    }
    if diverted {
      // `lossM = lbA[bI++]`
      var lossM := Slot(lbA, bI' + 1);
      bI' := bI' + 1;
      a.SetLoss(Slot(winRound, fA.0.value), lossM);
      var fB := FindIndexed(a.Size(winRound), 0, fp, aI');
      aI' := fB.1;
      if fB.0.Some? {
        a.SetLoss(Slot(winRound, fB.0.value), lossM);
      }
    } else {
      a.SetLoss(Slot(winRound, fA.0.value), Slot(lbB, x + 1));
    }
  }

  /** The first demand: bye match 1 loses into match 1 of lbA when match 1
      of the first real round is empty, into match 1 of lbB otherwise. */
  lemma {:induction false} DemandsFirst<P>(row: seq<Match<P>>, lbA: int, lbB: int)
    requires |row| > 0
    ensures |Demands(row, lbA, lbB)| > 0
    ensures Demands(row, lbA, lbB)[0] == if AllBye(row[0]) then Slot(lbA, 1) else Slot(lbB, 1)
  {
    var p := row[..|row| - 1];
    if p == [] {
      assert EmptyMatches(p) == [];
    } else {
      DemandsFirst(p, lbA, lbB);
      assert p[0] == row[0];
    }
  }

  /** The loop of lines 265-278 as written: the search for lbB's match 1
      finds bye match 1 at aI = 0, and every later search, from aI >= 1,
      finds nothing. Bye match 1 alone gets a loss pointer: into lbA's
      match 1 when match 1 is a bye route, else into lbB's match 1. */
  method RouteLargeAsWritten<P>(a: Matches<P>, winRound: int, lbA: int, lbB: int, fp: seq<int>, byeRoutes: set<int>)
    requires winRound == a.first && 0 < |a.rounds| && 0 < |fp| == |a.rounds[0]| && Counting(fp) && a.Size(lbB) > 0
    requires 1 in byeRoutes ==> a.Has(Slot(lbA, 1))
    modifies a
    ensures var d := if 1 in byeRoutes then Slot(lbA, 1) else Slot(lbB, 1);
      a.rounds == old(a.rounds)[0 := old(a.rounds)[0][0 := old(a.rounds)[0][0].(loss := Some(d))]]
  {
    ghost var s0: seq<seq<Match<P>>> := a.rounds;
    ghost var d := if 1 in byeRoutes then Slot(lbA, 1) else Slot(lbB, 1);
    ghost var s1 := s0[0 := s0[0][0 := s0[0][0].(loss := Some(d))]];
    var aI := 0;
    var bI := 0;
    var count := a.Size(lbB);
    var x := 0;
    while x < count
      invariant 0 <= x <= count
      invariant x == 0 ==> aI == 0 && bI == 0 && a.rounds == s0
      invariant x > 0 ==> aI >= 1 && a.rounds == s1
    {
      aI, bI := RouteLargeStep(a, winRound, lbA, lbB, x, fp, aI, bI, byeRoutes, s0, s1);
      x := x + 1;
    }
  }

  /** Match x + 1 of lbB in the loop of lines 266-277 as written: the first
      finds bye match 1 and leaves aI = 1, every later one finds nothing. */
  method RouteLargeStep<P>(a: Matches<P>, winRound: int, lbA: int, lbB: int, x: nat, fp: seq<int>,
                           aI: nat, bI: nat, byeRoutes: set<int>,
                           ghost s0: seq<seq<Match<P>>>, ghost s1: seq<seq<Match<P>>>)
    returns (aI': nat, bI': nat)
    requires winRound == a.first && 0 < |s0| && 0 < |fp| == |s0[0]| && Counting(fp)
    requires 1 in byeRoutes ==> 0 < |s0| && a.first <= lbA < a.first + |s0| && 0 < |s0[lbA - a.first]|
    requires s1 == s0[0 := s0[0][0 := s0[0][0].(loss := Some(if 1 in byeRoutes then Slot(lbA, 1) else Slot(lbB, 1)))]]
    requires x == 0 ==> aI == 0 && bI == 0 && a.rounds == s0
    requires x > 0 ==> aI >= 1 && a.rounds == s1
    modifies a
    ensures aI' >= 1 && a.rounds == s1
  {
    ghost var row := a.rounds[0];
    assert |row| == |fp|;
    if x == 0 {
      CountingIndexedFirst(fp);
      CountingIndexedAgain(fp, 1);
      assert 1 in byeRoutes ==> a.Has(Slot(lbA, 1));
      aI', bI' := LargeStepAsWritten(a, winRound, lbA, lbB, x, fp, aI, bI, x + 1 in byeRoutes);
      SetFoundOnce(row, if 1 in byeRoutes then Slot(lbA, 1) else Slot(lbB, 1));
    } else {
      CountingIndexedAgain(fp, aI);
      aI', bI' := LargeStepAsWritten(a, winRound, lbA, lbB, x, fp, aI, bI, x + 1 in byeRoutes);
    }
  }

  /** A search that finds match 1, and one that finds nothing after it. */
  lemma SetFoundOnce<P>(row: seq<Match<P>>, to: Slot)
    requires |row| > 0
    ensures SetFound(row, Some(1), to) == row[0 := row[0].(loss := Some(to))]
    ensures SetFound(SetFound(row, Some(1), to), None, to) == row[0 := row[0].(loss := Some(to))]
  {
  }

  /** Lines 247-279 as written: only bye match 1 gets a loss pointer. */
  method LinkLargeAsWritten<P>(a: Matches<P>, n: nat, winRound: int, loseRound: int, fillCount: nat)
    returns (loseRound': int, br: seq<int>)
    requires n >= 4 && Rem(n) > Half(n) && |a.rounds| > Gf(n) + 2
    requires |a.rounds[0]| == Rem(n) && |a.rounds[Gf(n) + 1]| == Rem(n) - Half(n) && |a.rounds[Gf(n) + 2]| == Half(n)
    requires Seated(a.rounds[1], n)
    requires winRound == a.first && loseRound == a.first + Gf(n) + 1 && fillCount == 0
    modifies a
    ensures loseRound' == loseRound + 1 && br == EmptyMatches(old(a.rounds)[1])
    ensures var d := Demands(old(a.rounds)[1], loseRound, loseRound + 1);
      |d| > 0 && a.rounds == old(a.rounds)[0 := old(a.rounds)[0][0 := old(a.rounds)[0][0].(loss := Some(d[0]))]]
  {
    var wbSize := a.Size(winRound);
    assert wbSize == Rem(n) > 0;
    loseRound' := loseRound + 1;
    var fp := Pattern(wbSize, fillCount);
    PatternCounting(wbSize);
    assert |a.rounds[1]| == Half(n) > 0;
    assert a.Has(Slot(loseRound, 1)) && a.Size(loseRound') == Half(n);
    br := LinkLargeRows(a, winRound, loseRound, loseRound', fp);
  }

  /** The body of lines 254-279 as written, on any arena whose bye round
      has as many matches as the queue fp = 1, 2, ..., h. */
  method LinkLargeRows<P>(a: Matches<P>, winRound: int, lbA: int, lbB: int, fp: seq<int>) returns (br: seq<int>)
    requires winRound == a.first && 1 < |a.rounds| && 0 < |fp| == |a.rounds[0]| && Counting(fp)
    requires |a.rounds[1]| > 0 && a.Has(Slot(lbA, 1)) && a.Size(lbB) > 0
    modifies a
    ensures br == EmptyMatches(old(a.rounds)[1])
    ensures var d := Demands(old(a.rounds)[1], lbA, lbB);
      |d| > 0 && a.rounds == old(a.rounds)[0 := old(a.rounds)[0][0 := old(a.rounds)[0][0].(loss := Some(d[0]))]]
  {
    ghost var row := a.rounds[1];
    br := EmptyMatches(a.rounds[1]);
    var byeRoutes := set v | v in br;
    LargeFirstRoute(row, lbA, lbB);
    assert (1 in byeRoutes) == (1 in br);
    RouteLargeAsWritten(a, winRound, lbA, lbB, fp, byeRoutes);
  }

  /** With fill count 0 the pattern is 1, 2, ..., count. */
  lemma PatternCounting(count: nat)
    ensures Counting(Pattern(count, 0))
  {
    forall i | 0 <= i < count
      ensures Pattern(count, 0)[i] == i + 1
    {
      PatternAt(count, 0, i);
    }
  }

  /** The first demand of the large case goes to the pre-fill round exactly
      when match 1 of the first real round is a bye route. */
  lemma LargeFirstRoute<P>(row: seq<Match<P>>, lbA: int, lbB: int)
    requires |row| > 0
    ensures |Demands(row, lbA, lbB)| > 0
    ensures Demands(row, lbA, lbB)[0] == if 1 in EmptyMatches(row) then Slot(lbA, 1) else Slot(lbB, 1)
  {
    DemandsFirst(row, lbA, lbB);
    EmptyMatchesHas(row, 1);
  }

  /** What step 12 does as written in the small case: the bye round loses
      into the pre-fill round in order, the first real round keeps no loss
      pointer, and pre-fill match i + 1 advances to the i-th bye route of
      the first real round. */
  ghost predicate SmallWrittenAt<P>(rs: seq<seq<Match<P>>>, orig: seq<seq<Match<P>>>, pre: nat, first: int)
  {
    && |rs| == |orig| > pre + 1 && pre > 1 && |rs[0]| == |orig[0]| && |rs[pre]| == |orig[pre]|
    && |NullRoutes(orig[1])| == |orig[pre]|
    && (forall i :: 0 <= i < |rs| && i != 0 && i != pre ==> rs[i] == orig[i])
    && (forall k {:trigger rs[0][k]} :: 0 <= k < |rs[0]| ==> rs[0][k] == orig[0][k].(loss := Some(Slot(first + pre, k + 1))))
    && forall i {:trigger rs[pre][i]} :: 0 <= i < |rs[pre]| ==> rs[pre][i] == orig[pre][i].(win := Some(Slot(first + pre + 1, NullRoutes(orig[1])[i])))
  }

  /** What step 12 does as written in the large case: bye match 1 alone
      loses, into the first demand, and match i + 1 of the first pre-fill
      round advances to the i-th empty match of the first real round. */
  ghost predicate LargeWrittenAt<P>(rs: seq<seq<Match<P>>>, orig: seq<seq<Match<P>>>, pre: nat, first: int)
  {
    && |rs| == |orig| > pre + 1 && pre > 1 && 0 < |orig[0]| && |rs[pre]| == |orig[pre]|
    && 0 < |Demands(orig[1], first + pre, first + pre + 1)| && |EmptyMatches(orig[1])| == |orig[pre]|
    && (forall i :: 0 <= i < |rs| && i != 0 && i != pre ==> rs[i] == orig[i])
    && rs[0] == orig[0][0 := orig[0][0].(loss := Some(Demands(orig[1], first + pre, first + pre + 1)[0]))]
    && forall i {:trigger rs[pre][i]} :: 0 <= i < |rs[pre]| ==> rs[pre][i] == orig[pre][i].(win := Some(Slot(first + pre + 1, EmptyMatches(orig[1])[i])))
  }

  /** The small case of step 12 as written (lines 180-245). */
  method CrossLinkSmallAsWritten<P>(a: Matches<P>, n: nat)
    requires n >= 4 && 0 < Rem(n) <= Half(n) && |a.rounds| > Gf(n) + 2 && Seated(a.rounds[1], n)
    requires |a.rounds[0]| == Rem(n) && |a.rounds[Gf(n) + 1]| == Rem(n) && 2 * |a.rounds[Gf(n) + 2]| == Half(n)
    requires |a.rounds[1]| == Half(n)
    modifies a
    ensures |a.rounds| == |old(a.rounds)| && forall i :: 0 <= i < |a.rounds| ==> |a.rounds[i]| == |old(a.rounds)[i]|
    ensures SmallWrittenAt(a.rounds, old(a.rounds), Gf(n) + 1, a.first)
  {
    var pre := Gf(n) + 1;
    ghost var s0: seq<seq<Match<P>>> := a.rounds;
    LinkByeLosers(a, n, a.first, a.first + pre, 0);
    ghost var s1: seq<seq<Match<P>>> := a.rounds;
    assert s1[1] == s0[1];
    LinkSecondRoundAsWritten(a, n, a.first + 1, a.first + pre + 1, 1);
    SmallRoutes(s0[1], n);
    CeilHalfEven(|s0[pre + 1]|);
    var routes := NullRoutes(a.rounds[1]);
    LinkBackWins(a, pre, routes);
    assert a.rounds[0] == s1[0] && s1[pre] == s0[pre] && s1[pre + 1] == s0[pre + 1];
  }

  /** The large case of step 12 as written (lines 247-288); returns the
      next `loseRound`. */
  method CrossLinkLargeAsWritten<P>(a: Matches<P>, n: nat) returns (loseRound: int)
    requires n >= 4 && Rem(n) > Half(n) && |a.rounds| > Gf(n) + 2 && Seated(a.rounds[1], n)
    requires |a.rounds[0]| == Rem(n) && |a.rounds[Gf(n) + 1]| == Rem(n) - Half(n) && |a.rounds[Gf(n) + 2]| == Half(n)
    modifies a
    ensures loseRound == a.first + Gf(n) + 2
    ensures |a.rounds| == |old(a.rounds)| && forall i :: 0 <= i < |a.rounds| ==> |a.rounds[i]| == |old(a.rounds)[i]|
    ensures LargeWrittenAt(a.rounds, old(a.rounds), Gf(n) + 1, a.first)
  {
    var pre := Gf(n) + 1;
    ghost var s0: seq<seq<Match<P>>> := a.rounds;
    ghost var row := a.rounds[1];
    var br;
    loseRound, br := LinkLargeAsWritten(a, n, a.first, a.first + pre, 0);
    LargeRoutes(row, n);
    ghost var s1: seq<seq<Match<P>>> := a.rounds;
    assert s1[pre] == s0[pre] && s1[pre + 1] == s0[pre + 1];
    LinkBackWins(a, pre, br);
    assert a.rounds[0] == s1[0];
  }

  /** Step 12 as written (lines 159-288), with the cursors it hands to
      step 13: the same as CrossLink's. */
  method CrossLinkAsWritten<P>(a: Matches<P>, n: nat) returns (winRound: int, loseRound: int, fillCount: nat)
    requires n >= 4 && Shaped(a.rounds, n) && (Rem(n) != 0 ==> Seated(a.rounds[1], n))
    modifies a
    ensures |a.rounds| == |old(a.rounds)| && forall i :: 0 <= i < |a.rounds| ==> |a.rounds[i]| == |old(a.rounds)[i]|
    ensures Rem(n) == 0 ==>
      && winRound == a.first + 1 && loseRound == a.first + Lb(n) + 1 && fillCount == 1
      && 0 < |old(a.rounds)[0]|
      && a.rounds == old(a.rounds)[0 := old(a.rounds)[0][0 := old(a.rounds)[0][0].(loss := Some(Slot(a.first + Lb(n), 1)))]]
    ensures 0 < Rem(n) <= Half(n) ==>
      && winRound == a.first + 2 && loseRound == a.first + Lb(n) + 1 && fillCount == 2
      && SmallWrittenAt(a.rounds, old(a.rounds), Gf(n) + 1, a.first)
    ensures Rem(n) > Half(n) ==>
      && winRound == a.first + 1 && loseRound == a.first + Lb(n) - 1 && fillCount == 1
      && LargeWrittenAt(a.rounds, old(a.rounds), Gf(n) + 1, a.first)
  {
    LinkSizes(n);
    assert |a.rounds[0]| == SizeAt(n, 0) && |a.rounds[Lb(n)]| == SizeAt(n, Lb(n));
    if Rem(n) != 0 {
      assert |a.rounds[1]| == SizeAt(n, 1) && |a.rounds[Gf(n) + 1]| == SizeAt(n, Gf(n) + 1);
      assert |a.rounds[Gf(n) + 2]| == SizeAt(n, Gf(n) + 2);
    }
    fillCount := 0;
    winRound := a.first;
    loseRound := a.first + Gf(n) + 1;
    if Rem(n) == 0 {
      LinkPerfectAsWritten(a, n, winRound, loseRound, fillCount);
      fillCount := fillCount + 1;
      winRound := winRound + 1;
      loseRound := loseRound + 1;
    } else if Rem(n) <= Half(n) {
      CrossLinkSmallAsWritten(a, n);
      fillCount := 2;
      winRound := winRound + 2;
      loseRound := loseRound + 2;
    } else {
      loseRound := CrossLinkLargeAsWritten(a, n);
      fillCount := 1;
      winRound := winRound + 1;
    }
  }
}
