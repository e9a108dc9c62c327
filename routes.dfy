/** What the cross-linking of step 12 reads back from the first real round:
    which matches lost a seat to the bye round, and how many seats that is
    (src/DoubleElimination.ts:194-203, 228-236, 254-263, 281). */
module Routes {
  import opened Arith
  import opened Layout
  import opened SeedOrder
  import opened Arena
  import opened Skeleton
  import opened Seeding

  /** `m.player1 === null || m.player2 === null`. */
  predicate HasBye<P>(m: Match<P>)
  {
    m.player1.None? || m.player2.None?
  }

  /** `m.player1 === null && m.player2 === null`. */
  predicate AllBye<P>(m: Match<P>)
  {
    m.player1.None? && m.player2.None?
  }

  /** The null seats of one match. */
  function Nulls<P>(m: Match<P>): (k: nat)
    ensures k <= 2 && (k == 0 <==> !HasBye(m)) && (k == 2 <==> AllBye(m))
  {
    (if m.player1.None? then 1 else 0) + (if m.player2.None? then 1 else 0)
  }

  /** The null seats of a row. */
  function NullCount<P>(row: seq<Match<P>>): nat
  {
    if row == [] then 0 else NullCount(row[..|row| - 1]) + Nulls(row[|row| - 1])
  }

  /** `roundTwoRoutes` (lines 228-236): ceil(m / 2) for every match m of the
      row with a null seat, in match order. */
  function NullRoutes<P>(row: seq<Match<P>>): (r: seq<int>)
    ensures |r| <= |row|
    ensures forall i :: 0 <= i < |r| ==> 1 <= r[i] <= CeilHalf(|row|)
  {
    if row == [] then []
    else NullRoutes(row[..|row| - 1]) + (if HasBye(row[|row| - 1]) then [CeilHalf(|row|)] else [])
  }

  /** `Array.from(byeRoutes)` of the large case (lines 254-263, 281): the
      numbers of the matches both of whose seats are null, in match order. */
  function EmptyMatches<P>(row: seq<Match<P>>): (r: seq<int>)
    ensures |r| <= |row|
    ensures forall i :: 0 <= i < |r| ==> 1 <= r[i] <= |row|
  {
    if row == [] then []
    else EmptyMatches(row[..|row| - 1]) + (if AllBye(row[|row| - 1]) then [|row|] else [])
  }

  /** The number of losers matches 1 .. x of the next round whose feeder pair
      2l - 1, 2l of the row holds a null seat: the slots of the small case's
      pre-fill round that `alt` has handed out once x losers matches are done. */
  function Hits<P>(row: seq<Match<P>>, x: nat): (h: nat)
    requires 2 * x <= |row|
    ensures h <= x
  {
    if x == 0 then 0 else Hits(row, x - 1) + (if HasBye(row[2 * x - 2]) || HasBye(row[2 * x - 1]) then 1 else 0)
  }

  /** The seats of the first real round after step 7: a seat is null exactly
      when its seed was displaced into the bye round. */
  ghost predicate Seated<P>(row: seq<Match<P>>, n: nat)
    requires n >= 4
  {
    && |row| == Half(n)
    && forall k :: 0 <= k < |row| ==>
         && (row[k].player1.None? <==> SeedBracket(n)[2 * k] > Threshold(n))
         && (row[k].player2.None? <==> SeedBracket(n)[2 * k + 1] > Threshold(n))
  }

  /** `l in roundTwoRoutes`, that is `byeRoutes.has(l)` in the small case,
      holds exactly when one of the matches 2l - 1, 2l has a null seat. */
  lemma {:induction false} NullRoutesHas<P>(row: seq<Match<P>>, l: int)
    requires 1 <= l && 2 * l <= |row|
    ensures l in NullRoutes(row) <==> HasBye(row[2 * l - 2]) || HasBye(row[2 * l - 1])
  {
    var p := row[..|row| - 1];
    if |row| > 2 * l {
      NullRoutesHas(p, l);
      assert p[2 * l - 2] == row[2 * l - 2] && p[2 * l - 1] == row[2 * l - 1];
    } else {
      var q := p[..|p| - 1];
      assert CeilHalf(2 * l) == l == CeilHalf(2 * l - 1) && CeilHalf(2 * l - 2) == l - 1;
      assert NullRoutes(row) == NullRoutes(p) + (if HasBye(row[2 * l - 1]) then [l] else []);
      assert NullRoutes(p) == NullRoutes(q) + (if HasBye(row[2 * l - 2]) then [l] else []);
      assert l !in NullRoutes(q);
    }
  }

  /** `byeRoutes.has(l)` in the large case holds exactly when both seats of
      match l are null. */
  lemma {:induction false} EmptyMatchesHas<P>(row: seq<Match<P>>, l: int)
    requires 1 <= l <= |row|
    ensures l in EmptyMatches(row) <==> AllBye(row[l - 1])
  {
    var p := row[..|row| - 1];
    if l < |row| {
      EmptyMatchesHas(p, l);
    }
  }

  /** The list of empty matches of a row extends that of every prefix. */
  lemma {:induction false} EmptyMatchesPrefix<P>(row: seq<Match<P>>, x: nat)
    requires x <= |row|
    ensures EmptyMatches(row[..x]) <= EmptyMatches(row)
  {
    if x < |row| {
      var p := row[..|row| - 1];
      assert row[..x] == p[..x];
      EmptyMatchesPrefix(p, x);
    } else {
      assert row[..x] == row;
    }
  }

  /** When match x + 1 is empty, it is the entry of `br` that follows the
      empty matches before it. */
  lemma EmptyMatchesNext<P>(row: seq<Match<P>>, x: nat)
    requires x < |row| && AllBye(row[x])
    ensures |EmptyMatches(row[..x])| < |EmptyMatches(row)|
    ensures EmptyMatches(row)[|EmptyMatches(row[..x])|] == x + 1
  {
    assert row[..x + 1][..x] == row[..x];
    EmptyMatchesPrefix(row, x + 1);
  }

  /** A prefix has no more null seats than the row. */
  lemma {:induction false} NullCountPrefix<P>(row: seq<Match<P>>, x: nat)
    requires x <= |row|
    ensures NullCount(row[..x]) <= NullCount(row)
  {
    if x < |row| {
      var p := row[..|row| - 1];
      assert row[..x] == p[..x];
      NullCountPrefix(p, x);
    } else {
      assert row[..x] == row;
    }
  }

  /** Each feeder pair counted by Hits brings at least one null seat. */
  lemma {:induction false} HitsBound<P>(row: seq<Match<P>>, x: nat)
    requires 2 * x <= |row|
    ensures Hits(row, x) <= NullCount(row[..2 * x])
  {
    if x > 0 {
      HitsBound(row, x - 1);
      var s := row[..2 * x];
      assert s[..|s| - 1] == row[..2 * x - 1];
      assert row[..2 * x - 1][..2 * x - 2] == row[..2 * x - 2];
    }
  }

  /** The null seats of a seated prefix are the displaced seeds among its
      slots. */
  lemma {:induction false} SeatedNullCount<P>(row: seq<Match<P>>, n: nat, x: nat)
    requires n >= 4 && Seated(row, n) && x <= |row|
    ensures NullCount(row[..x]) == |Above(SeedBracket(n)[..2 * x], Threshold(n))|
  {
    if x > 0 {
      var b, t := SeedBracket(n), Threshold(n);
      SeatedNullCount(row, n, x - 1);
      assert row[..x][..x - 1] == row[..x - 1];
      var m := row[x - 1];
      assert NullCount(row[..x]) == NullCount(row[..x - 1]) + Nulls(m);
      assert Nulls(m) == (if b[2 * x - 2] > t then 1 else 0) + (if b[2 * x - 1] > t then 1 else 0);
      AboveSnoc(b, 2 * x - 2, t);
      AboveSnoc(b, 2 * x - 1, t);
    }
  }

  /** The first real round holds exactly `remainder` null seats. */
  lemma SeatedNulls<P>(row: seq<Match<P>>, n: nat)
    requires n >= 4 && Seated(row, n)
    ensures NullCount(row) == Rem(n)
  {
    SeatedNullCount(row, n, |row|);
    assert row[..|row|] == row;
    assert SeedBracket(n)[..2 * |row|] == SeedBracket(n);
    DisplacedCount(n);
  }

  /** Each first-round match pairs seeds x and 2^floorExp + 1 - x. */
  lemma PairSum(n: nat, k: nat)
    requires n >= 4 && k < Half(n)
    ensures SeedBracket(n)[2 * k] + SeedBracket(n)[2 * k + 1] == Pow2(F(n)) + 1
  {
    Pow2MonotoneFour(n);
    OrderPairs(F(n), k);
  }

  /** With few byes (remainder <= 2^(floorExp-1)) no match loses both seats. */
  lemma SmallNoEmpty<P>(row: seq<Match<P>>, n: nat, k: nat)
    requires n >= 4 && Seated(row, n) && Rem(n) <= Half(n) && k < |row|
    ensures !AllBye(row[k])
  {
    PairSum(n, k);
  }

  /** With many byes (remainder > 2^(floorExp-1)) every match loses a seat. */
  lemma LargeAllBye<P>(row: seq<Match<P>>, n: nat, k: nat)
    requires n >= 4 && Seated(row, n) && Rem(n) > Half(n) && k < |row|
    ensures HasBye(row[k])
  {
    PairSum(n, k);
  }

  /** Without empty matches every null seat gives one route. */
  lemma {:induction false} NullRoutesCount<P>(row: seq<Match<P>>)
    requires forall k :: 0 <= k < |row| ==> !AllBye(row[k])
    ensures |NullRoutes(row)| == NullCount(row)
  {
    if row != [] {
      NullRoutesCount(row[..|row| - 1]);
    }
  }

  /** When every match has a null seat, the empty ones account for the null
      seats beyond one per match. */
  lemma {:induction false} EmptyMatchesCount<P>(row: seq<Match<P>>)
    requires forall k :: 0 <= k < |row| ==> HasBye(row[k])
    ensures |EmptyMatches(row)| + |row| == NullCount(row)
  {
    if row != [] {
      EmptyMatchesCount(row[..|row| - 1]);
    }
  }

  /** Small case: `roundTwoRoutes` has one entry per bye match. */
  lemma SmallRoutes<P>(row: seq<Match<P>>, n: nat)
    requires n >= 4 && Seated(row, n) && Rem(n) <= Half(n)
    ensures |NullRoutes(row)| == Rem(n)
  {
    forall k | 0 <= k < |row| ensures !AllBye(row[k]) {
      SmallNoEmpty(row, n, k);
    }
    NullRoutesCount(row);
    SeatedNulls(row, n);
  }

  /** Large case: `br` has one entry per match of the first pre-fill round. */
  lemma LargeRoutes<P>(row: seq<Match<P>>, n: nat)
    requires n >= 4 && Seated(row, n) && Rem(n) > Half(n)
    ensures |EmptyMatches(row)| == Rem(n) - Half(n)
  {
    forall k | 0 <= k < |row| ensures HasBye(row[k]) {
      LargeAllBye(row, n, k);
    }
    EmptyMatchesCount(row);
    SeatedNulls(row, n);
  }

  /** Small case: when losers match x + 1 is a bye route, `alt` is still a
      match of the pre-fill round. */
  lemma AltBound<P>(row: seq<Match<P>>, n: nat, x: nat)
    requires n >= 4 && Seated(row, n) && 2 * x + 2 <= |row|
    requires HasBye(row[2 * x]) || HasBye(row[2 * x + 1])
    ensures Hits(row, x) < Rem(n)
  {
    SeatedNulls(row, n);
    HitsBelow(row, x, Rem(n));
  }

  /** A feeder pair with a null seat still has room below the null seats. */
  lemma HitsBelow<P>(row: seq<Match<P>>, x: nat, total: nat)
    requires 2 * x + 2 <= |row| && NullCount(row) <= total
    requires HasBye(row[2 * x]) || HasBye(row[2 * x + 1])
    ensures Hits(row, x) < total
  {
    var y := x + 1;
    assert Hits(row, y) == Hits(row, x) + 1;
    HitsBound(row, y);
    NullCountPrefix(row, 2 * y);
  }

  /** Large case: when match x + 1 is empty, `bI` is still a match of the
      first pre-fill round. */
  lemma BIBound<P>(row: seq<Match<P>>, n: nat, x: nat)
    requires n >= 4 && Seated(row, n) && Rem(n) > Half(n) && x < |row| && AllBye(row[x])
    ensures |EmptyMatches(row[..x])| < Rem(n) - Half(n)
  {
    EmptyMatchesNext(row, x);
    LargeRoutes(row, n);
  }

  /** Two rows whose seats agree. */
  ghost predicate SameSeats<P>(row: seq<Match<P>>, row': seq<Match<P>>)
  {
    |row| == |row'| && forall k :: 0 <= k < |row| ==> row[k].player1 == row'[k].player1 && row[k].player2 == row'[k].player2
  }

  /** The routes read back from a row depend on its seats only. */
  lemma {:induction false} SameSeatsRoutes<P>(row: seq<Match<P>>, row': seq<Match<P>>)
    requires SameSeats(row, row')
    ensures NullRoutes(row) == NullRoutes(row') && EmptyMatches(row) == EmptyMatches(row')
  {
    if row != [] {
      SameSeatsRoutes(row[..|row| - 1], row'[..|row| - 1]);
    }
  }

  /** The bye matches of the large case, in order, lose into these slots
      (lines 267-278): one entry for losers match l of the second pre-fill
      round lbB when match l of the first real round kept a player, and two
      entries for the next match of the first pre-fill round lbA when it is
      empty. */
  function Demands<P>(row: seq<Match<P>>, lbA: int, lbB: int): seq<Slot>
  {
    if row == [] then []
    else
      var p := row[..|row| - 1];
      Demands(p, lbA, lbB) +
        (if AllBye(row[|row| - 1]) then [Slot(lbA, |EmptyMatches(p)| + 1), Slot(lbA, |EmptyMatches(p)| + 1)]
         else [Slot(lbB, |row|)])
  }

  /** One more match of the row extends the demands and the empty matches. */
  lemma DemandsStep<P>(row: seq<Match<P>>, lbA: int, lbB: int, x: nat)
    requires x < |row|
    ensures Demands(row[..x + 1], lbA, lbB) == Demands(row[..x], lbA, lbB) +
      (if AllBye(row[x]) then [Slot(lbA, |EmptyMatches(row[..x])| + 1), Slot(lbA, |EmptyMatches(row[..x])| + 1)]
       else [Slot(lbB, x + 1)])
    ensures EmptyMatches(row[..x + 1]) == EmptyMatches(row[..x]) + (if AllBye(row[x]) then [x + 1] else [])
  {
    assert row[..x + 1][..x] == row[..x];
  }

  /** Every match of the row asks for one bye loser, an empty one for two. */
  lemma {:induction false} DemandsLength<P>(row: seq<Match<P>>, lbA: int, lbB: int)
    ensures |Demands(row, lbA, lbB)| == |row| + |EmptyMatches(row)|
  {
    if row != [] {
      DemandsLength(row[..|row| - 1], lbA, lbB);
    }
  }

  /** The demands name match 1 .. |empty matches| of lbA or 1 .. |row| of lbB. */
  lemma {:induction false} DemandsRange<P>(row: seq<Match<P>>, lbA: int, lbB: int)
    ensures forall i :: 0 <= i < |Demands(row, lbA, lbB)| ==>
      var d := Demands(row, lbA, lbB)[i];
      (d.round == lbA && 1 <= d.number <= |EmptyMatches(row)|) || (d.round == lbB && 1 <= d.number <= |row|)
  {
    if row != [] {
      DemandsRange(row[..|row| - 1], lbA, lbB);
    }
  }
}
