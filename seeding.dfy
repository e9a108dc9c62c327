/** Seeding of the first real round and the splicing of byes into the bye
    round (src/DoubleElimination.ts:35-36, 68-102). */
module Seeding {
  import opened Arith
  import opened Layout
  import opened SeedOrder
  import opened Arena

  /** `seed(idx)` (lines 35-36): the player of 1-based seed idx, or null when
      idx is not a seed of the field. */
  function Seed<P>(players: seq<P>, idx: int): (r: Option<P>)
    ensures r.Some? <==> 1 <= idx <= |players|
    ensures r.Some? ==> r.value == players[idx - 1]
  {
    if 1 <= idx <= |players| then Some(players[idx - 1]) else None
  }

  /** `playerArray.indexOf(p)` (lines 84-85): the first position holding p,
      or -1; a null player is never found. */
  function IndexOf<P(==)>(players: seq<P>, p: Option<P>): (i: int)
    ensures -1 <= i < |players|
    ensures i >= 0 ==> p == Some(players[i]) && forall k :: 0 <= k < i ==> players[k] != p.value
    ensures i == -1 <==> p.None? || p.value !in players
  {
    if p.None? || players == [] then -1
    else if players[0] == p.value then 0
    else
      var j := IndexOf(players[1..], p);
      if j < 0 then -1 else j + 1
  }

  predicate Distinct<P(==)>(s: seq<P>)
  {
    forall i, j :: 0 <= i < j < |s| ==> s[i] != s[j]
  }

  /** For distinct players, looking up the player of a seed gives back the
      seed's position: the round trip that lines 84-85 rely on. */
  lemma IndexOfSeed<P>(players: seq<P>, k: int)
    requires Distinct(players) && 1 <= k <= |players|
    ensures IndexOf(players, Seed(players, k)) == k - 1
  {
    assert players[k - 1] in players;
  }

  /** The player array of the count path (line 16): the seed numbers 1..N. */
  function Numbered(n: nat): (r: seq<int>)
    ensures |r| == n && forall i :: 0 <= i < n ==> r[i] == i + 1
  {
    seq(n, i => i + 1)
  }

  lemma NumberedDistinct(n: nat)
    ensures Distinct(Numbered(n))
  {
  }

  /** The seed order of step 2 for N players: 2^floorExp seeds. */
  function SeedBracket(n: nat): (b: seq<int>)
    requires n >= 4
    ensures |b| == 2 * Half(n)
  {
    Pow2MonotoneFour(n);
    Order(F(n))
  }

  /** `2 ** floorExp - remainder` (lines 87, 94): seeds above this many are
      displaced into the bye round. */
  function Threshold(n: nat): (t: int)
    requires n >= 1
    ensures 0 < t <= Pow2(F(n))
  {
    Pow2(F(n)) - Rem(n)
  }

  /** The seeds of the order: 1 .. 2^floorExp, each once. */
  lemma SeedBracketRange(n: nat)
    requires n >= 4
    ensures forall q :: 0 <= q < |SeedBracket(n)| ==> 1 <= SeedBracket(n)[q] <= Pow2(F(n))
    ensures Pow2(F(n)) <= n
  {
    Pow2MonotoneFour(n);
    OrderRange(F(n));
  }

  /** Exactly `remainder` seeds of the order are displaced. */
  lemma DisplacedCount(n: nat)
    requires n >= 4
    ensures |Above(SeedBracket(n), Threshold(n))| == Rem(n)
  {
    Pow2MonotoneFour(n);
    OrderCountAbove(F(n), Threshold(n));
    AboveCount(SeedBracket(n), Threshold(n));
  }

  /** The opponent `seed(2 ** ceilExp - idx)` of a displaced seed is one of
      the players beyond 2^floorExp: a real player, never null. */
  lemma MirrorInRange(n: nat, q: nat)
    requires n >= 4 && q < |SeedBracket(n)| && SeedBracket(n)[q] > Threshold(n)
    ensures Pow2(F(n)) < Pow2(C(n)) + 1 - SeedBracket(n)[q] <= n
  {
    SeedBracketRange(n);
    assert Rem(n) != 0;
    assert C(n) == F(n) + 1;
  }

  /** The player left in slot q of the first real round once the slots
      before position pos have been examined by step 7. */
  function Cut<P>(players: seq<P>, b: seq<int>, t: int, pos: int, q: nat): Option<P>
    requires q < |b|
  {
    if q < pos && b[q] > t then None else Seed(players, b[q])
  }

  /** The bye-round match step 7 fills for the player displaced from slot q:
      that player against the mirrored seed, the winner going to the match
      of the first real round that held slot q (lines 88-91, 95-98). */
  function ByeMatch<P>(players: seq<P>, b: seq<int>, n: nat, next: int, q: nat): Match<P>
    requires q < |b| && n >= 1
  {
    Match(Seed(players, b[q]), Seed(players, Pow2(C(n)) + 1 - b[q]), Some(Slot(next, q / 2 + 1)), None)
  }

  /** Row of the first real round once step 7 has examined the slots
      before position pos: displaced seeds are gone, nothing else changed. */
  ghost predicate MainFed<P>(row: seq<Match<P>>, orig: seq<Match<P>>, players: seq<P>, b: seq<int>, t: int, pos: int)
  {
    && |row| == |orig| && 2 * |orig| <= |b|
    && forall k :: 0 <= k < |orig| ==>
         row[k] == orig[k].(player1 := Cut(players, b, t, pos, 2 * k), player2 := Cut(players, b, t, pos, 2 * k + 1))
  }

  /** Bye row once step 7 has examined the slots before position pos: one
      filled bye match per displaced seed, in slot order, the rest blank. */
  ghost predicate ByeFed<P>(row: seq<Match<P>>, players: seq<P>, b: seq<int>, n: nat, next: int, t: int, pos: nat, ctr: nat)
    requires n >= 1
  {
    && pos <= |b| && ctr == |Above(b[..pos], t)| && ctr <= |row|
    && forall j :: 0 <= j < |row| ==>
         row[j] == if j < ctr then ByeMatch(players, b, n, next, Above(b[..pos], t)[j]) else Blank()
  }

  /** Bye record o after lines 88-91 (or 95-98) for the displaced seed x:
      x against its mirror, the winner going to slot m. */
  function ByeRecord<P>(players: seq<P>, n: nat, x: int, m: Slot, o: Match<P>): Match<P>
    requires n >= 1
  {
    Match(Seed(players, x), Seed(players, Pow2(C(n)) + 1 - x), Some(m), o.loss)
  }

  /** The record lines 88-91 write, with `idx = x - 1`, is the bye record of x. */
  lemma ByeRecordOf<P>(players: seq<P>, n: nat, x: int, idx: int, m: Slot, o: Match<P>)
    requires n >= 1 && idx == x - 1
    ensures Match(Seed(players, x), Seed(players, Pow2(C(n)) - idx), Some(m), o.loss) == ByeRecord(players, n, x, m, o)
  {
  }

  /** The arena rs after step 7 has examined the slots before position pos
      of the first real round, starting from orig, with ctr bye matches used. */
  ghost predicate Fed<P>(rs: seq<seq<Match<P>>>, orig: seq<seq<Match<P>>>, players: seq<P>, n: nat, next: int, pos: nat, ctr: nat)
    requires n >= 4
  {
    && |rs| == |orig| >= 2 && |rs[0]| == Rem(n) && |orig[1]| == Half(n)
    && (forall i :: 2 <= i < |rs| ==> rs[i] == orig[i])
    && MainFed(rs[1], orig[1], players, SeedBracket(n), Threshold(n), pos)
    && ByeFed(rs[0], players, SeedBracket(n), n, next, Threshold(n), pos, ctr)
  }

  /** The row after step 7 looked at slot pos = 2k + side. */
  function CutSlot<P>(row: seq<Match<P>>, k: nat, side: nat): seq<Match<P>>
    requires k < |row|
  {
    if side == 0 then row[k := row[k].(player1 := None)] else row[k := row[k].(player2 := None)]
  }

  /** Cut changes only at the slot just examined. */
  lemma CutElsewhere<P>(players: seq<P>, b: seq<int>, t: int, pos: int, q: nat)
    requires q < |b| && q != pos
    ensures Cut(players, b, t, pos + 1, q) == Cut(players, b, t, pos, q)
  {
  }

  lemma MainFedStep<P>(row: seq<Match<P>>, orig: seq<Match<P>>, players: seq<P>, b: seq<int>, t: int, k: nat, side: nat)
    requires side < 2 && k < |orig| && MainFed(row, orig, players, b, t, 2 * k + side)
    ensures MainFed(if b[2 * k + side] > t then CutSlot(row, k, side) else row, orig, players, b, t, 2 * k + side + 1)
  {
    var pos := 2 * k + side;
    var row' := if b[pos] > t then CutSlot(row, k, side) else row;
    forall l | 0 <= l < |orig|
      ensures row'[l] == orig[l].(player1 := Cut(players, b, t, pos + 1, 2 * l), player2 := Cut(players, b, t, pos + 1, 2 * l + 1))
    {
      MainFedAt(row, orig, players, b, t, k, side, l);
    }
  }

  lemma MainFedAt<P>(row: seq<Match<P>>, orig: seq<Match<P>>, players: seq<P>, b: seq<int>, t: int, k: nat, side: nat, l: nat)
    requires side < 2 && k < |orig| && l < |orig| && MainFed(row, orig, players, b, t, 2 * k + side)
    ensures var pos := 2 * k + side;
      (if b[pos] > t then CutSlot(row, k, side) else row)[l]
        == orig[l].(player1 := Cut(players, b, t, pos + 1, 2 * l), player2 := Cut(players, b, t, pos + 1, 2 * l + 1))
  {
    var pos := 2 * k + side;
    var o := orig[l];
    var c1, c2 := Cut(players, b, t, pos, 2 * l), Cut(players, b, t, pos, 2 * l + 1);
    var d1, d2 := Cut(players, b, t, pos + 1, 2 * l), Cut(players, b, t, pos + 1, 2 * l + 1);
    assert row[l] == o.(player1 := c1, player2 := c2);
    if l != k {
      CutElsewhere(players, b, t, pos, 2 * l);
      CutElsewhere(players, b, t, pos, 2 * l + 1);
      assert d1 == c1 && d2 == c2;
    } else if side == 0 {
      CutElsewhere(players, b, t, pos, 2 * l + 1);
      assert d2 == c2;
      assert d1 == if b[pos] > t then None else c1;
    } else {
      CutElsewhere(players, b, t, pos, 2 * l);
      assert d1 == c1;
      assert d2 == if b[pos] > t then None else c2;
    }
  }

  lemma ByeFedStep<P>(row: seq<Match<P>>, players: seq<P>, b: seq<int>, n: nat, next: int, t: int, pos: nat, ctr: nat)
    requires n >= 1 && pos < |b| && ByeFed(row, players, b, n, next, t, pos, ctr)
    ensures b[pos] > t && ctr < |row| ==>
      ByeFed(row[ctr := ByeMatch(players, b, n, next, pos)], players, b, n, next, t, pos + 1, ctr + 1)
    ensures b[pos] <= t ==> ByeFed(row, players, b, n, next, t, pos + 1, ctr)
  {
    AboveSnoc(b, pos, t);
  }

  /** Step 6 (lines 69-75): match i + 1 of the first real round gets
      `seed(bracket[2i])` against `seed(bracket[2i + 1])`. */
  method SeedMainRound<P>(a: Matches<P>, players: seq<P>, bracket: seq<int>, startRound: int)
    requires 2 * a.Size(startRound) <= |bracket|
    modifies a
    ensures |a.rounds| == |old(a.rounds)|
    ensures forall i :: 0 <= i < |a.rounds| && i != startRound - a.first ==> a.rounds[i] == old(a.rounds)[i]
    ensures a.first <= startRound < a.first + |a.rounds| ==>
      var w := startRound - a.first;
      && |a.rounds[w]| == |old(a.rounds)[w]|
      && forall k :: 0 <= k < |a.rounds[w]| ==>
           a.rounds[w][k] == old(a.rounds)[w][k].(player1 := Seed(players, bracket[2 * k]), player2 := Seed(players, bracket[2 * k + 1]))
  {
    var count := a.Size(startRound);
    var w := startRound - a.first;
    var i := 0;
    while i < count
      invariant 0 <= i <= count && |a.rounds| == |old(a.rounds)|
      invariant count == 0 ==> a.rounds == old(a.rounds)
      invariant forall r :: 0 <= r < |a.rounds| && r != w ==> a.rounds[r] == old(a.rounds)[r]
      invariant count > 0 ==> |a.rounds[w]| == count && forall k :: 0 <= k < count ==>
        a.rounds[w][k] == if k < i then old(a.rounds)[w][k].(player1 := Seed(players, bracket[2 * k]), player2 := Seed(players, bracket[2 * k + 1]))
                          else old(a.rounds)[w][k]
    {
      a.SetSeats(Slot(startRound, i + 1), Seed(players, bracket[2 * i]), Seed(players, bracket[2 * i + 1]));
      i := i + 1;
    }
  }

  /** Lines 88-92 (side 0) or 95-99 (side 1), for the player p found at
      position idx: bye match ctr + 1 gets p against `seed(2 ** ceilExp - idx)`
      and wins into match k + 1 of the next round, whose slot becomes null. */
  method Displace<P>(a: Matches<P>, players: seq<P>, n: nat, ctr: nat, k: nat, side: nat, p: Option<P>, idx: int)
    requires n >= 1 && |a.rounds| >= 2 && ctr < |a.rounds[0]| && k < |a.rounds[1]| && side < 2
    requires p == Seed(players, idx + 1)
    modifies a
    ensures |a.rounds| == |old(a.rounds)| && forall i :: 2 <= i < |a.rounds| ==> a.rounds[i] == old(a.rounds)[i]
    ensures a.rounds[0] == old(a.rounds)[0][ctr := ByeRecord(players, n, idx + 1, Slot(a.first + 1, k + 1), old(a.rounds)[0][ctr])]
    ensures a.rounds[1] == CutSlot(old(a.rounds)[1], k, side)
  {
    var im, m := Slot(a.first, ctr + 1), Slot(a.first + 1, k + 1);
    var q := Seed(players, Pow2(C(n)) - idx);
    a.SetSeats(im, p, q);
    a.SetWin(im, m);
    if side == 0 {
      a.SetSeats(m, None, a.At(m).player2);
    } else {
      a.SetSeats(m, a.At(m).player1, None);
    }
  }

  /** Step 7 after a displaced slot 2k + side: the bye match ctr + 1 is
      filled and the slot is null. */
  lemma SpliceFed<P>(r0: seq<seq<Match<P>>>, r1: seq<seq<Match<P>>>, orig: seq<seq<Match<P>>>, players: seq<P>, n: nat, next: int, k: nat, side: nat, ctr: nat)
    requires n >= 4 && side < 2 && k < Half(n)
    requires Fed(r0, orig, players, n, next, 2 * k + side, ctr)
    requires SeedBracket(n)[2 * k + side] > Threshold(n) && ctr < Rem(n)
    requires |r1| == |r0| && r1[1] == CutSlot(r0[1], k, side) && forall i :: 2 <= i < |r1| ==> r1[i] == r0[i]
    requires r1[0] == r0[0][ctr := ByeRecord(players, n, SeedBracket(n)[2 * k + side], Slot(next, k + 1), r0[0][ctr])]
    ensures Fed(r1, orig, players, n, next, 2 * k + side + 1, ctr + 1)
  {
    var b, t, pos := SeedBracket(n), Threshold(n), 2 * k + side;
    MainFedStep(r0[1], orig[1], players, b, t, k, side);
    SpliceByeRow(r0[0], players, n, next, k, side, ctr);
  }

  /** The bye row after a displaced slot: one more filled bye match. */
  lemma SpliceByeRow<P>(row: seq<Match<P>>, players: seq<P>, n: nat, next: int, k: nat, side: nat, ctr: nat)
    requires n >= 4 && side < 2 && k < Half(n) && ctr < |row|
    requires ByeFed(row, players, SeedBracket(n), n, next, Threshold(n), 2 * k + side, ctr)
    requires SeedBracket(n)[2 * k + side] > Threshold(n)
    ensures ByeFed(row[ctr := ByeRecord(players, n, SeedBracket(n)[2 * k + side], Slot(next, k + 1), row[ctr])],
                   players, SeedBracket(n), n, next, Threshold(n), 2 * k + side + 1, ctr + 1)
  {
    var b, t, pos := SeedBracket(n), Threshold(n), 2 * k + side;
    assert row[ctr] == Blank();
    assert pos / 2 == k;
    assert ByeRecord(players, n, b[pos], Slot(next, k + 1), row[ctr]) == ByeMatch(players, b, n, next, pos);
    ByeFedStep(row, players, b, n, next, t, pos, ctr);
  }

  /** Before slot pos = 2k + side is examined it still holds its seed. */
  lemma FedSlot<P>(r0: seq<seq<Match<P>>>, orig: seq<seq<Match<P>>>, players: seq<P>, n: nat, next: int, k: nat, side: nat, ctr: nat)
    requires n >= 4 && side < 2 && k < Half(n)
    requires Fed(r0, orig, players, n, next, 2 * k + side, ctr)
    ensures |r0[1]| == Half(n)
    ensures (if side == 0 then r0[1][k].player1 else r0[1][k].player2) == Seed(players, SeedBracket(n)[2 * k + side])
  {
    var b, t := SeedBracket(n), Threshold(n);
    assert r0[1][k] == orig[1][k].(player1 := Cut(players, b, t, 2 * k + side, 2 * k), player2 := Cut(players, b, t, 2 * k + side, 2 * k + 1));
  }

  /** Step 7 after a slot that stays: only the position advances. */
  lemma SkipFed<P>(r0: seq<seq<Match<P>>>, orig: seq<seq<Match<P>>>, players: seq<P>, n: nat, next: int, k: nat, side: nat, ctr: nat)
    requires n >= 4 && side < 2 && k < Half(n)
    requires Fed(r0, orig, players, n, next, 2 * k + side, ctr)
    requires SeedBracket(n)[2 * k + side] <= Threshold(n)
    ensures Fed(r0, orig, players, n, next, 2 * k + side + 1, ctr)
  {
    var b, t, pos := SeedBracket(n), Threshold(n), 2 * k + side;
    MainFedStep(r0[1], orig[1], players, b, t, k, side);
    ByeFedStep(r0[0], players, b, n, next, t, pos, ctr);
  }

  /** The seed of slot q is a real player whose position is the seed less one. */
  lemma SlotSeed<P>(players: seq<P>, n: nat, q: nat)
    requires n == |players| >= 4 && Distinct(players) && q < |SeedBracket(n)|
    ensures 1 <= SeedBracket(n)[q] <= Pow2(F(n)) <= n
    ensures IndexOf(players, Seed(players, SeedBracket(n)[q])) == SeedBracket(n)[q] - 1
  {
    SeedBracketRange(n);
    IndexOfSeed(players, SeedBracket(n)[q]);
  }

  /** One of the two `if (idx >= 2 ** floorExp - remainder)` blocks of step 7
      (lines 84-100), for slot 2k + side of the first real round: a displaced
      seed fills bye match ctr + 1. */
  method Splice<P(==)>(a: Matches<P>, players: seq<P>, n: nat, k: nat, side: nat, ctr: nat)
    returns (ctr': nat)
    requires n == |players| >= 4 && Distinct(players)
    requires side < 2 && k < Half(n)
    requires |a.rounds| >= 2 && |a.rounds[0]| == Rem(n) && |a.rounds[1]| == Half(n)
    requires (if side == 0 then a.rounds[1][k].player1 else a.rounds[1][k].player2)
          == Seed(players, SeedBracket(n)[2 * k + side])
    requires SeedBracket(n)[2 * k + side] > Threshold(n) ==> ctr < Rem(n)
    modifies a
    ensures SeedBracket(n)[2 * k + side] <= Threshold(n) ==> ctr' == ctr && a.rounds == old(a.rounds)
    ensures SeedBracket(n)[2 * k + side] > Threshold(n) ==> ctr' == ctr + 1
    ensures |a.rounds| == |old(a.rounds)| && forall i :: 2 <= i < |a.rounds| ==> a.rounds[i] == old(a.rounds)[i]
    ensures SeedBracket(n)[2 * k + side] > Threshold(n) ==> a.rounds[1] == CutSlot(old(a.rounds)[1], k, side)
    ensures SeedBracket(n)[2 * k + side] > Threshold(n) ==>
      a.rounds[0] == old(a.rounds)[0][ctr := ByeRecord(players, n, SeedBracket(n)[2 * k + side], Slot(a.first + 1, k + 1), old(a.rounds)[0][ctr])]
  {
    SlotSeed(players, n, 2 * k + side);
    var floorExp, remainder := F(n), Rem(n);
    var m := Slot(a.first + 1, k + 1);
    assert a.Has(m);
    var p := if side == 0 then a.At(m).player1 else a.At(m).player2;
    var idx := IndexOf(players, p);
    ctr' := ctr;
    if idx >= Pow2(floorExp) - remainder {
      Displace(a, players, n, ctr, k, side, p, idx);
      ctr' := ctr + 1;
    }
  }

  /** A displaced seed at position pos still has a bye match left for it. */
  lemma CtrBound(n: nat, pos: nat, ctr: nat)
    requires n >= 4 && pos < |SeedBracket(n)| && SeedBracket(n)[pos] > Threshold(n)
    requires ctr == |Above(SeedBracket(n)[..pos], Threshold(n))|
    ensures ctr < Rem(n)
  {
    var b, t := SeedBracket(n), Threshold(n);
    AboveSnoc(b, pos, t);
    AbovePrefix(b, t, pos + 1);
    DisplacedCount(n);
  }

  /** One pass of either `if` block of step 7 over slot 2k + side. */
  method FeedSlot<P(==)>(a: Matches<P>, players: seq<P>, n: nat, k: nat, side: nat, pos: nat, ctr: nat, ghost orig: seq<seq<Match<P>>>)
    returns (ctr': nat)
    requires n == |players| >= 4 && Distinct(players) && Rem(n) != 0 && side < 2 && k < Half(n) && pos == 2 * k + side
    requires Fed(a.rounds, orig, players, n, a.first + 1, pos, ctr)
    modifies a
    ensures Fed(a.rounds, orig, players, n, a.first + 1, pos + 1, ctr')
  {
    ghost var r0 := a.rounds;
    FedSlot(r0, orig, players, n, a.first + 1, k, side, ctr);
    if SeedBracket(n)[2 * k + side] > Threshold(n) {
      CtrBound(n, 2 * k + side, ctr);
    }
    ctr' := Splice(a, players, n, k, side, ctr);
    if SeedBracket(n)[2 * k + side] > Threshold(n) {
      SpliceFed(r0, a.rounds, orig, players, n, a.first + 1, k, side, ctr);
    } else {
      SkipFed(r0, orig, players, n, a.first + 1, k, side, ctr);
    }
  }

  /** Before step 7 the arena is fed with nothing. */
  lemma FedStart<P>(rs: seq<seq<Match<P>>>, players: seq<P>, n: nat, next: int)
    requires n >= 4 && |rs| >= 2 && |rs[0]| == Rem(n) && AllBlank(rs[0]) && |rs[1]| == Half(n)
    requires forall k :: 0 <= k < Half(n) ==>
      rs[1][k].player1 == Seed(players, SeedBracket(n)[2 * k]) && rs[1][k].player2 == Seed(players, SeedBracket(n)[2 * k + 1])
    ensures Fed(rs, rs, players, n, next, 0, 0)
  {
    var b, t := SeedBracket(n), Threshold(n);
    assert b[..0] == [];
    forall k | 0 <= k < |rs[1]|
      ensures rs[1][k] == rs[1][k].(player1 := Cut(players, b, t, 0, 2 * k), player2 := Cut(players, b, t, 0, 2 * k + 1))
    {
    }
  }

  /** After the last slot every displaced seed has its bye match. */
  lemma FedEnd<P>(rs: seq<seq<Match<P>>>, orig: seq<seq<Match<P>>>, players: seq<P>, n: nat, next: int, pos: nat, ctr: nat)
    requires n >= 4 && Fed(rs, orig, players, n, next, pos, ctr) && pos == |SeedBracket(n)|
    ensures ctr == Rem(n)
  {
    assert SeedBracket(n)[..pos] == SeedBracket(n);
    DisplacedCount(n);
  }

  /** Step 7 (lines 78-102): every seed above 2^floorExp - remainder leaves
      its slot of the first real round, which becomes null, and plays the
      mirrored seed in the next unused bye-round match, whose winner goes to
      the match it left. */
  method FeedByes<P(==)>(a: Matches<P>, players: seq<P>, n: nat)
    requires n == |players| >= 4 && Distinct(players)
    requires |a.rounds| >= 2
    requires Rem(n) != 0 ==> |a.rounds[0]| == Rem(n) && AllBlank(a.rounds[0]) && |a.rounds[1]| == Half(n)
    requires Rem(n) != 0 ==> forall k :: 0 <= k < Half(n) ==>
      a.rounds[1][k].player1 == Seed(players, SeedBracket(n)[2 * k]) && a.rounds[1][k].player2 == Seed(players, SeedBracket(n)[2 * k + 1])
    modifies a
    ensures Rem(n) == 0 ==> a.rounds == old(a.rounds)
    ensures Rem(n) != 0 ==> Fed(a.rounds, old(a.rounds), players, n, a.first + 1, |SeedBracket(n)|, Rem(n))
  {
    var remainder := Rem(n);
    if remainder != 0 {
      ghost var orig := a.rounds;
      var ctr := 0;
      var count := a.Size(a.first + 1);
      FedStart(a.rounds, players, n, a.first + 1);
      var k, pos := 0, 0;
      while k < count
        invariant 0 <= k <= count == Half(n) && pos == 2 * k
        invariant Fed(a.rounds, orig, players, n, a.first + 1, pos, ctr)
      {
        ctr := FeedSlot(a, players, n, k, 0, pos, ctr, orig);
        pos := pos + 1;
        ctr := FeedSlot(a, players, n, k, 1, pos, ctr, orig);
        pos := pos + 1;
        k := k + 1;
      }
      FedEnd(a.rounds, orig, players, n, a.first + 1, pos, ctr);
    }
  }
}
