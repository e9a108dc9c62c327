/** The list `matches` of src/DoubleElimination.ts, kept as an arena keyed by
    `{round, match}`: the match numbered m of round r is rounds[r - first][m - 1]. */
module Arena {

  datatype Option<T> = None | Some(value: T)

  /** A `{round, match}` address, the value of a `win` or `loss` pointer. */
  datatype Slot = Slot(round: int, number: int)

  /** A match record; `None` stands for the source's null player or an absent
      pointer. Its own round and match numbers are its key in the arena. */
  datatype Match<P> = Match(player1: Option<P>, player2: Option<P>, win: Option<Slot>, loss: Option<Slot>)

  /** The record pushed by every skeleton loop: no players, no pointers. */
  function Blank<P>(): Match<P> { Match(None, None, None, None) }

  function Blanks<P>(k: nat): (row: seq<Match<P>>)
    ensures |row| == k && forall j :: 0 <= j < k ==> row[j] == Blank()
  {
    seq(k, _ => Blank())
  }

  /** No match of the row has players or pointers yet. */
  ghost predicate AllBlank<P>(row: seq<Match<P>>)
  {
    forall j :: 0 <= j < |row| ==> row[j] == Blank()
  }

  /** The pointer p, when present, names a match of the arena rs whose
      smallest round is first. */
  predicate Names<P>(first: int, rs: seq<seq<Match<P>>>, p: Option<Slot>)
  {
    p.Some? ==> first <= p.value.round < first + |rs| && 1 <= p.value.number <= |rs[p.value.round - first]|
  }

  /** No dangling pointers: every `win` and every `loss` names an existing match. */
  predicate AllResolve<P>(first: int, rs: seq<seq<Match<P>>>)
  {
    forall i, j :: 0 <= i < |rs| && 0 <= j < |rs[i]| ==> Names(first, rs, rs[i][j].win) && Names(first, rs, rs[i][j].loss)
  }

  /** The arena of match records that the source keeps in the array `matches`. */
  class Matches<P> {
    /** The starting round: the smallest round number of the arena. */
    const first: int
    var rounds: seq<seq<Match<P>>>

    constructor (startingRound: int)
      ensures first == startingRound && rounds == []
    {
      first := startingRound;
      rounds := [];
    }

    /** `matches.filter(m => m.round === r).length`. */
    function Size(r: int): nat
      reads this
    {
      if first <= r < first + |rounds| then |rounds[r - first]| else 0
    }

    /** Some match has round s.round and match number s.number. */
    predicate Has(s: Slot)
      reads this
    {
      first <= s.round < first + |rounds| && 1 <= s.number <= |rounds[s.round - first]|
    }

    function At(s: Slot): Match<P>
      reads this
      requires Has(s)
    {
      rounds[s.round - first][s.number - 1]
    }

    /** The key the next push must use: match 1 of a fresh round, or the next
        match of the last round. Pushing any other key would leave a gap or
        repeat a number. */
    predicate IsNext(s: Slot)
      reads this
    {
      || (s.round == first + |rounds| && s.number == 1)
      || (rounds != [] && s.round == first + |rounds| - 1 && s.number == |rounds[|rounds| - 1]| + 1)
    }

    /** `matches.push({ round, match, player1: null, player2: null })`. */
    method Push(s: Slot)
      requires IsNext(s)
      modifies this
      ensures s.round == first + |old(rounds)| ==> rounds == old(rounds) + [[Blank()]]
      ensures s.round != first + |old(rounds)| ==>
        var k := |old(rounds)| - 1;
        rounds == old(rounds)[k := old(rounds)[k] + [Blank()]]
      ensures Has(s) && At(s) == Blank()
    {
      if s.round == first + |rounds| {
        rounds := rounds + [[Blank()]];
      } else {
        var k := |rounds| - 1;
        rounds := rounds[k := rounds[k] + [Blank()]];
      }
    }

    /** `m.win = { round, match }`. */
    method SetWin(s: Slot, w: Slot)
      requires Has(s)
      modifies this
      ensures var i, j := s.round - first, s.number - 1;
        rounds == old(rounds)[i := old(rounds)[i][j := old(rounds)[i][j].(win := Some(w))]]
    {
      var i, j := s.round - first, s.number - 1;
      rounds := rounds[i := rounds[i][j := rounds[i][j].(win := Some(w))]];
    }

    /** `m.loss = { round, match }`. */
    method SetLoss(s: Slot, l: Slot)
      requires Has(s)
      modifies this
      ensures var i, j := s.round - first, s.number - 1;
        rounds == old(rounds)[i := old(rounds)[i][j := old(rounds)[i][j].(loss := Some(l))]]
    {
      var i, j := s.round - first, s.number - 1;
      rounds := rounds[i := rounds[i][j := rounds[i][j].(loss := Some(l))]];
    }

    /** `m.player1 = p` and `m.player2 = q` of one match. */
    method SetSeats(s: Slot, p: Option<P>, q: Option<P>)
      requires Has(s)
      modifies this
      ensures var i, j := s.round - first, s.number - 1;
        rounds == old(rounds)[i := old(rounds)[i][j := old(rounds)[i][j].(player1 := p, player2 := q)]]
    {
      var i, j := s.round - first, s.number - 1;
      rounds := rounds[i := rounds[i][j := rounds[i][j].(player1 := p, player2 := q)]];
    }
  }
}
