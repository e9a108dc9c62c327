# Double-elimination bracket layout

This project models `DoubleElimination(players, startingRound, ordered)` from
`src/DoubleElimination.ts` of the tournament-pairings library, and proves
properties of the model. The function builds, in one pass, every match record
of a double-elimination bracket. Each record has a `{round, match}` key, the
players of the first rounds, and `win`/`loss` pointers to other matches.

The model follows the function's numbered steps.

- Step 1 gives the integer exponents `floorExp` and `ceilExp` and the bye
  count `remainder`. They are modelled in `Arith` and `Layout`.
- Step 2 builds the fair-seeding order (`SeedOrder`).
- Step 3 is the `seed` lookup (`Seeding.Seed`).
- Steps 4, 5, 8, 9 and 10 lay out the rounds (`Skeleton`).
- Steps 6 and 7 seat the first rounds and splice the byes (`Seeding`).
- Step 11 is the rotating `fillPattern` permutation (`FillPattern`).
- Step 12 cross-links the first rounds (`CrossLink`), in the perfect, small-remainder and large-remainder cases.
- Step 13 finishes the loss pointers (`Finish`).
- Steps 14 and 15 set the losers-bracket and championship win pointers (`Final`).

The array `matches` is a class, `Arena.Matches`. It has a starting round
`first` and a field `rounds: seq<seq<Match>>`. Match `m` of round `r` is
`rounds[r - first][m - 1]`.

- `Push` only admits the next `{round, match}` key. So every push the source does is proved to keep the numbering contiguous.
- `SetWin` and `SetLoss` replace one record.
- Each step is an imperative method over the arena, with the source's cursors (`round`, `winRound`, `loseRound`, `fillCount`, `ff`, `ctr`, `alt`, `aI`, `bI`) as explicit variables.

`Bracket.DoubleElimination` composes the steps, as the bracket is evidently
meant to be built. Its contract states the whole result: the arena equals
`Bracket.Linked(players, startingRound)`. That is a closed-form description,
per match, of the seats and of both pointers. The module `Outcome` proves
the bracket's promises about that description: the layout of the rounds, the
first-round seating, the bye matches, where winners and losers advance,
where losers drop, and that no pointer dangles.

The source as written differs from that description in two places, and
`Bracket.Written(players, startingRound)` describes the arena it does return
(see "## Findings"):

- Step 12 looks matches up with `wb.find(wm => wm.match === fp.shift())`
  (lines 172 and 209) and `wb.find(wm => wm.match === fp[aI++])` (lines 268
  and 273). `find` runs its callback once for every match it visits, so each
  lookup consumes one queue entry per visited match, not one per lookup.
  `CrossLink.FindShift` and `CrossLink.FindIndexed` model those searches.
  With the queues step 12 builds, at most the first lookup at lines 172
  and 268 finds a match, and no lookup at line 209 does. The lookups at
  line 186 read `fp[i]` without a side effect, and each finds its match.
  The guards `if (tgt)` (lines 173 and 210), `if (!wA) return`
  (line 269) and `if (wB)` (line 274) then skip the rest. The winners
  matches left without a loss pointer are those `Bracket.Missed` names:
  - with no byes, every first-round match but match 1;
  - with a small remainder, every match of the first real round;
  - with a large remainder, every bye match but match 1.
- `maxR` folds from 0 (line 312). When every round number is negative, step
  15 finds no match of round 0, and the losers final keeps no win pointer.

`Bracket.DoubleEliminationAsWritten` runs the steps as written, with
`CrossLink.CrossLinkAsWritten` for step 12 and the fold from 0. Its
contract is that the arena equals `Written`. `Outcome.WrittenPointers`
states which pointers `Written` lacks, in both directions, and that every
pointer and seat it does have is the corrected one. `Outcome.WrittenResolved`
proves that no pointer of `Written` dangles.

`Bracket.DoubleElimination` and `Linked` are the corrected reading. Each
lookup consumes exactly the entries it names, and `maxR` folds from the
starting round. For four or more distinct players, the `Outcome` lemmas
show that in `Linked` every guarded lookup finds its match. The guarded
lookups are those at lines 173, 187, 210, 243, 269, 274, 286, 307, 323 and 328:

- every winners match gets a loss pointer (`Outcome.LossesIntoLosers`);
- every match except the grand-final slot gets a win pointer;
- every pointer names a match that exists (`Outcome.AllResolved`).

Two details of the code that the model follows:

- The seed order is built up to level `floorExp` (lines 28-32), so it has 2^floorExp entries, one per seat of the first real round.
- A seed counts as displaced when its 0-based index is at least `2^floorExp - remainder` (lines 87 and 94), that is, when the seed is above that number.

## Model

| member | source | states |
|---|---|---|
| Arith.FloorLog2 | src/DoubleElimination.ts:20-21 | floorExp is the exponent e with 2^e <= N < 2^(e+1) |
| Arith.CeilLog2 | src/DoubleElimination.ts:20-22 | ceilExp is the least e with N <= 2^e; it equals floorExp exactly when N is a power of two, and is otherwise floorExp + 1 |
| Layout.Rem | src/DoubleElimination.ts:24 | the bye count is below 2^floorExp and is zero exactly when ceilExp == floorExp |
| Layout.RoundSizesAt | src/DoubleElimination.ts:40-144 | the concatenated layout gives round startingRound + i these matches: `remainder` for the bye round; 2^(floorExp-1) halving down to 1 for the winners rounds; 1 for the grand-final slot; the one or two pre-fill sizes; then two rounds of 2^l for l = floorExp-2 down to 0 |
| Layout.LinkSizes | src/DoubleElimination.ts:113-144 | the round sizes step 12 relies on: the first real round has 2^(floorExp-1) matches, the first ladder round half that, and the pre-fill rounds `remainder`, or `remainder - 2^(floorExp-1)` and `2^(floorExp-1)` |
| Routes.NullRoutes | src/DoubleElimination.ts:228-236 | `roundTwoRoutes`: at most one entry per match, each between 1 and ceil(|row| / 2), so naming a match of the next round |
| Routes.NullRoutesHas | src/DoubleElimination.ts:228-236 | l is a route exactly when match 2l - 1 or match 2l has a null seat |
| Routes.EmptyMatches | src/DoubleElimination.ts:254-263 | `byeRoutes` of the large case: at most one entry per match, each the number of a match of the row |
| Routes.EmptyMatchesHas | src/DoubleElimination.ts:254-263 | l is listed exactly when match l has both seats null |
| Routes.Hits | src/DoubleElimination.ts:211 | the pre-fill slots `alt++` hands out over x losers matches are at most x |
| Routes.DemandsLength | src/DoubleElimination.ts:266-277 | the bye losers demanded: one per match of the first real round, two for an empty one |
| Routes.DemandsRange | src/DoubleElimination.ts:266-277 | every demand names a match of the first pre-fill round numbered at most the count of empty matches, or of the second one numbered at most the row size |
| SeedOrder.SpliceLevel | src/DoubleElimination.ts:29-31 | the in-place splice loop turns every seed a into the pair a, 2^level + 1 - a |
| SeedOrder.BuildSeedOrder | src/DoubleElimination.ts:27-32 | the loop from [1, 4, 2, 3] yields Order(floorExp) |
| SeedOrder.OrderIsPermutation | src/DoubleElimination.ts:27-32 | the order holds each of 1 .. 2^e exactly once |
| SeedOrder.OrderPairs | src/DoubleElimination.ts:27-32 | each first-round pair sums to 2^e + 1, its first seed is the seed one level down, and seed 1 comes first |
| SeedOrder.OrderStartsWithOne | src/DoubleElimination.ts:27 | the order starts with seed 1 |
| Seeding.Seed | src/DoubleElimination.ts:35-36 | seed(idx) is a player exactly when 1 <= idx <= N, and then it is playerArray[idx - 1] |
| Seeding.IndexOf | src/DoubleElimination.ts:84-85 | indexOf returns the first position holding the player, or -1 exactly when the player is null or absent |
| Seeding.IndexOfSeed | src/DoubleElimination.ts:84-85 | for distinct players, indexOf(seed(k)) == k - 1 |
| Seeding.NumberedDistinct | src/DoubleElimination.ts:16 | the player array 1 .. N of the count path is distinct |
| Seeding.Numbered | src/DoubleElimination.ts:16 | the count path builds the array whose entry i is i + 1 |
| Seeding.DisplacedCount | src/DoubleElimination.ts:87-100 | exactly `remainder` seeds of the order lie above 2^floorExp - remainder |
| Seeding.MirrorInRange | src/DoubleElimination.ts:90 | the opponent seed(2^ceilExp - idx) of a displaced seed is a player beyond 2^floorExp, never null |
| Seeding.SeedMainRound | src/DoubleElimination.ts:68-75 | match k + 1 of the first real round gets seed(bracket[2k]) and seed(bracket[2k + 1]); nothing else changes |
| Seeding.FeedByes | src/DoubleElimination.ts:77-102 | every displaced seed leaves a null seat and plays its mirrored seed in the next unused bye match, which wins into the match it left; with no byes nothing changes |
| Skeleton.AddByeRound | src/DoubleElimination.ts:40-46 | pushes one round of `remainder` blank matches when remainder != 0, and nothing otherwise |
| Skeleton.AddWinnersRounds | src/DoubleElimination.ts:48-66 | pushes the winners rounds of 2^(floorExp-1) down to 1 matches, each but the last winning into match ceil(m / 2) of the next |
| Skeleton.AddGrandFinal | src/DoubleElimination.ts:104-111 | pushes the single grand-final slot and points match 1 of the winners final at it; nothing else changes |
| Skeleton.AddPrefill | src/DoubleElimination.ts:113-132 | pushes the pre-fill rounds: none, one of `remainder`, or `remainder - 2^(floorExp-1)` then `2^(floorExp-1)` |
| Skeleton.AddLosersLadder | src/DoubleElimination.ts:134-144 | pushes two rounds of 2^l blank matches for each l from floorExp-2 down to 0, keeping earlier rounds |
| Arena.Matches.Push | src/DoubleElimination.ts:53 | a push with the next key appends one blank match, to the last round or as a new round |
| Arena.Matches.SetWin | src/DoubleElimination.ts:243 | `m.win = {...}` replaces the win pointer of one existing match and nothing else |
| Arena.Matches.SetLoss | src/DoubleElimination.ts:173 | `tgt.loss = {...}` replaces the loss pointer of one existing match and nothing else |
| Arena.Matches.SetSeats | src/DoubleElimination.ts:73-74 | the seat assignments replace the two seats of one existing match and nothing else |
| FillPattern.PatternAt | src/DoubleElimination.ts:147-157 | entry i of fillPattern by phase fc % 4: identity, reversal, each half reversed, halves swapped (first half of floor(count / 2)) |
| FillPattern.PatternIsPermutation | src/DoubleElimination.ts:147-157 | every pattern holds each of 1 .. count exactly once |
| FillPattern.PatternReversed | src/DoubleElimination.ts:154 | phase 1 is count, count - 1, ..., 1 |
| FillPattern.PatternInvolution | src/DoubleElimination.ts:147-157 | for an even count or a single match the pattern is its own inverse |
| CrossLink.LinkPerfect | src/DoubleElimination.ts:165-178 | corrected (each lookup consumes the two entries it names): with no byes, first-round match k + 1 loses into match ceil((k + 1) / 2) of the first ladder round; nothing else changes |
| CrossLink.LinkByeLosers | src/DoubleElimination.ts:181-190 | small remainder: bye match k + 1 loses into pre-fill match k + 1 |
| CrossLink.LinkSecondRound | src/DoubleElimination.ts:192-225 | corrected: small remainder, the first real round loses two per ladder match in reversed order, except that the first loser of each bye route goes back to the next pre-fill match |
| CrossLink.LinkBackWins | src/DoubleElimination.ts:227-244 | pre-fill match i + 1 wins into match routes[i] of the next round when that match exists; nothing else changes |
| CrossLink.LinkLarge | src/DoubleElimination.ts:248-279 | corrected: large remainder, the bye matches lose, in order, into the slots that the empty and non-empty matches of the first real round demand; returns the empty matches as `br` |
| CrossLink.CrossLink | src/DoubleElimination.ts:159-288 | corrected: step 12 in the three cases, and the cursors winRound, loseRound and fillCount it hands on |
| CrossLink.RoutePair | src/DoubleElimination.ts:171-174 | corrected: the next two entries shifted off the queue name the matches of the round that lose into `to`; nothing else changes |
| CrossLink.RouteSecondRoundLoser | src/DoubleElimination.ts:207-222 | corrected: two shifts of the queue; when x + 1 is a bye route the first loser goes to pre-fill match alt + 1, the second to losers match x + 1 |
| CrossLink.RouteLargeLoser | src/DoubleElimination.ts:266-277 | corrected: `fp[aI++]` names a bye match, which loses into lbB match x + 1, or with the next one into lbA match bI + 1 when x + 1 is an empty match |
| CrossLink.FindShift | src/DoubleElimination.ts:172 | `find` with `fp.shift()` in its callback: visiting match m shifts one entry; finds the first m whose entry is m, leaving the entries after it, or nothing, leaving the queue short by the matches visited |
| CrossLink.FindIndexed | src/DoubleElimination.ts:268 | `find` with `fp[aI++]` in its callback: the same search by index, aI advancing once per visited match |
| CrossLink.CountingSearches | src/DoubleElimination.ts:167-174 | over the queue 1, 2, ..., h both searches find match 1 first; the next shifting search finds nothing and empties the queue; every indexed search from aI >= 1 finds nothing |
| CrossLink.CountdownSearches | src/DoubleElimination.ts:193-209 | over the queue h, ..., 1, h even, the first shifting search finds nothing and empties the queue |
| CrossLink.LoseShifted | src/DoubleElimination.ts:172-173 | one lookup of line 172 and its guarded assignment: the match found, if any, gets the loss pointer; the queue is what the search left |
| CrossLink.RoutePairAsWritten | src/DoubleElimination.ts:171-174 | the two lookups of one losers match, as written |
| CrossLink.RoutePairsAsWritten | src/DoubleElimination.ts:168-175 | the loop over the losers matches, as written: only winners match 1 gets a loss pointer, into losers match 1 |
| CrossLink.LinkPerfectAsWritten | src/DoubleElimination.ts:165-178 | no byes, as written: only first-round match 1 loses, into (loseRound, 1); nothing else changes |
| CrossLink.LoseSecondShifted | src/DoubleElimination.ts:209-220 | one lookup of line 209 and lines 210-220, as written: the match found loses into pre-fill match alt + 1 when x + 1 is a bye route, into losers match x + 1 otherwise |
| CrossLink.LinkSecondRoundAsWritten | src/DoubleElimination.ts:192-225 | small remainder, as written: no lookup finds a match and the arena is unchanged |
| CrossLink.LargeStepAsWritten | src/DoubleElimination.ts:266-277 | one losers match of lbB, as written: the return at line 269 when wA is not found, the guarded wB lookup at line 274 otherwise |
| CrossLink.RouteLargeAsWritten | src/DoubleElimination.ts:266-277 | the loop over lbB, as written: only bye match 1 gets a loss pointer, into lbA match 1 when 1 is an empty match and lbB match 1 otherwise |
| CrossLink.DemandsFirst | src/DoubleElimination.ts:266-277 | the first demand is lbA match 1 when match 1 of the first real round is empty, lbB match 1 otherwise |
| CrossLink.LinkLargeAsWritten | src/DoubleElimination.ts:247-279 | large remainder, as written: only bye match 1 loses, into the first demand; returns the empty matches as `br` |
| CrossLink.CrossLinkSmallAsWritten | src/DoubleElimination.ts:180-245 | small remainder, as written: the bye round loses into the pre-fill round, the first real round keeps no loss pointer, the pre-fill round wins back into the bye routes |
| CrossLink.CrossLinkLargeAsWritten | src/DoubleElimination.ts:247-287 | large remainder, as written: bye match 1 alone loses, and the pre-fill round wins back into the empty matches |
| CrossLink.CrossLinkAsWritten | src/DoubleElimination.ts:159-288 | step 12 as written in the three cases, with the same cursors as the corrected step |
| Finish.FinishCrossLinks | src/DoubleElimination.ts:290-309 | every match of winners rows LinkStart .. winners final loses into losers round DropRow(n, i) at the place fillPattern phase i gives; other rounds are unchanged |
| Final.Highest | src/DoubleElimination.ts:312 | the fold of max over round numbers is at least its start, bounds every round present, and is its start or a present round |
| Final.Advance | src/DoubleElimination.ts:321-323 | a losers match of a round that keeps or halves its size advances to an existing match of the next round |
| Final.LinkForward | src/DoubleElimination.ts:318-324 | the pass for round r: every match whose target exists in round r + 1 gets that win pointer; nothing else changes |
| Final.ForwardLoop | src/DoubleElimination.ts:313-325 | the loop runs the pass over every round from its start, each advancing into round r + 1, and leaves the other rounds alone |
| Final.HighestIsLast | src/DoubleElimination.ts:312 | with every round present, folding from the first round finds the last round |
| Final.FinalPointers | src/DoubleElimination.ts:311-325 | every losers round from the first one that step 14 links up to the last advances each match into an existing match of the next round, at j + 1 for equal sizes and floor(j / 2) + 1 otherwise; other rounds unchanged; returns the last round |
| Final.HighestFromZero | src/DoubleElimination.ts:312 | as written, the fold from 0 over an arena with every round present is the last round when that is 0 or more, and 0 otherwise |
| Final.FinalPointersAsWritten | src/DoubleElimination.ts:311-325 | with maxR folded from 0, the loop runs past the last round to no effect: returns max(0, last round) and leaves the rounds as FinalPointers does |
| Final.Championship | src/DoubleElimination.ts:327-331 | match 1 of round maxR, when it exists, wins into (roundDiff, 1); otherwise nothing changes |
| Final.FoldFromZeroMissesFinal | src/DoubleElimination.ts:312 | as written, folding from 0 when every round is negative yields 0, which is not a round of the arena |
| Final.FoldFromZeroExample | src/DoubleElimination.ts:312 | four players from round -20: the fold from 0 gives 0, the last round is -16 |
| Bracket.Draw | src/DoubleElimination.ts:26-144 | steps 2-10 produce exactly Drawn(players, startingRound) and return roundDiff |
| Bracket.DoubleElimination | src/DoubleElimination.ts:4-334 | corrected (lookups consume the entries they name, maxR folds from the starting round): the returned arena starts at startingRound and is exactly Linked(players, startingRound) |
| Bracket.LinkLadderAsWritten | src/DoubleElimination.ts:311-325 | step 14 with the fold from 0, on the arena as written: links the ladder as the corrected step does, keeps every earlier round as written, and returns max(0, last round) |
| Bracket.LinkChampionAsWritten | src/DoubleElimination.ts:327-331 | step 15 with that maxR: the losers final wins into (roundDiff, 1) when the last round is 0 or more; otherwise no match has round 0, nothing changes, and the arena is Written |
| Bracket.DoubleEliminationAsWritten | src/DoubleElimination.ts:4-334 | the source as written: step 12 consuming one queue entry per visited match and maxR folding from 0; the returned arena starts at startingRound and is exactly Written(players, startingRound) |
| Outcome.LinkedLayout | src/DoubleElimination.ts:40-144 | the rounds run from startingRound without a gap, round startingRound + i holding RoundSizes(N)[i] matches |
| Outcome.AllResolved | src/DoubleElimination.ts:55-331 | corrected arena: no dangling pointers, every win and loss names an existing match |
| Outcome.WrittenResolved | src/DoubleElimination.ts:55-331 | the arena as written has no dangling pointers either |
| Outcome.WrittenPointers | src/DoubleElimination.ts:159-331 | as written, a winners match has no loss pointer exactly when Missed names it, the losers final has no win pointer exactly when the last round is negative, and every pointer and seat present is the corrected one |
| Outcome.PerfectExample | src/DoubleElimination.ts:172 | four players from round 1: as written, winners match (1, 2) has no loss pointer; corrected, it loses into (4, 1) |
| Outcome.SmallExample | src/DoubleElimination.ts:209 | five players: as written, no match of the first real round has a loss pointer; corrected, each has one |
| Outcome.LargeExample | src/DoubleElimination.ts:268 | seven players: as written, bye matches 2 and 3 have no loss pointer; corrected, each has one |
| Outcome.FoldExample | src/DoubleElimination.ts:312 | four players from round -20: as written, the losers final (-16, 1) has no win pointer; corrected, it wins into (-18, 1) |
| Outcome.FirstRoundSeats | src/DoubleElimination.ts:68-101 | first-round match k + 1 seats seeds bracket[2k] and bracket[2k + 1], null where the seed was displaced; exactly `remainder` seats are null |
| Outcome.ByeAt | src/DoubleElimination.ts:77-102 | bye match j + 1 plays the j-th displaced seed against seed 2^ceilExp + 1 - seed, a real player beyond 2^floorExp, and wins into the first-round match the seed left, whose seat is null |
| Outcome.ByePlayersDistinct | src/DoubleElimination.ts:87-100 | with distinct players no player appears in two bye matches |
| Outcome.ByeForEveryDisplaced | src/DoubleElimination.ts:77-102 | every displaced seed has a bye match that wins into its old match |
| Outcome.KeepsDrawn | src/DoubleElimination.ts:159-331 | cross-linking changes only pointers: seats stay as drawn, and so do the win pointers up to the grand final |
| Outcome.WinnersAdvance | src/DoubleElimination.ts:55-60 | winners match j + 1 wins into match ceil((j + 1) / 2) of the next round; the winners final into (roundDiff, 1) |
| Outcome.LosersAdvance | src/DoubleElimination.ts:318-324 | ladder match j + 1 wins into match j + 1 or floor(j / 2) + 1 of the next round, which exists |
| Outcome.LosersFinal | src/DoubleElimination.ts:327-331 | in Linked, the corrected arena, the last round is a single losers match that wins into (roundDiff, 1) |
| Outcome.GrandFinalBlank | src/DoubleElimination.ts:104-111 | the grand-final slot is one blank match with no pointers |
| Outcome.DropsSpread | src/DoubleElimination.ts:290-309 | from LinkStart on, winners round i drops into one losers round of its own size, distinct losers into distinct matches (both directions) |
| Outcome.LossesIntoLosers | src/DoubleElimination.ts:159-309 | corrected arena: every winners match has a loss pointer, into a round after the grand-final slot (as written this fails, see Outcome.WrittenPointers) |

## Left out

- Shuffling (line 14) is randomness. The model takes the player array as given, which is the `ordered = true` path.
- The count path (line 16) builds the array 1 .. N. The model takes an array; `Seeding.Numbered` and `Seeding.NumberedDistinct` show that array qualifies.
- `Math.log2`, `Math.floor` and `Math.ceil` on floating point are replaced by exact integer logarithms.
- Fewer than four players: the model requires N >= 4. For N of 2 or 3 the source's losers ladder starts at a negative exponent.
- Bracket.DoubleElimination: models the corrected reading of lines 172, 209, 268, 273 and 312 (see "## Findings"). Bracket.DoubleEliminationAsWritten models the source as written there, and its arena is Bracket.Written.
- CrossLink.CrossLink: each lookup of step 12 consumes exactly the entries it names, unlike lines 172, 209, 268 and 273. CrossLink.CrossLinkAsWritten models those lines as written.
- CrossLink.LinkPerfect, CrossLink.LinkSecondRound, CrossLink.LinkLarge, CrossLink.RoutePair, CrossLink.RouteSecondRoundLoser and CrossLink.RouteLargeLoser: corrected reading of lines 172, 209, 268 and 273; their as-written counterparts are the `AsWritten` members and `CrossLink.FindShift`/`CrossLink.FindIndexed`.
- Outcome.AllResolved: stated of the corrected arena Linked. For the arena as written, Outcome.WrittenResolved states the same.
- Outcome.LossesIntoLosers: stated of the corrected arena Linked. As written it fails, and Outcome.WrittenPointers states exactly which winners matches lack a loss pointer.
- Bracket.DoubleElimination, Bracket.DoubleEliminationAsWritten and Seeding.FeedByes: require distinct players. With duplicates, `indexOf` finds the first copy, and that path is not modelled.
- Match records are JS objects found by `filter`/`find` on their `round` and `match` fields. The model addresses them by position in the arena, which is the same under the contiguous numbering it proves.
- `Set` insertion order (`byeRoutes`) is modelled as the ascending list of routes, which is the order the source inserts them.
- Seeding.SeedMainRound: requires the bracket to have two entries per match. Reading past the end of `bracket` (undefined in JS) is not modelled; the seed order always has exactly that many entries.
- `src/Match.js` and `src/Shuffle.js` are not part of this model.

## Findings

| source | as written | input that shows it | evidently intended | confidence | as-written member | corrected member |
|---|---|---|---|---|---|---|
| src/DoubleElimination.ts:172 | `wb.find(wm => wm.match === fp.shift())`, with `fp.shift()` at lines 172 and 209 and `fp[aI++]` at lines 268 and 273, advances the queue once for every match `find` visits, not once per lookup | four players from round 1: the queue is 1, 2. The first lookup visits match 1, shifts 1 and finds it. The second compares match 1 with the entry 2 and match 2 with the now empty queue (`undefined`), and finds nothing, so winners match (1, 2) never gets a loss pointer. Five players: the queue 2, 1 meets match 1 with 2 and match 2 with 1, so no match of the first real round gets one. Seven players: only bye match 1 gets one | each lookup takes the next entry and finds the match it names, so every winners match loses into the losers bracket | not executed; high, the losers of those matches are dropped from the bracket | CrossLink.CrossLinkAsWritten, Bracket.DoubleEliminationAsWritten, Outcome.WrittenPointers, Outcome.PerfectExample, Outcome.SmallExample, Outcome.LargeExample | CrossLink.CrossLink, Bracket.DoubleElimination, Outcome.LossesIntoLosers |
| src/DoubleElimination.ts:312 | `maxR` folds `Math.max` over the rounds starting from 0 | four players with startingRound = -20: rounds -20 .. -16 exist and roundDiff is -18. The fold gives 0. Step 14's loop still links the ladder: it runs while r < 0, and the passes past round -16 find no next round. Step 15 then looks for round 0, finds no match, and the losers final (-16, 1) keeps no win pointer | maxR is the last round, -16, and the losers final wins into the grand-final slot (-18, 1) | not executed; low, negative starting rounds are unusual | Final.FoldFromZeroMissesFinal, Bracket.DoubleEliminationAsWritten, Outcome.FoldExample | Final.HighestIsLast, Final.FinalPointers, Bracket.DoubleElimination |
