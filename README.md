# Mahjong scoring game: verified model of the core

This project models the rule core of a small mahjong-flavoured round-based
scoring game written in Rust on the Bevy engine, and proves properties of
that model in Dafny. Five pieces are covered.

- **Tiles** (`tiles.dfy`, module `Tiles`). The five suits and the tile
  identities. The bijection between valid identities and the 34 slots of a
  count array. The honor, simple and terminal tests. The (suit, value)
  order. The deterministic 136-tile set.
- **Hand evaluator** (`melds.dfy`, `scoring.dfy`, modules `Melds` and
  `Scoring`).
  - Building the 34-slot count array.
  - The in-place backtracking meld search `remove_melds`. It is proved
    equivalent to a declarative "splits into triplets and in-suit runs".
  - `check_standard`.
  - The eight pattern tests.
  - The first-match-wins priority chain of `evaluate_hand` with its result
    record.
- **Unit tests** (`scoring_tests.dfy`, module `ScoringTests`). Each unit
  test of the evaluator is stated as a lemma over every hand with the test's
  count array.
- **Round state** (`rounds.dfy`, module `Rounds`).
  - The three-step blind cycle and level progression.
  - The `GameState` record, as a class whose methods update its fields.
  - Pure transition functions that carry the lemmas.
- **Tile flow** (`piles.dfy`, `flow.dfy`, modules `Piles` and `Flow`).
  - The wall, hand and board handle sequences.
  - Play and discard, replacement draws, and the phase check for scoring.
  - Scoring and the round result.
  - Spawning and cleanup.

  `Piles` states these steps on values (`Layout`) and proves conservation
  and placement. The `Flow.Table` class performs them in place with loops
  that mirror `retain`, `push` and `pop`, and its methods are proved against
  the `Piles` functions.

Modelling conventions:
- Entities are abstract `Handle`s (natural numbers).
- The `TileSelected` marker is a set of handles, and the `Visibility::Hidden`
  set by a discard or a passed round is a `discarded` set.
- The `Tile` component of spawned entities is a map from handle to `Tile`.
- The shuffle is a parameter: any sequence that is a permutation of the full
  set.
- Counts are unbounded naturals.

Where the code and the documented design differ, the model follows the
code, and two places are worth noting.

- **The board is not capped at 14.** The design says the board never
  holds more than 14 tiles. The code does not cap it, and a play from 13
  tiles with two or more selected overshoots. `Piles.PlayOverfills` proves
  this.
- **Nothing moves the game from Scoring to RoundResult.** The design
  has scoring move on to the round result. In the code, `calculate_score`
  only triggers a `RoundEndedEvent`, and no observer of it exists in the
  source files. So `Flow.Table.CalculateScore` changes no phase, and
  `Flow.Table.EvaluateRoundResult` is a separately callable entry action.

## Model

Definitions whose properties live in lemmas are listed with a pointer to
those lemmas. Helper predicates and functions not listed (such as
`Melds.Sum`, `Piles.Min` or `Scoring.TanyaoCounts`) exist only to state
those lemmas, and lemmas not listed are proof steps of the listed ones.

| member | source | states |
|---|---|---|
| Tiles.ToIndex | src/components/tile.rs:68-76 | every valid identity maps to a slot below 34 |
| Tiles.FromIndex | src/components/tile.rs:79-88 | only slots below 34 are accepted; the identity returned is valid and maps back to the same slot |
| Tiles.IsHonor | src/components/tile.rs:55-57 | definition: a wind or dragon; its properties are in ClassificationPartition and HonorIndex |
| Tiles.IsSimple | src/components/tile.rs:59-61 | definition: a numbered tile of value 2 to 8; its properties are in ClassificationPartition |
| Tiles.IsTerminal | src/components/tile.rs:63-65 | definition: a numbered tile of value 1 or 9; its properties are in ClassificationPartition |
| Tiles.FromIndexToIndex | src/components/tile.rs:68-88 | from_index(to_index(t)) == t for every valid identity |
| Tiles.ToIndexInjective | src/components/tile.rs:68-76 | two valid identities share a slot if and only if they are equal |
| Tiles.ClassificationPartition | src/components/tile.rs:55-65 | every valid identity is exactly one of honor, simple and terminal |
| Tiles.HonorIndex | src/components/tile.rs:55-57 | honors are exactly the identities in slots 27-33 |
| Tiles.NumberedIndex | src/components/tile.rs:68-73 | a numbered identity sits in band suit-rank × 9, at offset value − 1 |
| Tiles.Compare | src/components/tile.rs:97-101 | definition: suit rank first, then value; its properties are in CompareAntisymmetric, CompareEqualIff, CompareTransitive and CompareIsIndexOrder |
| Tiles.CompareAntisymmetric | src/components/tile.rs:97-101 | swapping the operands flips the ordering |
| Tiles.CompareEqualIff | src/components/tile.rs:97-101 | the ordering is Equal exactly on equal identities |
| Tiles.CompareTransitive | src/components/tile.rs:97-101 | Less is transitive, so the lexicographic (suit, value) order is a total order |
| Tiles.CompareIsIndexOrder | src/components/tile.rs:3-10 | on valid identities the order is the order of their count-array slots (Man < Pin < Sou < Wind < Dragon, then value) |
| Tiles.FullSet | src/components/tile.rs:110-142 | the full set holds 136 tiles |
| Tiles.Ids | src/components/tile.rs:103-107 | the identities of a tile sequence, one per tile and in order; FullSetIdentityCount counts them |
| Tiles.PushCopies | src/components/tile.rs:115-120 | the four copies of an identity extend the set built so far by the next four positions |
| Tiles.GenerateFullSet | src/components/tile.rs:110-142 | the nested loops yield exactly the full set: 136 tiles, position k has identity slot k/4 and copy index k%4 |
| Tiles.FullSetIdentityCount | src/components/tile.rs:113-140 | every valid identity occurs exactly four times |
| Tiles.FullSetMembers | src/components/tile.rs:113-140 | a tile is in the set exactly when its identity is valid and its copy index is 0-3 |
| Tiles.FullSetDistinct | src/components/tile.rs:110-142 | no physical tile occurs twice |
| Melds.SumFromUpdate | src/plugins/scoring.rs:67-116 | changing one slot changes a suffix sum by the difference |
| Melds.SumFromSame | src/plugins/scoring.rs:67-116 | arrays that agree on a suffix have the same suffix sum |
| Melds.SumUpdate | src/plugins/scoring.rs:67-116 | changing one slot changes the total by the difference |
| Melds.SumFromZero | src/plugins/scoring.rs:69-72 | a suffix sums to zero if and only if every slot of it is zero |
| Melds.SumZeroIff | src/plugins/scoring.rs:69-72 | the counts sum to zero if and only if all slots are zero |
| Melds.Counts | src/plugins/scoring.rs:40-46 | one slot per identity, each holding the tile count of that identity; its properties are in CountsSnoc, CountsSum, CountsPermutation and BuildCountArray |
| Melds.CountsSnoc | src/plugins/scoring.rs:42-44 | adding a tile increments its own slot and no other |
| Melds.CountsSum | src/plugins/scoring.rs:40-46 | the counts add up to the number of tiles |
| Melds.CountsPermutation | src/plugins/scoring.rs:40-46 | the counts depend only on the multiset of tiles |
| Melds.BuildCountArray | src/plugins/scoring.rs:40-46 | the increment loop yields a fresh array whose slot i holds the number of tiles of identity i |
| Melds.RunStaysInSuit | src/plugins/scoring.rs:83-100 | a run never crosses a suit boundary and never touches an honor |
| Melds.FirstNonZero | src/plugins/scoring.rs:69-72 | the position found is the first nonzero slot, or the end when all are zero |
| Melds.RemoveTriplet | src/plugins/scoring.rs:75-76 | taking a triplet removes three tiles |
| Melds.RemoveRun | src/plugins/scoring.rs:101-104 | taking a run removes exactly one tile from each of its three slots |
| Melds.RunRestore | src/plugins/scoring.rs:108-110 | putting a run back restores the counts |
| Melds.CanRemoveMelds | src/plugins/scoring.rs:67-116 | definition of the backtracking search on values (a triplet first, then a run); its properties are in SearchStep and SearchCorrect, and RemoveMelds computes it |
| Melds.SearchStep | src/plugins/scoring.rs:67-116 | the search succeeds exactly when the counts are empty, or the first non-empty slot starts a triplet or a run whose removal leaves a removable rest |
| Melds.CoverCons | src/plugins/scoring.rs:67-116 | the slot coverage of a meld list adds up meld by meld |
| Melds.SearchSound | src/plugins/scoring.rs:67-116 | a successful search yields melds that split the counts |
| Melds.CoveringMeld | src/plugins/scoring.rs:67-116 | any covered slot is covered by some meld of the list |
| Melds.CoverRemove | src/plugins/scoring.rs:67-116 | taking a meld out of the list takes its tiles out of every slot |
| Melds.SearchComplete | src/plugins/scoring.rs:67-116 | whenever the counts split into triplets and in-suit runs, the search that always tries the first nonzero slot finds a split |
| Melds.SearchCorrect | src/plugins/scoring.rs:65-116 | remove_melds succeeds if and only if the counts split into triplets and in-suit runs (all-zero counts included) |
| Melds.RemoveMelds | src/plugins/scoring.rs:67-116 | the in-place search returns the declarative verdict; on success the array is all zeros, on failure it is restored exactly |
| Melds.TryTriplet | src/plugins/scoring.rs:74-81 | the triplet branch succeeds exactly when three are there and the rest clears, and it undoes itself otherwise |
| Melds.TakeRun | src/plugins/scoring.rs:101-104 | the three decrements are a run removal |
| Melds.PutRun | src/plugins/scoring.rs:108-110 | the three increments restore the counts from before the removal |
| Melds.TryRun | src/plugins/scoring.rs:83-113 | the run branch succeeds exactly when a run may start here and the rest clears, and it undoes itself otherwise |
| Melds.StandardCorrect | src/plugins/scoring.rs:48-63 | check_standard is true if and only if one pair plus triplets and in-suit runs use every tile |
| Melds.StandardSize | src/plugins/scoring.rs:48-63 | a standard hand holds 3n + 2 tiles |
| Melds.MeldsSize | src/plugins/scoring.rs:65-66 | n melds hold 3n tiles |
| Melds.IsStandard | src/plugins/scoring.rs:50-63 | definition: some slot holds a pair after which the rest splits into melds; its properties are in StandardCorrect and StandardSize, and CheckStandard computes it |
| Melds.TryPair | src/plugins/scoring.rs:53-60 | one pass of the loop, on a copy: the verdict for a pair at that slot, with the input left alone |
| Melds.CheckStandard | src/plugins/scoring.rs:50-63 | the loop returns the standard verdict and does not modify its input (no modifies clause) |
| Scoring.NameInjective | src/plugins/scoring.rs:235-335 | distinct patterns show distinct names |
| Scoring.Name | src/plugins/scoring.rs:235-335 | definition: the pattern names of the source; NameInjective states that no two patterns share one |
| Scoring.Multiplier | src/plugins/scoring.rs:235-335 | definition: the multiplier of each pattern (13, 8, 5, 4, 4, 3, 2, 1, 1, 1); its properties are in PriorityOrdersMultiplier and EvaluateShape |
| Scoring.Total | src/plugins/scoring.rs:34-36 | definition: base times multiplier; its properties are in EvaluateShape |
| Scoring.IsSevenPairs | src/plugins/scoring.rs:119-123 | definition: fourteen tiles in seven slots of exactly two; its properties are in EvaluateFirstMatch and SevenPairsTest |
| Scoring.OrphanSlotTiles | src/plugins/scoring.rs:125-134 | the thirteen orphan slots hold exactly the terminals and honors |
| Scoring.NonOrphanSumZero | src/plugins/scoring.rs:147-152 | the non-orphan sum is zero if and only if no tile lies outside the orphan slots |
| Scoring.IsThirteenOrphans | src/plugins/scoring.rs:127-153 | definition: fourteen tiles, every terminal and honour slot filled, exactly one of them doubled, nothing else; its properties are in OrphanSlotTiles, NonOrphanSumZero and ThirteenOrphansTest |
| Scoring.IsPinfu | src/plugins/scoring.rs:162-170 | definition: a standard hand with no slot of three or more; CheckPinfu computes it |
| Scoring.IsStraight | src/plugins/scoring.rs:173-182 | definition: some numbered suit holds each of its values 1 to 9; its properties are in EvaluateFirstMatch |
| Scoring.IsToitoi | src/plugins/scoring.rs:185-202 | definition: some pair after which every other slot is empty or a triplet; CheckToitoi computes it |
| Scoring.IsTanyao | src/plugins/scoring.rs:156-158 | definition: every tile is a simple; its properties are in TanyaoByCounts |
| Scoring.IsHonitsu | src/plugins/scoring.rs:205-220 | definition: some honour and exactly one numbered suit; its properties are in HonitsuToCounts, HonitsuFromCounts and HonitsuByCounts |
| Scoring.IsChinitsu | src/plugins/scoring.rs:223-232 | definition: a non-empty hand of one numbered suit only; its properties are in ChinitsuToCounts, ChinitsuFromCounts and ChinitsuByCounts |
| Scoring.SlotOccupied | src/plugins/scoring.rs:40-46 | a slot is occupied if and only if some tile of the hand has that index |
| Scoring.SlotBand | src/components/tile.rs:55-76 | honors lie at 27 and above, a numbered identity lies in its suit's 9-wide band, and simples are exactly the simple slots |
| Scoring.TanyaoByCounts | src/plugins/scoring.rs:155-158 | check_tanyao holds if and only if only simple slots are occupied |
| Scoring.HasHonorByCounts | src/plugins/scoring.rs:206 | the hand has an honor if and only if some slot 27-33 is occupied |
| Scoring.ChinitsuToCounts | src/plugins/scoring.rs:222-232 | a chinitsu hand occupies one numbered band only, and that band is nonempty |
| Scoring.ChinitsuFromCounts | src/plugins/scoring.rs:222-232 | counts in one numbered band only make the hand chinitsu |
| Scoring.ChinitsuByCounts | src/plugins/scoring.rs:222-232 | check_chinitsu holds if and only if its count form holds |
| Scoring.NumberedSuitsMembers | src/plugins/scoring.rs:210-214 | the suits collected are exactly those of the non-honor tiles |
| Scoring.HonitsuToCounts | src/plugins/scoring.rs:204-220 | an honitsu hand has an honor and occupies exactly one numbered band |
| Scoring.InBand | src/plugins/scoring.rs:218-219 | with one numbered band occupied, every numbered tile lies in it |
| Scoring.SomeNumbered | src/plugins/scoring.rs:215-217 | an occupied numbered slot means the suit list is not empty |
| Scoring.HonitsuFromCounts | src/plugins/scoring.rs:204-220 | an honor plus a single occupied numbered band make the hand honitsu |
| Scoring.HonitsuByCounts | src/plugins/scoring.rs:204-220 | check_honitsu holds if and only if its count form holds |
| Scoring.EvaluateByCounts | src/plugins/scoring.rs:244-334 | for a nonempty hand, the evaluation is a function of the count array alone |
| Scoring.Rank | src/plugins/scoring.rs:244-334 | definition: the first of the patterns, in the order of the source, that the hand qualifies for; its properties are in RankFirstMatch and RankShape |
| Scoring.Evaluate | src/plugins/scoring.rs:235-335 | definition of evaluate_hand on values; its properties are in EvaluateShape, EvaluateFirstMatch, EvaluateBest, EvaluateWinIff and EvaluatePermutation, and EvaluateHand computes it |
| Scoring.EvaluatePermutation | src/plugins/scoring.rs:235-335 | reordering a hand does not change its evaluation |
| Scoring.PriorityOrdersMultiplier | src/plugins/scoring.rs:247-327 | the chain tries patterns from the highest multiplier down (13, 8, 5, 4, 4, 3, 2, 1, 1) |
| Scoring.RankFirstMatch | src/plugins/scoring.rs:247-334 | the chain reports a pattern whose test passes, and none that passes comes earlier; it reports the consolation result exactly when no test passes |
| Scoring.RankShape | src/plugins/scoring.rs:247-334 | the chain yields a win at base 10 with that pattern's multiplier, or the consolation result (base = tile count, ×1) |
| Scoring.EvaluateShape | src/plugins/scoring.rs:235-335 | the empty hand gives NoHand 0×1 and only it does; the consolation result is (tile count)×1; a win is 10 × its multiplier |
| Scoring.EvaluateFirstMatch | src/plugins/scoring.rs:244-334 | first match wins: a nonempty hand reports a pattern it qualifies for, none of higher priority qualifies, and the consolation result comes exactly when it qualifies for none |
| Scoring.EvaluateBest | src/plugins/scoring.rs:247-327 | the reported multiplier is at least that of every pattern the hand qualifies for |
| Scoring.EvaluateWinIff | src/plugins/scoring.rs:235-335 | a hand wins if and only if it is nonempty and is one pair plus melds, seven pairs or the thirteen orphans |
| Scoring.CheckToitoi | src/plugins/scoring.rs:184-202 | the loop returns check_toitoi: a standard hand where some pair leaves only triplets and empty slots |
| Scoring.CheckPinfu | src/plugins/scoring.rs:160-170 | returns check_pinfu: a standard hand with no slot of three or more |
| Scoring.EvaluateHand | src/plugins/scoring.rs:235-335 | computing counts and tests with the loop methods returns exactly the evaluation |
| ScoringTests.EvaluateAs | src/plugins/scoring.rs:244-334 | a 14-tile hand evaluates to whatever its count array ranks as |
| ScoringTests.StandardWitness | src/plugins/scoring.rs:50-63 | a pair and a meld list covering the rest make the hand standard |
| ScoringTests.Cover4 | src/plugins/scoring.rs:67-116 | four melds cover a slot as their coverings add up |
| ScoringTests.SevenPairsSuits | src/plugins/scoring.rs:441-456 | the seven-pairs hand is neither thirteen orphans, nor one suit, nor honours with one suit |
| ScoringTests.SevenPairsPairs | src/plugins/scoring.rs:441-456 | the seven-pairs hand has seven pairs |
| ScoringTests.ThirteenOrphansPair | src/plugins/scoring.rs:458-479 | the thirteen-orphans hand has exactly one doubled terminal or honour |
| ScoringTests.ThirteenOrphansRest | src/plugins/scoring.rs:458-479 | the thirteen-orphans hand fills every terminal and honour slot and nothing else |
| ScoringTests.ChinitsuSuit | src/plugins/scoring.rs:481-501 | the one-suit hand is in one numbered suit and is not thirteen orphans |
| ScoringTests.ToitoiShape | src/plugins/scoring.rs:503-517 | the all-triplets hand matches none of the higher patterns |
| ScoringTests.TanyaoSuits | src/plugins/scoring.rs:543-558 | the all-simples hand is not thirteen orphans, one suit or honours with one suit |
| ScoringTests.TanyaoShape | src/plugins/scoring.rs:543-558 | the all-simples hand has no straight and is all simples |
| ScoringTests.TanyaoPairs | src/plugins/scoring.rs:543-558 | the all-simples hand is not seven pairs |
| ScoringTests.TanyaoNoTriplets | src/plugins/scoring.rs:543-558 | the all-simples hand is not all triplets for any choice of pair |
| ScoringTests.StandardWinRuns | src/plugins/scoring.rs:424-439 | the plain winning hand has no straight, is not all simples and has no slot of three |
| ScoringTests.StandardWinShape | src/plugins/scoring.rs:424-439 | the plain winning hand matches none of the patterns above all triplets |
| ScoringTests.StandardWinNoTriplets | src/plugins/scoring.rs:424-439 | the plain winning hand is not all triplets for any choice of pair |
| ScoringTests.SevenPairsRanked | src/plugins/scoring.rs:442-456 | the test's count array ranks as seven pairs |
| ScoringTests.SevenPairsTest | src/plugins/scoring.rs:441-456 | test_seven_pairs: every hand with these counts gives 七对子 at 10 × 4 |
| ScoringTests.ThirteenOrphansRanked | src/plugins/scoring.rs:459-479 | the test's count array ranks as thirteen orphans |
| ScoringTests.ThirteenOrphansTest | src/plugins/scoring.rs:458-479 | test_thirteen_orphans: 国士无双 at 10 × 13 |
| ScoringTests.ChinitsuStandard | src/plugins/scoring.rs:483-496 | the chinitsu hand is one pair plus four runs |
| ScoringTests.ChinitsuRanked | src/plugins/scoring.rs:482-501 | the test's count array ranks as chinitsu |
| ScoringTests.ChinitsuTest | src/plugins/scoring.rs:481-501 | test_chinitsu: 清一色 at 10 × 8 |
| ScoringTests.ToitoiStandard | src/plugins/scoring.rs:505-512 | the toitoi hand is one pair plus four triplets |
| ScoringTests.ToitoiRanked | src/plugins/scoring.rs:504-517 | the test's count array ranks as toitoi |
| ScoringTests.ToitoiTest | src/plugins/scoring.rs:503-517 | test_toitoi: 对对和 at 10 × 4 |
| ScoringTests.NoPatternRanked | src/plugins/scoring.rs:520-541 | the test's count array ranks as the consolation result with base 14 |
| ScoringTests.NoPatternTest | src/plugins/scoring.rs:519-541 | test_no_pattern: 未和牌, base 14 × 1 |
| ScoringTests.TanyaoStandard | src/plugins/scoring.rs:545-553 | the tanyao hand is one pair plus four runs |
| ScoringTests.TanyaoRanked | src/plugins/scoring.rs:544-558 | the test's count array ranks as tanyao |
| ScoringTests.TanyaoTest | src/plugins/scoring.rs:543-558 | test_tanyao: 断幺九 at 10 × 2 |
| ScoringTests.StandardWinStandard | src/plugins/scoring.rs:428-435 | the two-suit hand is one pair plus four runs |
| ScoringTests.StandardWinRanked | src/plugins/scoring.rs:425-439 | the test's count array ranks as pinfu |
| ScoringTests.StandardWinTest | src/plugins/scoring.rs:424-439 | test_standard_win_simple: a winning hand (平和, 10 × 1), so the multiplier is at least 1 |
| Rounds.NextNoneIff | src/resources.rs:27-33 | next is None exactly for the Boss |
| Rounds.NextDoublesTarget | src/resources.rs:19-33 | each next sub-round has twice the target factor (100, 200, 400) |
| Rounds.TargetMultiplier | src/resources.rs:19-25 | definition: 100, 200 and 400 for the three sub-rounds; its properties are in NextDoublesTarget and NextLevelTarget |
| Rounds.Next | src/resources.rs:27-33 | definition: small to big to boss and then none; its properties are in NextNoneIff and NextDoublesTarget |
| Rounds.DefaultIsReset | src/resources.rs:49-63 | the default state is already the reset state of level 1, small blind |
| Rounds.DefaultState | src/resources.rs:49-63 | definition of the default state; DefaultIsReset states that it is the reset of any state at level 1 |
| Rounds.Reset | src/resources.rs:70-76 | definition of reset_for_sub_round on values; its properties are in ResetFacts and ResetIdempotent |
| Rounds.Advance | src/resources.rs:78-88 | definition of advance_sub_round on values; its properties are in AdvanceFacts, AdvanceThrice, NextLevelTarget and AdvanceResetCurrent |
| Rounds.ResetFacts | src/resources.rs:70-76 | reset sets full budgets of 4, score 0, multiplier 1 and the current target, and keeps level, sub-round, base and hand size |
| Rounds.ResetIdempotent | src/resources.rs:70-76 | resetting twice is resetting once |
| Rounds.AdvanceFacts | src/resources.rs:78-88 | only the sub-round and level move; the level grows by one exactly on the Boss step and never decreases |
| Rounds.AdvanceThrice | src/resources.rs:27-33 | three advances return to the same sub-round one level higher |
| Rounds.NextLevelTarget | src/resources.rs:19-25 | from a small blind, three advances and a reset give the next level's small blind with target 100 × level |
| Rounds.AdvanceResetCurrent | src/resources.rs:70-88 | advancing and resetting leaves the target current |
| Rounds.GameState.constructor | src/resources.rs:49-63 | the default values: level 1, small blind, 4 plays, 4 discards, target 100, score 0, base 10, multiplier 1, hand size 14 |
| Rounds.GameState.ResetForNewGame | src/resources.rs:66-68 | the state equals the default |
| Rounds.GameState.ResetForSubRound | src/resources.rs:70-76 | the new state is the reset of the old one |
| Rounds.GameState.AdvanceSubRound | src/resources.rs:78-88 | returns true, and the new state is the advance of the old one |
| Piles.FilterMembers | src/plugins/board.rs:38-43 | exactly the selected hand handles are collected |
| Piles.Filter | src/plugins/board.rs:38-43 | the hand handles that are selected, in hand order; its properties are in FilterMembers and FilterRejectSplit |
| Piles.Reject | src/plugins/board.rs:51 | the handles that are not dropped, in their order (retain); its properties are in RejectMembers, RejectAgain, RejectNothing, RejectCongruent and RejectFiltered |
| Piles.RejectMembers | src/plugins/board.rs:51 | exactly the unselected handles are retained |
| Piles.FilterRejectSplit | src/plugins/board.rs:38-54 | the collected and the retained handles together are the hand, as a multiset |
| Piles.RejectAgain | src/plugins/board.rs:50-51 | retaining all but one more handle composes with the previous retains |
| Piles.RejectStep | src/plugins/board.rs:92-98 | hiding one more moved handle drops it from the hand, on top of the ones already hidden |
| Piles.RejectNothing | src/plugins/board.rs:51 | retaining with nothing to drop keeps the sequence |
| Piles.RejectCongruent | src/plugins/board.rs:51 | only the members of the sequence matter to what is retained |
| Piles.RejectFiltered | src/plugins/board.rs:38-54 | retaining all but the collected handles is retaining all but the selected ones |
| Piles.DrawnAt | src/plugins/board.rs:57-62 | the i-th handle drawn is the i-th from the end of the wall (pop order) |
| Piles.Drawn | src/plugins/board.rs:57-62 | the handles popped off the end of the wall, last first; its properties are in DrawnAt and DrawnSplit |
| Piles.PrefixSnoc | src/plugins/board.rs:57-62 | extending a prefix by one handle adds that handle to its multiset |
| Piles.DrawnSplit | src/plugins/board.rs:57-62 | the wall left and the handles drawn together are the old wall, as a multiset |
| Piles.Present | src/plugins/scoring.rs:347-352 | the components that the handles carry, in handle order; its properties are in PresentAppend, PresentPermutation and PresentAll |
| Piles.PresentAppend | src/plugins/scoring.rs:347-352 | the components of a concatenation are those of its parts |
| Piles.RemoveMatched | src/plugins/tile.rs:53-99 | removing one occurrence of the same handle from two permutations leaves two permutations |
| Piles.PresentAround | src/plugins/tile.rs:53-99 | the components of a sequence are those without position j plus that of position j, as multisets |
| Piles.PresentPermutation | src/plugins/tile.rs:53-99 | permuting the handles permutes their components |
| Piles.PresentAll | src/plugins/scoring.rs:347-352 | when every handle carries a component, there is one per handle, in order |
| Piles.SaturatingDec | src/plugins/board.rs:64 | one less, but never below zero |
| Piles.Play | src/plugins/board.rs:24-65 | definition of on_play_tiles on the three sequences; its properties are in PlayConserves, PlayOutcome, PlaySizes, PlayMembers and PlayOverfills |
| Piles.Discard | src/plugins/board.rs:68-109 | definition of on_discard_tiles on the three sequences; its properties are in DiscardRemoves and DiscardOutcome |
| Piles.Regroup | src/plugins/board.rs:50-62 | splitting wall and hand and regrouping them keeps the multiset, or loses exactly the moved handles |
| Piles.PlayConserves | src/plugins/board.rs:50-62 | play keeps the combined multiset of wall, hand and board |
| Piles.DiscardRemoves | src/plugins/board.rs:92-106 | discard removes exactly the selected hand tiles from the combined multiset |
| Piles.PlayOutcome | src/plugins/board.rs:50-62 | moving the tiles one by one and then drawing is a play, and conserves the handles |
| Piles.DiscardOutcome | src/plugins/board.rs:92-106 | hiding the tiles one by one and then drawing is a discard, and the table gains no handle (DiscardRemoves states exactly what is lost) |
| Piles.DistinctSub | src/plugins/board.rs:50-62 | a sub-multiset of a duplicate-free sequence is duplicate-free |
| Piles.StepsKeepDistinct | src/plugins/board.rs:24-109 | neither play nor discard can put a handle in two places |
| Piles.PlaySizes | src/plugins/board.rs:50-62 | the board grows by k, the wall shrinks by min(k, wall), and the hand keeps its size while the wall lasts |
| Piles.PlayMembers | src/plugins/board.rs:38-62 | after a play, the board gains exactly the selected hand tiles, the hand keeps its unselected tiles plus the drawn ones, and the wall only loses handles |
| Piles.PlayOverfills | src/plugins/board.rs:50-54 | play does not cap the board: from 13 tiles with two selected, it exceeds 14 |
| Flow.FreshDistinct | src/plugins/tile.rs:60-91 | freshly spawned entities are distinct |
| Flow.Fresh | src/plugins/tile.rs:60-91 | the handles the allocator hands out for the wall, one per tile in allocation order; FreshDistinct states that they are distinct |
| Flow.PresentIds | src/plugins/scoring.rs:347-352 | the identities of the handles that carry a Tile, in order; its properties are in PresentIdsFacts |
| Flow.PresentIdsFacts | src/plugins/scoring.rs:347-352 | when every board handle has a Tile, nothing is skipped and the identities come in board order; valid tiles give valid identities |
| Flow.HandSize | src/plugins/tile.rs:50 | definition: the hand size of GameState, or 8 without one (the default of spawn_tiles) |
| Flow.AddTiles | src/plugins/tile.rs:60-91 | definition: the Tile component of each new handle; its properties are in AddTilesFacts |
| Flow.AddTilesFacts | src/plugins/tile.rs:60-91 | spawning adds exactly the new handles, each carrying its tile, and leaves older entities alone |
| Flow.SpawnedValid | src/plugins/tile.rs:53-91 | spawning a permutation of the full set leaves every entity a valid tile |
| Flow.DealValid | src/plugins/tile.rs:53-99 | after spawning and dealing, wall and hand hold all spawned handles without duplicates, and every one is a known tile |
| Flow.SpawnedInOrder | src/plugins/tile.rs:60-91 | reading the fresh handles back gives the shuffled tiles in spawn order |
| Flow.DealtSplit | src/plugins/tile.rs:93-99 | after the deal, wall and hand together hold the spawned handles |
| Flow.SpawnedPermutation | src/plugins/tile.rs:53-99 | after spawning and dealing, the tiles of wall and hand together are the shuffled tiles rearranged, hence a permutation of the full set |
| Flow.Table.constructor | src/plugins/tile.rs:27-29 | an empty world: empty piles, selection and Tile components |
| Flow.Table.ValidFrom | src/plugins/board.rs:24-109 | a state holding no more handles than a valid one is valid |
| Flow.Table.SelectedInHand | src/plugins/board.rs:38-43 | the collected handles are the selected hand tiles, in hand order |
| Flow.Table.DrawFromWall | src/plugins/board.rs:57-62 | min(k, wall) handles are popped off the end of the wall and pushed onto the hand in pop order; nothing else changes |
| Flow.Table.MoveToBoard | src/plugins/board.rs:50-54 | the loop removes every played tile from the hand, appends them to the board in order and clears their selection |
| Flow.Table.HideFromHand | src/plugins/board.rs:92-98 | the loop removes every discarded tile from the hand, hides it and clears its selection |
| Flow.Table.ApplyPlay | src/plugins/board.rs:49-62 | the piles become the Play of the old piles, the table stays valid |
| Flow.Table.ApplyDiscard | src/plugins/board.rs:91-106 | the piles become the Discard of the old piles, the table stays valid |
| Flow.Table.PlayTiles | src/plugins/board.rs:24-65 | no-op without plays left or without a selected hand tile; otherwise the piles become the Play, the moved tiles leave the selection, and only plays_remaining drops by one |
| Flow.Table.DiscardTiles | src/plugins/board.rs:68-109 | the same with the discard budget; the board is unchanged and the moved tiles become hidden |
| Flow.Table.CheckPhaseTransition | src/plugins/board.rs:111-120 | called only while playing and selecting, as its run conditions (board.rs lines 14-19) demand; scoring starts if and only if the board holds 14 or more tiles or no play is left |
| Flow.Table.BoardIds | src/plugins/scoring.rs:347-352 | the identities of the board handles that carry a Tile, in order |
| Flow.Table.CalculateScore | src/plugins/scoring.rs:339-378 | the result is the evaluation of the board; base and multiplier are recorded, the total is added to the score, and passed means score ≥ target |
| Flow.Table.ClearBoard | src/plugins/scoring.rs:394-401 | the board tiles are hidden, the board emptied and selecting resumes |
| Flow.Table.EvaluateRoundResult | src/plugins/scoring.rs:380-406 | on pass: advance, reset, clear the board and go back to selecting; on fail: game over with GameState untouched |
| Flow.Table.FillWall | src/plugins/tile.rs:60-91 | one fresh entity per tile, pushed onto the wall in order |
| Flow.Table.SpawnTiles | src/plugins/tile.rs:42-100 | the piles are cleared, 136 entities of the shuffled set fill the wall, and min(hand size, 136) of them are dealt off its end; the table stays valid |
| Flow.Table.CleanupTiles | src/plugins/tile.rs:144-157 | every tile entity is gone and the three sequences are empty |

## Left out

- Rendering, input and layout are not modelled. This covers tile labels and colours (`TileId::label`, `suit_color`), the UI node trees, the AABB hit-testing of input, `update_tile_positions`, sprites and text. They are presentation in floating point and engine calls; the selection is taken as a given set.
- The random number generator behind `shuffle` is a parameter: any permutation of the generated set.
- Bevy scheduling is replaced by direct method calls and explicit `PlayPhase`/`AppState` fields. This covers observers, `commands.trigger` events (`ScoreCalculatedEvent`, `RoundEndedEvent`), `NextState` and system ordering.
- `Visibility::Hidden` is modelled as the `discarded` handle set only for the hides done by a discard and by a passed round; the `Visibility::Hidden` that spawn_tiles gives every new tile is not tracked, and despawning is modelled as forgetting the Tile components.
- The pattern text written by `calculate_score` is not modelled. It is presentation; the pattern itself is in the result, and `Scoring.Name` gives its display string.
- Entity creation is modelled as `nextHandle` counting up; the engine's entity allocator is not visible.
- BuildCountArray: counts are unbounded; the `u8` slot counter and its overflow for 256+ copies of one identity are not modelled (a full set has four).
- Scoring.IsSevenPairs, Scoring.IsThirteenOrphans: the `u8` sums of slot counts in check_seven_pairs and check_thirteen_orphans (scoring.rs lines 121, 135 and 148) are unbounded here; they cannot overflow for a real hand, which holds at most 136 tiles.
- GameState's `u32` fields (score, level, target) are unbounded, so their overflow is not modelled; `saturating_sub` is modelled exactly by `Piles.SaturatingDec`.
- EvaluateHand: it computes the toitoi and pinfu tests before the chain rather than lazily in their branches. The tests are pure, so the result is the same.
- check_seven_pairs is an iterator expression, and check_thirteen_orphans and check_straight are short bounded scans that return early (scoring.rs lines 140-144 and 174-181); all three are modelled as quantified count-array predicates (`Scoring.IsSevenPairs`, `Scoring.IsThirteenOrphans`, `Scoring.IsStraight`) with no separate method; their behaviour enters the model through the ranking lemmas and the unit-test lemmas.
- ScoringTests: each unit test is stated for every hand with the test's count array rather than for the one ordering make_tiles builds. Pattern names are checked through `Pattern` and `Scoring.Name` rather than string comparison.
- Flow.Table.CalculateScore: the transition Scoring to RoundResult is not modelled, because no handler of `RoundEndedEvent` exists in the source; the pass flag is returned instead.
