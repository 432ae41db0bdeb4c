# Fenghua mahjong server: a verified model

This project models the core of a Fenghua mahjong server in Dafny and proves what its parts promise each other. A tile is its
id (0 to 143); a hand of the game is a state machine over values, and the objects the server updates in place are classes
whose methods are proved equal to that machine.

- **A hand** (`Tiles`, `Wall`, `Hand`, `HandInvariant`, `HandSteps`, `HandStart`, `HandOpening`, `HandRuns`, `HandLimits`,
  `DoubleHaitei`, `StaleFlag`, `HandOutcomes`, `TurnsAndClaims`, `PublicLog`, `Fenghua`, `EngineLaws`). One wall is consumed from
  the front, from the back in top-then-bottom order, and at the haitei position, with a face-up indicator in the middle. `Hand` states every engine operation as a function; `HandSteps.Inv` is the one invariant
  all of them keep, through the mutual recursion of flower reveals and supplementary draws. `HandRuns` draws the conclusions
  over whole hands, and `HandLimits`, `DoubleHaitei` and `StaleFlag` say exactly where the engine's own checks do not suffice.
  `HandOutcomes`, `TurnsAndClaims` and `PublicLog` tell what the operations do without naming them: who wins and from whom, what
  a discard, a call and a draw do at the table, and that the public log tells the whole table.
- **The engine object** (`GameObject`). The `Game` class with its fields, loops and in-place updates; each method's contract is
  the corresponding function of `Hand` applied to the old view.
- **Claim windows** (`ClaimWindow`). Any arrival order of answers, and the replayer's order, close a window alike.
- **Re-dealing hidden tiles** (`Redeal`, `RedealView`, `RedealWorlds`, `RedealPrivacy`, `RedealGame`, `Events`, `EventLog`). What a
  re-deal keeps, what it can come to, what it may depend on, the in-place code, the branch copy, and the packed event history.
- **Replay traces** (`TraceMatcher`, `TraceRecorder`). The bounded-lookahead matching of recorded rows with reconstructed
  decisions, sound and complete, and the recorder that produces the rows.
- **Walls and seeds** (`Mt19937`, `Seeds`, `NextRound`, `Swaps`, `Deck`). The generator regenerated in place, injective seed mixing, the
  READY protocol that sets the seed, and the shuffle.
- **The learning layer** (`Packer`, `WorkSharing`, `Driver`, `SearchPool`, `RlEnv`, `EngineWorld`). The parallel packer and the
  shared counter against their sequential forms, the search clone's bootstrap contract, telescoping rewards and outcome
  attribution, and the hand engine as the world all of these drive.
- **Concurrent protocols** (`Shadow`, `PrivateTables`, `TableStart`). Interleaved steps of any number of participants.

Premises that the code itself does not enforce are written in the statements: only offered actions reach a hand
(`HandSteps.Offered`), a rule engine offers claims that fit the claimer's hand (`HandSteps.RulesOk`, proved of the Fenghua rules
in `Fenghua.FenghuaRulesAreOk`), and the haitei tile is accepted only while it is in the wall (`HandSteps.HaiteiGuard`). The
drivers of the learning layer are stated over any engine meeting `Driver.Lawful` and, for classic rewards,
`RlEnv.ClassicScoring`; `EngineWorld` builds such an engine from the hands of `Hand`, with deals, scores, payouts and the match
cap, and proves both of it (`EngineWorld.EngineIsLawful`, `EngineWorld.EngineScoresClassically`).

Where the code and what is said about it differ:

- Accepting haitei never asks whether the haitei tile has been drawn already. A declined ron on the haitei discard offers it
  again, and accepting then puts the same tile in play twice. `HandLimits.HaiteiAcceptExact` gives the exact condition, and
  `DoubleHaitei.OfferedMessagesCanDuplicateATile` hands, played from the deal by offered messages only, in which it happens.
- The haitei flag survives a tsumo into the next hand, where the first discard, if nobody claims it, ends the hand at once
  (`StaleFlag.HaiteiTsumoLeavesTheFlag`, `StaleFlag.FirstDiscardExact`).
- A declared kan that is refused because a tile is missing has already removed the tiles before it
  (`HandLimits.RefusedKanExact`), and one that is accepted is checked for its tiles being in the hand and for nothing else
  (`HandLimits.AcceptedDeclarationExact`).
- The trace matcher's comment says the legality gate keeps a later row of a seat from being taken for a missing one; the row
  directly at the cursor is not gated, so a seat that lets a window run out and moves next can make a genuine trace fail
  (`TraceMatcher.SilentSeatCanBreakAGenuineTrace`). `TraceMatcher.GenuineTracesExact` says exactly when: a silent seat is given
  a later row that lies at the cursor, or within reach of it and past the gate. An empty version 2 trace is accepted although
  explicit decisions have no row, as long as nobody had a choice.
- The two packers agree whatever the rows are only because the first row has channels; without, the appender takes its
  header from a later row (`Packer.PackedMeetsAppended`).

## Model

| member | source | states |
|---|---|---|
| Tiles.FaceCodeSeparatesFaces | internal/engine/events.go:39-96 | two tile ids have one face code exactly when they are copies of one face |
| Tiles.FiveCopiesImpossible | internal/engine/paipu.go:185-206 | five different tiles never share a face |
| Wall.DeadIndexClosed | internal/engine/game.go:574-590 | the k-th supplementary tile is the top, then the bottom, of the k/2-th stack from the end |
| Wall.ConsumedIsDrawOrder | internal/engine/game.go:574-590 | a position is consumed exactly when one of the draws made so far took it |
| Wall.IsTileConsumedByDeadWall | internal/engine/game.go:574-590 | the scan loop computes the closed form for every wall length and draw count |
| HandInvariant.DeadTargetGivesOne | internal/engine/game.go:595-670 | a step back through the wall takes at most the one position it hands out; the indicator it skips was not hidden |
| HandInvariant.DeadTargetIsUndrawn | internal/engine/game.go:595-670 | with tiles left, the position found from the back is a hidden one |
| HandInvariant.DeadWallDrawKeeps | internal/engine/game.go:595-670 | a supplementary draw with its automatic reveals keeps conservation, counters, sizes and the measure's fall |
| HandInvariant.AutoRevealKeeps | internal/engine/game.go:428-453 | revealing every flower, each replaced from the back, keeps the same and leaves no flower concealed |
| HandSteps.SystemDrawKeeps | internal/engine/game.go:489-557 | the draw that opens a turn keeps the invariant: front tile, haitei offer or exhausted wall |
| HandSteps.HaiteiAcceptKeeps | internal/engine/game.go:770-802 | accepting an undrawn haitei tile keeps the invariant |
| HandSteps.HandleDiscardKeeps | internal/engine/game.go:817-885 | a discard moves its tile to the pile, and opens a window, ends the hand or passes the turn, keeping the invariant |
| HandSteps.ClosedKanHasNoPon | internal/engine/game.go:889-1002 | a four-tile kan never meets a pon of its face, so it is laid down closed and not stacked on one |
| HandSteps.SelfKanKeeps | internal/engine/game.go:889-1002 | closed and upgraded kans keep the invariant, replacement draw included |
| HandSteps.HandleTsumoKeeps | internal/engine/game.go:1005-1053 | a winning self-draw ends the hand with every tile accounted for |
| HandSteps.ApplyMeldKeeps | internal/engine/game.go:1119-1202 | chii, pon and direct kan move the discard and the claimer's tiles into the meld, keeping the invariant |
| HandSteps.ApplyRonKeeps | internal/engine/game.go:1203-1255 | a ron takes the discard off the pile as the win tile, keeping conservation |
| HandSteps.ResolveKeeps | internal/engine/game.go:1098-1259 | closing a window keeps the invariant whoever wins |
| HandSteps.HandleClaimKeeps | internal/engine/game.go:1058-1096 | queueing an answer keeps the invariant and closes the window with the last expected one |
| HandSteps.StepKeeps | internal/engine/game.go:673-715 | every offered message is accepted, keeps the invariant and lowers the rank |
| HandStart.AtMostEightFlowers | internal/engine/game.go:338-414 | at most eight flowers have been laid before play begins |
| HandStart.DealKeeps | internal/engine/game.go:177-336 | dealing in rounds of four and cutting the wangpai accounts for the whole wall |
| HandStart.DealGoesRound | internal/engine/game.go:232-250 | which wall position each dealt tile comes from: three rounds of four per seat, then one each |
| HandStart.WildFacesExact | internal/engine/game.go:281-303 | a plain indicator makes its face wild, a flower the three others of its four |
| HandStart.StartHandKeeps | internal/engine/game.go:153-173 | for every shuffle, dealer, dice and stale haitei flag, the start of a hand establishes the invariant |
| HandOpening.HandsOpenWithATurn | internal/engine/game.go:153-173 | a started hand always waits for the dealer's turn: initial flowers and the first draw cannot end it, and the live wall is untouched behind the first draw |
| HandRuns.TilesAreConserved | internal/engine/game.go:177-1259 | after any messages, hands, melds, piles, flowers, ron tile, hidden wall and indicator are the initial wall |
| HandRuns.NoPositionTwice | internal/engine/game.go:489-670 | no wall position is dispensed twice, and each step's dispensed tiles are exactly what appears on the table |
| HandRuns.CountersAreExact | internal/engine/game.go:455-480 | in every reachable state both counters are the numbers of hidden positions they stand for |
| HandRuns.HandSizeLaw | internal/engine/game.go:338-1202 | hand plus three per meld is 14 for the acting seat and 13 otherwise, and no concealed flower is plain |
| HandRuns.HandsAreFinite | internal/engine/game.go:338-670 | a hand accepts at most 937 messages and logs at most 234 events |
| HandRuns.HandsDoNotStick | internal/engine/game.go:673-715 | while a hand is not over, some offered message is accepted |
| HandRuns.ExpectedIsCardinality | internal/engine/game.go:1066-1082 | the expected-answer count is the number of seats with a non-empty menu |
| HandOutcomes.EveryEndHasItsReason | internal/engine/game.go:1005-1256 | a hand ends only by a ron or tsumo that was earned, by haitei refused or discarded unronned, or with the wall spent |
| HandOutcomes.WinsAreEarned | internal/engine/game.go:1203-1256 | whatever the message: a ron's winner answered Ron, the lowest such seat, wins on the open discard and takes it from the seat to act; a tsumo's winner sent it, with the tile it drew |
| TurnsAndClaims.ClaimsAreRanked | internal/engine/game.go:1098-1259 | ron beats kan beats pon beats chii, the lowest of equals counts; a winning ron ends the hand, a losing one or four passes let the turn pass right, any other leader takes the discard into a meld pointing at the discarder |
| TurnsAndClaims.ChiiAndPonArePaid | internal/engine/game.go:1119-1202 | a chii or pon costs exactly its tiles and leaves no drawn tile |
| TurnsAndClaims.DiscardDoes | internal/engine/game.go:817-885 | the tile goes to the pile and the log; a window opens exactly if anybody may call, offering each seat exactly its calls; else haitei draws the hand or the turn passes right |
| TurnsAndClaims.TurnOpensWithTheFrontTile | internal/engine/game.go:489-557 | a turn draws the first undrawn front tile, marked and logged; with none left haitei is offered, or the hand drawn if that is gone |
| TurnsAndClaims.SelfKanDoes | internal/engine/game.go:889-1002 | four tiles make a closed kan, one turns the first pon of its face into a kan; no other meld or pile changes |
| TurnsAndClaims.HaiteiDoes | internal/engine/game.go:770-815 | taking haitei adds and logs the tile under the indicator, refusing it draws the hand |
| TurnsAndClaims.AcceptsExactly | internal/engine/game.go:673-715 | which messages are accepted, offered or not, and that a refusal changes nothing but for half-made kans |
| PublicLog.LogTellsTheTable | internal/engine/events.go:10-96 | in every reachable state each pile, flower and meld (kind, called face, callee) can be read off the public log |
| HandLimits.HaiteiAcceptExact | internal/engine/game.go:770-802 | an offered haitei acceptance keeps the invariant if and only if the tile is undrawn; otherwise tiles in play differ from the wall |
| HandLimits.DeclinedRonOffersHaiteiAgain | internal/engine/game.go:1098-1117 | passing on the haitei discard offers the drawn haitei tile to the next seat, and accepting it overfills the table |
| DoubleHaitei.OfferedMessagesCanDuplicateATile | internal/engine/game.go:560-570 | for every shuffled wall whose flowers lie at the back and rules that allow only ron on haitei, a play from the deal by offered messages ends with haitei on offer again; accepting it makes the tiles in play differ from the wall |
| DoubleHaitei.SuchHandsExist | internal/engine/game.go:505-527 | there are such walls and such rules |
| StaleFlag.FirstDiscardExact | internal/engine/game.go:848-884 | for any wall, dealer and dice, an unclaimed first discard ends the hand if the flag was left up, with at least 66 tiles in the wall, and passes the turn if it was not |
| StaleFlag.DiscardUnderTheFlag | internal/engine/game.go:855-868 | under the flag a discard ends the hand exactly when nobody may ron it, whatever else could be called |
| StaleFlag.HaiteiTsumoLeavesTheFlag | internal/engine/game.go:770-802 | accepting haitei leaves the flag up unless the tile is a plain flower, and winning on it ends the hand with the flag up |
| StaleFlag.HaiteiTsumoCutsTheNextHandShort | internal/engine/game.go:1005-1053 | after a win on haitei the next hand, dealt anyhow, is drawn at its first unclaimed discard |
| HandLimits.RefusedKanExact | internal/engine/game.go:895-908 | a refused declaration keeps the invariant if and only if its very first tile was the missing one |
| HandLimits.AcceptedDeclarationExact | internal/engine/game.go:889-1002 | on a turn, a kan or flower declaration with its tiles in the hand is accepted whatever they are; it keeps the invariant if and only if the hand ends on it or four tiles make a new kan, one tile anything else |
| EngineLaws.ResolveLeavesTheWindow | internal/engine/game.go:1098-1259 | closing a window always leaves the waiting phase |
| EngineLaws.EndedHandsHaveResults | internal/engine/game.go:717-735 | whatever the message, a hand that has ended has a result |
| Fenghua.FenghuaRulesAreOk | internal/rules/fh.go:748-846 | every claim the rules offer can be paid from the claimer's hand and has the right shape |
| Fenghua.OffersExactly | internal/rules/fh.go:748-846 | ron iff it wins, kan iff three copies, pon iff at least two, and every chii the hand completes, only from the left and not with honours |
| GameObject.Game.UpdateWangpaiTilesLeft | internal/engine/game.go:455-480 | the counting loop yields the number of hidden wangpai positions |
| GameObject.Game.UndrawnWallIndices | internal/engine/redeal.go:213-228 | lists exactly the hidden positions, ascending, each once |
| GameObject.Game.FindRevealableFlowerTile | internal/engine/game.go:428-436 | finds the first concealed flower that is not wild |
| GameObject.Game.ExecuteDeadWallDraw | internal/engine/game.go:595-670 | the in-place draw from the back is the specified one, reveals and hand end included |
| GameObject.Game.AutoRevealFlowers | internal/engine/game.go:438-453 | the reveal loop, calling back into the dead-wall draw, is the specified reveal |
| GameObject.Game.ExecuteSystemDraw | internal/engine/game.go:489-557 | skipping consumed tiles and drawing in place is the specified draw |
| GameObject.Game.HandleKongOrFlowerReveal | internal/engine/game.go:889-1002 | the in-place kan or flower declaration, also when it fails half way |
| GameObject.Game.HandleDiscard | internal/engine/game.go:817-885 | the in-place discard with its offers |
| GameObject.Game.OfferInterrupts | internal/engine/game.go:753-768 | every seat but the discarder gets its claims, only ron under haitei; the result says whether anyone must answer |
| GameObject.Game.HandleHaiteiAccept | internal/engine/game.go:770-802 | the in-place haitei acceptance |
| GameObject.Game.HandleTsumo | internal/engine/game.go:1005-1053 | the in-place self-drawn win |
| GameObject.Game.ResolveInterruptPriority | internal/rules/fh.go:848-875 | the loop picks the heaviest bid, the lowest seat on a tie, nothing when all pass |
| GameObject.Game.ResolveInterrupts | internal/engine/game.go:1098-1259 | closing the window in place is the specified resolution |
| GameObject.Game.HandleInterruptAction | internal/engine/game.go:1058-1096 | queueing in place, refusing unoffered types, closing on the last answer |
| GameObject.Game.ProcessPlayerAction | internal/engine/game.go:673-715 | one message to the object is one step of the state machine |
| GameObject.Game.DealTiles | internal/engine/game.go:177-336 | dealing in place: hands, pointers, wild faces, counters |
| GameObject.Game.StartRound | internal/engine/game.go:153-173 | a whole start in place is the specified start |
| GameObject.Game.Branch | internal/engine/clone.go:17-33 | the struct copy has the same view |
| ClaimWindow.WindowIsConfluent | internal/engine/game.go:1058-1096 | for one answer per offered seat every arrival order closes the window in the same state |
| ClaimWindow.OnlyTheBestBidCounts | internal/engine/game.go:1098-1259 | answers other than the winning bid do not influence how the window closes |
| ClaimWindow.ReplayerAgrees | internal/review/replay.go:302-380 | winner first and everyone else fed as a pass reaches the state live play reached |
| Events.PackSeparatesVisible | internal/rl/eventcodec.go:58-80 | two events pack alike for an observer if and only if they agree on everything the observer may see |
| Events.PackLayout | internal/rl/eventcodec.go:58-80 | the kind's wire number, relative seat, visible face, relative callee and the two flags at their bit positions |
| Events.RenderEventHistory | internal/rl/eventcodec.go:84-97 | the newest window events, packed, oldest first |
| EventLog.WindowNeverTruncates | internal/rl/eventcodec.go:28-32 | at the maximal window of 512 no hand's history is ever truncated |
| RedealView.RedealKeepsView | internal/engine/redeal.go:57-208 | the search re-deal keeps the acting seat's view and history, permutes only unseen tiles, offers every seat of an open window exactly the claims of its new hand, and erases other seats' draws |
| RedealView.ReviewRedealKeepsView | internal/engine/redeal.go:64-208 | the review re-deal does too, conceals no plain flower, and is refused exactly when too few playable tiles are unseen |
| RedealView.DealtPoolIsThere | internal/engine/redeal.go:122-153 | the slots, read back in order, hold exactly the pool that was dealt |
| RedealView.EligibleCount | internal/engine/redeal.go:91-117 | whether the review re-deal is refused depends on the unseen set, not on its arrangement |
| RedealWorlds.EveryWorldComesUp | internal/engine/redeal.go:57-153 | any arrangement of the unseen tiles is the outcome of some choices of the search re-deal |
| RedealWorlds.EveryPlayableWorldComesUp | internal/engine/redeal.go:64-153 | any arrangement without a concealed plain flower is an outcome of the review re-deal |
| RedealPrivacy.ReviewRedealIsNonInterfering | internal/engine/redeal.go:61-208 | games alike to the acting seat with one unseen set are re-dealt alike: hands, hidden wall, menus, queue and log |
| RedealPrivacy.AscendingIsUnique | internal/engine/redeal.go:87-89 | sorting by id makes one canonical pool of any arrangement |
| RedealGame.CloneForBranch | internal/engine/clone.go:12-48 | a fresh object and a fresh wall with the same view |
| RedealGame.Shuffle | internal/engine/redeal.go:86-91 | the in-place swaps are the specified permutation |
| RedealGame.RedealUnseen | internal/engine/redeal.go:57-208 | overwriting hands, wall, queue, menus and log in place is the specified search re-deal |
| RedealGame.RedealUnseenForReview | internal/engine/redeal.go:64-208 | the review variant in place; a refusal changes nothing |
| RedealGame.BranchAndRedeal | internal/engine/clone.go:12-48 | re-dealing a branch copy leaves the live game untouched |
| TraceMatcher.AcceptedTracesAreSound | internal/review/replay.go:528-675 | in an accepted hand each row matched once, same seat, checks passed, explicit points covered, lookahead at most two |
| TraceMatcher.GenuineTracesAreAccepted | internal/review/replay.go:486-675 | genuine traces in which no silent seat is given a later row are accepted, in any order within windows; the empty trace exactly when nobody had a choice |
| TraceMatcher.DisturbedTracesAreRefused | internal/review/replay.go:549-567 | once a silent seat is given a later row that does not fit its point, the hand is refused, whatever follows |
| TraceMatcher.GenuineTracesExact | internal/review/replay.go:501-567 | if no row a silent seat could be given fits it, a genuine trace is accepted if and only if no silent seat is given one |
| TraceMatcher.SilentPoint | internal/review/replay.go:528-578 | a silent seat's point takes a row exactly when one lies at the oldest open row, or at most two rows past it and is legal there |
| TraceMatcher.AnsweredTracesAreUndisturbed | internal/review/replay.go:486-528 | when every seat answers every window, no silent seat can be given a row |
| TraceMatcher.SilentSeatCanBreakAGenuineTrace | internal/review/replay.go:549-556 | a genuine trace with a silent seat that is refused |
| TraceMatcher.RoundReplayer.CrossCheckDecision | internal/review/replay.go:528-578 | matching one decision in place is the specified check |
| TraceMatcher.RoundReplayer.VerifyTraceConsumed | internal/review/replay.go:645-675 | the verdict at the end of a hand |
| TraceMatcher.VerifyRound | internal/review/replay.go:199-240 | a hand replayed through the object gets exactly the verdict the theorems speak of |
| TraceRecorder.LateRowsAreNotLost | internal/engine/paipu.go:367-392 | a row recorded after its hand closed lands where it would have before |
| TraceRecorder.RecorderKeepsEveryRow | internal/engine/paipu.go:380-440 | at every moment the snapshot holds exactly the rows fed, in order, indexed by place |
| TraceRecorder.PaipuRecorder.RecordDecision | internal/engine/paipu.go:380-390 | appending in place to the open or the last closed hand |
| TraceRecorder.PaipuRecorder.TakeSnapshot | internal/engine/paipu.go:429-440 | closed hands plus the open one without a result |
| Mt19937.MT19937.GenU32 | internal/engine/mt19937.go:78-115 | the k-th output after seeding is the tempering of x(k+624), for every k across blocks and for the default seed |
| Mt19937.MT19937.Regenerate | internal/engine/mt19937.go:87-103 | overwriting the block in place yields the next block of the sequence |
| Mt19937.MT19937.SeedSlice | internal/engine/mt19937.go:42-75 | seeding by a key array of any length, in place |
| Mt19937.KeyedStateNeverDegenerates | internal/engine/mt19937.go:42-75 | no key ever leads to the all-zero state the last assignment guards against |
| Mt19937.TemperSeparates | internal/engine/mt19937.go:105-115 | tempering is injective |
| Mt19937.DefaultSeedWords | internal/engine/mt19937.go:25-115 | known words of the run from seed 5489: fill, recurrence and the first two outputs' tempering |
| Mt19937.Source | internal/engine/mt19937.go:172-178 | after n words already drawn, the source words are tempered x(624+n), x(624+n+1), and so on |
| Mt19937.DealRolls | internal/engine/game.go:195-260 | one generator gives the dealer when none is set, then 288 source words, then the two dice; a rolled dealer shifts the rest by one word |
| Seeds.Unmixed | internal/engine/mt19937.go:164-170 | the 64-bit mix has an inverse |
| Seeds.SeedFromUint64 | internal/engine/mt19937.go:151-162 | the array is filled with both halves of successive mixed counters |
| Seeds.FirstOutputOfZero | internal/engine/mt19937.go:151-170 | the known first output from zero, as the seed of hand zero and as the first two words, low half first |
| Seeds.SeedWordsSeparate | internal/engine/mt19937.go:151-170 | two seed values expand to the same 624 words if and only if they are equal |
| Seeds.DistinctHandsGetDistinctSeeds | internal/rl/env.go:448-453 | for one match seed two hand numbers get the same seed words if and only if they are equal |
| NextRound.HandsOfAMatchDiffer | internal/rl/env.go:438-453 | the same for the 32-bit hand counter |
| NextRound.Match.HandleReadyAction | internal/engine/game.go:1370-1396 | a READY is idempotent; the fourth one starts the next hand and consumes the forced seed |
| NextRound.Match.IsFinalReadyBeforeNextRound | internal/rl/selfplay.go:14-30 | true exactly in chongci when all three others are ready |
| NextRound.Match.ReadyAllPlayersForNextRound | internal/rl/selfplay.go:41-59 | the next chongci hand is dealt from its derived seed, set exactly once, whoever was ready already |
| Deck.GetInitialWall | internal/rules/fh.go:15-61 | 144 tiles in id order, each with the face its id stands for |
| Deck.ShuffleWithRnd | internal/engine/mt19937.go:211-220 | the in-place swaps for every word array are the specified permutation |
| Deck.EveryOrderComesUp | internal/engine/mt19937.go:211-220 | every order of the tiles is the shuffle of some block of words |
| Deck.ChoicesSeparateWalls | internal/engine/mt19937.go:211-220 | two blocks shuffle alike if and only if each word agrees modulo the number of tiles left |
| Deck.EachWordPicks | internal/engine/mt19937.go:216-219 | the k-th tile is picked by the k-th word among those not yet placed, and stays |
| Deck.ShuffledWall | internal/engine/game.go:215-230 | every random word array gives a wall holding each id once |
| Packer.PackObservationRows | internal/rl/envpool.go:235-295 | for stale buffers, any worker count and any interleaving: the bytes of one append after another |
| Packer.PackedIsAppended | internal/rl/envpool.go:198-234 | concatenating chunks under the first header is appending row by row |
| Packer.PackedMeetsAppended | internal/rl/envpool.go:204-242 | equality whenever the first row has channels; in any case the headers agree exactly when the row that seeds the appender has the first row's header |
| Packer.PackedReadsBack | internal/rl/envpool.go:198-295 | from the flat buffers of equal-shaped rows every plane, scalar, mask byte, event count and event reads back, and the header is the first row's shape |
| Packer.RangesPartition | internal/rl/envpool.go:278-292 | every row lies in exactly one worker's range |
| Packer.SpansAreDisjoint | internal/rl/envpool.go:249-261 | rows' byte spans do not overlap and stay inside the buffer |
| Packer.Sized | internal/rl/envpool.go:41-47 | the same buffer when it is large enough, a new one otherwise |
| Packer.PutWords | internal/rl/envpool.go:297-307 | little-endian words at an offset, nothing else changed |
| Packer.Le32Separates | internal/rl/envpool.go:303-307 | the little-endian encoding is injective |
| WorkSharing.Validate | internal/rl/envpool.go:80-89 | no fault exactly when slots are in range and distinct |
| WorkSharing.AnyScheduleIsInOrder | internal/rl/envpool.go:91-115 | for any workers and schedule every command is applied once, as in list order |
| WorkSharing.FairSchedulesFinish | internal/rl/envpool.go:91-115 | a schedule that gives every worker more than twice as many turns as there are commands ends with all workers gone and the list-order result |
| WorkSharing.RoundsAreOrderIndependent | internal/rl/envpool.go:80-118 | slot-ordered results and environments depend on the commands alone |
| Driver.CurrentSeat | internal/rl/env.go:516-546 | the lowest waiting seat of a group |
| SearchPool.BootstrapContract | internal/rl/searchpool.go:249-410 | bootstrap rows, truncation exactly at root decisions past the cap, root pinning, the count of moves, the hard cap and at most one final answer, over every life of a clone |
| SearchPool.StepKeeps | internal/rl/searchpool.go:269-303 | one command keeps the contract and the clone's fields mirror its history |
| SearchPool.StepStops | internal/rl/searchpool.go:287-409 | what a command plays, and that its answer describes the game it leads to: who is to act, whose outcome it is, why it failed |
| SearchPool.RewardsTelescope | internal/rl/searchpool.go:325-409 | the rewards over a clone's life sum to the change of its scores |
| SearchPool.SearchClone.AdvanceClone | internal/rl/searchpool.go:325-409 | the driving loop over fields is the specified drive |
| SearchPool.SearchClone.StepOne | internal/rl/searchpool.go:249-303 | one command on the object, idling a finished clone |
| RlEnv.RewardsTelescope | internal/rl/env.go:345-436 | chongci rewards of any run sum to current minus starting scores |
| RlEnv.ClassicRewardsTelescope | internal/rl/env.go:345-387 | classic rewards are zero until the terminal answer, which pays the score change |
| RlEnv.OutcomesAreAttributedOnce | internal/rl/env.go:345-436 | outcomes come once, in order, non-terminal ones for the last finished hand, the terminal one for the ending hand |
| RlEnv.NoOutcomeIsLost | internal/rl/env.go:345-403 | an answer carries an outcome if and only if a hand was left since the answer before, the last such hand's very result; the answer ending an episode carries that of the hand in play |
| RlEnv.StepDescribes | internal/rl/env.go:80-103 | a step fails without effect unless a learning seat is to act and the id decodes; its answer says whether the episode is over or truncated and otherwise leaves a learning seat to act |
| RlEnv.LearningEnv.AdvanceToDecision | internal/rl/env.go:345-436 | the loop over fields is the specified drive |
| RlEnv.LearningEnv.Step | internal/rl/env.go:80-103 | one learning action on the object |
| RlEnv.PlayEpisode | internal/rl/env.go:36-103 | a reset and steps on the object give the answers of the run theorems |
| EngineWorld.EngineIsLawful | internal/rl/env.go:345-436 | the hand engine, with deals, payouts and cap, meets every law the drivers rely on |
| EngineWorld.EngineScoresClassically | internal/engine/game.go:1031-1051 | without a cap its scores move only when a hand ends, by the payouts |
| EngineWorld.ClassicEpisodesPayTheScoreChange | internal/rl/env.go:345-387 | the classic rewards of any episode on the engine sum to the change of its scores |
| EngineWorld.SomebodyMayAct | internal/rl/env.go:456-482 | until a hand is over, some seat is to act |
| EngineWorld.DrivingNeverFails | internal/rl/env.go:345-436 | with a heuristic that picks from its menu, driving ends in an answer, and unless the episode is over a learning seat is to act |
| EngineWorld.StepFailsExactly | internal/rl/env.go:80-103 | a step fails if and only if no learning seat is to act or the id is not on its menu |
| Shadow.ShutdownIsSafe | internal/bot/shadow.go:262-365 | in every interleaving no send meets a closed queue and a worker that left leaves it empty |
| Shadow.ClosedCountsAreFinal | internal/bot/shadow.go:481-525 | once a Close returned every job past the locked check is counted exactly once |
| Shadow.CloseNeverSticks | internal/bot/shadow.go:502-525 | while a Close has not returned, some step can be taken |
| Shadow.JobsAreServedInOrder | internal/bot/shadow.go:262-365 | jobs served and still queued are the jobs sent, in the order they were sent |
| Shadow.NothingIsLostWithoutReason | internal/bot/shadow.go:262-365 | no refusal while there is room for every call, no discard before the stop signal, counters equal to the verdicts given |
| Shadow.EveryCloseReturns | internal/bot/shadow.go:262-525 | no run is longer than nine steps a call, seven a Close and three, and one that cannot go on has every Close returned |
| PrivateTables.SeatingIsSafe | internal/api/private_tables.go:78-122 | one seat per user, no human loses a seat; which seat a claim gives and what a host change makes of one, or why it fails |
| PrivateTables.PrivateTable.ClaimNextHumanSeat | internal/api/private_tables.go:78-95 | the user's own seat, else the lowest vacant one |
| PrivateTables.PrivateTable.SetSeat | internal/api/private_tables.go:100-122 | a host change to a seat no human holds |
| PrivateTables.PrivateTable.CanStart | internal/api/private_tables.go:156-163 | true exactly when all four seats are taken |
| TableStart.StartIsSafe | internal/api/matchmaker.go:691-866 | started at most once, with the warmed configuration, every policy owned or closed |
| TableStart.StartsAreTheHosts | internal/api/matchmaker.go:369-382 | a start not by the host never gets anywhere, and an open room has one policy per bot seat |
| TableStart.UndisturbedStartSucceeds | internal/api/matchmaker.go:691-845 | a host who starts a full table undisturbed gets it started with a room |
| TableStart.SignatureSeparates | internal/api/matchmaker.go:358-367 | the start signature tells any two configurations apart |
| TableStart.NothingComesUpWhileDraining | internal/api/matchmaker.go:825-866 | from any state with draining set, after any run, a room or start that is up was up at that moment |
| TableStart.DrainRefusesLateStarts | internal/api/matchmaker.go:825-866 | a table not up when draining is set never starts; once no start holds the lock its policies are closed and its match rows gone |
| TableStart.StartStepKeepsPolicies | internal/api/matchmaker.go:743-845 | each step of a start hands over or closes what it built |

## Left out

- Scores, payouts, patterns and match end: the rule engine's winning test is a parameter; `CalculatePayouts` and standings are not modelled in a hand.
- Turn menus: legality of discards, self kans and tsumo on one's turn is stated by `HandSteps.Offered`; the menu's contents and order are not computed.
- Blooming and budding kong flags, `HandSize`, `LastDiscardFromDrawn`, seat winds and the paipu action stream written alongside each operation.
- Players inside a game are values held in one field, replaced as a whole; aliasing between player records and hands is not modelled.
- Interrupt timers, logging, persistence and network delivery.
- Redeal.Shuffled: the choices of Go's seeded source are a parameter that depends on the seed and on the lengths shuffled so far, nothing else.
- RedealView.RedealKeepsView: after a re-deal, wall positions already drawn keep stale ids, so conservation is stated for hands, hidden wall and public tiles and not for the array.
- GameObject.Game.HandleTsumo: payouts and score updates are not part of the object; `EngineWorld` adds them to the hand's end.
- GameObject.Game.ResolveInterrupts: the ron branch leaves out payouts and score updates in the same way.
- GameObject.Game.ProcessPlayerAction: READY after a hand is refused here; the ready protocol is `NextRound`.
- GameObject.Game.DealTiles: the shuffled wall and the dice come in as parameters; how they are drawn is `Mt19937.DealRolls`.
- GameObject.Game.StartRound: dealer and dice come in as parameters, and the phase check of the very first start is left out.
- GameObject.Game.Branch: the copied wall-seed and dealer overrides are not part of the modelled state.
- PublicLog.LogTellsTheTable: hidden hands are not read off the log; that each draw and discard is logged with its flags is stated by `TurnsAndClaims`.
- Events.PackEvent: the word is a sum of disjoint fields where the code uses shifts and or.
- HandStart.StartHandKeeps: the dealer and the dice are parameters, so it holds whatever `Mt19937.DealRolls` draws.
- HandLimits.AcceptedDeclarationExact: other messages the engine accepts without offering them (a discard or a kan while haitei is on offer, haitei accepted when it is not) are not characterised.
- RedealGame.CloneForBranch: players, queue and overrides are values here, so that the copy shares none of them is not a statement about references.
- RedealGame.BranchAndRedeal: of the live game only the object and the wall array are references that the re-deal could touch.
- Deck.ShuffledWall: SHA-512 between the generator and the 144 words is not modelled; the shuffle is proved for every word array.
- TraceMatcher.GenuineTracesExact: a row that a silent seat is given although it fits is taken without a trace of it, and what follows is then not characterised.
- TraceMatcher.VerifyRound: the decisions the replayer reconstructs are given; draw and flower records, settlement and observation encoding are not modelled.
- Packer.PackObservationRows: workers interleave row by row; writes of different rows touch disjoint spans, so finer interleavings write the same bytes.
- Packer.PackedMeetsAppended: when the first row has no channels only the headers are compared exactly.
- WorkSharing.RoundsAreOrderIndependent: the final sort by slot is a function, as the library's sort is.
- SearchPool.BootstrapContract: observations are represented by the seat they belong to; encoding errors are not modelled.
- SearchPool.SearchClone.AdvanceClone: observation encoding and the check that a window is ready to close are left out, with the errors they can give.
- RlEnv.ClassicRewardsTelescope: that scores move by the payouts is a hypothesis; `EngineWorld.ClassicEpisodesPayTheScoreChange` discharges it for the hand engine.
- RlEnv.LearningEnv.AdvanceToDecision: observation encoding and its errors are left out.
- RlEnv.PlayEpisode: the match it starts from is given; configuration, seeding and the start of a match are left out.
- EngineWorld.EngineIsLawful: a menu's ids are a parameter that must stand for offered messages, with haitei accepted at most once, and a new hand's dealer and wall may depend on the match in any way.
- RlEnv.RewardsTelescope: rewards are score points; the division by 1000 in single precision is not modelled.
- RlEnv.OutcomesAreAttributedOnce: outcomes carry their hand number, which the wire message does not.
- NextRound.Match.HandleReadyAction: what starting the next hand does to the table is `Hand.StartHand`; here it is a record of the deal.
- NextRound.Match.ReadyAllPlayersForNextRound: a start that fails is not modelled; a new hand is in play once dealt.
- Shadow.ClosedCountsAreFinal: latency samples and log lines are left out, and a writer waiting for the lock does not hold back new readers.
- TableStart.StartIsSafe: a seat signature is a list of fields, so separators inside agent names are not considered; deleting a refused match row always succeeds; match mode changes are left out.
- Queue matchmaking, WebSocket handling, authentication, storage, policy serving, feature planes and heuristics.
