# A verified model of the deck builder's simulator, saved-recipe and card-table logic

This project models, in Dafny, the core of a browser deck builder for a trading card game:

- the **match simulator view** (`src/TabPaneSimulator.test.jsx`): expanding a deck into ids,
  the Fisher–Yates shuffle, dealing four guardians, six hand cards and a library to each of two
  sides, and the reset / start / next-turn / end-turn / play-card handlers with their battle log;
- the **saved recipes tab** (`src/TabPaneSave.jsx`): the list part of "deduplicate and reset
  ids", and the card count shown above each part of a saved deck;
- the **card table** (`src/TabPaneCard.js`): the four row filters (colour filter as a bit set)
  and the per-deck counter with its minus button.

Modules, one per concern:

| file | module | what it holds |
|---|---|---|
| `Wrappers.dfy` | `Wrappers` | `Option` |
| `Decks.dfy` | `Decks` | a deck `Map` as the list of its entries in iteration order; `makeIdArray`, `excludeCards` |
| `Shuffle.dfy` | `Shuffle` | `makeRandomIndices` with the random draws as a parameter; `setupCards` and its two wrappers |
| `SimulatorState.dfy` | `SimulatorState` | the view's state hooks as a value, each handler as a function on it |
| `SimulatorProperties.dfy` | `SimulatorProperties` | what the handlers promise, as lemmas about those functions |
| `SimulatorView.dfy` | `SimulatorView` | the view as a class with one method per handler, each proved equal to its function |
| `SavedDecks.dfy` | `SavedDecks` | deduplication, renumbering, part totals |
| `CardTable.dfy` | `CardTable` | `show`, the bitwise colour test, the minus button |

How the React semantics are rendered:

- A handler reads the state of the render it was created in, and its setters only take effect
  after it returns. Each handler is therefore a function from the old state to the new one.
- The battle log is updated through `setBattleLog(prev => [...prev, {id: logIdRef.current, ...}])`.
  React queues that updater and runs it when it renders after the handler. `logIdRef`, a mutable
  ref, is bumped at once by the `+= 1` that follows. So every updater reads the counter as the
  handler left it. The state carries the queued updaters (`queuedLog`), `QueueLog` is one
  `setBattleLog` call with its increment, and `Rendered` is the render that runs the queue. An
  event (`Step`) is its handler followed by that render.
- Consequently an event that logs `k` entries from counter `c` gives all `k` of them the id
  `c + k`. Ending the turn and the enemy's next turn log two entries with one id, and a
  single-entry event logs `c + 1` (see "## Findings").
- `handleEndPlayerTurn` (lines 219-233) calls `handleClickNextTurn()` from the same closure, so
  that call still sees `turn === 'player'`. The model follows the code: ending the turn logs
  "your turn ended", sets the turn to the enemy, resets the rights and makes the **player** draw.
  The enemy's draw and "enemy turn ended" come only from the "next turn" button, which is
  enabled exactly while the turn is the enemy's.
- The libraries are not shuffled. After the ten dealt cards are removed from a copy of the
  deck, `makeIdArray` lists what remains in deck (map) order, and that is the library.
- Both sides are dealt from one shuffle of one expansion. The enemy's cards are the 11th to 20th
  pops, so the two sides never take the same position.
- Reset does not reset `logIdRef`, so ids logged after a reset are above every id logged before it.
- Randomness comes in as a parameter. `Math.floor(Math.random() * (i + 1))` is the list `js`
  with `js[i] <= i` (`ValidOracle`), which `makeRandomIndices` consumes from `i = n - 1` down.
- The lifecycle reducer is outside the model. Its phase is a parameter of the enable/show flags,
  and the handlers return the action they dispatch (`CHECK_MAIN_DECK`, `START`, `RESET`).

## Model

| member | source | states |
|---|---|---|
| Decks.ExpandLength | src/TabPaneSimulator.test.jsx:23-31 | the id list has as many entries as the deck's copy counts add up to |
| Decks.ExpandCount | src/TabPaneSimulator.test.jsx:23-31 | in a well-formed deck each id occurs in the id list exactly its copy count |
| Decks.HasIdIffCopies | src/TabPaneCard.js:174 | the counter `deck.has(id) ? deck.get(id) : 0` is positive exactly when the id is a key |
| Decks.RemoveOneWellFormed | src/TabPaneSimulator.test.jsx:12-19 | one removal step keeps keys distinct and counts positive |
| Decks.RemoveOnePresent | src/TabPaneSimulator.test.jsx:13-18 | removing a present id takes exactly one copy of it out of the id list |
| Decks.RemoveOneAbsent | src/TabPaneSimulator.test.jsx:13-18 | removing an absent id (`get` is undefined, so `delete`) leaves the deck unchanged |
| Decks.RemoveOneExpand | src/TabPaneSimulator.test.jsx:13-18 | one removal step is the multiset difference with that one id |
| Decks.RemoveOneIds | src/TabPaneSimulator.test.jsx:13-18 | a removal step never adds a key |
| Decks.RemoveOneHead | src/TabPaneSimulator.test.jsx:13-18 | removing a copy of the first entry's card, by decrement or delete, takes exactly one occurrence out of the id list |
| Decks.WellFormedCons | src/TabPaneSimulator.test.jsx:11-21 | a deck with a first entry is well formed exactly when that entry's count is positive, the rest is well formed and its key is new |
| Decks.Total | src/TabPaneSimulator.test.jsx:112 | `sum(deck.values())`; its contract is `Decks.ExpandLength`: the number of entries of the id list |
| Decks.Expand | src/TabPaneSimulator.test.jsx:23-31 | the id list of `makeIdArray`; its contracts are `Decks.ExpandLength` and `Decks.ExpandCount` |
| Decks.CopiesOf | src/TabPaneCard.js:174 | `deck.has(id) ? deck.get(id) : 0`; its contracts are `Decks.ExpandCount` and `Decks.HasIdIffCopies` |
| Decks.RemoveOne | src/TabPaneSimulator.test.jsx:13-18 | one `forEach` step of `excludeCards`; its contracts are `Decks.RemoveOnePresent`, `Decks.RemoveOneAbsent`, `Decks.RemoveOneExpand` and `Decks.RemoveOneWellFormed` |
| Decks.Exclude | src/TabPaneSimulator.test.jsx:11-21 | `excludeCards` on a copy; its contracts are `Decks.ExcludeSpec` and `Decks.ExcludeCopies` |
| Decks.ExcludeSpec | src/TabPaneSimulator.test.jsx:11-21 | `excludeCards` keeps the deck well formed and removes exactly the listed cards, as multisets |
| Decks.ExcludeCopies | src/TabPaneSimulator.test.jsx:11-21 | per id the count drops by the number of times it is listed, never below zero |
| Decks.MakeIdArray | src/TabPaneSimulator.test.jsx:23-31 | the nested loops produce the expansion, its length is the total, and each id's count is its copies |
| Decks.ExcludeCards | src/TabPaneSimulator.test.jsx:11-21 | the loop computes `Exclude`, keeps well-formedness and subtracts the listed cards |
| Shuffle.SwapsDown | src/TabPaneSimulator.test.jsx:38-42 | the swap pass keeps the length and the multiset of the list |
| Shuffle.PermutationDistinct | src/TabPaneSimulator.test.jsx:33-44 | a permutation of 0..n-1 has only indices below n, all distinct |
| Shuffle.Swap | src/TabPaneSimulator.test.jsx:41 | the destructuring swap of `result[i]` and `result[j]`; `Shuffle.SwapsDown` states that the swaps keep the multiset |
| Shuffle.Gather | src/TabPaneSimulator.test.jsx:49 | `idArray.at(index)` for each index in turn; its contracts are `Shuffle.GatherSwapsDown` and `Shuffle.ShuffledIds` |
| Shuffle.FisherYates | src/TabPaneSimulator.test.jsx:33-44 | for any valid random draws the result is a permutation of 0..n-1 |
| Shuffle.MakeRandomIndices | src/TabPaneSimulator.test.jsx:33-44 | the in-place array shuffle computes `FisherYates` and so returns a permutation |
| Shuffle.GatherSwapsDown | src/TabPaneSimulator.test.jsx:38-42 | shuffling indices and then looking up ids equals shuffling the ids |
| Shuffle.ShuffledIds | src/TabPaneSimulator.test.jsx:117-118 | the ids read through the shuffled indices are the deck's ids, as a multiset |
| Shuffle.SetupCards | src/TabPaneSimulator.test.jsx:46-52 | `n` pops: the last `n` indices are consumed and card `k` is the id at the `k`-th index from the end |
| Shuffle.SetupGuardians | src/TabPaneSimulator.test.jsx:54-57 | four pops, as above |
| Shuffle.SetupHands | src/TabPaneSimulator.test.jsx:59-62 | six pops, as above |
| SimulatorState.IndexOf | src/TabPaneSimulator.test.jsx:241 | `findIndex`: -1 exactly when the card is absent, else the first position holding it |
| SimulatorState.ClickReset | src/TabPaneSimulator.test.jsx:88-109 | `handleClickReset`; its contract is `SimulatorProperties.ResetClears` |
| SimulatorState.Popped | src/TabPaneSimulator.test.jsx:46-52 | the ids `count` pops return after `from` pops; `SimulatorProperties.StartPops`, `PoppedBlock` and `StartUsesDistinctPositions` state what they are |
| SimulatorState.DealSide | src/TabPaneSimulator.test.jsx:121-127 | one side's guardians, hand and library; its contract is `SimulatorProperties.SideDealPartition` |
| SimulatorState.WithDeal | src/TabPaneSimulator.test.jsx:140-146 | the three setters giving a side its deal; stated by `SimulatorProperties.StartSetsDeals` and `StartDealsEachSide` |
| SimulatorState.ClickStart | src/TabPaneSimulator.test.jsx:111-147 | `handleClickStart`; its contracts are `SimulatorProperties.StartTooFewCards`, `StartDealsEachSide`, `StartPops` and `StartUsesDistinctPositions` |
| SimulatorState.Draw | src/TabPaneSimulator.test.jsx:155-158 | `playerDeck[0]` to the end of the hand; its contract is `SimulatorProperties.DrawConservesSide` |
| SimulatorState.Advance | src/TabPaneSimulator.test.jsx:149-217 | the body of `handleClickNextTurn` for a given turn; its contracts are `SimulatorProperties.AdvanceQueues`, `AdvanceKeepsZones` and `AdvanceConservesCards` |
| SimulatorState.ClickNextTurn | src/TabPaneSimulator.test.jsx:149-217 | `handleClickNextTurn`; its contracts are `SimulatorProperties.NextTurnOnPlayerTurn` and `NextTurnOnEnemyTurn` |
| SimulatorState.EndPlayerTurn | src/TabPaneSimulator.test.jsx:219-233 | `handleEndPlayerTurn`; its contracts are `SimulatorProperties.EndTurnRunsPlayerBranch` and `EndTurnDuplicatesIds` |
| SimulatorState.RemoveAt | src/TabPaneSimulator.test.jsx:281-283 | `splice(cardIndex, 1)` on a copy; stated by `SimulatorProperties.PlayCardAccepted` |
| SimulatorState.PlayCard | src/TabPaneSimulator.test.jsx:235-285 | `handlePlayCard`; its contracts are `SimulatorProperties.PlayCardRejected`, `PlayCardAccepted` and `PlayCardConservesCards` |
| SimulatorState.QueueLog | src/TabPaneSimulator.test.jsx:160-167 | `setBattleLog(updater)` then `logIdRef.current += 1`; stated by `SimulatorProperties.HandleQueues` |
| SimulatorState.Rendered | src/TabPaneSimulator.test.jsx:84-86 | the render running the queued updaters, each reading the counter as the handler left it; stated by `SimulatorProperties.StepLog` |
| SimulatorState.RenderedCaptured | src/TabPaneSimulator.test.jsx:160-167 | the render as the ids evidently intend it, each entry carrying the counter at its own call; stated by `SimulatorProperties.StepCapturedLog` |
| SimulatorState.HasRight | src/TabPaneSimulator.test.jsx:250-268 | the rights checks of `handlePlayCard` and of the play buttons; used by `PlayCardRejected` and `EnabledPlayIsAccepted` |
| SimulatorState.EnabledStart | src/TabPaneSimulator.test.jsx:287 | `state === INITIAL`; its contract is `SimulatorProperties.StartXorReset` |
| SimulatorState.EnabledReset | src/TabPaneSimulator.test.jsx:288 | `state !== INITIAL`; its contract is `SimulatorProperties.StartXorReset` |
| SimulatorState.EnabledNextTurn | src/TabPaneSimulator.test.jsx:325 | the "next turn" button: running and the enemy's turn; its contract is `SimulatorProperties.NextTurnExcludesPlayerControls` |
| SimulatorState.ShowBattlefield | src/TabPaneSimulator.test.jsx:290-292 | running or finished; used by `ShowPlayerControls` |
| SimulatorState.ShowPlayerControls | src/TabPaneSimulator.test.jsx:363-389 | the player's controls render only on the player's turn; its contract is `SimulatorProperties.NextTurnExcludesPlayerControls` |
| SimulatorState.EnabledPlay | src/TabPaneSimulator.test.jsx:363-384 | a play button rendered and enabled; its contract is `SimulatorProperties.EnabledPlayIsAccepted` |
| SimulatorState.Handle | src/TabPaneSimulator.test.jsx:88-285 | the handler an event runs, before the render; its contract is `SimulatorProperties.HandleQueues` |
| SimulatorState.Step | src/TabPaneSimulator.test.jsx:88-285 | an event: its handler, then the render; stated by `SimulatorProperties.StepLog`, `StepPreservesInvariant` and `TurnStepConservesCards` |
| SimulatorState.StepCaptured | src/TabPaneSimulator.test.jsx:88-285 | an event under the intended ids; stated by `SimulatorProperties.StepCapturedLog` and `StepCapturedPreservesInvariant` |
| SimulatorProperties.StartTooFewCards | src/TabPaneSimulator.test.jsx:112-116 | with fewer than 20 cards start dispatches CHECK_MAIN_DECK and changes no state |
| SimulatorProperties.StartSetsDeals | src/TabPaneSimulator.test.jsx:117-146 | with enough cards, start gives each side `DealSide` of the one shuffle and changes no other hook |
| SimulatorProperties.SideDealPartition | src/TabPaneSimulator.test.jsx:121-127 | a side gets 4 guardians, 6 hand cards and a library of the rest, together exactly the deck |
| SimulatorProperties.DealTakenFromDeck | src/TabPaneSimulator.test.jsx:121-122 | the ten cards popped for a side are among the expansion's cards, as a multiset |
| SimulatorProperties.StartDealsEachSide | src/TabPaneSimulator.test.jsx:111-147 | start dispatches START; each side's guardians, hand and library are 4, 6 and total-10 cards making up the deck; the library is the deck without the dealt cards in deck order; nothing else changes |
| SimulatorProperties.StartPops | src/TabPaneSimulator.test.jsx:121-131 | the player is dealt from pops 1-10 and the enemy from pops 11-20 of the one shuffle |
| SimulatorProperties.StartUsesDistinctPositions | src/TabPaneSimulator.test.jsx:117-131 | the 20 dealt positions are distinct positions of the id list, and each dealt card is the id at its position |
| SimulatorProperties.AdvanceQueues | src/TabPaneSimulator.test.jsx:149-217 | next turn queues exactly its messages (a draw or "exhausted", and on the enemy's turn "enemy turn ended") and bumps the counter once per message, leaving the log itself alone |
| SimulatorProperties.HandleQueues | src/TabPaneSimulator.test.jsx:111-285 | every handler but reset queues exactly the event's messages and bumps the counter once for each |
| SimulatorProperties.StepCapturedLog | src/TabPaneSimulator.test.jsx:160-167 | under the intended ids an event appends its messages numbered on from the counter, one id each |
| SimulatorProperties.NextTurnOnPlayerTurn | src/TabPaneSimulator.test.jsx:150-179 | on the player's turn: rights back to 1, the player draws the library's first card (or "exhausted" is logged), one entry carrying the counter after its increment, nothing else changes |
| SimulatorProperties.NextTurnOnEnemyTurn | src/TabPaneSimulator.test.jsx:180-216 | on the enemy's turn: the enemy draws (or "exhausted"), the turn passes to the player, "enemy turn ended" follows; both entries carry the counter plus two; nothing else changes |
| SimulatorProperties.EndTurnRunsPlayerBranch | src/TabPaneSimulator.test.jsx:219-233 | ending the turn sets the turn to the enemy and logs it, then the stale turn makes the player draw and resets the rights; both entries carry the counter plus two |
| SimulatorProperties.EndTurnDuplicatesIds | src/TabPaneSimulator.test.jsx:219-233 | as written, the two entries of ending the turn share the id counter plus two, so the ids do not strictly increase and the list items' keys collide |
| SimulatorProperties.EndTurnCapturedIds | src/TabPaneSimulator.test.jsx:219-233 | under the intended ids, ending the turn logs its two entries with the counter and the counter plus one |
| SimulatorProperties.EndTurnThenNextTurn | src/TabPaneSimulator.test.jsx:149-233 | end turn then next turn: back to the player, each side draws once, four entries in a fixed order, the first two with the counter plus two, the last two with the counter plus four |
| SimulatorProperties.PlayCardRejected | src/TabPaneSimulator.test.jsx:235-256 | a play is rejected exactly when off-turn, not in hand or out of rights; rejection sets the first failing check's error and nothing else |
| SimulatorProperties.PlayCardAccepted | src/TabPaneSimulator.test.jsx:249-284 | an accepted play spends one right, appends the card to its zone, removes its first copy from the hand, logs one entry carrying the counter after its increment |
| SimulatorProperties.StartXorReset | src/TabPaneSimulator.test.jsx:287-288 | exactly one of start and reset is enabled |
| SimulatorProperties.NextTurnExcludesPlayerControls | src/TabPaneSimulator.test.jsx:325 | "next turn" is enabled only on the enemy's turn, the player's controls shown only on the player's, never both |
| SimulatorProperties.EnabledPlayIsAccepted | src/TabPaneSimulator.test.jsx:363-384 | a play button rendered enabled, for a card in the hand, is always accepted |
| SimulatorProperties.InitialStateInvariant | src/TabPaneSimulator.test.jsx:64-86 | the mounted view satisfies both invariants, with nothing dealt, an empty log and counter 0 |
| SimulatorProperties.ResetClears | src/TabPaneSimulator.test.jsx:88-109 | reset empties every zone and the log, restores rights and turn, keeps the counter, dispatches RESET |
| SimulatorProperties.AdvanceKeepsZones | src/TabPaneSimulator.test.jsx:149-217 | both branches of next turn keep the rights non-negative and the zones all null or all dealt |
| SimulatorProperties.StartKeepsZones | src/TabPaneSimulator.test.jsx:111-147 | start deals both sides or neither |
| SimulatorProperties.EndTurnKeepsZones | src/TabPaneSimulator.test.jsx:219-233 | so does ending the turn |
| SimulatorProperties.PlayCardKeepsZones | src/TabPaneSimulator.test.jsx:235-285 | so does a play, which spends a right only when it is at least 1 |
| SimulatorProperties.HandleKeepsZones | src/TabPaneSimulator.test.jsx:88-285 | so does every handler |
| SimulatorProperties.AppendSharingKeepsIds | src/TabPaneSimulator.test.jsx:160-167 | entries all carrying a counter no lower than any earlier id keep the ids non-decreasing and at most the counter |
| SimulatorProperties.AppendNumberedKeepsIds | src/TabPaneSimulator.test.jsx:160-167 | entries numbered on from the counter keep the ids strictly increasing and below the counter |
| SimulatorProperties.StepPreservesInvariant | src/TabPaneSimulator.test.jsx:88-285 | every event keeps the invariant: no updater pending after the render, log ids never decreasing and at most the counter, non-negative rights, zones all null or all dealt |
| SimulatorProperties.RunPreservesInvariant | src/TabPaneSimulator.test.jsx:88-285 | so does any sequence of events |
| SimulatorProperties.StepCapturedPreservesInvariant | src/TabPaneSimulator.test.jsx:88-285 | under the intended ids every event keeps them strictly increasing and below the counter, which makes the list items' keys distinct |
| SimulatorProperties.RunCapturedPreservesInvariant | src/TabPaneSimulator.test.jsx:88-285 | so does any sequence of events |
| SimulatorProperties.LaterIdsConcat | src/TabPaneSimulator.test.jsx:86 | two stretches of non-decreasing ids, the second above where the first ends, form one |
| SimulatorProperties.SharingIdLater | src/TabPaneSimulator.test.jsx:160-167 | one event's entries, all on the counter after it, lie above the counter before it |
| SimulatorProperties.ConsecutiveConcat | src/TabPaneSimulator.test.jsx:86 | two runs of consecutive ids that meet form one |
| SimulatorProperties.StepLog | src/TabPaneSimulator.test.jsx:88-285 | an event keeps the old log (reset keeps nothing), bumps the counter once per message it logs, and appends those messages in order, every one carrying the counter's value after the handler |
| SimulatorProperties.RunLog | src/TabPaneSimulator.test.jsx:86-285 | over any run the counter grows; without a reset the log is extended by entries whose ids never decrease and lie above the old counter and up to the new one; after a reset the whole log is such entries |
| SimulatorProperties.ResetNeverReusesIds | src/TabPaneSimulator.test.jsx:86-109 | since reset keeps `logIdRef`, every id logged after a reset is above every id logged before it |
| SimulatorProperties.RunCapturedLog | src/TabPaneSimulator.test.jsx:86-285 | under the intended ids, over any run the counter grows; without a reset the log is extended by consecutive ids from the old counter; after a reset it is consecutive ids no lower than the old counter |
| SimulatorProperties.DrawConservesSide | src/TabPaneSimulator.test.jsx:155-158 | a draw moves one card from library to hand; the side holds the same cards |
| SimulatorProperties.AdvanceConservesCards | src/TabPaneSimulator.test.jsx:149-217 | next turn neither creates nor loses a card on either side |
| SimulatorProperties.PlayCardConservesCards | src/TabPaneSimulator.test.jsx:235-285 | a play moves one card from hand to zone, a rejected play moves none |
| SimulatorProperties.HandToZone | src/TabPaneSimulator.test.jsx:254-284 | moving one card from the hand to the magic zone or the battlefield keeps the side's cards |
| SimulatorProperties.TurnStepConservesCards | src/TabPaneSimulator.test.jsx:149-285 | next turn, end turn and play card keep each side's cards |
| SimulatorProperties.TurnRunConservesCards | src/TabPaneSimulator.test.jsx:149-285 | so does any sequence of them |
| SimulatorProperties.DealtSideCards | src/TabPaneSimulator.test.jsx:140-146 | right after dealing a side holds exactly its guardians, hand and library |
| SimulatorProperties.MatchHoldsTheDeck | src/TabPaneSimulator.test.jsx:88-147 | after reset and start each side holds exactly the deck's cards, and keeps holding them through the match |
| SimulatorView.SetupSide | src/TabPaneSimulator.test.jsx:121-127 | one side's block of start deals `DealSide` and consumes ten indices |
| SimulatorView.SetupMatch | src/TabPaneSimulator.test.jsx:117-136 | the expansion, the shuffle and the two side blocks of start compute both sides' `DealSide` from one permutation |
| SimulatorView.TabPaneSimulator.constructor | src/TabPaneSimulator.test.jsx:64-86 | the fields start as the initial state |
| SimulatorView.TabPaneSimulator.Log | src/TabPaneSimulator.test.jsx:160-167 | one `setBattleLog` call queues its message, and the counter moves on at once |
| SimulatorView.TabPaneSimulator.Rerender | src/TabPaneSimulator.test.jsx:84-86 | the render's loop runs the queued updaters in order, each appending its message under the counter as the handler left it: `Rendered` |
| SimulatorView.TabPaneSimulator.HandleClickReset | src/TabPaneSimulator.test.jsx:88-109 | the fields become `ClickReset` of the old ones; the invariant holds |
| SimulatorView.TabPaneSimulator.HandleClickStart | src/TabPaneSimulator.test.jsx:111-147 | the handler's loops and pops compute `ClickStart`; the invariant holds |
| SimulatorView.TabPaneSimulator.NextTurnAs | src/TabPaneSimulator.test.jsx:149-217 | the next-turn body for a given snapshot of the turn computes `Advance`, queuing its messages |
| SimulatorView.TabPaneSimulator.HandleClickNextTurn | src/TabPaneSimulator.test.jsx:149-217 | the handler and the render after it compute `Step` for next turn; the invariant holds |
| SimulatorView.TabPaneSimulator.HandleEndPlayerTurn | src/TabPaneSimulator.test.jsx:219-233 | the handler, with the nested call reading the captured turn, and the render after it compute `Step` for end turn; the invariant holds |
| SimulatorView.TabPaneSimulator.HandlePlayCard | src/TabPaneSimulator.test.jsx:235-285 | the handler and the render after it compute `Step` for a play; the invariant holds |
| SimulatorView.TabPaneSimulator.PlayCardBody | src/TabPaneSimulator.test.jsx:235-285 | the three checks in order, each failure setting its error and returning, then the move: `PlayCard` |
| SavedDecks.Reverse | src/TabPaneSave.jsx:78 | the reversed list has the same length and element `i` is element `n-1-i` |
| SavedDecks.FirstIndex | src/TabPaneSave.jsx:78-83 | -1 exactly for an absent code, else the first position with that code |
| SavedDecks.CodesIndex | src/TabPaneSave.jsx:79 | a code is among a list's codes exactly when some deck carries it |
| SavedDecks.KeepFirstCodes | src/TabPaneSave.jsx:74-84 | the kept decks are no more than the input and cover exactly its codes not yet seen |
| SavedDecks.KeepFirstPicks | src/TabPaneSave.jsx:74-84 | each kept deck is the first of its code, unseen before, in the order codes first occur |
| SavedDecks.KeepFirstSpec | src/TabPaneSave.jsx:74-83 | the kept decks cover exactly the unseen codes, each is the first deck of its code, in first-occurrence order |
| SavedDecks.KeepFirstDistinct | src/TabPaneSave.jsx:74-83 | no two kept decks share a code (a missing code counts as one code) |
| SavedDecks.KeepsOldestPerCode | src/TabPaneSave.jsx:44-83 | for a list in descending id order, the deck kept for a code has that code's lowest id |
| SavedDecks.ReverseCodes | src/TabPaneSave.jsx:78 | reversing keeps the set of codes |
| SavedDecks.Codes | src/TabPaneSave.jsx:80-81 | the codes a list holds; its contract is `SavedDecks.CodesIndex` |
| SavedDecks.KeepFirst | src/TabPaneSave.jsx:79-84 | the `forEach` with the seen-code set; its contracts are `SavedDecks.KeepFirstSpec`, `KeepFirstDistinct` and `KeepsOldestPerCode` |
| SavedDecks.Renumber | src/TabPaneSave.jsx:89-97 | the `map` that writes the kept decks back; its contract is `SavedDecks.RenumberSpec` |
| SavedDecks.Deduplicate | src/TabPaneSave.jsx:69-104 | `handleDeduplicateAndResetIds`; its contract is `SavedDecks.DeduplicateSpec` |
| SavedDecks.RenumberSpec | src/TabPaneSave.jsx:88-97 | the written decks carry ids and keys 1..n, increasing, and copy code, timestamp, main and side |
| SavedDecks.DeduplicateSpec | src/TabPaneSave.jsx:69-112 | the alert happens exactly for a missing or empty list; otherwise one deck per input code is stored with ids 1..n, and the same decks with old ids are sent |
| SavedDecks.DeduplicateAndResetIds | src/TabPaneSave.jsx:69-99 | the handler's loop with its seen-code set computes `Deduplicate` |
| SavedDecks.PartCount | src/TabPaneSave.jsx:247 | the heading's number is the length of the part's id list |
| SavedDecks.PartCountCopies | src/TabPaneSave.jsx:247 | each card's count is at most the heading's number and equals its occurrences in the id list |
| CardTable.BitOfAnd | src/TabPaneCard.js:136 | bit `k` of `a & b` is set exactly when it is set in both |
| CardTable.BitAnd | src/TabPaneCard.js:136 | `&` on non-negative integers; its contract is `CardTable.BitOfAnd` |
| CardTable.BitsDetermine | src/TabPaneCard.js:136 | numbers with the same bits are equal |
| CardTable.ColourCovers | src/TabPaneCard.js:136 | `(color & selected) === selected` exactly when every selected bit is a bit of the card's colour |
| CardTable.BitOfPow2 | src/TabPaneCard.js:19-28 | a power of two has exactly one bit |
| CardTable.ColourOptionIsOneBit | src/TabPaneCard.js:19-28 | each colour option but "all" is one bit, and it keeps a card exactly when that bit is set |
| CardTable.Show | src/TabPaneCard.js:134-138 | a row shows exactly when each filter is "all" or matches: equal expansion, type and term, colour bits covered |
| CardTable.AllFiltersOff | src/TabPaneCard.js:134-138 | with every filter at 0 every row shows |
| CardTable.NarrowingHides | src/TabPaneCard.js:134-138 | moving a filter from "all" to a value never shows more rows |
| CardTable.MinusDisabled | src/TabPaneCard.js:174-178 | for a well-formed deck the minus button is disabled exactly when the id is not among the deck's cards |

## Findings

| source | as written | input that shows it | evidently intended | confidence | as-written member | corrected member |
|---|---|---|---|---|---|---|
| src/TabPaneSimulator.test.jsx:222-229 | each `setBattleLog` updater reads `id: logIdRef.current` when React runs it, after every `+= 1` of the handler | "end turn" on the player's turn at counter `c` logs "your turn ended" and the draw both with id `c + 2`; the two `<li key={log.id}>` at line 405 share a key (likewise the enemy's next turn) | each entry carries the counter's value at its own call, `c` and `c + 1`, so ids strictly increase and keys are distinct | not executed | SimulatorProperties.EndTurnDuplicatesIds | SimulatorProperties.StepCapturedPreservesInvariant |

The view, its class and every other lemma follow the code as written (`Step`, `Rendered`). The
intended numbering is `RenderedCaptured`, used by `StepCaptured` and `RunCaptured`, for which
`StepCapturedLog`, `EndTurnCapturedIds` and `RunCapturedLog` prove consecutive ids.

## Left out

- `src/utils.js` is not part of this model. `sum` is taken to add up the values it is given (`Decks.Total`).
- Card catalog lookups (`dataCards.get`) are left out. They only supply display names and images, so the log messages carry the card id instead of its name.
- Reading the deck from a `Map` constructor with duplicate keys is left out. Decks are assumed well formed: distinct keys and positive counts.
- `Math.random` is a parameter (`js`). What this gives up is the uniform distribution of the shuffle: only the permutation property is proved.
- `handlePlayCard` with a zone other than `'magic'` or `'battlefield'` is left out. Such a play would fall through both branches and still remove the card from the hand, and the view never passes one.
- The TypeError on dereferencing a `null` library or hand (next turn before start, or start never called) is left out. It becomes a precondition: `CanAdvance`, and the hand being dealt for `PlayCard`.
- The lifecycle reducer is left out, including INTERRUPT on deck edits. The phase is a parameter and the handlers return the action they dispatch.
- React's eager path for a state update is left out. When the component has no other update pending, React may run the first updater at once, at the call, which would give that one entry the counter before its increment. Every handler that logs calls another setter first, except the enemy's next turn with an empty library, whose first entry could then carry `c` instead of `c + 2`. The model always runs the queue at the render.
- Dismissing the error alert (`setErrorMessage(null)` in its `onClose`) is left out.
- Rendering is left out, apart from the enable and show flags.
- `decksSaved.reverse()` reverses the live query's cached array in place. The model reverses a value, so that aliasing is not captured.
- Database writes (`db.decks.clear`, `add`) and the network call are left out. The model returns the list it would store and the list it would send. Their failure branches, which raise alerts, are left out too.
- CardTable.BitAnd: models `&` on non-negative integers only, without the conversion to 32-bit integers. The source's colour values are small non-negative numbers, for which the two agree.
- The increment and decrement handlers of the counter (`handleClick.js`) are not part of this model.
