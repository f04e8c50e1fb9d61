# GCoin game cores in Dafny

A Dafny model of the three pieces of the GCoin rewards application that hold
real state-machine logic. Each piece is modelled and then proved correct:

- **Block Blast** (`block_blast.dfy`, module `BlockBlast`). The grid puzzle:
  a 10 x 10 grid of `Empty | Normal | Gold | GameCoin` cells, a score, a combo
  counter and a one-way game-over flag. One cell is filled per turn with a
  block whose type is drawn from `[Normal, Normal, Normal, Gold, GameCoin]`.
  The game ends when no cell is empty. Full rows are then emptied. Each
  cleared row pays 5 credits per gold cell and 1 gamecoin per gamecoin cell.
  Credits are scaled by the combo multiplier `min(3, 1 + 0.5 * combo)` and
  floored. The score grows by 100 per cleared row.
  The turn is specified on values (`State`, `ResolveRows`, `Turn`). The class
  `Game` keeps the grid in an `array2`, and its methods are proved to follow
  those functions.
- **In-memory store** (`storage.dfy`, module `Storage`). The server's
  `MemStorage`: a `map` of users keyed by an auto-incremented id, with
  lookups by id and by username and balance updates. It also holds the
  collectibles generated around seven cities, 3 to 20 per city according to
  population.
- **Memory game** (`memory_game.dfy`, module `Memory`). Sixteen cards carry
  the eight-symbol list twice. Cards are turned two at a time. A match
  keeps both face up. A mismatch locks the board until a timer turns both
  back. The click that matches the last pair sends a reward of 10 credits
  and 1 gamecoin. The board is specified on values (`Board`, `Click`,
  `MismatchTimeout`, `Initialize`) with a consistency invariant. The class
  `MemoryGame` follows those functions.

`wrappers.dfy` holds the `Option` and `Result` types they share. `shared.dfy`
(module `Shared`) holds the `Reward` payload sent to the server and `Min`/`Max`.

Randomness is passed in as parameters:
- the block-type index `pick`;
- the exchanges performed by the random sort that shuffles the deck;
- the collectible draws, each a value `d` read as `d % 10^6 / 10^6`.

A reward sent to the server is returned as a value. The mismatch timer is an
explicit second step. Each React handler is one sequential step.

`block-blast.tsx` places one cell per click (lines 103-109), scans rows
only for clearing (line 69), and ends the game when the grid has no empty
cell (lines 117-119); the model does the same.

One consequence is proved in `BlockBlast.TurnKeepsPlayable`. With the turn
in its intended order, a row is cleared in the same turn that fills it. So
between turns no row is full, the grid always has an empty cell, and the
game-over flag is never set in play.

## Model

| member | source | states |
|---|---|---|
| `BlockBlast.GenerateBlock` | client/src/components/games/block-blast.tsx:54-60 | a generated block is never `Empty`; indices 0-2 give `Normal`, index 3 `Gold` and index 4 `GameCoin` |
| `BlockBlast.Place` | client/src/components/games/block-blast.tsx:106-109 | placement sets cell (row, col) to the block and leaves every other cell and every row length unchanged |
| `BlockBlast.PlaceUsesOneEmptyCell` | client/src/components/games/block-blast.tsx:104-109 | placing a non-empty block into an empty cell lowers the empty-cell count by exactly one |
| `BlockBlast.HasEmptyIffEmptyCells` | client/src/components/games/block-blast.tsx:117 | the game-over test "some cell is empty" holds exactly when the empty-cell count is positive |
| `BlockBlast.ClearFullRows` | client/src/components/games/block-blast.tsx:69-80 | a full row becomes all `Empty`; a row that is not full is left exactly as it was |
| `BlockBlast.ComboCredits` | client/src/components/games/block-blast.tsx:83-85 | multiplied credits lie between the base and three times the base; combo 0 leaves them alone, combo 4 or more triples them |
| `BlockBlast.ComboCreditsIsFlooredProduct` | client/src/components/games/block-blast.tsx:84-85 | the integer form equals floor(base * min(3, 1 + 0.5 * combo)) computed over the reals |
| `BlockBlast.ResolveRows` | client/src/components/games/block-blast.tsx:62-101 | with some row full: the grid becomes the grid with its full rows emptied, the score rises by exactly 100 per full row, the combo rises by 1, and the reward (combo-scaled credits, unscaled gamecoins) is emitted exactly when something was earned; with no full row only the combo is reset to 0 and nothing is paid; the game-over flag is kept |
| `BlockBlast.FullRowsPositive` | client/src/components/games/block-blast.tsx:69-87 | the number of cleared rows is positive exactly when some row is full |
| `BlockBlast.ResolveRowsChangesGridIffFull` | client/src/components/games/block-blast.tsx:87-100 | the grid changes exactly when some row is full; with no full row, the score and grid stay and only the combo drops to 0 |
| `BlockBlast.BaseRewardsAdditive` | client/src/components/games/block-blast.tsx:69-79 | cleared rows, base credits and gamecoins are sums of per-row amounts over any split of the grid |
| `BlockBlast.ResolveRowsLeavesNoFullRow` | client/src/components/games/block-blast.tsx:69-80 | after row clearing no row of the grid is full |
| `BlockBlast.Turn` | client/src/components/games/block-blast.tsx:103-127 | a click on an occupied cell or after game over changes nothing and emits nothing; game over is one-way; otherwise game over is set exactly when the grid after placement has no empty cell; the score never drops |
| `BlockBlast.NewGame` | client/src/components/games/block-blast.tsx:129-138 | a new game has an all-empty 10 x 10 grid, score 0, combo 0 and is not over |
| `BlockBlast.TurnKeepsPlayable` | client/src/components/games/block-blast.tsx:103-127 | from a square grid with no full row and the game not over, every turn leads to such a state again, so game over is never reached |
| `BlockBlast.NewGameIsPlayable` | client/src/components/games/block-blast.tsx:129-138 | the new-game state is square, has no full row and is not over |
| `BlockBlast.AsWrittenTurn` | client/src/components/games/block-blast.tsx:62-127 | the turn as written: row clearing reads the grid from before the placement; a rejected click changes nothing |
| `BlockBlast.AsWrittenLeavesCompletedRow` | client/src/components/games/block-blast.tsx:64-99 | as written, the placement that completes a row leaves it full and resets the combo; the intended turn clears it and scores it |
| `BlockBlast.AsWrittenDropsPlacedBlock` | client/src/components/games/block-blast.tsx:64-93 | as written, when the earlier grid had a full row, the block just placed is lost; the intended turn keeps it |
| `BlockBlast.Game.constructor` | client/src/components/games/block-blast.tsx:26-33 | the initial state is the new-game state, on a fresh array |
| `BlockBlast.Game.ResetGame` | client/src/components/games/block-blast.tsx:129-138 | resetting installs a fresh all-empty grid and zeroes score, combo and game over |
| `BlockBlast.Game.RowIsFull` | client/src/components/games/block-blast.tsx:70 | the row test answers whether the row has no empty cell |
| `BlockBlast.Game.RowRewards` | client/src/components/games/block-blast.tsx:72-75 | the tally of a row is 5 credits per gold cell and 1 gamecoin per gamecoin cell |
| `BlockBlast.Game.EmptyRowAt` | client/src/components/games/block-blast.tsx:78 | emptying a row sets its cells to `Empty` and leaves every other row untouched |
| `BlockBlast.Game.HasEmptyCell` | client/src/components/games/block-blast.tsx:117 | the scan answers whether the grid has an empty cell |
| `BlockBlast.Game.ScanRows` | client/src/components/games/block-blast.tsx:63-81 | the row pass leaves the grid with its full rows emptied; it returns the number of full rows, their base credits and their gamecoins |
| `BlockBlast.Game.CheckLines` | client/src/components/games/block-blast.tsx:62-101 | the state and emitted reward after `checkLines` are those of `ResolveRows` on the state before it: full rows emptied in place, +100 score per row, combo +1, the combo-scaled reward when earned; otherwise only the combo reset |
| `BlockBlast.Game.PlaceBlock` | client/src/components/games/block-blast.tsx:103-127 | the state and emitted reward after a click are those of `Turn` on the state before it, with the drawn block type |
| `Storage.CollectibleCount` | server/storage.ts:56 | a city gets population / 100000 collectibles, raised to 3 or lowered to 20 when outside that range |
| `Storage.MakeCollectible` | server/storage.ts:64-73 | a collectible is a gamecoin exactly when the draw is below population / 10^7; a gamecoin is worth 1; credits are worth 1 to population / 10^6 + 1 |
| `Storage.CreditAmountIsFlooredProduct` | server/storage.ts:70 | a credit's amount equals floor(draw * (population / 10^6)) + 1 computed over the reals, the draw read as d / 10^6 |
| `Storage.CreditAmountIsMonotone` | server/storage.ts:69-70 | more population, or a larger draw, never gives a credit collectible a smaller amount |
| `Storage.CityBatchShape` | server/storage.ts:58-74 | a city's batch has the requested length and every collectible in it is well formed |
| `Storage.AllCollectiblesShape` | server/storage.ts:53-75 | there are as many collectibles as the per-city counts add up to, between 3 and 20 per city, and each is worth at least 1 (a gamecoin exactly 1) |
| `Storage.MemStorage.constructor` | server/storage.ts:26-34 | a new store has no users, hands out ids from 1, and holds the generated collectibles |
| `Storage.MemStorage.GenerateCollectibles` | server/storage.ts:36-76 | the pushed collectibles are, city by city, each city's clamped number of collectibles |
| `Storage.MemStorage.PushCityCollectibles` | server/storage.ts:58-74 | the per-city loop appends exactly that city's batch |
| `Storage.MemStorage.GetUser` | server/storage.ts:78-80 | lookup by id finds the stored user exactly when the id is stored; in a valid store that is exactly ids 1 to currentId - 1, and the user carries that id |
| `Storage.MemStorage.GetUserByUsername` | server/storage.ts:82-86 | the search returns a stored user with that name, the first one in insertion order; it returns nothing only when no stored user has that name |
| `Storage.MemStorage.CreateUser` | server/storage.ts:88-98 | the new user gets the old `currentId` and zero balances; that id was unused; only that key is added; `currentId` goes up by 1 |
| `Storage.MemStorage.UpdateUserBalance` | server/storage.ts:100-115 | an unknown id fails with "User not found" and changes nothing; otherwise only that user's balances grow by the amounts, and the updated user is returned |
| `Memory.Swap` | client/src/components/game/memory-game.tsx:46-47 | one exchange of the random sort keeps the length and the multiset of symbols |
| `Memory.Shuffle` | client/src/components/game/memory-game.tsx:46-47 | the shuffled list is a rearrangement of the doubled symbol list (same length, same multiset) |
| `Memory.InitializeDeck` | client/src/components/game/memory-game.tsx:16-55 | a new deck has 16 cards with id = position, all face down and unmatched, and holds exactly twice the symbol list (so each symbol an even number of times); nothing is turned |
| `Memory.Initialize` | client/src/components/game/memory-game.tsx:45-56 | `initializeGame` deals 16 cards numbered by position, face down and unmatched, whose symbols are a rearrangement of the list twice; nothing is turned, and the lock and any armed timer are left as they were |
| `Memory.Click` | client/src/components/game/memory-game.tsx:58-105 | a click while locked, with two cards turned, on a matched card or on a turned card changes nothing; otherwise only the clicked card (and the first card, on a second click) changes; a first click turns the card up and records it; a matching second click marks both matched, clears the turned list and unlocks; a mismatching one locks the board with the pair pending and neither matched; the reward sent is 10 credits and 1 gamecoin, only when two cards were unmatched |
| `Memory.MismatchTimeout` | client/src/components/game/memory-game.tsx:92-102 | the timer turns exactly the two pending cards face down, keeping everything else about them and every other card unchanged; nothing is turned, the board is unlocked and the timer is cleared |
| `Memory.UnmatchedFlipUp` | client/src/components/game/memory-game.tsx:64-68 | turning a card face up does not change the number of unmatched cards |
| `Memory.UnmatchedMarkMatched` | client/src/components/game/memory-game.tsx:77-83 | marking a pair removes exactly the unmatched ones among the two from the unmatched count |
| `Memory.ClickKeepsConsistent` | client/src/components/game/memory-game.tsx:58-105 | a click keeps the board consistent: at most two cards turned, the turned list is exactly the face-up unmatched cards, and the board is locked exactly while the timer is armed |
| `Memory.MismatchTimeoutKeepsConsistent` | client/src/components/game/memory-game.tsx:91-102 | the timer turning the two cards back keeps the board consistent |
| `Memory.InitializeKeepsConsistent` | client/src/components/game/memory-game.tsx:45-56 | dealing a new deck keeps the board consistent, even while a timer is armed |
| `Memory.ClickRewardIffCompleted` | client/src/components/game/memory-game.tsx:87-90 | the completion reward is sent exactly on the click after which no card is unmatched while some were before |
| `Memory.MemoryGame.constructor` | client/src/components/game/memory-game.tsx:19-21 | the initial state has no cards, nothing turned, is unlocked, and is consistent |
| `Memory.MemoryGame.InitializeGame` | client/src/components/game/memory-game.tsx:45-56 | the new state is `Initialize` of the old one and stays consistent |
| `Memory.MemoryGame.HandleCardClick` | client/src/components/game/memory-game.tsx:58-105 | the new state and the reward sent are those of `Click` on the old state, which stays consistent |
| `Memory.MemoryGame.ResolveMismatch` | client/src/components/game/memory-game.tsx:92-102 | the new state is `MismatchTimeout` of the old one: the two cards are face down, nothing is turned, and the board is unlocked |

## Findings

| source | as written | input that shows it | evidently intended | confidence | as-written member | corrected member |
|---|---|---|---|---|---|---|
| client/src/components/games/block-blast.tsx:64 | `checkLines` scans the grid captured before the placement, so the row a placement completes is not cleared in that turn | a grid whose row 0 holds nine blocks, with (0,9) empty and no full row; placing at (0,9) leaves row 0 full, adds no score and resets the combo | the completed row is cleared and scored in the same turn | not executed; follows from the closure capturing the rendered state | `BlockBlast.AsWrittenLeavesCompletedRow` | `BlockBlast.ResolveRowsLeavesNoFullRow` |
| client/src/components/games/block-blast.tsx:88-93 | when that stale grid has a full row, `checkLines` stores the grid it cleared from the stale copy, overwriting the grid that holds the new block | after the previous case, placing at (5,5) clears row 0 and leaves (5,5) empty | the placed block stays on the grid | not executed; follows from the closure capturing the rendered state | `BlockBlast.AsWrittenDropsPlacedBlock` | `BlockBlast.Turn` |

The rest of the model uses the corrected turn `BlockBlast.Turn`.

## Left out

- Block ids: the block id is never read by the component, so it is not modelled.
- Rendering: the colour and symbol helpers and all JSX.
- Side effects: toasts, the React Query mutations and query invalidation. A reward POST is modelled as the returned `Option<Reward>`.
- The Express route that forwards to `updateUserBalance` with `|| 0` defaulting, and authentication.
- The session store.
- The map component's geolocation and haversine distance.
- Collectible latitude and longitude, which are floating-point offsets.
- `getCollectibles`: it only returns the stored list.
- Randomness: `Math.random` becomes the parameters described above. The bias of shuffling with a random comparator is not modelled; any sequence of exchanges is allowed.
- Timing: the one-second delay of the mismatch timer is not modelled. The timer is an explicit step, and a click in between is refused because the board is locked.
- Integers: JavaScript numbers are doubles; scores, combos and balances are unbounded integers here.
- `BlockBlast.Game.PlaceBlock`: requires row and column inside the grid. The component only calls it from the grid's own buttons, and an index outside would throw when reading the cell.
- `Memory.MemoryGame.HandleCardClick`: requires an existing card id. The component only calls it from a rendered card, and a missing card would throw.
- `Storage.MemStorage.GetUserByUsername`: models map iteration order as ascending id order. That is the insertion order, because only `createUser` inserts keys and it inserts them in ascending order. The store does not enforce unique usernames; the database schema's unique constraint is not part of the in-memory store.
- `Storage.MemStorage.UpdateUserBalance`: amounts may be any integers, as in the source; non-negative amounts are not enforced.
