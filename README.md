# Ludo Lounge game rules in Dafny

This project models the game-rules core of the Ludo Lounge web app (a Next.js
Ludo board game) and proves properties of that model. It covers four parts of
the program:

- **The turn engine** (`src/components/ludo/LudoGame.tsx`).
  - State: four players (red, green, yellow, blue), each with four token
    positions, plus the active colour, the dice value, the winner and the
    rolling flag.
  - Positions: -1 is in base, 0..51 is the main track, 106 is finished.
  - `movableTokens` chooses which tokens may move for the current dice.
  - `handleTokenMove` moves one token, checks for a win, passes the turn
    unless the roll was a 6, and clears the dice.
  - `handleDiceRoll` and the dice-enable condition accept a roll.
  - Modelled by module `LudoGame`: the state is the class `Game`, and the
    function `TokenMove` specifies a move.
- **The board topology** (`src/lib/ludo-constants.ts`).
  - Data: the 52-cell circular track, the four home paths, the eight safe
    squares and `isSafeSquare`.
  - The per-colour paths: `createPlayerPath` and `PATH_MAP` rotate the track
    to each colour's start and cut it to 51 cells.
  - The `BOARD_LAYOUT` cell list, built by pushes at module load.
  - Modelled by module `LudoConstants`.
- **The token-position decoder** inside `renderTokens`
  (`src/components/ludo/LudoBoard.tsx`).
  - It turns a token's integer position into a grid cell, or into nothing.
  - It marks a token movable, and a click forwards only the token index.
  - Modelled by module `LudoBoard`.
- **The offline setup screen** (`src/app/page.tsx`).
  - The colour choices offered to each player.
  - Editing one field of one player.
  - Building the players of a new game, and rejecting duplicate colours.
  - Modelled by module `SetupPage`.

Two small helper modules stand in for JavaScript features:

- `Wrappers` holds `Option` and `Result`.
- `JsArrays` holds `find`/`findIndex`, `flatMap` and the clamping `slice`.

How JavaScript idioms are modelled:

- `diceValue` is `Option<int>`. The guard `!diceValue` treats both `null` and
  `0` as no dice (`DiceSet`).
- A `find` that may miss returns an `Option`.
- Everything the source does with a whole collection (map/filter/flatMap) is a
  function.
- The code that changes state follows the source's form:
  - `handleTokenMove` and `handleDiceRoll` are methods of the `Game` class;
  - the `BOARD_LAYOUT` pushes are a method with a loop;
  - the setup screen's handlers are methods of the `Setup` class.

What the program does not do, and the model therefore leaves out too:

- The program implements no capture, no safe-square protection, no overshoot
  rejection and no home-stretch entry.
- A move whose target passes 51 writes 106 directly, so the engine never
  writes 101..105.
- The turn always cycles over the four initial players.

One consequence of the code is proved outright by `LudoBoard.PositionFiftyOneUndrawn`:

- A move from 45 with a 6 leaves a token on 51, a valid position.
- `PATH_MAP` has only the cells 0..50, so `renderTokens` draws nothing for that
  token.

Another is proved by `LudoGame.NoMoveIsStuck` and `LudoGame.GreenInBaseOnThreeIsStuck`:

- Nothing passes the turn when no token can move. With a dice value set and no
  movable token, every click is refused and the dice button stays disabled, so
  the game is stuck. Green with all four tokens in base rolling a 3 is such a
  state.

## Model

| member | source | states |
|---|---|---|
| JsArrays.FindIndex | src/components/ludo/LudoGame.tsx:75 | `findIndex`: the first index whose element satisfies the predicate, with none before it; no result exactly when no element satisfies it |
| JsArrays.Find | src/lib/ludo-constants.ts:66 | `find`: a satisfying element of the list, and nothing exactly when no element satisfies the predicate |
| JsArrays.FindAt | src/lib/ludo-constants.ts:66 | `find` returns the element at the first satisfying index: when index n satisfies the predicate and no earlier one does, `findIndex` gives n and `find` gives element n |
| JsArrays.FlatMap | src/components/ludo/LudoBoard.tsx:25 | `flatMap`: the results for each element, concatenated in order; specified by FlatMapUniform |
| JsArrays.FlatMapUniform | src/components/ludo/LudoBoard.tsx:25 | `flatMap` with w results per element has w entries per element, and entry w·p + k is result k for element p |
| JsArrays.SliceFrom | src/lib/ludo-constants.ts:108 | `slice(from)`: length clamped to the empty sequence past the end, elements shifted by `from` |
| JsArrays.SliceTo | src/app/page.tsx:44 | `slice(0, to)`: the first `min(to, length)` elements, unchanged |
| LudoConstants.ColorRank | src/lib/ludo-constants.ts:3-8 | the position of each colour in the declared order red, green, yellow, blue |
| LudoConstants.AbsolutePathDistinct | src/lib/ludo-constants.ts:30-44 | the track has exactly 52 pairwise distinct grid cells |
| LudoConstants.TrackIndexOfTrack | src/lib/ludo-constants.ts:30-44 | every track cell is recovered from its row and column as its own track index |
| LudoConstants.IsSafeSquare | src/lib/ludo-constants.ts:64-67 | `isSafeSquare`: a `find` over the eight safe cells by row and column; specified by IsSafeSquareSpec and IsSafeSquareOnTrack |
| LudoConstants.IsSafeSquareSpec | src/lib/ludo-constants.ts:53-67 | `isSafeSquare` is false on a missing position, and otherwise holds iff row and column match the track cell at one of the indices 0, 8, 13, 21, 26, 34, 39, 47 |
| LudoConstants.IsSafeSquareOnTrack | src/lib/ludo-constants.ts:53-67 | the track cell at index i is safe iff i is one of the eight safe indices |
| LudoConstants.StartIndex | src/lib/ludo-constants.ts:114 | the start offsets are 0, 13, 26, 39: thirteen times the colour's rank |
| LudoConstants.StartCellIsSafe | src/lib/ludo-constants.ts:54-61 | each colour's start cell is a safe square |
| LudoConstants.CreatePlayerPath | src/lib/ludo-constants.ts:107-112 | the rotated and truncated path has length min(51, n) and entry i is path[(start + i) mod n] |
| LudoConstants.PathMap | src/lib/ludo-constants.ts:116-122 | `PATH_MAP[c]` has 51 cells and entry i is track cell (start + i) mod 52 |
| LudoConstants.PathMapCoversTrack | src/lib/ludo-constants.ts:108-111 | `PATH_MAP[c]` has no repeated cell, omits the track cell (start + 51) mod 52, and contains every other track cell |
| LudoConstants.PathPositionOf | src/lib/ludo-constants.ts:108-111 | every track cell other than the omitted one has a path position i < 51 |
| LudoConstants.HomePathsHaveSixCells | src/lib/ludo-constants.ts:46-51 | each colour's home path has exactly six cells |
| LudoConstants.ColorName | src/lib/ludo-constants.ts:92-95 | the colour keys "red", "green", "yellow", "blue" used in cell ids |
| LudoConstants.NatToString | src/lib/ludo-constants.ts:83 | a one-digit number is written as its digit |
| LudoConstants.NatToStringRoundTrip | src/lib/ludo-constants.ts:83 | the decimal text of an index parses back to the index, so `path-main-i` ids are distinct |
| LudoConstants.BuildBoardLayout | src/lib/ludo-constants.ts:69-103 | the module-load pushes build exactly the layout `BoardLayout()`: fixed cells, path cells, home cells |
| LudoConstants.PushPathCells | src/lib/ludo-constants.ts:81-89 | the `forEach` over the track appends exactly one path cell per track cell, with its index, in order |
| LudoConstants.PushHomeCells | src/lib/ludo-constants.ts:93-102 | the `forEach` over one colour's home path appends exactly one home cell per path cell, in order |
| LudoConstants.HomeCellsOfLength | src/lib/ludo-constants.ts:92-103 | the home cells of n colours number 6n |
| LudoConstants.HomeCellsOfAt | src/lib/ludo-constants.ts:92-103 | home cell i of the c-th colour sits at slot 6c + i of the home-cell block |
| LudoConstants.BoardLayout | src/lib/ludo-constants.ts:69-103 | `BOARD_LAYOUT` once loaded: fixed cells, then path cells, then home cells; built by BuildBoardLayout and specified by BoardLayoutShape, BoardLayoutPathCell and BoardLayoutHomeCell |
| LudoConstants.BoardLayoutShape | src/lib/ludo-constants.ts:69-78 | the layout has 81 cells and starts with the five fixed cells |
| LudoConstants.BoardLayoutPathCell | src/lib/ludo-constants.ts:81-89 | cell 5 + i is the path cell `path-main-i` at track cell i, with `isSafe` set iff i is a safe index |
| LudoConstants.BoardLayoutHomeCell | src/lib/ludo-constants.ts:92-103 | home cell i of colour c is `c-h(i+1)`, at home-path cell i, coloured c, with `isSafe` true |
| LudoGame.MovableIndices | src/components/ludo/LudoGame.tsx:53-57 | the movable indices are strictly increasing and in range; an index is in the list iff its token is not finished and, if in base, the dice is 6 |
| LudoGame.FindPlayer | src/components/ludo/LudoGame.tsx:50 | the found index holds the colour; no result only when no player has it |
| LudoGame.MovableTokens | src/components/ludo/LudoGame.tsx:46-58 | empty without a dice value (null or 0) and without a player of the active colour; otherwise the movable indices of that player's tokens |
| LudoGame.MovedPosition | src/components/ludo/LudoGame.tsx:80-90 | a valid movable token under a dice of 1..6 strictly advances to a valid position; a base token without a 6 stays put |
| LudoGame.NextColor | src/components/ludo/LudoGame.tsx:103-105 | the turn passes to the next colour in red, green, yellow, blue order, wrapping after blue |
| LudoGame.NextColorCycle | src/components/ludo/LudoGame.tsx:103-105 | the turn returns to a colour after exactly four passes |
| LudoGame.InitialStateValid | src/components/ludo/LudoGame.tsx:31-43 | the initial state keeps the invariant and, with the initial 6, every token of red is movable |
| LudoGame.ActivePlayerFound | src/components/ludo/LudoGame.tsx:50 | in a valid state the active player is found at its colour's rank |
| LudoGame.AcceptedMove | src/components/ludo/LudoGame.tsx:70-109 | an accepted move is of a movable token of a player who has not won, and replaces exactly that player, the winner, the turn and the dice |
| LudoGame.MovePlayer | src/components/ludo/LudoGame.tsx:77-96 | the active player after the move: one token moved, 'won' once all are finished; specified by MovePlayerValid and TokenMoveChangesOneToken |
| LudoGame.TokenMove | src/components/ludo/LudoGame.tsx:70-109 | `handleTokenMove` as a state transition; specified by TokenMoveRejected, TokenMoveChangesOneToken, TokenMoveWinner, TokenMoveTurn and TokenMovePreservesValid, and implemented by Game.HandleTokenMove |
| LudoGame.TokenMoveRejected | src/components/ludo/LudoGame.tsx:71 | with no dice or an index outside `movableTokens`, a move leaves the whole state unchanged |
| LudoGame.NoMoveIsStuck | src/components/ludo/LudoGame.tsx:59-71 | with a dice value set and no movable token, every click leaves the state unchanged and the dice stays disabled (line 160): there is no auto-pass |
| LudoGame.GreenInBaseOnThreeIsStuck | src/components/ludo/LudoGame.tsx:46-57 | green with every token in base rolling a 3 is a valid state with a dice set and nothing movable |
| LudoGame.BaseOnlyIsStuck | src/components/ludo/LudoGame.tsx:46-57 | an active player with every token in base and a dice value other than 6 has no movable token |
| LudoGame.NothingMovable | src/components/ludo/LudoGame.tsx:53-57 | when no token passes the map callback, the filtered list is empty |
| LudoGame.TokenMoveChangesOneToken | src/components/ludo/LudoGame.tsx:75-90 | an accepted move changes only the chosen token of the active player (base to 0 on a 6, else p + d up to 51, else 106), strictly increasing it to a valid position; all other tokens and players are unchanged |
| LudoGame.TokenMoveWinner | src/components/ludo/LudoGame.tsx:93-96 | after a move the mover is won iff all its tokens are 106, and the winner becomes the mover exactly then |
| LudoGame.TokenMoveTurn | src/components/ludo/LudoGame.tsx:101-108 | after a move the dice is cleared; the turn stays after a 6 and passes to the next colour otherwise |
| LudoGame.MovePlayerValid | src/components/ludo/LudoGame.tsx:77-96 | moving a movable token keeps the player valid: four valid positions, won iff all finished |
| LudoGame.TokenMovePreservesValid | src/components/ludo/LudoGame.tsx:70-109 | every move, accepted or not, preserves the state invariant |
| LudoGame.RollEnabled | src/components/ludo/LudoGame.tsx:160 | the dice button's enable condition: not rolling, no winner, no pending value; specified through Game.Roll and NoMoveIsStuck |
| LudoGame.Game.constructor | src/components/ludo/LudoGame.tsx:39-43 | the component starts in the initial state, which is valid |
| LudoGame.Game.HandleDiceRoll | src/components/ludo/LudoGame.tsx:60-68 | the new state is the old one with the dice value set and the rolling flag cleared; nothing else changes |
| LudoGame.Game.Roll | src/components/ludo/LudoGame.tsx:155-160 | a roll is accepted iff not rolling, no winner and no dice value; an accepted roll sets the dice value and clears the rolling flag, and nothing else, after which the button is disabled; a refused roll changes nothing |
| LudoGame.Game.HandleTokenMove | src/components/ludo/LudoGame.tsx:70-109 | the in-place move leaves exactly the state `TokenMove` specifies and keeps the invariant |
| LudoBoard.BaseCellIndex | src/lib/ludo-constants.ts:71-74 | the fixed cell at this index is the colour's base |
| LudoBoard.BaseSlots | src/lib/ludo-constants.ts:71-74 | every base cell lists four token slots |
| LudoBoard.BaseCellLookup | src/components/ludo/LudoBoard.tsx:31-32 | the base lookup finds the colour's fixed base cell, which carries its item positions |
| LudoBoard.HomeCellLookup | src/components/ludo/LudoBoard.tsx:35-36 | the id lookup for `c-h(i+1)` finds the home cell at its own layout slot and no earlier cell |
| LudoBoard.TokenGridPos | src/components/ludo/LudoBoard.tsx:28-45 | the position decoder of `renderTokens`; specified by TokenGridPosCases and its per-case lemmas |
| LudoBoard.TokenGridPosCases | src/components/ludo/LudoBoard.tsx:28-45 | -1 gives the base slot (none past slot 3), 101..106 give home-path cell pos - 101, 0..50 give track cell (start + pos) mod 52, and 51, below -1, 52..100 and above 106 give nothing |
| LudoBoard.TokenInBase | src/components/ludo/LudoBoard.tsx:30-33 | a token in base sits on its colour's base slot, or nowhere past slot 3 |
| LudoBoard.TokenOnHomePath | src/components/ludo/LudoBoard.tsx:34-38 | a position 101..106 sits on home-path cell pos - 101 of its colour |
| LudoBoard.TokenOnTrack | src/components/ludo/LudoBoard.tsx:39-42 | a position 0..50 sits on track cell (start + pos) mod 52 |
| LudoBoard.PositionFiftyOneUndrawn | src/components/ludo/LudoBoard.tsx:39-42 | position 51 is reachable by a move yet decodes to no cell |
| LudoBoard.IsMovable | src/components/ludo/LudoBoard.tsx:47 | the movable mark: active owner and index in `movableTokens`; specified by IsMovableSpec |
| LudoBoard.IsMovableSpec | src/components/ludo/LudoBoard.tsx:47 | a token is marked movable iff its owner is active, a dice is set, and it is not finished and not in base without a 6 |
| LudoBoard.PlayerTokenViews | src/components/ludo/LudoBoard.tsx:26-47 | one entry per token of the player, entry k being token k's drawn cell and movable mark |
| LudoBoard.RenderTokens | src/components/ludo/LudoBoard.tsx:24-71 | `renderTokens`: the token entries of every player, player by player; specified by RenderTokensAt |
| LudoBoard.RenderTokensAt | src/components/ludo/LudoBoard.tsx:24-47 | with four tokens per player the flattened list has four entries per player, and entry 4p + k is token k of player p, drawn where the decoder puts it and marked by `IsMovable` |
| LudoBoard.TokenClicked | src/components/ludo/LudoBoard.tsx:63 | a click on any token moves as `TokenMove` with that token's index only |
| LudoBoard.ClickMovesActiveToken | src/components/ludo/LudoGame.tsx:70-77 | a click on token k of an inactive player leaves that player alone and moves the active player's token k |
| SetupPage.SelectedColors | src/app/page.tsx:43-46 | a colour is selected iff some other entry among the first numPlayers holds it |
| SetupPage.OthersColors | src/app/page.tsx:45-46 | the map-to-null-and-filter keeps exactly the colours of the entries other than the current one |
| SetupPage.Without | src/app/page.tsx:47 | the filter keeps exactly the colours not excluded, in their order |
| SetupPage.AvailableColors | src/app/page.tsx:42-48 | a colour is offered iff no other player among the first numPlayers holds it; the offer is in declared colour order |
| SetupPage.ChangePlayer | src/app/page.tsx:36-40 | only the named field of entry i changes; every other entry and field is kept |
| SetupPage.SetSizeDistinct | src/app/page.tsx:59 | the set of colours is as large as the list iff no colour occurs twice |
| SetupPage.StartGame | src/app/page.tsx:50-62 | rejected with the unique-colour message iff two of the first numPlayers share a colour; otherwise one fresh playing player per entry, in order, tokens all -1 |
| SetupPage.GreenOfferedToFirstOfTwo | src/app/page.tsx:25-30 | with the defaults and two players, player 1 is offered green |
| SetupPage.DefaultTwoPlayersStart | src/app/page.tsx:50-62 | the default two-player configuration starts |
| SetupPage.DuplicateAfterCountChange | src/app/page.tsx:32-62 | after player 1 takes green, switching to four players makes the start fail |
| SetupPage.Setup.constructor | src/app/page.tsx:24-30 | two players and the four default configurations |
| SetupPage.Setup.HandlePlayerCountChange | src/app/page.tsx:32-34 | sets the count to the chosen 2 or 4 and keeps the configurations |
| SetupPage.Setup.HandlePlayerChange | src/app/page.tsx:36-40 | for an entry the screen shows (index below numPlayers), replaces the configurations by `ChangePlayer` of the old ones |

## Left out

- The dice's randomness, its animation timer and the rolling flag's `true` phase (`src/components/ludo/Dice.tsx`) are left out. The rolled value is an input in 1..6, and the model's `isRolling` is never set to true.
- The dice calls `onRoll` on every animation tick. A move made between two of these calls is not modelled; each roll is one `HandleDiceRoll`.
- Aliasing is not modelled. `handleTokenMove` writes the tokens and state of the player object in place, and that object is shared with the previous state and with `initialPlayers`. The model treats a player as a value. A visible consequence it does not capture: the moves of one game write into the player objects of the module-level `initialPlayers`, so a later mount of `LudoGame` in the same page session starts with the previous game's tokens and `won` state, whereas `Game.constructor` always starts from `InitialState`.
- The game page receives the setup screen's players but `LudoGame` never reads them; it always starts from `initialPlayers`. The wiring in `src/app/game/[id]/game-page-content.tsx` is not part of this model.
- `PlayerCard` counts finished tokens against `FINISHED_POS = 56`, while the engine writes 106. `PlayerCard` is display only and is not part of this model.
- The constants `START_POS`, `HOME_PATH_START_POS` and `FINISHED_POS` (src/lib/ludo-constants.ts:23-25): the engine never reads them and writes 0, 51 and 106 directly, and `FINISHED_POS` is read only by `PlayerCard` (see above).
- Capture, safe-square protection, overshoot rejection, home-stretch entry, auto-pass and extra turns for capture are not modelled, because the source does not implement them.
- LudoBoard.TokenGridPos: a base slot index past 3 reads `undefined` in the source and would fail when the token is drawn. The model returns no cell there, which is the same as not drawing the token.
- JsArrays.SliceFrom, JsArrays.SliceTo: only non-negative bounds are modelled. Every call in the core passes a non-negative one.
- SetupPage.Setup.HandlePlayerCountChange: takes the parsed count. The radio group offers only 2 and 4, so `parseInt` of other text is not modelled.
- Everything after the uniqueness check in `handleStartGame` is left out: `router.push`, the JSON-encoded query and the `Date.now()` room id.
- JSX, styling and animations are left out. So are the toasts, the `alert` on a duplicate colour and the winner dialog.
- The lobby and register pages are static markup and navigation, so they are not part of this model.
