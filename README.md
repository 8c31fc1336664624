# English draughts engine: a Dafny model

This project models the engine of a C# English-draughts (checkers) program. It covers:

- the board primitives: points with the `Nop` sentinel, the four diagonal directions, sides and figures;
- the 64-bit bitboard `SquareBoard`;
- move steps and move sequences;
- the English draughts rules engine, which enumerates simple moves and depth-first capture chains;
- the move commands and the chain that applies a sequence to a board;
- the material scoring;
- the negamax bot with alpha-beta pruning, sequential path only;
- the `Flatten` helper and the standard opening layout;
- the sequential bookkeeping of the two game orchestrators: the turn-counting game with undo and redo stacks, and the player-against-bot game.

Each module follows one source type:

| module | models |
|---|---|
| `Points`, `Directions`, `Sides`, `GameSides`, `Figures` | the board primitives |
| `Boards`, `BoardLemmas` | the value-typed bitboard, with its update functions and their laws |
| `MutableBoards` | the same bitboard as a class whose methods update its masks in place |
| `MoveSteps`, `MoveSequences` | steps and sequences |
| `Rules`, `RulesEngine`, `RulesLemmas` | the rules |
| `Commands`, `MoveCommands`, `RunLemmas` | the move applier |
| `Scoring` | the material scoring |
| `NegaMax`, `NegaMaxBots`, `NegaMaxLemmas`, `NegaMaxPruning` | the bot |
| `RulesExtensions` | `Flatten` |
| `DraughtsBoardBuilder` | the opening layout |
| `GameHistory` | the undo entries |
| `CoreGames` | `Checkers.Core/Game.cs` |
| `DraughtsGames` | `Checkers.Core/Game/Game.cs` |

## How it is modelled

The imperative parts are classes and loops with invariants, proved against pure specification functions. The properties are proved about those functions:

- `MutableBoard.GetAll` is proved against `Boards.AllOf`.
- `EnglishDraughtsRules.GetMoves` and its recursive `BuildJumpSequences` are proved against `Rules.Moves` and `Rules.JumpSequences`.
- `MoveCommandChain.Execute` is proved against `Commands.Run`.
- `NegaMaxBot.Negamax` is proved against `NegaMax.Node`.
- `CoreGames.Game.Undo` is proved against `CoreGames.Undone`.

A 64-bit mask is modelled as the set of its 1-bit indices, all below 64. A cell's index is `Size * col + row`, as in the source, and `BitInjective` and `BitSurjective` show it is a bijection onto `0 .. Size*Size-1`. `SquareBoard` is a C# struct, so it is modelled as an immutable value: every command gets its own copy.

The rules and the scoring are parameters of the bot and of the games (`RulesFn`, `ScoringFn`, `RulesProvider`). The bot requires:

- that the rules list only sequences that `MoveCommandChain` can execute (`RulesWellFormed`);
- that the scoring stays within `-2^31+2 .. 2^31-2` (`ScoringInRange`). The root window starts at `Int32.MinValue+1`, so negating a score never overflows.

For the English rules, `DraughtsGames.EnglishRulesWellFormed` proves the first requirement once. For `TrivialBoardScoring`, `DraughtsGames.TrivialScoringInRange` proves the second: at most 64 figures a side keep the score within -192 .. 192. `DraughtsGames.EnglishBotSound` puts the two together for the bot as the front end builds it.

The model keeps these behaviours of the source as written, each stated by a lemma:

- **Board not updated during enumeration.** The rules never update the board while they enumerate a chain: jumped pieces stay, and the start cell stays occupied.
- **Figure on its crowning row.** A simple figure already on its crowning row yields the capture entry `[King]`, and that entry suppresses every simple move (`RulesLemmas.CrownRowFigureJumps`).
- **Leaf scores.** Leaves are always scored from the bot's side, whichever side is to move at that node (`NegaMaxLemmas.LeafEstimates`).
- **Core game win check.** In the core game, `CheckForWin` runs before the turn counter moves on. So after a walk it inspects the player who has just moved (`CoreGames.WalkChecksMover`).
- **Core game redo.** `Redo` sets the board to the *before-move* board of each entry it replays. A redone game therefore shows the position one move behind its turn counter (`CoreGames.RedoLeavesBoardBeforeTopMove`). Undo pops two entries, so the same player is to move afterwards (`CoreGames.UndoKeepsPlayer`).
- **Core game winner index.** The core game's constructor leaves the winner index at its default 0; only `Start` sets it to -1.
- **Draughts game undo.** `Undo` is refused unless the player is to move. It pops only one entry, so it takes back the bot's reply and not the player's own move (`DraughtsGames.UndoTakesBackReply`).
- **Draughts game restart.** `Start` does not reset `Winner`, and once a winner is set `MakeMove` does nothing (`DraughtsGames.WinnerIsFinal`).

## Model

| member | source | states |
|---|---|---|
| Points.MakePoint | Checkers.Core/Board/Point.cs:20-30 | the point is `Nop` exactly when the row or the column is negative; otherwise it holds the given row and column |
| Points.At | Checkers.Core/Board/Point.cs:12 | `At` builds the same point as the constructor |
| Points.Equal | Checkers.Core/Board/Point.cs:56-59 | `==` holds exactly when the two points are the same value |
| Points.NotEqual | Checkers.Core/Board/Point.cs:61-64 | `!=` is the negation of `==` |
| Points.NopIsNoPosition | Checkers.Core/Board/Point.cs:11-18 | `Nop` differs from every point with non-negative coordinates, and these are the only other points |
| Directions.Apply | Checkers.Core/Board/Direction.cs:7-13 | a step of size s along UL, UR, BL or BR is the constructor point at (row∓s, col∓s); the throwing `Nop` direction is excluded by the precondition |
| Directions.OffTopOrLeftIsNop | Checkers.Core/Board/Direction.cs:10-13 | a step that would leave the board over the top or left edge gives `Nop` |
| Directions.StepInside | Checkers.Core/Board/Direction.cs:10-13 | a step that stays at non-negative coordinates lands exactly on the offset row and column |
| Directions.ApplyInjective | Checkers.Core/Board/Direction.cs:7-13 | two different directions never take a point to the same on-board cell in the same number of steps |
| Sides.Ordinal | Checkers.Core/Board/Side.cs:9-15 | the ordinals are 0 for Nop, 1 for Empty, 2 for Black and 3 for Red, each side exactly one, so Nop < Empty < Black < Red |
| Sides.Opposite | Checkers.Core/Board/SideUtil.cs:5-11 | a player's opposite is the other player; Empty and Nop map to Nop |
| Sides.PlayerOrdinal | Checkers.Core/Board/Side.cs:9-15 | the player sides are exactly those above Empty, which is the test GetAll uses |
| Sides.OppositeInvolution | Checkers.Core/Board/SideUtil.cs:5-11 | Opposite is an involution on Black and Red |
| GameSides.Convert | Checkers.Core/Game/Game.cs:34 | a game side maps to a player side, Black to Black and Red to Red |
| GameSides.Other | Checkers.Core/Game/Game.cs:120-123 | toggling gives the other game side, which converts to the opposite board side |
| Figures.CreateSimple | Checkers.Core/Board/Figure.cs:24 | the figure is not a king and stands on the constructor point of (row, col) |
| Figures.CreateKing | Checkers.Core/Board/Figure.cs:25 | the figure is a king and stands on the constructor point of (row, col) |
| Figures.DirectionsOf | Checkers.Core/Board/Figure.cs:27-60 | a king gets BL, BR, UL, UR in that order; a simple Black figure gets UL, UR and a simple Red one BL, BR; only a simple Empty or Nop figure gets the throwing Nop direction; no direction repeats |
| Figures.DirectionsIgnorePoint | Checkers.Core/Board/Figure.cs:27-60 | the direction set depends only on side and king flag, not on the point |
| Figures.SimpleDirectionsOrder | Checkers.Core/Board/Figure.cs:27-60 | a simple Black figure's directions are exactly `[UpperLeft, UpperRight]`, a simple Red figure's exactly `[BottomLeft, BottomRight]`, and a non-player's `[Nop]`, in that order |
| Boards.New | Checkers.Core/Board/SquareBoard.cs:27-30 | a new board has the given size and three empty masks |
| Boards.BitPosition | Checkers.Core/Board/SquareBoard.cs:36 | an in-bounds cell's bit index lies below Size*Size, so below 64 |
| Boards.BitInjective | Checkers.Core/Board/SquareBoard.cs:36 | two in-bounds cells share a bit exactly when they are the same cell |
| Boards.BitSurjective | Checkers.Core/Board/SquareBoard.cs:36 | every bit index below Size*Size belongs to some in-bounds cell |
| Boards.Get | Checkers.Core/Board/SquareBoard.cs:32-41 | an out-of-bounds point gives `Figure.Nop`; an in-bounds one gives a figure on that point, Black exactly when the black bit is set; an empty cell is never a king |
| Boards.IsEmpty | Checkers.Core/Board/SquareBoard.cs:43-51 | out-of-bounds points are never empty; otherwise a cell is empty exactly when Get reports Empty |
| Boards.NoFigures | Checkers.Core/Board/SquareBoard.cs:53-57 | for Black it tests the black mask; for every other side it tests the red mask |
| Boards.KingsAfterSet | Checkers.Core/Board/SquareBoard.cs:184-190 | the cell's king bit becomes the figure's king flag, and no other bit changes |
| Boards.Set | Checkers.Core/Board/SquareBoard.cs:59-80 | setting keeps the board size (the cell-level laws are in BoardLemmas) |
| Boards.Clear | Checkers.Core/Board/SquareBoard.cs:82-90 | clearing keeps the board size |
| Boards.SetKing | Checkers.Core/Board/SquareBoard.cs:92-98 | SetKing leaves both occupancy masks unchanged |
| Boards.ClearKing | Checkers.Core/Board/SquareBoard.cs:100-106 | ClearKing leaves both occupancy masks unchanged |
| Boards.RowFigures | Checkers.Core/Board/SquareBoard.cs:116-123 | the inner loop's figures all lie on the row, belong to the side and come in increasing column order |
| Boards.RowsFigures | Checkers.Core/Board/SquareBoard.cs:114-124 | the nested loops' figures are in bounds, belong to the side and come in row-major order |
| Boards.FiguresOf | Checkers.Core/Board/SquareBoard.cs:108-126 | every listed figure belongs to the side and stands in bounds |
| Boards.AllOf | Checkers.Core/Board/SquareBoard.cs:108-126 | GetAll fails exactly for Nop and Empty (the throw at line 110) |
| BoardLemmas.NewBoardIsEmpty | Checkers.Core/Board/SquareBoard.cs:27-30 | a fresh board is valid and has no figures; every in-bounds cell is an empty non-king, and every out-of-bounds point is Nop and not empty |
| BoardLemmas.GetAfterSet | Checkers.Core/Board/SquareBoard.cs:59-80 | after Set of a Black or Red figure, Get at its point returns that figure, king flag included |
| BoardLemmas.SetNonPlayerEmpties | Checkers.Core/Board/SquareBoard.cs:64-79 | Set of an Empty or Nop figure empties the cell; its king bit follows the figure's flag, so a non-king clears it |
| BoardLemmas.ClearEmpties | Checkers.Core/Board/SquareBoard.cs:82-90 | Clear empties the cell and drops its king bit |
| BoardLemmas.SetKingCrowns | Checkers.Core/Board/SquareBoard.cs:92-98 | SetKing crowns an occupied cell and changes no cell's side or emptiness |
| BoardLemmas.ClearKingUncrowns | Checkers.Core/Board/SquareBoard.cs:100-106 | ClearKing uncrowns the cell and changes no cell's side |
| BoardLemmas.OtherCellsUnchanged | Checkers.Core/Board/SquareBoard.cs:59-106 | Set, Clear, SetKing and ClearKing leave Get unchanged at every point other than their target |
| BoardLemmas.MutatorsKeepValid | Checkers.Core/Board/SquareBoard.cs:65-89 | the black and red masks stay disjoint and within the board's bits after every mutator |
| BoardLemmas.FiguresOfIsGet | Checkers.Core/Board/SquareBoard.cs:108-126 | GetAll lists a figure exactly when it is in bounds, of that side, and is what Get returns at its point (king flag included) |
| BoardLemmas.FiguresOfRowMajor | Checkers.Core/Board/SquareBoard.cs:114-124 | GetAll's figures come strictly in row-major order, so none is listed twice |
| BoardLemmas.NoFiguresIffNoneListed | Checkers.Core/Board/SquareBoard.cs:53-57 | NoFigures of a player holds exactly when GetAll lists nothing for it |
| BoardLemmas.RowFiguresCount | Checkers.Core/Board/SquareBoard.cs:116-123 | the inner loop over the first n columns of a row yields at most n figures |
| BoardLemmas.RowsFiguresCount | Checkers.Core/Board/SquareBoard.cs:114-124 | the outer loop over the first n rows yields at most n * Size figures |
| BoardLemmas.FiguresOfCount | Checkers.Core/Board/SquareBoard.cs:108-126 | GetAll lists at most Size * Size figures, never more than 64 |
| MutableBoards.MutableBoard.constructor | Checkers.Core/Board/SquareBoard.cs:27-30 | the new board object holds the empty board of that size |
| MutableBoards.MutableBoard.Set | Checkers.Core/Board/SquareBoard.cs:59-80 | the masks are updated in place to the value of `Boards.Set` |
| MutableBoards.MutableBoard.Clear | Checkers.Core/Board/SquareBoard.cs:82-90 | the masks are updated in place to the value of `Boards.Clear` |
| MutableBoards.MutableBoard.SetKing | Checkers.Core/Board/SquareBoard.cs:92-98 | the king mask is updated in place to the value of `Boards.SetKing` |
| MutableBoards.MutableBoard.ClearKing | Checkers.Core/Board/SquareBoard.cs:100-106 | the king mask is updated in place to the value of `Boards.ClearKing` |
| MutableBoards.MutableBoard.GetAll | Checkers.Core/Board/SquareBoard.cs:108-126 | the nested loops return exactly `AllOf`: the throw for non-players, otherwise the side's figures in row-major order |
| MoveSteps.MoveStep.Jump | Checkers.Core/Rules/MoveStep.cs:10 | a Jump step carries its target |
| MoveSteps.MoveStep.Move | Checkers.Core/Rules/MoveStep.cs:11 | a Move step carries its target |
| MoveSteps.MoveStep.King | Checkers.Core/Rules/MoveStep.cs:12 | a King step has the target `Nop` |
| MoveSteps.StepEquality | Checkers.Core/Rules/MoveStep.cs:16-18 | steps are equal exactly when type and target are: Jump(p) is never Move(q), and King() equals King() |
| MoveSteps.Targets | Checkers.Core/Rules/MoveSequence.cs:26-32 | the visited set holds exactly the targets of the steps |
| MoveSteps.TargetsAppend | Checkers.Core/Rules/MoveSequence.cs:26-30 | appending a step adds exactly its target to the visited set |
| MoveSequences.MoveSequence.constructor | Checkers.Core/Rules/MoveSequence.cs:14 | a new sequence has no steps |
| MoveSequences.MoveSequence.Single | Checkers.Core/Rules/MoveSequence.cs:15-18 | the single-step constructor gives a one-element sequence |
| MoveSequences.MoveSequence.Copy | Checkers.Core/Rules/MoveSequence.cs:20-24 | the copy has the original's steps in fresh collections |
| MoveSequences.MoveSequence.Add | Checkers.Core/Rules/MoveSequence.cs:26-30 | Add appends at the end and keeps the visited set equal to the targets |
| MoveSequences.MoveSequence.Contains | Checkers.Core/Rules/MoveSequence.cs:32 | Contains(p) holds exactly when some added step has target p |
| MoveSequences.MoveSequence.IsEmpty | Checkers.Core/Rules/MoveSequence.cs:34 | IsEmpty holds exactly when no step was added |
| MoveSequences.CopyIsIndependent | Checkers.Core/Rules/MoveSequence.cs:20-30 | adding to a copy leaves the original's steps and visited set unchanged |
| MoveSequences.ContainsNopAfterKing | Checkers.Core/Rules/MoveSequence.cs:29-32 | once a King step is added, Contains(Nop) holds |
| Rules.JumpPoint | Checkers.Core/Rules/EnglishDraughtsRules.cs:105-115 | a jump point exists exactly when the neighbour is an opponent and the cell two steps away is empty; it is then that cell, in bounds and empty |
| Rules.FirstMoveSide | Checkers.Core/Rules/EnglishDraughtsRules.cs:13 | Red moves first; `DraughtsGames.EnglishRules` ensures that its `firstMoveSide` is Red |
| Rules.CrowningRow | Checkers.Core/Rules/EnglishDraughtsRules.cs:95-102 | row 0 for Black and row Size - 1 for Red; `RulesLemmas.CrownRowFigureJumps` and `RulesLemmas.SimpleMoveShape` state what it does to the moves |
| Rules.ShouldPromoteKing | Checkers.Core/Rules/EnglishDraughtsRules.cs:95-102 | a simple Black or Red figure on its crowning row; `RulesLemmas.CrownRowFigureJumps` proves that such a figure's only listed sequence is `[King]` and that it forces the capture dictionary, and `RulesLemmas.SimpleMoveShape` that a simple move onto that row ends with `King` |
| Rules.JumpSequences | Checkers.Core/Rules/EnglishDraughtsRules.cs:69-93 | the sequences BuildJumpSequences adds; `RulesLemmas.JumpSequencesSound` and `RulesLemmas.JumpSequencesComplete` prove that they are exactly the maximal capture chains, and `RulesLemmas.JumpSequencesInOrder` that they come in direction order |
| Rules.Branches | Checkers.Core/Rules/EnglishDraughtsRules.cs:79-91 | the first n passes of the direction loop; `RulesLemmas.BranchesInOrder` proves the order of what they add, and `RulesLemmas.NoEmptyBranch` that no added sequence is empty |
| Rules.Follow | Checkers.Core/Rules/EnglishDraughtsRules.cs:82-90 | one pass of the direction loop, extending the copy by a fresh jump and recursing; `RulesLemmas.FollowFirstStep` proves that every sequence it adds starts with that jump, and `RulesLemmas.FollowInOrder` their order |
| Rules.SimpleMove | Checkers.Core/Rules/EnglishDraughtsRules.cs:56-66 | the simple move in one direction; `RulesLemmas.SimpleMoveShape` proves that it exists exactly when the neighbouring cell is empty, and that it is a step there followed by `King` exactly when a simple figure reaches its crowning row |
| Rules.SimpleMoves | Checkers.Core/Rules/EnglishDraughtsRules.cs:54-67 | BuildSimpleMoves; `RulesLemmas.SimpleMovesAre` proves that a sequence is listed exactly when it is the simple move in one of the figure's directions, and `RulesLemmas.SimpleMovesUpToMembers` the same for each prefix of the loop |
| Rules.JumpsOf | Checkers.Core/Rules/EnglishDraughtsRules.cs:33-34 | the jumps GetMoves requests, from an empty sequence; `RulesLemmas.JumpsOfIsChains` proves that they are the maximal capture chains, `RulesLemmas.JumpsOfInDirectionOrder` that they come in direction order without repeats, and `RulesLemmas.CrownRowFigureJumps` the crowning-row case |
| Rules.MovesOf | Checkers.Core/Rules/EnglishDraughtsRules.cs:24-52 | GetMoves for Black or Red; `RulesLemmas.CaptureSuppressesSimpleMoves` proves that a capture anywhere removes every simple move, `RulesLemmas.MovesKeys` that the keys are figures of the side on the board, in strict row-major order, each with a non-empty list, `RulesLemmas.NoMovesIff` when it is empty, and `Rules.Moves` adds the error for other sides |
| Rules.GameIsOver | Checkers.Core/Rules/EnglishDraughtsRules.cs:15-22 | one of the two sides has no moves; `RulesLemmas.NoFiguresEndsGame` proves that a side without figures ends the game, `RulesLemmas.NoMovesIff` when a side has no moves, and `RulesEngine.EnglishDraughtsRules.GameIsOver` is proved equal to it |
| Rules.UnvisitedShrinks | Checkers.Core/Rules/EnglishDraughtsRules.cs:84-90 | landing on a fresh in-bounds cell strictly shrinks the set of cells left to visit, so the recursion ends |
| Rules.Moves | Checkers.Core/Rules/EnglishDraughtsRules.cs:24-52 | GetMoves fails exactly for a non-player side (GetAll's throw); otherwise it gives the figure-by-figure move list |
| RulesEngine.EnglishDraughtsRules.GetJumpPoint | Checkers.Core/Rules/EnglishDraughtsRules.cs:105-115 | it returns the neighbour Get reports one step away, and the jump point of `Rules.JumpPoint` |
| RulesEngine.EnglishDraughtsRules.BuildSimpleMoves | Checkers.Core/Rules/EnglishDraughtsRules.cs:54-67 | the loop builds exactly the simple moves of `Rules.SimpleMoves` |
| RulesEngine.EnglishDraughtsRules.BuildJumpSequences | Checkers.Core/Rules/EnglishDraughtsRules.cs:69-93 | the recursion appends to the builder exactly the chains of `Rules.JumpSequences` that extend the given sequence |
| RulesEngine.EnglishDraughtsRules.FollowDirections | Checkers.Core/Rules/EnglishDraughtsRules.cs:78-91 | endOfSequence holds exactly when no direction gives a fresh jump; the builder grows by the branches in direction order |
| RulesEngine.EnglishDraughtsRules.FollowDirection | Checkers.Core/Rules/EnglishDraughtsRules.cs:81-90 | a direction is followed exactly when it gives a jump to a cell not yet in the sequence |
| RulesEngine.EnglishDraughtsRules.GetMoves | Checkers.Core/Rules/EnglishDraughtsRules.cs:24-52 | stores the board in the field and returns exactly `Rules.Moves` |
| RulesEngine.EnglishDraughtsRules.CollectMoves | Checkers.Core/Rules/EnglishDraughtsRules.cs:30-47 | the loop over the figures fills the two dictionaries with the jump entries and the simple entries |
| RulesEngine.EnglishDraughtsRules.AddFigureMoves | Checkers.Core/Rules/EnglishDraughtsRules.cs:32-46 | a figure with jumps adds a jump entry only; otherwise one with simple moves adds a simple entry |
| RulesEngine.EnglishDraughtsRules.GameIsOver | Checkers.Core/Rules/EnglishDraughtsRules.cs:15-22 | the game is over exactly when Black or Red has an empty move list |
| RulesLemmas.JumpEntriesMembers | Checkers.Core/Rules/EnglishDraughtsRules.cs:30-38 | the jump dictionary holds exactly the listed figures with jumps, each with all its jumps |
| RulesLemmas.SimpleEntriesMembers | Checkers.Core/Rules/EnglishDraughtsRules.cs:30-47 | the simple dictionary holds exactly the figures with no jumps but some simple move, each with all its simple moves |
| RulesLemmas.JumpEntriesKeepOrder | Checkers.Core/Rules/EnglishDraughtsRules.cs:27-38 | the jump dictionary's keys keep GetAll's row-major order |
| RulesLemmas.SimpleEntriesKeepOrder | Checkers.Core/Rules/EnglishDraughtsRules.cs:27-47 | the simple dictionary's keys keep GetAll's row-major order |
| RulesLemmas.JumpEntriesEmpty | Checkers.Core/Rules/EnglishDraughtsRules.cs:34-38 | the jump dictionary is empty exactly when no figure has a jump |
| RulesLemmas.CaptureSuppressesSimpleMoves | Checkers.Core/Rules/EnglishDraughtsRules.cs:34-51 | if any figure of the side can capture, every entry is a capture entry; otherwise every entry holds simple moves of a figure without captures |
| RulesLemmas.MovesKeys | Checkers.Core/Rules/EnglishDraughtsRules.cs:27-47 | every key is a figure of the side as it stands on the board, with a non-empty list, and the keys come in GetAll order |
| RulesLemmas.AnyFreshJumpExists | Checkers.Core/Rules/EnglishDraughtsRules.cs:78-91 | the endOfSequence flag is false exactly when some direction gives a fresh jump |
| RulesLemmas.JumpSequencesSound | Checkers.Core/Rules/EnglishDraughtsRules.cs:69-93 | every recorded sequence extends the given prefix by a jump chain |
| RulesLemmas.JumpSequencesComplete | Checkers.Core/Rules/EnglishDraughtsRules.cs:69-93 | every non-empty jump chain extending the prefix is recorded |
| RulesLemmas.JumpsOfIsChains | Checkers.Core/Rules/EnglishDraughtsRules.cs:69-93 | a figure's jump list holds exactly the non-empty chains: fresh jumps two steps over an opponent, ending where no fresh jump remains or with King on the crowning row |
| RulesLemmas.NoEmptyBranch | Checkers.Core/Rules/EnglishDraughtsRules.cs:92 | no branch of the recursion records an empty sequence |
| RulesLemmas.RankOfJump | Checkers.Core/Rules/EnglishDraughtsRules.cs:79-82 | a jump found along the i-th direction of the figure's array lands on a cell no earlier direction reaches, so its direction rank is i |
| RulesLemmas.FollowFirstStep | Checkers.Core/Rules/EnglishDraughtsRules.cs:82-90 | everything found past direction i keeps the prefix and continues with the jump to that direction's landing cell |
| RulesLemmas.NoFreshJumpNoBranches | Checkers.Core/Rules/EnglishDraughtsRules.cs:78-92 | when endOfSequence stays true, the direction loop has recorded nothing |
| RulesLemmas.OrderedAcross | Checkers.Core/Rules/EnglishDraughtsRules.cs:79-91 | a sequence found past an earlier direction comes before one found past a later direction: they share the prefix and first differ at its next jump |
| RulesLemmas.OrderedBeforeNext | Checkers.Core/Rules/EnglishDraughtsRules.cs:79-91 | everything the first m directions record comes in direction order before what direction m records |
| RulesLemmas.BranchesInOrder | Checkers.Core/Rules/EnglishDraughtsRules.cs:79-91 | the sequences recorded by the first m iterations of the direction loop are in direction order |
| RulesLemmas.FollowInOrder | Checkers.Core/Rules/EnglishDraughtsRules.cs:86-90 | the recursive call past one direction records its sequences in direction order |
| RulesLemmas.JumpSequencesInOrder | Checkers.Core/Rules/EnglishDraughtsRules.cs:69-93 | every call of BuildJumpSequences records its sequences in direction order |
| RulesLemmas.JumpsOfInDirectionOrder | Checkers.Core/Rules/EnglishDraughtsRules.cs:69-93 | where two sequences of a figure's jump list first differ, the earlier one jumps along a direction that comes earlier in the figure's direction array; so no sequence is listed twice |
| RulesLemmas.ChainLandsFresh | Checkers.Core/Rules/EnglishDraughtsRules.cs:71-92 | within a chain every jump lands in bounds on a cell not visited before, no landing repeats, King can only be the last step, and there are no Move steps |
| RulesLemmas.ChainStartsWithCapture | Checkers.Core/Rules/EnglishDraughtsRules.cs:105-115 | a chain of a figure off its crowning row starts with a capture along one of its directions |
| RulesLemmas.SimpleMovesUpToMembers | Checkers.Core/Rules/EnglishDraughtsRules.cs:56-66 | the loop's list holds exactly the simple moves of the directions seen so far |
| RulesLemmas.SimpleMoveShape | Checkers.Core/Rules/EnglishDraughtsRules.cs:58-65 | a direction gives a simple move exactly when the neighbouring cell is empty; the move is one Move step, plus King when a simple figure reaches its crowning row |
| RulesLemmas.SimpleMovesAre | Checkers.Core/Rules/EnglishDraughtsRules.cs:54-67 | a figure's simple moves are exactly the single steps into empty neighbours along its directions |
| RulesLemmas.SimpleEntriesEmpty | Checkers.Core/Rules/EnglishDraughtsRules.cs:40-46 | the simple dictionary is empty exactly when every figure either has jumps or no simple move |
| RulesLemmas.NoMovesIff | Checkers.Core/Rules/EnglishDraughtsRules.cs:24-52 | a side has no moves exactly when none of its figures can jump or move |
| RulesLemmas.NoFiguresEndsGame | Checkers.Core/Rules/EnglishDraughtsRules.cs:15-22 | a side without figures has no moves, so the game is over |
| RulesLemmas.CrownRowFigureJumps | Checkers.Core/Rules/EnglishDraughtsRules.cs:33-76 | a simple figure already on its crowning row gets the jump list [[King]], which is listed and makes the result the jump dictionary |
| Commands.Step | Checkers.Core/Rules/MoveCommandChain.cs:21-31 | dispatching a step to its command keeps the board size |
| Commands.Walk | Checkers.Core/Rules/Commands/WalkMoveCommand.cs:11-17 | WalkMoveCommand; `Commands.WalkCells` proves that the source is emptied with its king bit, the target holds the figure and no other cell changes, and `Commands.WalkInPlace` that a walk onto its own cell changes nothing |
| Commands.Middle | Checkers.Core/Rules/Commands/JumpMoveCommand.cs:20-24 | the cell JumpMoveCommand clears; `Commands.MiddleOfJump` proves that for a two-step diagonal jump it is the cell jumped over |
| Commands.JumpOver | Checkers.Core/Rules/Commands/JumpMoveCommand.cs:11-29 | JumpMoveCommand; `Commands.JumpCells` proves that the source and the middle cell are emptied, the target holds the figure and no other cell changes |
| Commands.Promote | Checkers.Core/Rules/PromoteKingMoveCommand.cs:11-16 | PromoteKingMoveCommand; `Commands.PromoteCells` proves that only the king bit of the figure's cell is set and the reported figure keeps its old flag, and `Commands.PromoteIdempotent` that promoting twice is promoting once |
| Commands.Executable | Checkers.Core/Rules/MoveCommandChain.cs:37-40 | every command of the chain can run on what the previous ones produced; `RunLemmas.ListedSequencesRun` proves that every sequence the English rules list is executable, and `Commands.RunKeepsValid` that running it keeps the board valid |
| Commands.Run | Checkers.Core/Rules/MoveCommandChain.cs:33-44 | the commands threaded through board and figure; `Commands.RunEmpty` and `Commands.RunAppend` prove that the empty chain changes nothing and that a chain runs as its two halves in turn, `Commands.RunKeepsValid` that it keeps the board valid, and `MoveCommands.MoveCommandChain.Execute` is proved equal to it |
| Commands.WalkCells | Checkers.Core/Rules/Commands/WalkMoveCommand.cs:11-17 | the current figure is the mover on the target; the source is emptied, king bit included; the target holds the figure; no other cell changes |
| Commands.WalkInPlace | Checkers.Core/Rules/Commands/WalkMoveCommand.cs:13-15 | a walk to the figure's own cell leaves the board and figure as they were |
| Commands.MiddleOfJump | Checkers.Core/Rules/Commands/JumpMoveCommand.cs:20-24 | the middle point of a two-step diagonal jump is the cell one step along the same diagonal |
| Commands.JumpCells | Checkers.Core/Rules/Commands/JumpMoveCommand.cs:11-29 | the source and the middle are emptied, the middle whatever it held; the target holds the mover; no other cell changes |
| Commands.PromoteCells | Checkers.Core/Rules/PromoteKingMoveCommand.cs:11-16 | only the king mask changes: the cell is crowned, occupancy is untouched, and the current figure is the input figure with its old king flag |
| Commands.PromoteIdempotent | Checkers.Core/Rules/PromoteKingMoveCommand.cs:11-16 | promoting twice gives what promoting once does |
| Commands.RunEmpty | Checkers.Core/Rules/MoveCommandChain.cs:35-43 | an empty chain returns the input board and figure |
| Commands.RunAppend | Checkers.Core/Rules/MoveCommandChain.cs:37-42 | running s1 then s2 is running s1 + s2: each step gets the board and figure the previous one produced |
| Commands.RunKeepsValid | Checkers.Core/Rules/MoveCommandChain.cs:33-44 | a chain keeps the masks disjoint |
| MoveCommands.WalkMoveCommand.Execute | Checkers.Core/Rules/Commands/WalkMoveCommand.cs:11-17 | the command's board and CurrentFigure are those of `Commands.Walk` |
| MoveCommands.JumpMoveCommand.Execute | Checkers.Core/Rules/Commands/JumpMoveCommand.cs:11-29 | the command's board and CurrentFigure are those of `Commands.JumpOver` |
| MoveCommands.PromoteKingMoveCommand.Execute | Checkers.Core/Rules/PromoteKingMoveCommand.cs:11-16 | the command's board and CurrentFigure are those of `Commands.Promote` |
| MoveCommands.StepsOf | Checkers.Core/Rules/MoveCommandChain.cs:18 | the commands keep their steps in sequence order |
| MoveCommands.CreateMoveCommand | Checkers.Core/Rules/MoveCommandChain.cs:21-31 | Move, Jump and PromoteKing steps map to a fresh walk, jump and promote command holding the step |
| MoveCommands.MoveCommandChain.constructor | Checkers.Core/Rules/MoveCommandChain.cs:14-19 | the chain stores the figure and board and one fresh command per step, in order |
| MoveCommands.MoveCommandChain.Execute | Checkers.Core/Rules/MoveCommandChain.cs:33-44 | the loop returns the board of the fold `Commands.Run` over the steps |
| MoveCommands.ExecuteCommand | Checkers.Core/Rules/MoveCommandChain.cs:39-40 | running one command gives the board and figure of `Commands.Step` |
| RunLemmas.ListedSequencesRun | Checkers.Core/Rules/MoveCommandChain.cs:37-41 | every sequence GetMoves lists can be executed; the mover ends on the last target, crowned exactly when it was a king or a King step occurred; every jumped cell and the vacated start cell are empty |
| RunLemmas.EntryOnBoard | Checkers.Core/Rules/EnglishDraughtsRules.cs:27-47 | every entry's figure stands on the board as listed, with its jumps or its simple moves |
| RunLemmas.ListedSequenceRuns | Checkers.Core/Rules/Commands/JumpMoveCommand.cs:14-27 | each of a figure's jump or simple sequences executes as the rules planned it |
| Scoring.Weight | Checkers.Core/Bot/TrivialBoardScoring.cs:25 | a figure weighs 3 when it is a king and 1 otherwise |
| Scoring.Score | Checkers.Core/Bot/TrivialBoardScoring.cs:19-28 | the weighted count of a side's figures; `Scoring.ScoreBounds` proves that it lies between the number of figures and three times that, equal to the number exactly when there is no king, and `Scoring.ScoreAppend` that it adds up over a split list |
| Scoring.ScoreBounds | Checkers.Core/Bot/TrivialBoardScoring.cs:19-28 | a side's score lies between its number of figures and three times that number, and equals the count exactly when there are no kings |
| Scoring.ScoreAppend | Checkers.Core/Bot/TrivialBoardScoring.cs:22-26 | the score of two lists together is the sum of their scores |
| Scoring.SideScore | Checkers.Core/Bot/TrivialBoardScoring.cs:19-28 | the accumulating loop returns the material score of the list |
| Scoring.Evaluation | Checkers.Core/Bot/TrivialBoardScoring.cs:7-13 | evaluation fails exactly for a non-player side, through GetAll |
| Scoring.Evaluate | Checkers.Core/Bot/TrivialBoardScoring.cs:7-13 | the method returns `Evaluation`: own score minus the opponent's |
| Scoring.EvaluationAntisymmetric | Checkers.Core/Bot/TrivialBoardScoring.cs:9-11 | Red's evaluation is the negation of Black's on every board |
| Scoring.EmptyBoardScoresZero | Checkers.Core/Bot/TrivialBoardScoring.cs:11 | an empty board evaluates to 0 for both sides |
| Scoring.EvaluationBounds | Checkers.Core/Bot/TrivialBoardScoring.cs:9-11 | the evaluation lies between own count minus three times the enemy count and three times the own count minus the enemy count |
| RulesExtensions.Row | Checkers.Core/Extensions/RulesExtensions.cs:16 | one figure's part is builder(key, value[i]) for each of its sequences in order |
| RulesExtensions.Total | Checkers.Core/Extensions/RulesExtensions.cs:13-17 | the number of sequences over all entries; `RulesExtensions.TotalAppend` proves that it adds up over a split list, and `RulesExtensions.Flatten` that the flattened list has exactly that length |
| RulesExtensions.Flatten | Checkers.Core/Extensions/RulesExtensions.cs:13-17 | the result's length is the sum of the array lengths, and an empty map gives an empty array |
| RulesExtensions.TotalAppend | Checkers.Core/Extensions/RulesExtensions.cs:15 | the total length of two dictionaries together is the sum of theirs |
| RulesExtensions.FlattenAppend | Checkers.Core/Extensions/RulesExtensions.cs:15-16 | flattening two dictionaries together is concatenating their flattenings |
| RulesExtensions.FlattenAt | Checkers.Core/Extensions/RulesExtensions.cs:15-16 | entry k's sequences lie contiguously, in array order, after the entries before it, each as builder(key, value[i]) |
| RulesExtensions.FlattenFrom | Checkers.Core/Extensions/RulesExtensions.cs:15-16 | every element of the result is builder(key, value[i]) of some entry and index |
| NegaMax.EmptyMove | Checkers.Core/Bot/NegaMaxBot.cs:57-103 | the empty bot move has the `Nop` figure and the given score |
| NegaMax.CanSearchDeeper | Checkers.Core/Bot/NegaMaxBot.cs:149-152 | depth left and both sides still holding figures; `NegaMaxLemmas.LeafEstimates` proves that otherwise the node is one estimate |
| NegaMax.Unpruned | Checkers.Core.Tests/Bot/NegaMaxBotTests.cs:97-123 | the same search with pruning turned off and everything else kept |
| NegaMax.EstimateValue | Checkers.Core/Bot/NegaMaxBot.cs:154-164 | -1000 when the bot has no figures, 1000 when the player has none, otherwise the scoring from the bot's side |
| NegaMax.EntryStates | Checkers.Core/Bot/NegaMaxBot.cs:139-145 | one state per sequence of the entry, with its figure, index, board and sequence |
| NegaMax.StatesFrom | Checkers.Core/Bot/NegaMaxBot.cs:135-147 | GetStates over a list of entries in dictionary order; `NegaMax.StatesFromAt` proves that every state pairs a listed figure with one of its listed sequences on the same board |
| NegaMax.States | Checkers.Core/Bot/NegaMaxBot.cs:135-147 | GetStates for the rules' moves on a board and side; `NegaMax.StatesPlayable` proves that with sound rules every state's chain can run, and `NegaMaxBots.NegaMaxBot.GetStates` is proved equal to it |
| NegaMax.StatesFromAt | Checkers.Core/Bot/NegaMaxBot.cs:135-147 | every state comes from some entry and index of the rules' result, in dictionary order |
| NegaMax.StatesPlayable | Checkers.Core/Bot/NegaMaxBot.cs:135-147 | with sound rules every state's sequence can be executed on its board |
| NegaMax.After | Checkers.Core/Bot/NegaMaxBot.cs:110 | the board after a playable state's move is valid |
| NegaMax.Next | Checkers.Core/Bot/NegaMaxBot.cs:110 | the child board is the board after the state's move whenever that move is playable |
| NegaMax.Children | Checkers.Core/Bot/NegaMaxBot.cs:110 | one valid child board per state |
| NegaMax.ChildrenFollow | Checkers.Core/Bot/NegaMaxBot.cs:110 | each child is the board after its state's move |
| NegaMax.Better | Checkers.Core/Bot/NegaMaxBot.cs:115-118 | the best score becomes the maximum, and the best move is replaced only by the state itself on a strictly greater score |
| NegaMax.SweepStopsWhenPruned | Checkers.Core/Bot/NegaMaxBot.cs:75-124 | once pruning is signalled no further sibling changes the result |
| NegaMax.SweepStep | Checkers.Core/Bot/NegaMaxBot.cs:107-125 | one sibling: its score is the negated child result with window (-beta, -alpha), then alpha = max(alpha, best) and pruning when allowed and alpha ≥ beta |
| NegaMax.Node | Checkers.Core/Bot/NegaMaxBot.cs:55-126 | Negamax; `NegaMaxLemmas.LeafEstimates`, `NegaMaxLemmas.SingleStateFastPath`, `NegaMaxLemmas.NoMovesEstimates` and `NegaMax.NodeSweeps` prove its four cases, `NegaMaxLemmas.NodeInRange` that the score stays in range, `NegaMaxPruning.NodeClamp` that it agrees with plain negamax inside the window, and `NegaMaxBots.NegaMaxBot.Negamax` is proved equal to it |
| NegaMax.Sweep | Checkers.Core/Bot/NegaMaxBot.cs:75-124 | the loop over the states; `NegaMax.SweepStep` and `NegaMax.SweepStopsWhenPruned` prove one iteration and the stop after pruning, `NegaMaxLemmas.SweepAlpha` and `NegaMaxLemmas.SweepInRange` what alpha and the score become, and `NegaMaxBots.NegaMaxBot.VisitStates` is proved equal to it |
| NegaMax.BestMove | Checkers.Core/Bot/NegaMaxBot.cs:43-51 | the root call at MaxDepth with the widest window; `NegaMaxPruning.BestMoveIsPlain` and `NegaMaxPruning.RootIsPlain` prove that its move is the one plain negamax finds, and `NegaMaxPruning.PruningKeepsBestMove` that pruning does not change it |
| NegaMax.NodeSweeps | Checkers.Core/Bot/NegaMaxBot.cs:55-105 | an inner node's result is the sweep over its states |
| NegaMaxBots.NegaMaxBot.constructor | Checkers.Core/Bot/NegaMaxBot.cs:28-33 | stores the rules and the scoring, with the estimate counter at 0 |
| NegaMaxBots.NegaMaxBot.FindBestMove | Checkers.Core/Bot/NegaMaxBot.cs:43-51 | sets options and sides, returns the root search with depth MaxDepth and window (Int32.MinValue+1, Int32.MaxValue), and adds that search's estimates to the counter |
| NegaMaxBots.NegaMaxBot.Negamax | Checkers.Core/Bot/NegaMaxBot.cs:55-105 | the recursive method returns the move of `NegaMax.Node` and adds exactly its estimates to TotalMovesEstimated |
| NegaMaxBots.NegaMaxBot.VisitStates | Checkers.Core/Bot/NegaMaxBot.cs:72-103 | noMoves is true exactly when there are no states; the loop's best move matches the sweep and stops at pruning |
| NegaMaxBots.NegaMaxBot.DoNegamax | Checkers.Core/Bot/NegaMaxBot.cs:107-125 | updates the best move on a strictly better negated child score, sets alpha to max(alpha, best) and signals pruning exactly when it is allowed and alpha ≥ beta |
| NegaMaxBots.NegaMaxBot.GetStates | Checkers.Core/Bot/NegaMaxBot.cs:135-147 | the nested loops return the states of every entry and sequence index in dictionary order |
| NegaMaxBots.NegaMaxBot.Estimate | Checkers.Core/Bot/NegaMaxBot.cs:154-164 | returns `EstimateValue` and increments TotalMovesEstimated by exactly 1 |
| NegaMaxLemmas.LeafEstimates | Checkers.Core/Bot/NegaMaxBot.cs:149-164 | at depth 0 or when either side has no figures the node is one estimate from the bot's side, the same whichever side is to move |
| NegaMaxLemmas.SingleStateFastPath | Checkers.Core/Bot/NegaMaxBot.cs:64-68 | at the root with exactly one state the result is that figure with index 0 and score 0, and nothing is estimated |
| NegaMaxLemmas.NoMovesEstimates | Checkers.Core/Bot/NegaMaxBot.cs:102-103 | a node whose side has figures but no moves returns the empty move with one estimate |
| NegaMaxLemmas.Plain | Checkers.Core/Bot/NegaMaxBot.cs:55-126 | negamax without alpha-beta, the reference for the windowed search; `NegaMaxLemmas.PlainIsFirstMaximum` proves that its move is the first child of maximal value, `NegaMaxLemmas.PlainInRange` that its score stays in range, and `NegaMaxLemmas.UnprunedIsPlain` and `NegaMaxPruning.NodeClamp` relate it to `NegaMax.Node` |
| NegaMaxLemmas.PlainSweep | Checkers.Core/Bot/NegaMaxBot.cs:107-125 | the unwindowed loop over the first n states; `NegaMaxLemmas.PlainSweepFirstMaximum` proves that it keeps the first state of maximal value |
| NegaMaxLemmas.NodeInRange | Checkers.Core/Bot/NegaMaxBot.cs:50-111 | with in-range scoring every node's score stays within -(2^31-1) .. 2^31-1, so negating it cannot overflow Int32 |
| NegaMaxLemmas.SweepInRange | Checkers.Core/Bot/NegaMaxBot.cs:70-119 | the sweep's best score starts at Int32.MinValue and is in range once a state was seen; alpha stays in range |
| NegaMaxLemmas.SweepAlpha | Checkers.Core/Bot/NegaMaxBot.cs:119 | after the sweep, alpha is the maximum of the initial alpha and the best score |
| NegaMaxLemmas.PlainIsFirstMaximum | Checkers.Core/Bot/NegaMaxBot.cs:113-119 | without pruning the node's move is the first state whose negated child value is the maximum: all earlier ones are strictly smaller, none later is larger |
| NegaMaxLemmas.PlainSweepFirstMaximum | Checkers.Core/Bot/NegaMaxBot.cs:113-119 | the loop over n states ends on the first state with the maximal child value |
| NegaMaxLemmas.UnprunedIsPlain | Checkers.Core/Bot/NegaMaxBot.cs:121 | with pruning off the search equals the plain negamax without any window |
| NegaMaxLemmas.PlainInRange | Checkers.Core/Bot/NegaMaxBot.cs:111 | the plain negamax scores stay within Int32 negation range |
| NegaMaxPruning.NodeClamp | Checkers.Core/Bot/NegaMaxBot.cs:111-124 | alpha-beta is fail-soft: a plain value below the window gives a result at most alpha, above it at least beta, and inside it the same move |
| NegaMaxPruning.RootIsPlain | Checkers.Core/Bot/NegaMaxBot.cs:50 | with the full root window the move equals the plain negamax move |
| NegaMaxPruning.BestMoveIsPlain | Checkers.Core/Bot/NegaMaxBot.cs:43-51 | FindBestMove returns the plain negamax move at MaxDepth from the bot's side |
| NegaMaxPruning.PruningKeepsBestMove | Checkers.Core.Tests/Bot/NegaMaxBotTests.cs:97-123 | turning pruning on never changes the move FindBestMove returns |
| NegaMaxPruning.PruningNeverCostsMore | Checkers.Core/Bot/NegaMaxBot.cs:75-124 | with pruning the search estimates at most as many boards as without it |
| NegaMaxPruning.PlainIgnoresPruning | Checkers.Core/Bot/NegaMaxBot.cs:121 | the plain negamax does not depend on the pruning option |
| DraughtsBoardBuilder.Build | Checkers.Core/Game/DraughtsBoardBuilder.cs:12-26 | the nested loops build a valid 8x8 board without kings whose every cell holds its start figure |
| DraughtsBoardBuilder.StartSide | Checkers.Core/Game/DraughtsBoardBuilder.cs:19-22 | every cell gets Empty, Black or Red, never Nop |
| DraughtsBoardBuilder.StartLayout | Checkers.Core/Game/DraughtsBoardBuilder.cs:19-22 | Red exactly on rows 0-2 and Black exactly on rows 5-7, where row and column parities differ; rows 3 and 4 empty; no kings |
| DraughtsBoardBuilder.TwelvePerSide | Checkers.Core/Game/DraughtsBoardBuilder.cs:22 | GetAll reports twelve simple pieces for Black and twelve for Red |
| DraughtsBoardBuilder.StartCount | Checkers.Core/Game/DraughtsBoardBuilder.cs:15-22 | a side's start rows hold twelve pieces |
| GameHistory.Reverse | Checkers.Core/Game.cs:145-153 | popping a stack yields as many entries as it holds |
| GameHistory.ReverseAt | Checkers.Core/Game.cs:145-153 | the i-th entry popped is the i-th from the top |
| GameHistory.ReverseReverse | Checkers.Core/Game.cs:145-177 | popping all entries and pushing them onto another stack, then back, restores their order |
| GameHistory.MoveBack | Checkers.Core/Game.cs:145-177 | moving the top n entries from one stack to another and back restores both stacks, and the first entry moved is the top one |
| CoreGames.PlayerIndex | Checkers.Core/Game.cs:47 | the current player index is the turn modulo 2 |
| CoreGames.WinChecked | Checkers.Core/Game.cs:107-120 | when the current player's side has no moves, that player's own index becomes the winner and the status says which player won; otherwise nothing changes; board, turn and stacks are never touched |
| CoreGames.Walked | Checkers.Core/Game.cs:122-131 | a walk pushes the current side, the sequence and the pre-move board on the undo stack, applies the chain, clears the redo stack and increments the turn |
| CoreGames.UndoneOnce | Checkers.Core/Game.cs:148-153 | one undo pass keeps the turn equal to the undo stack size |
| CoreGames.Undone | Checkers.Core/Game.cs:141-155 | UndoGameMove.Execute's loop; `CoreGames.UndoneMoves` and `CoreGames.UndoneTurnAndBoard` prove which entries move to the redo stack, the turn and the board afterwards, `CoreGames.UndoneCoherent` that it keeps the state coherent, and `CoreGames.Game.Undo` is proved equal to it |
| CoreGames.RedoneOnce | Checkers.Core/Game.cs:168-177 | one pass of RedoGameMove's loop; `CoreGames.RedoneMoves` and `CoreGames.RedoneTurnAndBoard` state its effect through `CoreGames.Redone` |
| CoreGames.Redone | Checkers.Core/Game.cs:166-179 | RedoGameMove.Execute's loop; `CoreGames.RedoneMoves` and `CoreGames.RedoneTurnAndBoard` prove which entries return to the undo stack, the turn and the board afterwards, `CoreGames.RedoneCoherent` that it keeps the state coherent, and `CoreGames.Game.Redo` is proved equal to it |
| CoreGames.UndoneMoves | Checkers.Core/Game.cs:141-155 | undo moves the top min(k, size) entries to the redo stack, the top one first; with an empty stack nothing changes |
| CoreGames.UndoneTurnAndBoard | Checkers.Core/Game.cs:141-155 | the turn goes back by one per entry moved, and the board is the pre-move board of the deepest entry moved |
| CoreGames.RedoneMoves | Checkers.Core/Game.cs:166-179 | redo moves the top min(k, size) redo entries back onto the undo stack, the top one first |
| CoreGames.RedoneTurnAndBoard | Checkers.Core/Game.cs:166-179 | the turn advances by one per entry moved, and the board is the pre-move board of the last entry moved |
| CoreGames.UndoneCoherent | Checkers.Core/Game.cs:141-155 | undo keeps the turn equal to the undo stack size and every stored board valid |
| CoreGames.RedoneCoherent | Checkers.Core/Game.cs:166-179 | redo keeps the turn equal to the undo stack size and every stored board valid |
| CoreGames.WalkedCoherent | Checkers.Core/Game.cs:124-130 | a walk keeps the turn equal to the undo stack size and every stored board valid |
| CoreGames.OfferedMoves | Checkers.Core/Game.cs:86-91 | Undo is offered exactly when the undo stack is non-empty, Redo exactly when the redo stack is, and a walk exactly for a listed figure and one of its sequences |
| CoreGames.Offered | Checkers.Core/Game.cs:86-91 | the moves GameLoop offers; `CoreGames.OfferedMoves` proves that Undo is offered exactly when there is something to undo, Redo likewise, and a walk exactly when it is a listed sequence |
| CoreGames.Played | Checkers.Core/Game.cs:94-95 | what the chosen move does: a walk, two undo passes or two redo passes; `CoreGames.Game.Play` ensures the same three effects case by case, and `CoreGames.OfferedMoves` says which of them are on offer |
| CoreGames.WalkPassesTurn | Checkers.Core/Game.cs:130 | after a walk the other player is current |
| CoreGames.WalkChecksMover | Checkers.Core/Game.cs:107-131 | after a walk, the player who moved is declared winner exactly when their own side has no moves left; otherwise the winner and status stay |
| CoreGames.UndoKeepsPlayer | Checkers.Core/Game.cs:143-144 | undoing two moves leaves the same player to move |
| CoreGames.UndoAfterTwoWalks | Checkers.Core.Tests/GameTests.cs:67-111 | two walks then Undo restore the board, turn and undo stack from before the walks and leave two redo entries |
| CoreGames.UndoFirstWalk | Checkers.Core/Game.cs:145-153 | Undo after the first walk restores the start board, turn 0 and an empty undo stack |
| CoreGames.UndoRedoRoundTrip | Checkers.Core/Game.cs:141-179 | Redo after Undo restores both stacks and the turn, but leaves the board before the top move |
| CoreGames.RedoLeavesBoardBeforeTopMove | Checkers.Core/Game.cs:172-173 | after Redo the board is the top undo entry's pre-move board |
| CoreGames.Game.SidesOf | Checkers.Core/Game.cs:55-56 | the game has exactly two player sides |
| CoreGames.Game.constructor | Checkers.Core/Game.cs:29-40 | empty stacks, turn 0, winner index 0, no status, and the builder's board |
| CoreGames.Game.Start | Checkers.Core/Game.cs:49-62 | refused exactly when both players have the same side, changing nothing; otherwise stores the players, clears both stacks and the winner, takes a fresh builder board, sets turn 0 and status Started |
| CoreGames.Game.Play | Checkers.Core/Game.cs:81-105 | one pass of the game loop: no choice stops the game; an offered walk, undo or redo makes exactly that state change |
| CoreGames.Game.CheckForWin | Checkers.Core/Game.cs:107-120 | the object's state becomes `WinChecked` of the old state |
| CoreGames.Game.Walk | Checkers.Core/Game.cs:122-131 | the object's state becomes `Walked` of the old state |
| CoreGames.Game.Undo | Checkers.Core/Game.cs:141-155 | the while loop leaves the state of two undo passes, or fewer when the stack runs out |
| CoreGames.Game.Redo | Checkers.Core/Game.cs:166-179 | the while loop leaves the state of two redo passes, or fewer when the stack runs out |
| DraughtsGames.EnglishRules | Checkers.Core/Rules/EnglishDraughtsRules.cs:13-22 | the English rules provider: Red moves first and the game is over exactly when either side has no moves |
| DraughtsGames.EnglishRulesWellFormed | Checkers.Core/Rules/EnglishDraughtsRules.cs:24-52 | every sequence the English rules list can be executed by the command chain |
| DraughtsGames.TrivialScoring | Checkers.Core/Bot/TrivialBoardScoring.cs:7-13 | for a player side the scoring function is `Scoring.Evaluation`'s value |
| DraughtsGames.TrivialScoringInRange | Checkers.Core/Bot/TrivialBoardScoring.cs:7-28 | the material count lies in -192 .. 192, so it meets the bot's negatable Int32 range |
| DraughtsGames.EnglishBotSound | Checkers.WPF/MainWindow.xaml.cs:50-54 | the bot as the front end builds it, English rules with TrivialBoardScoring, meets every requirement of `FindBestMove` |
| DraughtsGames.Lookup | Checkers.Core/Game/Game.cs:57 | TryGetValue fails exactly when no entry has the figure; otherwise the entry it finds has that figure |
| DraughtsGames.Started | Checkers.Core/Game/Game.cs:36-49 | Start stores the player's side, clears the history, takes the builder's board, gives the first move to the rules' first side, keeps the winner, and updates the valid moves |
| DraughtsGames.MadeMove | Checkers.Core/Game/Game.cs:53-76 | no-op once a winner is set; an unknown figure or too large an index is an error; otherwise it pushes the pre-move board, applies the chain, and either records the mover as winner or toggles the side and updates the moves |
| DraughtsGames.Undone | Checkers.Core/Game/Game.cs:125-135 | refused, changing nothing, exactly with empty history or when the bot is to move; otherwise pops one entry, restores its pre-move board and updates the moves, with side and winner unchanged |
| DraughtsGames.StartedConsistent | Checkers.Core/Game/Game.cs:36-49 | a started game's valid moves are the rules' moves for the side to move |
| DraughtsGames.MadeMoveConsistent | Checkers.Core/Game/Game.cs:53-76 | a successful move keeps the valid moves in step with the board and the side to move |
| DraughtsGames.UndoneConsistent | Checkers.Core/Game/Game.cs:125-135 | Undo keeps the valid moves in step with the board and the side to move |
| DraughtsGames.ConsistentExecutable | Checkers.Core/Game/Game.cs:62-68 | while nobody has won, every offered sequence can be executed |
| DraughtsGames.WinnerIsFinal | Checkers.Core/Game/Game.cs:36-56 | once a winner is set MakeMove changes nothing, and Start keeps the winner |
| DraughtsGames.NotStartedRefuses | Checkers.Core/Game/Game.cs:53-60 | before Start, MakeMove finds no figure (the error of line 58) and Undo has nothing to take back (line 127); neither changes the game |
| DraughtsGames.NoUndoOnBotTurn | Checkers.Core/Game/Game.cs:128 | right after the player's own move, while the game goes on, Undo is refused |
| DraughtsGames.UndoTakesBackReply | Checkers.Core/Game/Game.cs:125-135 | after the player's move and the bot's reply, Undo takes back only the reply: the board and history after the player's move, with the player to move |
| DraughtsGames.ToggleTwice | Checkers.Core/Game/Game.cs:120-123 | toggling changes the side, and toggling twice gives it back |
| DraughtsGames.Game.constructor | Checkers.Core/Game/Game.cs:23-30 | empty history and valid moves, no winner, the builder's board; the new game is `Valid()`, so MakeMove and Undo may be called before Start |
| DraughtsGames.Game.Start | Checkers.Core/Game/Game.cs:36-49 | the object's state becomes `Started` of the old state |
| DraughtsGames.Game.MakeMove | Checkers.Core/Game/Game.cs:53-76 | the object's state and result are those of `MadeMove`: the error leaves the state unchanged |
| DraughtsGames.Game.GameIsOver | Checkers.Core/Game/Game.cs:109-118 | when the rules say the game is over the side to move is recorded as winner; otherwise nothing changes |
| DraughtsGames.Game.ToggleSide | Checkers.Core/Game/Game.cs:120-123 | only the side to move changes, to the other side |
| DraughtsGames.Game.Undo | Checkers.Core/Game/Game.cs:125-135 | the result and state are those of `Undone` |
| DraughtsGames.Game.UpdateAvailableMoves | Checkers.Core/Game/Game.cs:143-146 | only the valid moves change, to the rules' moves for the board and the side to move |

## Left out

- Parallelism in the bot: worker tasks, the running-worker counter, the lock, `Task.WaitAll`, and the branch cancellation source. On the sequential path the branch token is only ever cancelled by pruning, which becomes a loop `break`. `DegreeOfParallelism` is therefore not modelled.
- The bot's external cancellation token, which is timer-driven, is taken as never cancelled. The `StackIsNotEnough` probe is taken as false. The debug logging and `IsDebug` are I/O.
- `MinimaxBot`, `BotPlayer`, the WPF front end, the `ToString` methods and the test doubles are user interface, timing or formatting.
- The hash codes of `Point`, `Figure` and `MoveStep`: Dafny datatypes carry structural equality and no hash. `Point.Equals(object)` is the same comparison as `==`.
- The masks are sets of bit indices rather than `ulong` values, so the shifts and masking are not modelled at the bit level. The model still works with the index `Size * col + row`.
- NegaMaxLemmas.NodeInRange: Int32 wrap-around of scores is not modelled. The scoring is instead required to stay within a range where negation cannot overflow.
- NegaMaxBots.NegaMaxBot.Estimate: wrap-around of `TotalMovesEstimated` is not modelled; it is an unbounded counter.
- CoreGames.Game.Play: the core game's `Task.Run` loop, `SpinWait`, `StopAndWait` and its `Stopped` status, `IPlayer.Choose`, the statistics and the `GameUpdated` notification are concurrency or plumbing. `Play` models one pass of the loop with the player's choice as a parameter.
- CoreGames.Game.Start: `StopAndWait` and the start of the loop task are not modelled.
- The core game's `_turn` is a `uint`. It is a `nat` here, with no wrap-around, because it always equals the undo stack's size.
- The player-against-bot game's async parts are not modelled: `MakeBotMove` (a task with a timeout), `MakeBotRandomMove` (`Random` seeded from the clock) and the `OnMoveCompleted` event.
- DraughtsGames.Game.Start: does not make the bot's random opening move (Checkers.Core/Game/Game.cs:44-45). When the bot moves first, the modelled game waits in the opening position with the bot to move.
- `GetValidMoves` is not modelled: it only copies the dictionary.
- GameSides.Convert: the `GameSide` enum and `SideUtil.Convert` are not part of this model's source files. Checkers.Core/Side.cs:17-26 defines only `SideUtil.Opposite`, yet Checkers.Core/Game.cs:86 and :110 call `SideUtil.Convert`. The model assumes that `GameSide` has the two cases Black and Red, and takes the mapping Black to Black and Red to Red from the inline conversion at Checkers.Core/Game/Game.cs:34.
- RulesEngine.EnglishDraughtsRules.BuildJumpSequences and RulesEngine.EnglishDraughtsRules.FollowDirections hold the `builder` list and each `MoveSequence` as `seq` values, not as shared `List<MoveSequence>` objects. No behaviour is lost: the source copies a sequence before extending it (EnglishDraughtsRules.cs:88-89) and never changes one after `builder.Add`.
- Before `Start`, the source's game holds a default board. The model starts from the builder's board and Black, because nothing reads that board before `Start` replaces it.
- DraughtsGames.EnglishRules: returns no moves for a non-player side, where GetAll would throw. The games only ask for Black or Red.
- Dictionaries are ordered lists of entries, in insertion order. `Lookup` takes the first entry with the figure, which is the only one because the keys are distinct (`RulesLemmas.MovesKeys`).
- NegaMax.Next: for a state the rules list but the chain could not execute, the child falls back to the unchanged board. Sound rules never list such a state (`StatesPlayable`).
- `MoveCommandChain.cs:25` names `SimpleMoveCommand`, which is not part of this model. Move steps get the semantics of `WalkMoveCommand`.
- `MoveStepTypes` is not part of this model either. Its three cases are those used in `MoveStep.cs:10-12`, so the `default` throw of `CreateMoveCommand` cannot be reached.
- The interfaces `IRules`, `IBoardScoring`, `IBot`, `IPlayer`, `IGameMove`, `IGameStatistics` and `IBoardBuilder` become function parameters or fixed values. `ReadOnlyBoard`, `PresetBoardBuilder` and the `GameMove` wrappers are thin wrappers.
- The older snapshot files are superseded by the files modelled above: `Board.cs`, `Point.cs`, `Figure.cs`, `Side.cs`, `MovesProvider.cs`, `Move.cs`, `History.cs`, the `partial class Game` files and `Rules/IMoveCommand.cs` directly under `Checkers.Core`. So are the stale `BotMove.cs` and `BotOptions.cs`. `BotMove`, `Empty` and the options record take their shape from their use in `NegaMaxBot.cs`.
