# Focus/Domination rules engine in Dafny

This project models the rules engine of a two-player Focus (Domination) game
on a 6×6 board, as implemented in `FocusGame.py`:

- the `Player`, `Stack` and `FocusGame` classes;
- the starting layout;
- the two actions, a stack move and a placement from reserve, with their validation, turn handling, overflow and win check;
- the queries.

Pieces are colour strings, the two players have distinct colours, and a stack
lists its pieces from the top (index 0) to the bottom. A move lifts the top
`n` pieces of a stack the mover controls and puts them `n` cells away in a
straight line. A stack taller than five sheds its bottom pieces: to the
mover's reserve when they are the mover's colour, to the mover's captures
otherwise. Six captures win.

The project has two layers.

- `Rules` (rules.dfy) states the engine as functions on values: a `Game` (board, two `PlayerState`s, turn record) and a `Step` (next game, outcome). Each check and action of the engine is one function. The contracts of the checks state their verdicts. The contracts of `MovePiece` and `ReservedMove` state the refusal conditions and the turn handling, and equate a success with `ProcessMove` or `Place`. The effect of those two on the board and the pools is stated by the lemmas `ProcessMoveBoard`, `ProcessMovePools` and `PlaceEffect`.
- `Focus` (focus.dfy) is the imperative engine:
  - `Player` and `Stack` objects whose fields change in place;
  - a `FocusGame` owning an `array2<Option<Stack>>` board and a turn field.

  `View()` is the game value these objects stand for. The `FocusGame` methods that change the game value (the constructor, `CheckTurn`, `CheckReservedMove`, `ChangeTurn`, `EndGame`, `ProcessMove`, `PlaceFromReserve`, `PlayMove`, `PlayReserve`, `MovePiece` and `ReservedMove`) are proved to turn `View()` into the value the corresponding `Rules` function computes. The `Player` and `Stack` methods and the steps inside an action (`FillBoard`, `PlaceRow`, `CopyTop`, `ClearSource`, `Combine`, `ResolveOverflow`, `PlaceOnEmpty`, `PlaceOnStack`) state their effect on their own fields or on the cells they change. `Valid()` is a sound object structure plus the invariant of `GameInvariant` on `View()`. Only the constructor establishes it, and only the public actions `MovePiece` and `ReservedMove` ensure they keep it; the other methods do not promise it. The loops of `fill_board`, the copy, delete and merge steps of `process_move`, and the overflow loop are `while` loops with their invariants.

Properties are proved on the value layer:

- `GameInvariant` (invariant.dfy): stack heights stay within one to five. The 36 pieces are conserved, 18 per colour, across board, reserves and captures. Reserves hold only the owner's colour and captures only the other colour. A game that is not over has no six-capture player. Every action keeps this invariant.
- `Play` (play.dfy): sequences of actions. Turns alternate strictly, only a player with six captures wins, and a finished game never changes again.
- `Scenarios` (scenarios.dfy): concrete openings on the starting board.
- `Findings` (findings.dfy): two defects of the code as written; see "Findings".

Refusals are a `Failure` datatype instead of a printed message followed by
`False`:

| kind | message |
|---|---|
| `NotYourTurn` | "not your turn" |
| `GameIsOver` | "Game is over" |
| `InvalidLocation` | "Source/Destination coordinates invalid", "Move coordinates invalid" |
| `NotYourPiece` | "invalid location(not your piece)" |
| `InvalidPieceCount` | "invalid number of pieces" |
| `IllegalMove` | "invalid location(move not possible)" |
| `NoReserve` | "No pieces in reserve" |

The turn record `_turn` is `None`, a player name, or `1` after a win. It is
modelled as `Turn = Unset | Current(name) | Over`.

Where the code and its prose description differ, the model follows the code:

- `check_turn` and `check_reserved_move` record the first caller as the current player even when the action is then refused for another reason. A refusal is therefore not free of effects: `Rules.MovePiece` and `Rules.ReservedMove` return the game with its turn record updated.
- `reserved_move` onto an empty cell returns at once and never checks for a win (`Rules.ReservedMove`).
- `check_reserved_move` tests for an empty reserve before the turn, so that refusal leaves even an unset turn record unset.
- `change_turn` hands the turn to the second player when the name is the first player's, and to the first player otherwise.

## Model

| member | source | states |
|---|---|---|
| Focus.Player.constructor | FocusGame.py:21-30 | a player starts with the given name and colour and two empty pools |
| Focus.Player.AddReserve | FocusGame.py:53-58 | the piece is appended to the reserve; the captures are unchanged |
| Focus.Player.SubReserve | FocusGame.py:60-65 | the front reserve entry is removed; the captures are unchanged |
| Focus.Player.AddCaptured | FocusGame.py:74-79 | the piece is appended to the captures; the reserve is unchanged |
| Focus.Stack.constructor | FocusGame.py:89-98 | a new stack holds exactly one piece of its colour |
| Focus.Stack.GetSize | FocusGame.py:107-112 | the size is the number of pieces in the list (see Findings) |
| Focus.Stack.AddBottomPiece | FocusGame.py:115-122 | the piece goes below the others |
| Focus.Stack.SubBottomPiece | FocusGame.py:124-129 | the bottom piece is dropped; an empty list stays empty, as a slice does |
| Focus.Stack.AddPieceToTop | FocusGame.py:131-137 | the piece goes on top of the others |
| Focus.Stack.GetBottomPiece | FocusGame.py:146-157 | none exactly for an empty stack, else the last list entry, with the list being the rest plus that piece |
| Focus.FocusGame.constructor | FocusGame.py:172-194 | the new game is `Rules.NewGame` (filled board, empty pools, no turn) and satisfies the invariant |
| Focus.FocusGame.FillBoard | FocusGame.py:196-211 | every cell holds a one-piece stack of its own (no two cells share one), of the first player's colour exactly where `StartColor` says so |
| Focus.FocusGame.PlaceRow | FocusGame.py:202-211 | one row gets six one-piece stacks of its own, coloured a a b b a a; no other row changes |
| Focus.FocusGame.GetPlayer | FocusGame.py:503-513 | a player is found exactly when the name is one of the two; it is the first one with that name |
| Focus.FocusGame.GetTurn | FocusGame.py:525-530 | the turn record of the game value |
| Focus.FocusGame.CheckTurn | FocusGame.py:399-417 | verdict and new turn record agree with `Rules.CheckTurn` (the first caller is recorded) |
| Focus.FocusGame.ChangeTurn | FocusGame.py:515-523 | the game value changes only in its turn, which becomes `Rules.ChangeTurn` |
| Focus.FocusGame.EndGame | FocusGame.py:244-245 | after a win only the turn record changes, to finished |
| Focus.FocusGame.CheckWin | FocusGame.py:386-397 | agrees with `Rules.CheckWin` on the game value |
| Focus.FocusGame.CheckMove | FocusGame.py:419-455 | agrees with `Rules.CheckMove`; reads and changes nothing |
| Focus.FocusGame.CheckReservedMove | FocusGame.py:457-478 | verdict and new turn record agree with `Rules.CheckReservedMove` |
| Focus.FocusGame.ShowPieces | FocusGame.py:292-306 | agrees with `Rules.ShowPieces`: a copy of the pieces bottom first; the board is not touched |
| Focus.FocusGame.ShowReserve | FocusGame.py:308-319 | the number of pieces in the named player's reserve |
| Focus.FocusGame.ShowCaptured | FocusGame.py:321-333 | the number of pieces the named player has captured |
| Focus.FocusGame.CopyTop | FocusGame.py:258-262 | a fresh array holding the top n pieces of the source, in order |
| Focus.FocusGame.ClearSource | FocusGame.py:264-270 | the source loses exactly its top n pieces and becomes empty when that was all; no other cell changes |
| Focus.FocusGame.Combine | FocusGame.py:272-281 | the destination holds the moved pieces in order on top of its old pieces; no other cell changes |
| Focus.FocusGame.ResolveOverflow | FocusGame.py:283-289 | the destination and the mover's pools become what `Rules.Overflow` computes |
| Focus.FocusGame.MoveStacks | FocusGame.py:258-281 | the board after copy, delete and merge: source remainder and merged destination, other cells unchanged |
| Focus.FocusGame.ProcessMove | FocusGame.py:247-289 | the game value becomes `Rules.ProcessMove` of the old one |
| Focus.FocusGame.PlayMove | FocusGame.py:231-245 | the new game value and outcome are `Rules.MovePiece` of the old game |
| Focus.FocusGame.MovePiece | FocusGame.py:213-245 | as `PlayMove`, and the invariant is kept |
| Focus.FocusGame.PlayReserve | FocusGame.py:344-371 | the new game value and outcome are `Rules.ReservedMove` of the old game |
| Focus.FocusGame.ReservedMove | FocusGame.py:335-371 | as `PlayReserve`, and the invariant is kept |
| Focus.FocusGame.PlaceFromReserve | FocusGame.py:347-365 | the game value becomes `Rules.Place` with the turn passed on |
| Focus.FocusGame.PlaceOnEmpty | FocusGame.py:349-351 | an empty destination gets a one-piece stack of the mover's colour; one reserve piece is spent |
| Focus.FocusGame.PlaceOnStack | FocusGame.py:354-356 | the mover's colour goes on top of the destination; one reserve piece is spent |
| Focus.RowPattern | FocusGame.py:202-211 | the colour fill_board puts at (i, c) is `StartColor`: the second colour exactly when row parity and middle pair disagree |
| Rules.InitialGrid | FocusGame.py:196-211 | stacks of one piece in every cell, coloured by `StartColor` |
| Rules.EvenRow | FocusGame.py:205 | the row literal of the first loop has six cells, coloured as `StartColor` colours row 0 |
| Rules.OddRow | FocusGame.py:210 | the row literal of the second loop has six cells, coloured as `StartColor` colours row 1 |
| Rules.CheckWin | FocusGame.py:386-397 | a win only for a known name; with distinct names, exactly when that player's captures number six or more |
| Rules.CheckCoords | FocusGame.py:480-500 | the four bound tests pass exactly when both cells lie on the 6×6 board |
| Rules.AxisStep | FocusGame.py:445-455 | for a count that is not negative, the four accepted steps are exactly the straight lines of length n |
| Rules.Remainder | FocusGame.py:264-270 | the source cell is emptied exactly when all its pieces are lifted; otherwise it keeps at least one piece, and the lifted top n followed by what is left is the old stack |
| Rules.NewGame | FocusGame.py:172-194 | filled board, players with given names and colours and empty pools, turn unset |
| Rules.Mover | FocusGame.py:503-513 | the player with that name, the first one when both have it |
| Rules.ChangeTurn | FocusGame.py:515-523 | always a current player; with distinct names, the other player |
| Rules.Opponent | FocusGame.py:515-523 | the other player's name, distinct from the given one |
| Rules.CheckTurn | FocusGame.py:399-417 | passes exactly when no turn is set or it is the caller's; passing records the caller; a refusal keeps the record and names finished game or wrong player |
| Rules.CheckMove | FocusGame.py:419-455 | passes exactly when both cells are on the board, the mover controls the source, 1 ≤ n ≤ its height and the destination is n cells away in a line; off-board coordinates are `InvalidLocation`, an empty or foreign source `NotYourPiece`, a count outside 1..height `InvalidPieceCount`, and anything else `IllegalMove`, each as an if-and-only-if |
| Rules.CheckReservedMove | FocusGame.py:457-478 | empty reserve refuses without touching the turn; passes exactly with a reserve, the caller's (or no) turn and an on-board cell |
| Rules.Overflow | FocusGame.py:283-289 | the kept stack is the top min(height, 5) pieces in order |
| Rules.OverflowGrows | FocusGame.py:283-289 | the pools only grow at their ends: the reserve by the mover's colour, the captures by other colours |
| Rules.OverflowConserves | FocusGame.py:283-289 | kept pieces plus both pools are the stack plus the old pools, as multisets |
| Rules.OverflowEvicts | FocusGame.py:283-289 | the pools' new entries are exactly the evicted bottom pieces |
| Rules.ProcessMove | FocusGame.py:247-289 | turn unchanged, players keep names and colours |
| Rules.ProcessMoveBoard | FocusGame.py:247-289 | source loses its top n (empty iff all), destination holds the moved group on top cut to five, its top is the moved top, other cells unchanged |
| Rules.ProcessMovePools | FocusGame.py:283-289 | the other player is untouched; the mover's pools are what overflow of the merged stack produces |
| Rules.MovePiece | FocusGame.py:213-245 | success exactly when turn and check_move pass; refusals change only the turn record; a win goes to the mover with six captures and finishes the game; otherwise the turn passes |
| Rules.ReservedMove | FocusGame.py:335-371 | refusal exactly when check_reserved_move fails, each refusal kind exactly; a win needs six captures and finishes the game; otherwise the turn passes; a placement that is not refused had a reserve and an on-board cell and is `Place` apart from the turn record |
| Rules.Place | FocusGame.py:344-365 | the turn is unchanged and players keep names and colours |
| Rules.PlaceEffect | FocusGame.py:344-365 | destination holds the mover's colour on top of its old pieces cut to five; other cells unchanged; the front reserve entry is spent, then overflow only; the other player untouched |
| Rules.ShowPieces | FocusGame.py:292-306 | none exactly for an empty cell, else the cell's pieces bottom first; Python's negative indices wrap |
| Rules.Reversed | FocusGame.py:304-305 | the reverse of the list, element by element |
| GameInvariant.InitialCensus | FocusGame.py:196-211 | the starting board holds eighteen pieces of each colour and nothing else |
| GameInvariant.InvCensus | FocusGame.py:172-211 | in every reachable game the census holds 18 of each colour, 36 in all |
| GameInvariant.NewGameInv | FocusGame.py:172-194 | a new game satisfies the invariant |
| GameInvariant.MovePieceInv | FocusGame.py:213-289 | every move, refused, successful or winning, keeps the invariant |
| GameInvariant.ProcessMoveBounded | FocusGame.py:247-289 | after a move every stack holds one to five pieces |
| GameInvariant.ProcessMoveSorted | FocusGame.py:283-289 | after a move reserves hold own colour only and captures the other colour only |
| GameInvariant.ProcessMoveCensus | FocusGame.py:247-289 | a move conserves every piece of the game |
| GameInvariant.MoveGrid | FocusGame.py:258-281 | lifting and merging moves pieces between cells without loss |
| GameInvariant.OverflowBalance | FocusGame.py:283-289 | overflow moves pieces from the stack to the pools without loss |
| GameInvariant.OverflowFits | FocusGame.py:283-289 | a stack of at most five pieces loses nothing |
| GameInvariant.ReservedMoveInv | FocusGame.py:335-371 | every placement, refused, successful or winning, keeps the invariant |
| GameInvariant.PlaceInv | FocusGame.py:344-371 | a placement that passed its checks keeps the invariant |
| GameInvariant.PlaceBounded | FocusGame.py:344-365 | after a placement every stack holds one to five pieces |
| GameInvariant.PlaceOnEmpty | FocusGame.py:349-353 | a piece placed on an empty cell captures nothing |
| GameInvariant.PlaceSorted | FocusGame.py:344-365 | after a placement reserves hold own colour only and captures the other colour only |
| GameInvariant.PlaceCensus | FocusGame.py:344-365 | a placement conserves every piece of the game |
| GameInvariant.PlaceGrid | FocusGame.py:349-357 | the board count across the placement: the old destination gives way to the new stack |
| GameInvariant.PlacePools | FocusGame.py:354-365 | the placed piece comes from the front of the reserve and overflow returns its evictions to the pools |
| Play.Apply | FocusGame.py:213-371 | any action keeps the invariant and the players' names and colours |
| Play.Run | FocusGame.py:213-371 | any sequence of actions keeps the invariant |
| Play.OverRefuses | FocusGame.py:410-412 | once the game is over every action is refused and changes nothing |
| Play.OverIsFinal | FocusGame.py:244 | after a win no sequence of actions changes the game |
| Play.NoSecondTurn | FocusGame.py:407-417 | after a successful non-winning action it is the other player's turn, and the same player's next action is refused |
| Play.WinnerHasSix | FocusGame.py:386-397 | a win goes to the acting player, who has at least six captures, and finishes the game |
| Play.NoWinnerYet | FocusGame.py:386-397 | an action that does not win leaves both players below six captures |
| Scenarios.TooManyPieces | FocusGame.py:440-442 | lifting two pieces off a one-piece stack is refused, yet the first mover is recorded |
| Scenarios.WrongDistance | FocusGame.py:443-455 | one piece moved two cells is refused as an illegal move |
| Scenarios.FirstMerge | FocusGame.py:213-306 | A's piece from (0,0) joins (0,1): (0,0) is empty, (0,1) shows R R, and it is B's turn |
| Scenarios.NoReserveFirst | FocusGame.py:466-468 | a placement with an empty reserve is refused before anything, even off the board |
| Findings.NewCounted | FocusGame.py:96-98 | a new `CountedStack` holds one piece and its counter agrees |
| Findings.AddTopCounted | FocusGame.py:131-137 | the piece goes on top, and a counter that agreed still agrees |
| Findings.SubBottomCounted | FocusGame.py:124-129 | the bottom piece goes, and a counter that agreed still agrees |
| Findings.DeleteTopsAsWritten | FocusGame.py:264-270 | n deletions of entry 0 leave the list without its top n pieces and the counter where it was |
| Findings.CountAcceptedAsWritten | FocusGame.py:440-442 | the count test passes exactly for 1..counter, which is 1..height only while the counter agrees |
| Findings.StaleSizeAdmits | FocusGame.py:264-270 | as written, every partial move leaves a counter above the list length, and the count test then admits too many pieces |
| Findings.StaleSizeExample | FocusGame.py:440-442 | as written, the stack R after a merge and a one-piece move counts two and admits a two-piece move |
| Findings.CountIsHeight | FocusGame.py:440-442 | as intended, a passing move lifts at most the stack's height, and a larger count is refused |
| Findings.ShowPiecesAsWritten | FocusGame.py:292-306 | returns what `Rules.ShowPieces` returns, but leaves the stack reversed on the board |
| Findings.ShowPiecesFlipsControl | FocusGame.py:302-305 | as written, viewing a stack whose top and bottom differ hands its control to the bottom piece's colour |
| Findings.ShowPiecesExample | FocusGame.py:292-306 | as written, after A's merge onto (0,2) and B's reply, A's move (0,2)→(0,3) is played on the unviewed board and refused as not A's piece after viewing (0,2) |
| Findings.OpeningMove | FocusGame.py:231-245 | A's move (0,1)→(0,2) is played, leaves R over G at (0,2), keeps both players' pools and hands the turn to B |
| Findings.ReplyMove | FocusGame.py:231-245 | B's move (1,0)→(2,0) is played, keeps (0,2), (0,3) and both players' pools, and hands the turn to A |
| Findings.FollowUp | FocusGame.py:431-455 | A's move (0,2)→(0,3) is played when R is on top of (0,2) and refused as not A's piece when G is |
| Findings.ShowPiecesIsPure | FocusGame.py:292-306 | as intended, show_pieces reports the pieces bottom first, and reversing twice gives the stack back |

## Left out

- `FocusDisplay` (pygame drawing and mouse input) and `print_board` are not part of this model. Printed messages become the `Failure` kinds above.
- Getters (`get_name`, `get_color`, `get_reserves`, `get_captured`, `get_stack_list`, `Stack.get_color`) are modelled as field reads.
- The constructor with two equal colours prints a message and leaves the object without a board, so any later call crashes. It is a precondition (`player1.1 != player2.1`).
- Unknown player names make `get_player` return `None` (`Focus.FocusGame.GetPlayer` models that result). `check_reserved_move` (line 466), `show_reserve` and `show_captured` then crash at once. `move_piece` does not always crash: with a turn set, `check_turn` refuses the name (lines 413-415); with no turn set, it records the unknown name (lines 407-409), `check_move` refuses off-board coordinates or an empty source without a crash (lines 431-435), and from then on both real players get "not your turn"; on an occupied source line 436 crashes. The actions, `ShowReserve` and `ShowCaptured` take a known name as a precondition, so this path is not modelled.
- `show_pieces` with an index outside -6..5 raises in Python. It is a precondition; indices in -6..-1 wrap as in Python.
- The empty-list form `[]` of a cell exists only inside `__init__` before `fill_board` replaces it, so it is not modelled. An empty cell is `None`.
- Focus.Player.SubReserve: its guard (line 61) reads the front reserve entry, `_reserves[0]`, before comparing it with an empty list. On an empty reserve that read raises IndexError; on a non-empty one the `!=` test always holds, so the `else` branch is never reached. The method requires a non-empty reserve; every caller has checked that first.
- Focus.FocusGame.ShowReserve: compares a list with 0, which never holds, so the result is always the length. Focus.FocusGame.ShowCaptured does the same.
- Focus.FocusGame.CheckWin: the for/else loop is written as a function of the two players.
- Focus.FocusGame.ShowPieces: returns a reversed copy. The in-place reversal of the code as written is modelled separately as `Findings.ShowPiecesAsWritten`.
- Focus.Stack.GetSize: counts the list instead of keeping a counter. The counter of the code as written is modelled separately as `Findings.CountedStack`.
- `Play.Run` is a driver over sequences of actions for stating multi-step properties. No such driver exists in the source.

## Findings

| source | as written | input that shows it | evidently intended | confidence | as-written member | corrected member |
|---|---|---|---|---|---|---|
| FocusGame.py:264-270 | the removal loop of `process_move` deletes list entries without lowering `_size`, and `check_move` (line 440) tests the piece count against `_size` | A moves (0,0)→(0,1) with 1 piece; B moves (1,0)→(2,0) with 1 piece; A moves (0,1)→(1,1) with 1 piece; B moves (1,4)→(1,5) with 1 piece; A moves (0,1)→(0,3) with 2 pieces. `check_move` accepts, and the copy loop of `process_move` indexes past the one-piece list | the count is tested against the stack's real height and the move is refused with "invalid number of pieces" | not executed | Findings.StaleSizeExample | Findings.CountIsHeight |
| FocusGame.py:302-305 | `show_pieces` reverses the stack's own list in place, so the board now holds that stack upside down | A moves (0,1)→(0,2) with 1 piece, so (0,2) is R over G; B moves (1,0)→(2,0) with 1 piece; `show_pieces((0,2))`; A's move (0,2)→(0,3) with 1 piece, which is played without the call, is then refused as not A's piece | `show_pieces` returns a reversed copy and leaves the board as it was | not executed | Findings.ShowPiecesExample | Findings.ShowPiecesIsPure |
