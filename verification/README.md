# Tic-tac-toe rule engine in Dafny

This project models the rule engine of a two-player browser tic-tac-toe game:
the `Gameboard` and `Cell` factories, the `checkWinner` predicate and the
`GameController` state machine in `script.js` (lines 1–128). The page that
renders the board and wires up events (`ScreenController`) is not part of the
model.

It has five modules:

- `Gameboard` (`gameboard.dfy`): tokens `O` and `X`, write-once cells, and the
  board as a nine-cell row-major sequence. Cell (row, col) sits at index
  `row * 3 + col`. `SetToken` refuses to overwrite a cell. `Count` and
  `Occupied` count cells.
- `Winner` (`winner.dfy`): `CheckWinner` is the scan over the eight winning
  index triples, in the order the checker tries them. `Wins` is an independent
  geometric definition: some row, column or diagonal is entirely one player's
  token. The two definitions are proved to agree. Further lemmas state that a
  win needs three tokens of one kind, and that adding tokens never undoes a
  line.
- `Names` (`names.dfy`): trimming whitespace and falling back to a default
  name, as `setPlayerNames` does.
- `Game` (`game.dfy`): the controller state (board, move counter, `gameOver`,
  two players with name, token and score, the active player, the starting
  player). It also has `playRound`, `resetRound`, `resetPlayerScores` and
  `setPlayerNames` as pure functions from the old state to the new. A move
  reports one of `Locked`, `Invalid`, `Win(winner)`, `Tie` or `Continue`.
- `GameProperties` (`properties.dfy`): the controller invariant, and proofs
  that every operation preserves it. They cover:
  - the move counter equals the number of occupied cells and never exceeds nine;
  - tokens alternate from the starting player;
  - an open round has no line;
  - a closed round has a line or a full board.

  It also proves who a win belongs to, what a tie looks like, that nothing
  can be won before the fifth move, and that rounds lock after they end. It
  covers what `resetRound` keeps and clears, and that names and scores never
  influence play. Sessions (sequences of calls) starting from a new controller
  keep the invariant.
- `Scenarios` (`scenarios.dfy`): two concrete rounds played move by move:
  - a top-row win for the first player, who scores a point, after which the
    round locks;
  - a nine-move round that fills the board without a line and ends in a tie.

The active player is an index (0 or 1) into the two-player roster. The
original code compares player objects by identity instead.

Some behaviours of the program worth knowing when reading the model:
- `playRound` has five outcomes: `locked`, `invalid`, `win`, `tie` and
  `continue`. A move made after the round has ended is `locked`
  (script.js:81).
- `resetRound` always swaps the starting player (script.js:105).
- A cell outside the board makes `board[row][col]` throw (script.js:14). The
  model therefore requires in-range coordinates.
- The names passed to the constructor are stored as given (script.js:59-60).
  Only `setPlayerNames` trims.

## Model

| member | source | states |
|---|---|---|
| Gameboard.Index | script.js:32 | The row-major position of (row, col) is below the capacity, and row and column are recovered from it by division and remainder by 3. |
| Gameboard.SetToken | script.js:12-17 | A move is accepted exactly when the cell is empty. A refused move leaves the board unchanged. An accepted move writes the token into that cell. The other eight cells never change. |
| Gameboard.SetTokenCounts | script.js:12-17 | An accepted move raises the number of occupied cells and the mover's token count by one each. The other token's count does not change. |
| Gameboard.OccupiedFull | script.js:11 | The number of occupied cells equals the length exactly when no cell is empty. |
| Gameboard.EmptyBoardCounts | script.js:1-8 | A new board holds no token: no occupied cell and no cell of either token. |
| Gameboard.CountThree | script.js:44-50 | Three distinct cells holding the same value put its count at three or more. |
| Winner.Completes | script.js:45-49 | The per-combo test: the first cell holds a token and the other two equal it. `Winner.CompletesIsLine` characterises it as "one token fills all three cells". |
| Winner.AnyCompletes | script.js:44-50 | The `some` scan: the combos are tried in order until one completes. `Winner.AnyCompletesFindsCombo` characterises it. |
| Winner.CheckWinner | script.js:31-51 | `checkWinner`: the scan over the eight winning combos in the order they are listed. `Winner.CheckWinnerIffThreeInARow` characterises it as "O or X has three in a row, column or diagonal". |
| Winner.AnyCompletesFindsCombo | script.js:44-50 | The `some` scan over a list of combos succeeds exactly when some combo of the list has a non-empty first cell equal to the other two. |
| Winner.CheckWinnerFindsCombo | script.js:31-50 | `checkWinner` holds exactly when one of the eight winning combos is complete. |
| Winner.EmptyBoardHasNoWinner | script.js:31-50 | The empty board has no winner. |
| Winner.RowIsCombo | script.js:34-36 | A row filled with one token is exactly the combo the checker lists for that row. |
| Winner.ColumnIsCombo | script.js:37-39 | A column filled with one token is exactly the combo the checker lists for that column. |
| Winner.DiagonalIsCombo | script.js:40 | The main diagonal filled with one token is exactly the combo 0, 4, 8. |
| Winner.AntiDiagonalIsCombo | script.js:41 | The anti-diagonal filled with one token is exactly the combo 2, 4, 6. |
| Winner.WinsIffLine | script.js:33-42 | A token has a row, column or diagonal exactly when it fills all three cells of one of the eight combos. |
| Winner.CompletesIsLine | script.js:45-49 | The per-combo test (first cell non-empty, other two equal to it) holds exactly when some token fills all three cells. |
| Winner.CheckWinnerIffThreeInARow | script.js:31-50 | `checkWinner` holds exactly when O or X has three in a row, column or diagonal. |
| Winner.WinnerPersists | script.js:44-50 | If a board only adds tokens to another, a winner on the first is a winner on the second. |
| Winner.FewTokensNoWinner | script.js:44-50 | A board with at most two O's and at most two X's has no winner. |
| Winner.NewWinBelongsToMover | script.js:83-91 | When a move turns a board without a winner into one with a winner, the mover has a line and the other token has none. |
| Names.Trim | script.js:64-65 | The trimmed name is a slice of the input with only whitespace outside it. It neither starts nor ends with whitespace, and it is empty exactly when the input is all whitespace. |
| Names.TrimOfTrimmed | script.js:64-65 | Trimming a string without whitespace at either end returns it unchanged. |
| Names.TrimIdempotent | script.js:64-65 | Trimming twice is the same as trimming once. |
| Names.NameOrDefault | script.js:64-65 | An all-whitespace (or empty) name becomes the fallback. Any other name becomes its trimmed form, which is non-empty and trimmed. |
| Game.Other | script.js:70-72 | Switching the turn always selects the other player. |
| Game.NewGame | script.js:53-69 | A new controller has an empty board, no moves, an open round, the first player with O and the second with X, both scores zero, and the first player starting and active. |
| Game.IsWinner | script.js:77 | `isWinner`: the win check on the current board. `Game.PlayRound` reports `Win` exactly when it holds after an accepted move. |
| Game.IsTie | script.js:78 | `isTie`: the counter has reached the capacity and no line is complete. `GameProperties.TieFillsBoard` shows that every cell is then filled. |
| Game.ActiveToken | script.js:83 | The token the active player places (`activePlayer.token`). `GameProperties.OtherHoldsFlip` shows that the other player holds the other token. |
| Game.AddPoint | script.js:89 | Exactly one player's score rises by one. That player's name and token, and the other player, are unchanged. |
| Game.PlayRound | script.js:80-99 | Locked exactly when the round is over, with nothing changed. Invalid exactly when the cell is taken, with nothing changed (no counter step, no turn change). Otherwise the mover's token goes into that one cell and the counter rises by one. Win exactly when that completes a line: the mover scores one point, stays active, and the round closes. Tie exactly when the ninth move completes no line. Continue otherwise: the turn passes and the round stays open. |
| Game.ResetRound | script.js:101-111 | A reset empties the board, zeroes the counter, reopens the round, and makes the other player start and be active. Players and scores are kept. |
| Game.ResetPlayerScores | script.js:113-116 | Both scores become zero. Names, tokens, board, counter, flag, active and starting player are unchanged. |
| Game.SetPlayerNames | script.js:63-66 | Each name becomes its trimmed form, or the default when it trims to nothing. The stored names are non-empty and trimmed. Tokens, scores and the round are unchanged. |
| GameProperties.FreshRoundInv | script.js:101-111 | An empty, open round whose active player is its starting player satisfies the controller invariant. |
| GameProperties.NewGameInv | script.js:53-69 | A new controller satisfies the invariant. |
| GameProperties.PlacementKeepsCounts | script.js:83-86 | Placing the active token on an empty cell of an open round keeps the advanced counter equal to the occupied cells, with tokens alternating from the starting player. |
| GameProperties.AcceptedMoveKeepsCounts | script.js:83-86 | After an accepted move, the tokens are still O and X, the counter still equals the occupied cells, and the tokens still alternate. |
| GameProperties.WinningMoveInv | script.js:88-92 | A winning move keeps the invariant: the round closes with a complete line. |
| GameProperties.TyingMoveInv | script.js:93-96 | A tying move keeps the invariant: the round closes with a full counter. |
| GameProperties.ContinuingMoveInv | script.js:97-98 | A continuing move keeps the invariant: the round stays open, has no line, and the turn follows the alternation. |
| GameProperties.PlayRoundInv | script.js:80-99 | `playRound` preserves the invariant, whatever the outcome. |
| GameProperties.WinnerOwnsLine | script.js:88-91 | On a win, the reported winner's token fills a row, column or diagonal, and the other player's token fills none. |
| GameProperties.TieFillsBoard | script.js:78 | On a tie every cell is filled and neither player has a line. |
| GameProperties.NoEarlyWin | script.js:86-92 | No move before the fifth of a round wins. |
| GameProperties.EndedRoundIsLocked | script.js:81 | After a win or a tie, the next move is reported as locked and changes nothing. |
| GameProperties.ResetRoundInv | script.js:101-111 | `resetRound` produces a state satisfying the invariant from any state where the first player holds O and the second X. |
| GameProperties.ResetPlayerScoresInv | script.js:113-116 | `resetPlayerScores` preserves the invariant. |
| GameProperties.SetPlayerNamesInv | script.js:63-66 | `setPlayerNames` preserves the invariant. |
| GameProperties.ApplyInv | script.js:118-127 | Each call the controller exposes preserves the invariant. |
| GameProperties.SessionInv | script.js:118-127 | Any sequence of calls preserves the invariant, so the counter always equals the occupied cells and never exceeds the capacity. |
| GameProperties.ReachableInv | script.js:53-128 | Every state reachable from a new controller satisfies the invariant. |
| GameProperties.SameRoundSameOutcomes | script.js:80-99 | Two states that differ only in names and scores give the same outcomes for every sequence of moves. |
| GameProperties.ResetForgetsRound | script.js:101-111 | Two states with the same players and starting player are identical after `resetRound`, however far their rounds had gone. |
| GameProperties.ResetReplaysNewGame | script.js:104-106 | After a round the second player started, a reset gives a round that plays exactly like the first round of a new controller. |
| GameProperties.ResetRoundTwice | script.js:104-106 | Two resets bring the starting player back, with an empty open round and the players kept. |
| Scenarios.FirstMove | script.js:97-98 | On a new controller, O at (0,0) continues the round and passes the turn to X. |
| Scenarios.TopRowWin | script.js:88-92 | Completing the top row wins for the first player, who scores one point, and the next move is locked. |
| Scenarios.TieMoveNine | script.js:93-96 | The ninth move of a round without a line is a tie, the scores stay at zero, and the next move is locked. |

## Left out

- `ScreenController` (script.js lines 130 onward) is not part of this model. It covers DOM queries, event listeners, dialogs and text rendering.
- Out-of-range rows and columns: the code has no guard, and `board[row][col]` would throw. Every operation that takes a cell requires `0 <= row, col < 3`.
- The accessors `getBoard`, `getPlayers`, `getActivePlayer` and `isGameOver` are not separate members, because the state is an immutable value whose fields are read directly. The live array that `getBoard` hands out, and any mutation of it by a caller, are not modelled.
- `getPlayers` and `getActivePlayer` (script.js:74-75) return the live player objects. A caller could change a player's `token` or `score` through them, which would break the invariant that the first player holds O and the second X. The model offers no such access: players change only through the controller's operations.
- Player identity: the code compares player objects by reference. The model names the active player and the winner by their index 0 or 1.
- Names.Trim: whitespace is the fixed set of characters `IsSpace` lists (ASCII whitespace, no-break space and byte-order mark), not every Unicode space separator that JavaScript's `trim` removes.
- Names.NameOrDefault: the `?? ""` fallback for a `null` or `undefined` name is not modelled, because names are always strings here.
- Game.AddPoint: scores are unbounded naturals. JavaScript numbers lose precision above 2^53.
- Game.NewGame: the constructor's default parameters are not modelled. A default controller is `NewGame(DefaultFirstName, DefaultSecondName)`.
