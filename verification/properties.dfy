/**
 Properties of the round controller that relate several calls: the state
 invariant every operation keeps, who a win belongs to, what a tie looks
 like, and what survives a reset.
 */
module GameProperties {
  import opened Gameboard
  import opened Winner
  import opened Names
  import opened Game

  /** The first player holds O and the second X. */
  predicate TokensFixed(g: Game) {
    g.players[0].token == O && g.players[1].token == X
  }

  /** With the usual tokens, each player holds the token the other does not. */
  lemma OtherHoldsFlip(g: Game, s: Side)
    requires TokensFixed(g)
    ensures g.players[Other(s)].token == Flip(g.players[s].token)
  {
  }

  /** The move counter equals the number of occupied cells. */
  predicate CounterMatchesBoard(g: Game) {
    g.moves == Occupied(g.board)
  }

  /**
   The tokens on the board alternate from the starting player: after m moves
   the starter has placed m - m / 2 tokens and the other player m / 2.
   */
  predicate TokensAlternate(g: Game) {
    && Count(g.board, Filled(g.players[g.starting].token)) == g.moves - g.moves / 2
    && Count(g.board, Filled(g.players[Other(g.starting)].token)) == g.moves / 2
  }

  /** Whose turn it is after `moves` moves of a round opened by `starting`. */
  function Turn(starting: Side, moves: nat): Side {
    if moves % 2 == 0 then starting else Other(starting)
  }

  /** Each move hands the turn to the other player. */
  lemma TurnStep(starting: Side, moves: nat)
    ensures Turn(starting, moves + 1) == Other(Turn(starting, moves))
  {
  }

  /**
   While the round is open, fewer than nine moves were made, no line is
   complete, and the active player is the one the alternation gives.
   */
  predicate OpenRoundOk(g: Game) {
    !g.gameOver ==> g.moves < Capacity && !CheckWinner(g.board) && g.active == Turn(g.starting, g.moves)
  }

  /** A closed round has a complete line or a full counter. */
  predicate ClosedRoundOk(g: Game) {
    g.gameOver ==> CheckWinner(g.board) || g.moves == Capacity
  }

  /** The controller's invariant. */
  predicate Inv(g: Game) {
    TokensFixed(g) && CounterMatchesBoard(g) && TokensAlternate(g) && OpenRoundOk(g) && ClosedRoundOk(g)
  }

  /** A round that has not started yet satisfies the invariant. */
  lemma FreshRoundInv(g: Game)
    requires TokensFixed(g)
    requires g.board == EmptyBoard && g.moves == 0 && !g.gameOver && g.active == g.starting
    ensures Inv(g)
  {
    assert CounterMatchesBoard(g) by {
      EmptyBoardCounts(O);
    }
    assert TokensAlternate(g) by {
      EmptyBoardCounts(g.players[g.starting].token);
      EmptyBoardCounts(g.players[Other(g.starting)].token);
    }
    assert OpenRoundOk(g) by {
      EmptyBoardHasNoWinner();
    }
  }

  /** A new controller satisfies the invariant. */
  lemma NewGameInv(first: string, second: string)
    ensures Inv(NewGame(first, second))
  {
    FreshRoundInv(NewGame(first, second));
  }

  /**
   Placing the active player's token on an empty cell of an open round keeps
   the counter (advanced by one) equal to the number of occupied cells, and
   keeps the tokens alternating from the starting player.
   */
  lemma PlacementKeepsCounts(g: Game, row: int, col: int)
    requires Inv(g) && !g.gameOver
    requires InRange(row) && InRange(col)
    requires g.board[Index(row, col)] == Empty
    ensures var b := SetToken(g.board, row, col, ActiveToken(g)).board;
      var m := g.moves + 1;
      && m == Occupied(b)
      && Count(b, Filled(g.players[g.starting].token)) == m - m / 2
      && Count(b, Filled(g.players[Other(g.starting)].token)) == m / 2
  {
    var t := ActiveToken(g);
    SetTokenCounts(g.board, row, col, t);
    if g.active == g.starting {
      // An even number of moves came before: the starter moves.
      assert g.moves % 2 == 0;
      assert g.players[Other(g.starting)].token == Flip(t);
    } else {
      assert g.moves % 2 == 1;
      assert g.players[g.starting].token == Flip(t);
    }
  }

  /**
   An accepted move keeps the tokens fixed, the counter equal to the number of
   occupied cells, and the alternation of tokens from the starting player.
   */
  lemma AcceptedMoveKeepsCounts(g: Game, row: int, col: int)
    requires Inv(g)
    requires InRange(row) && InRange(col)
    requires PlayRound(g, row, col).outcome !in {Locked, Invalid}
    ensures var h := PlayRound(g, row, col).game;
      TokensFixed(h) && CounterMatchesBoard(h) && TokensAlternate(h)
  {
    var h := PlayRound(g, row, col).game;
    assert h.board == SetToken(g.board, row, col, ActiveToken(g)).board;
    assert h.players[0].token == g.players[0].token && h.players[1].token == g.players[1].token;
    assert h.moves == g.moves + 1 && h.starting == g.starting;
    PlacementKeepsCounts(g, row, col);
  }

  /** A winning move closes the round with a complete line, keeping the invariant. */
  lemma WinningMoveInv(g: Game, row: int, col: int)
    requires Inv(g)
    requires InRange(row) && InRange(col)
    requires PlayRound(g, row, col).outcome.Win?
    ensures Inv(PlayRound(g, row, col).game)
  {
    AcceptedMoveKeepsCounts(g, row, col);
  }

  /** A tying move closes the round with a full counter, keeping the invariant. */
  lemma TyingMoveInv(g: Game, row: int, col: int)
    requires Inv(g)
    requires InRange(row) && InRange(col)
    requires PlayRound(g, row, col).outcome == Tie
    ensures Inv(PlayRound(g, row, col).game)
  {
    AcceptedMoveKeepsCounts(g, row, col);
  }

  /** A move that continues the round passes the turn as the alternation demands. */
  lemma ContinuingMoveInv(g: Game, row: int, col: int)
    requires Inv(g)
    requires InRange(row) && InRange(col)
    requires PlayRound(g, row, col).outcome == Continue
    ensures Inv(PlayRound(g, row, col).game)
  {
    var h := PlayRound(g, row, col).game;
    AcceptedMoveKeepsCounts(g, row, col);
    assert OpenRoundOk(h) by {
      assert h.active == Other(g.active) && h.starting == g.starting && h.moves == g.moves + 1;
      TurnStep(g.starting, g.moves);
    }
  }

  /** `playRound` keeps the invariant, whatever the outcome. */
  lemma PlayRoundInv(g: Game, row: int, col: int)
    requires Inv(g)
    requires InRange(row) && InRange(col)
    ensures Inv(PlayRound(g, row, col).game)
  {
    match PlayRound(g, row, col).outcome
    case Locked =>
    case Invalid =>
    case Win(_) => WinningMoveInv(g, row, col);
    case Tie => TyingMoveInv(g, row, col);
    case Continue => ContinuingMoveInv(g, row, col);
  }

  /**
   The reported winner owns a complete line on the final board, and the other
   player owns none.
   */
  lemma WinnerOwnsLine(g: Game, row: int, col: int)
    requires Inv(g)
    requires InRange(row) && InRange(col)
    ensures var r := PlayRound(g, row, col);
      r.outcome.Win? ==>
        && Wins(r.game.board, r.game.players[r.outcome.winner].token)
        && !Wins(r.game.board, r.game.players[Other(r.outcome.winner)].token)
  {
    var r := PlayRound(g, row, col);
    if r.outcome.Win? {
      var t := ActiveToken(g);
      var b' := SetToken(g.board, row, col, t).board;
      assert r.game.board == b' && r.outcome.winner == g.active;
      assert r.game.players == AddPoint(g.players, g.active);
      OtherHoldsFlip(g, g.active);
      assert r.game.players[g.active].token == t && r.game.players[Other(g.active)].token == Flip(t);
      assert !CheckWinner(g.board) && SetToken(g.board, row, col, t).accepted && CheckWinner(b');
      NewWinBelongsToMover(g.board, row, col, t);
    }
  }


  /** A tie leaves every cell filled and neither player with a line. */
  lemma TieFillsBoard(g: Game, row: int, col: int)
    requires Inv(g)
    requires InRange(row) && InRange(col)
    requires PlayRound(g, row, col).outcome == Tie
    ensures var b := PlayRound(g, row, col).game.board;
      && (forall i | 0 <= i < Capacity :: b[i] != Empty)
      && !Wins(b, O) && !Wins(b, X)
  {
    PlayRoundInv(g, row, col);
    OccupiedFull(PlayRound(g, row, col).game.board);
    CheckWinnerIffThreeInARow(PlayRound(g, row, col).game.board);
  }

  /** No round is won before its fifth move: until then neither player has three tokens down. */
  lemma NoEarlyWin(g: Game, row: int, col: int)
    requires Inv(g)
    requires InRange(row) && InRange(col)
    requires g.moves < 4
    ensures !PlayRound(g, row, col).outcome.Win?
  {
    var r := PlayRound(g, row, col);
    if r.outcome !in {Locked, Invalid} {
      AcceptedMoveKeepsCounts(g, row, col);
      var h := r.game;
      assert Count(h.board, Filled(O)) < 3 && Count(h.board, Filled(X)) < 3 by {
        assert h.moves <= 4;
        assert {h.players[h.starting].token, h.players[Other(h.starting)].token} == {O, X};
      }
      FewTokensNoWinner(h.board);
    }
  }

  /** Once a move wins or ties, every later move is refused as locked and changes nothing. */
  lemma EndedRoundIsLocked(g: Game, row: int, col: int, row': int, col': int)
    requires InRange(row) && InRange(col) && InRange(row') && InRange(col')
    requires PlayRound(g, row, col).outcome.Win? || PlayRound(g, row, col).outcome == Tie
    ensures var h := PlayRound(g, row, col).game;
      PlayRound(h, row', col') == Step(Locked, h)
  {
  }

  /** `resetRound` produces a state satisfying the invariant from any state with the usual tokens. */
  lemma ResetRoundInv(g: Game)
    requires TokensFixed(g)
    ensures Inv(ResetRound(g))
  {
    FreshRoundInv(ResetRound(g));
  }

  /** `resetPlayerScores` keeps the invariant. */
  lemma ResetPlayerScoresInv(g: Game)
    requires Inv(g)
    ensures Inv(ResetPlayerScores(g))
  {
    var r := ResetPlayerScores(g);
    assert r.players[g.starting].token == g.players[g.starting].token;
    assert r.players[Other(g.starting)].token == g.players[Other(g.starting)].token;
  }

  /** `setPlayerNames` keeps the invariant. */
  lemma SetPlayerNamesInv(g: Game, a: string, b: string)
    requires Inv(g)
    ensures Inv(SetPlayerNames(g, a, b))
  {
    var r := SetPlayerNames(g, a, b);
    assert r.players[g.starting].token == g.players[g.starting].token;
    assert r.players[Other(g.starting)].token == g.players[Other(g.starting)].token;
  }

  // ---------------------------------------------------------------------------
  // Sessions: sequences of calls a user interface makes

  /** One call into the controller. */
  datatype Command =
    | Play(row: Coord, col: Coord)
    | NextRound
    | ResetScores
    | Rename(first: string, second: string)

  /** Apply one command. */
  function Apply(g: Game, c: Command): Game {
    match c
    case Play(row, col) => PlayRound(g, row, col).game
    case NextRound => ResetRound(g)
    case ResetScores => ResetPlayerScores(g)
    case Rename(a, b) => SetPlayerNames(g, a, b)
  }

  /** Apply the commands in order. */
  function Run(g: Game, cs: seq<Command>): Game
    decreases |cs|
  {
    if |cs| == 0 then g else Run(Apply(g, cs[0]), cs[1..])
  }

  /** Every command keeps the invariant. */
  lemma ApplyInv(g: Game, c: Command)
    requires Inv(g)
    ensures Inv(Apply(g, c))
  {
    match c
    case Play(row, col) => PlayRoundInv(g, row, col);
    case NextRound => ResetRoundInv(g);
    case ResetScores => ResetPlayerScoresInv(g);
    case Rename(a, b) => SetPlayerNamesInv(g, a, b);
  }

  /**
   Every state a session reaches from a new controller satisfies the
   invariant; in particular the move counter never exceeds the capacity and
   equals the number of occupied cells.
   */
  lemma {:induction false} SessionInv(g: Game, cs: seq<Command>)
    requires Inv(g)
    ensures Inv(Run(g, cs))
    ensures Run(g, cs).moves == Occupied(Run(g, cs).board) <= Capacity
    decreases |cs|
  {
    if |cs| > 0 {
      ApplyInv(g, cs[0]);
      SessionInv(Apply(g, cs[0]), cs[1..]);
    }
  }

  /** Every session that starts from a new controller keeps the invariant. */
  lemma ReachableInv(first: string, second: string, cs: seq<Command>)
    ensures Inv(Run(NewGame(first, second), cs))
  {
    NewGameInv(first, second);
    SessionInv(NewGame(first, second), cs);
  }

  // ---------------------------------------------------------------------------
  // What a reset keeps and what it clears

  /** Two states that agree on everything the rules read: all but names and scores. */
  predicate SameRound(g: Game, h: Game) {
    && g.board == h.board && g.moves == h.moves && g.gameOver == h.gameOver
    && g.active == h.active && g.starting == h.starting
    && g.players[0].token == h.players[0].token && g.players[1].token == h.players[1].token
  }

  /** The outcomes of playing `moves` in order. */
  function Outcomes(g: Game, moves: seq<(Coord, Coord)>): (r: seq<Outcome>)
    ensures |r| == |moves|
    decreases |moves|
  {
    if |moves| == 0 then []
    else
      var step := PlayRound(g, moves[0].0, moves[0].1);
      [step.outcome] + Outcomes(step.game, moves[1..])
  }

  /** Names and scores never influence how a round plays out. */
  lemma {:induction false} SameRoundSameOutcomes(g: Game, h: Game, moves: seq<(Coord, Coord)>)
    requires SameRound(g, h)
    ensures Outcomes(g, moves) == Outcomes(h, moves)
    decreases |moves|
  {
    if |moves| > 0 {
      var sg := PlayRound(g, moves[0].0, moves[0].1);
      var sh := PlayRound(h, moves[0].0, moves[0].1);
      assert ActiveToken(g) == ActiveToken(h);
      assert sg.outcome == sh.outcome;
      assert SameRound(sg.game, sh.game);
      SameRoundSameOutcomes(sg.game, sh.game, moves[1..]);
    }
  }

  /**
   A reset erases the round in progress: two states with the same players and
   the same starting player are identical after `resetRound`, however far
   their rounds had gone.
   */
  lemma ResetForgetsRound(g: Game, h: Game)
    requires g.players == h.players && g.starting == h.starting
    ensures ResetRound(g) == ResetRound(h)
  {
  }

  /**
   After a round that the second player started, `resetRound` gives a round
   that plays out exactly like the first round of a new controller: every
   sequence of moves has the same outcomes.
   */
  lemma ResetReplaysNewGame(g: Game, first: string, second: string, moves: seq<(Coord, Coord)>)
    requires g.players[0].token == O && g.players[1].token == X
    requires g.starting == 1
    ensures Outcomes(ResetRound(g), moves) == Outcomes(NewGame(first, second), moves)
  {
    SameRoundSameOutcomes(ResetRound(g), NewGame(first, second), moves);
  }

  /** `resetRound` twice brings the starting player back and leaves an empty, open round. */
  lemma ResetRoundTwice(g: Game)
    ensures var r := ResetRound(ResetRound(g));
      && r.starting == g.starting && r.active == g.starting
      && r.players == g.players && Occupied(r.board) == 0 && r.moves == 0 && !r.gameOver
  {
  }
}
