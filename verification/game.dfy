/**
 The round controller (`GameController`): a board, a move counter, a
 `gameOver` flag, two players with a token and a score each, the player whose
 turn it is and the player who started the round. Every operation is a pure
 function from the old state to the new one; a move also reports its outcome.
 */
module Game {
  import opened Gameboard
  import opened Winner
  import opened Names

  /** A player's place in the roster: 0 is the first player, 1 the second. */
  type Side = i: int | 0 <= i < 2

  /** `switchPlayerTurn`: the other player. */
  function Other(s: Side): (o: Side)
    ensures o != s
  {
    1 - s
  }

  datatype Player = Player(name: string, token: Token, score: nat)

  /** The two players, in roster order. */
  type Roster = p: seq<Player> | |p| == 2
    witness [Player("Player One", O, 0), Player("Player Two", X, 0)]

  const DefaultFirstName: string := "Player One"
  const DefaultSecondName: string := "Player Two"

  datatype Game = Game(
    board: Board,
    moves: nat,
    gameOver: bool,
    players: Roster,
    active: Side,
    starting: Side)

  /** What `playRound` reports. */
  datatype Outcome = Locked | Invalid | Win(winner: Side) | Tie | Continue

  /** A move's outcome together with the state after it. */
  datatype Step = Step(outcome: Outcome, game: Game)

  /**
   A new controller: an empty board, no moves, the first player (token O) to
   start, the second player holding X, both scores zero. Names are taken as
   given, without trimming.
   */
  function NewGame(first: string, second: string): (g: Game)
    ensures forall i | 0 <= i < Capacity :: g.board[i] == Empty
    ensures Occupied(g.board) == 0 && g.moves == 0 && !g.gameOver
    ensures g.players[0] == Player(first, O, 0) && g.players[1] == Player(second, X, 0)
    ensures g.active == g.starting == 0
  {
    Game(EmptyBoard, 0, false, [Player(first, O, 0), Player(second, X, 0)], 0, 0)
  }

  /** `isWinner`: some line of the board is complete. */
  predicate IsWinner(g: Game) {
    CheckWinner(g.board)
  }

  /** `isTie`: as many moves as cells, and no line complete. */
  predicate IsTie(g: Game) {
    g.moves == Capacity && !IsWinner(g)
  }

  /** The token of the player whose turn it is. */
  function ActiveToken(g: Game): Token {
    g.players[g.active].token
  }

  /** The roster with one more point for player `s`. */
  function AddPoint(p: Roster, s: Side): (q: Roster)
    ensures q[s].score == p[s].score + 1
    ensures q[s].name == p[s].name && q[s].token == p[s].token
    ensures q[Other(s)] == p[Other(s)]
  {
    p[s := p[s].(score := p[s].score + 1)]
  }

  /**
   `playRound(row, col)`: the active player places a token.
   - After the round is over every move is `Locked`, and nothing changes.
   - A move onto an occupied cell is `Invalid`, and nothing changes: the
     counter does not advance and the turn does not pass.
   - Otherwise the token lands in exactly that cell and the counter advances.
     If a line is now complete the mover scores one point, the round ends and
     the mover stays active (`Win`). Failing that, when the counter reaches the
     capacity the round ends in a `Tie`. Otherwise the turn passes to the other
     player (`Continue`).
   */
  function PlayRound(g: Game, row: int, col: int): (r: Step)
    requires InRange(row) && InRange(col)
    // Locked: the round is over, and nothing changes.
    ensures r.outcome == Locked <==> g.gameOver
    ensures g.gameOver ==> r.game == g
    // Invalid: the cell is taken, and nothing changes.
    ensures r.outcome == Invalid <==> !g.gameOver && g.board[Index(row, col)] != Empty
    ensures r.outcome == Invalid ==> r.game == g
    // An accepted move writes the mover's token into that one cell.
    ensures r.outcome !in {Locked, Invalid} ==>
      && r.game.board[Index(row, col)] == Filled(ActiveToken(g))
      && (forall i | 0 <= i < Capacity && i != Index(row, col) :: r.game.board[i] == g.board[i])
      && r.game.moves == g.moves + 1
      && r.game.starting == g.starting
    // Win: the move completed a line; the mover scores, alone, and stays active.
    ensures r.outcome.Win? <==> r.outcome !in {Locked, Invalid} && CheckWinner(r.game.board)
    ensures r.outcome.Win? ==>
      && r.outcome.winner == g.active == r.game.active
      && r.game.gameOver
      && r.game.players == AddPoint(g.players, g.active)
    // Tie: the move that reaches the capacity completed no line.
    ensures r.outcome == Tie <==>
      r.outcome !in {Locked, Invalid} && !CheckWinner(r.game.board) && g.moves + 1 == Capacity
    ensures r.outcome == Tie ==> r.game.gameOver && r.game.players == g.players && r.game.active == g.active
    // Continue: the turn passes and the round goes on.
    ensures r.outcome == Continue ==>
      !r.game.gameOver && r.game.players == g.players && r.game.active == Other(g.active)
  {
    if g.gameOver then Step(Locked, g)
    else
      var placed := SetToken(g.board, row, col, ActiveToken(g));
      if !placed.accepted then Step(Invalid, g)
      else
        var moved := g.(board := placed.board, moves := g.moves + 1);
        if IsWinner(moved) then
          Step(Win(g.active), moved.(players := AddPoint(g.players, g.active), gameOver := true))
        else if IsTie(moved) then
          Step(Tie, moved.(gameOver := true))
        else
          Step(Continue, moved.(active := Other(g.active)))
  }

  /**
   `resetRound`: a new round on an empty board. The counter and the
   `gameOver` flag are cleared, the other player starts (starting players
   alternate from round to round) and is made active. Players, names and
   scores are kept.
   */
  function ResetRound(g: Game): (r: Game)
    ensures forall i | 0 <= i < Capacity :: r.board[i] == Empty
    ensures Occupied(r.board) == 0 && r.moves == 0 && !r.gameOver
    ensures r.starting == Other(g.starting) && r.active == r.starting
    ensures r.players == g.players
  {
    Game(EmptyBoard, 0, false, g.players, Other(g.starting), Other(g.starting))
  }

  /**
   `resetPlayerScores`: both scores become zero. Names, tokens, the board, the
   counter, the flag and the turn are untouched.
   */
  function ResetPlayerScores(g: Game): (r: Game)
    ensures forall s: Side :: r.players[s] == g.players[s].(score := 0)
    ensures r.board == g.board && r.moves == g.moves && r.gameOver == g.gameOver
    ensures r.active == g.active && r.starting == g.starting
  {
    g.(players := [g.players[0].(score := 0), g.players[1].(score := 0)])
  }

  /**
   `setPlayerNames(a, b)`: each name is trimmed, and an empty or
   whitespace-only name falls back to "Player One" or "Player Two". Only the
   names change.
   */
  function SetPlayerNames(g: Game, a: string, b: string): (r: Game)
    ensures r.players[0].name == NameOrDefault(a, DefaultFirstName)
    ensures r.players[1].name == NameOrDefault(b, DefaultSecondName)
    ensures forall s: Side ::
      r.players[s].token == g.players[s].token && r.players[s].score == g.players[s].score
    ensures forall s: Side :: r.players[s].name != [] && Trimmed(r.players[s].name)
    ensures r.board == g.board && r.moves == g.moves && r.gameOver == g.gameOver
    ensures r.active == g.active && r.starting == g.starting
  {
    var first := NameOrDefault(a, DefaultFirstName);
    var second := NameOrDefault(b, DefaultSecondName);
    assert Trimmed(DefaultFirstName) && Trimmed(DefaultSecondName);
    g.(players := [g.players[0].(name := first), g.players[1].(name := second)])
  }
}
