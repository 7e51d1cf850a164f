/**
 Two complete rounds played move by move from a new controller.

 In the first, O at (0,0), X at (1,1), O at (0,1), X at (1,0), O at (0,2): the
 fifth move completes the top row, so the first player wins and scores a
 point, and a further move is locked.

 In the second, O at (0,0), X at (0,1), O at (0,2), X at (1,1), O at (1,0),
 X at (1,2), O at (2,1), X at (2,0), O at (2,2): the board fills up without a
 line, so the ninth move is a tie and nobody scores.
 */
module Scenarios {
  import opened Gameboard
  import opened Winner
  import opened Game
  import opened GameProperties

  const E: Cell := Empty
  const o: Cell := Filled(O)
  const x: Cell := Filled(X)

  const Ann: Player := Player("Ann", O, 0)
  const Bob: Player := Player("Bob", X, 0)

  /** The states after one, two, three and four moves; the first player (O) moves first. */
  const AfterOne: Game := Game([o, E, E, E, E, E, E, E, E], 1, false, [Ann, Bob], 1, 0)
  const AfterTwo: Game := Game([o, E, E, E, x, E, E, E, E], 2, false, [Ann, Bob], 0, 0)
  const AfterThree: Game := Game([o, o, E, E, x, E, E, E, E], 3, false, [Ann, Bob], 1, 0)
  const BeforeWin: Game := Game([o, o, E, x, x, E, E, E, E], 4, false, [Ann, Bob], 0, 0)

  /** O at (0,0) on a new board continues the round, and X is to move. */
  lemma FirstMove()
    ensures PlayRound(NewGame("Ann", "Bob"), 0, 0) == Step(Continue, AfterOne)
    ensures Inv(AfterOne)
  {
    var g := NewGame("Ann", "Bob");
    assert g == Game(EmptyBoard, 0, false, [Ann, Bob], 0, 0);
    assert SetToken(g.board, 0, 0, O).board == AfterOne.board by {
      assert EmptyBoard[0 := o] == AfterOne.board;
    }
    NewGameInv("Ann", "Bob");
    NoEarlyWin(g, 0, 0);
    PlayRoundInv(g, 0, 0);
  }

  /** X at (1,1) continues the round. */
  lemma SecondMove()
    ensures PlayRound(AfterOne, 1, 1) == Step(Continue, AfterTwo)
    ensures Inv(AfterTwo)
  {
    assert AfterOne.board[4 := x] == AfterTwo.board;
    FirstMove();
    NoEarlyWin(AfterOne, 1, 1);
    PlayRoundInv(AfterOne, 1, 1);
  }

  /** O at (0,1) continues the round. */
  lemma ThirdMove()
    ensures PlayRound(AfterTwo, 0, 1) == Step(Continue, AfterThree)
    ensures Inv(AfterThree)
  {
    assert AfterTwo.board[1 := o] == AfterThree.board;
    SecondMove();
    NoEarlyWin(AfterTwo, 0, 1);
    PlayRoundInv(AfterTwo, 0, 1);
  }

  /** X at (1,0) continues the round, and O is to move. */
  lemma FourthMove()
    ensures PlayRound(AfterThree, 1, 0) == Step(Continue, BeforeWin)
  {
    assert AfterThree.board[3 := x] == BeforeWin.board;
    ThirdMove();
    NoEarlyWin(AfterThree, 1, 0);
  }

  /** The fifth move completes the top row: the first player wins, scores one point, and the round locks. */
  lemma TopRowWin()
    ensures var s5 := PlayRound(BeforeWin, 0, 2);
      && s5.outcome == Win(0)
      && s5.game.players == [Ann.(score := 1), Bob]
      && s5.game.gameOver
      && PlayRound(s5.game, 2, 2) == Step(Locked, s5.game)
  {
    var s5 := PlayRound(BeforeWin, 0, 2);
    assert Completes(s5.game.board, WinningCombos[0]);
    CheckWinnerFindsCombo(s5.game.board);
  }

  /** The board the tie round ends on: no row, column or diagonal is a line. */
  const TieBoard: Board := [o, x, o, o, x, x, x, o, o]

  /** The tie round after two to eight moves, and when it has ended. */
  const TieTwo: Game := Game([o, x, E, E, E, E, E, E, E], 2, false, [Ann, Bob], 0, 0)
  const TieThree: Game := Game([o, x, o, E, E, E, E, E, E], 3, false, [Ann, Bob], 1, 0)
  const TieFour: Game := Game([o, x, o, E, x, E, E, E, E], 4, false, [Ann, Bob], 0, 0)
  const TieFive: Game := Game([o, x, o, o, x, E, E, E, E], 5, false, [Ann, Bob], 1, 0)
  const TieSix: Game := Game([o, x, o, o, x, x, E, E, E], 6, false, [Ann, Bob], 0, 0)
  const TieSeven: Game := Game([o, x, o, o, x, x, E, o, E], 7, false, [Ann, Bob], 1, 0)
  const TieEight: Game := Game([o, x, o, o, x, x, x, o, E], 8, false, [Ann, Bob], 0, 0)
  const TieEnd: Game := Game(TieBoard, 9, true, [Ann, Bob], 0, 0)

  /** No board on the way to `TieBoard` has a winner, since `TieBoard` has none. */
  lemma BelowTieBoard(b: Board)
    requires Extends(b, TieBoard)
    ensures !CheckWinner(b)
  {
    CheckWinnerFindsCombo(TieBoard);
    WinnerPersists(b, TieBoard);
  }

  /** None of the intermediate boards of the tie round has a winner. */
  lemma TieRoundHasNoWinner()
    ensures !CheckWinner(TieTwo.board) && !CheckWinner(TieThree.board) && !CheckWinner(TieFour.board)
    ensures !CheckWinner(TieFive.board) && !CheckWinner(TieSix.board) && !CheckWinner(TieSeven.board)
    ensures !CheckWinner(TieEight.board) && !CheckWinner(TieBoard)
  {
    BelowTieBoard(TieTwo.board);
    BelowTieBoard(TieThree.board);
    BelowTieBoard(TieFour.board);
    BelowTieBoard(TieFive.board);
    BelowTieBoard(TieSix.board);
    BelowTieBoard(TieSeven.board);
    BelowTieBoard(TieEight.board);
    BelowTieBoard(TieBoard);
  }

  /** X at (0,1) continues the round. */
  lemma TieMoveTwo()
    ensures PlayRound(AfterOne, 0, 1) == Step(Continue, TieTwo)
  {
    assert AfterOne.board[1 := x] == TieTwo.board;
    TieRoundHasNoWinner();
  }

  /** O at (0,2) continues the round. */
  lemma TieMoveThree()
    ensures PlayRound(TieTwo, 0, 2) == Step(Continue, TieThree)
  {
    assert TieTwo.board[2 := o] == TieThree.board;
    TieRoundHasNoWinner();
  }

  /** X at (1,1) continues the round. */
  lemma TieMoveFour()
    ensures PlayRound(TieThree, 1, 1) == Step(Continue, TieFour)
  {
    assert TieThree.board[4 := x] == TieFour.board;
    TieRoundHasNoWinner();
  }

  /** O at (1,0) continues the round. */
  lemma TieMoveFive()
    ensures PlayRound(TieFour, 1, 0) == Step(Continue, TieFive)
  {
    assert TieFour.board[3 := o] == TieFive.board;
    TieRoundHasNoWinner();
  }

  /** X at (1,2) continues the round. */
  lemma TieMoveSix()
    ensures PlayRound(TieFive, 1, 2) == Step(Continue, TieSix)
  {
    assert TieFive.board[5 := x] == TieSix.board;
    TieRoundHasNoWinner();
  }

  /** O at (2,1) continues the round. */
  lemma TieMoveSeven()
    ensures PlayRound(TieSix, 2, 1) == Step(Continue, TieSeven)
  {
    assert TieSix.board[7 := o] == TieSeven.board;
    TieRoundHasNoWinner();
  }

  /** X at (2,0) continues the round. */
  lemma TieMoveEight()
    ensures PlayRound(TieSeven, 2, 0) == Step(Continue, TieEight)
  {
    assert TieSeven.board[6 := x] == TieEight.board;
    TieRoundHasNoWinner();
  }

  /** O at (2,2) fills the board without a line: a tie, the round locks, and the scores stay at zero. */
  lemma TieMoveNine()
    ensures PlayRound(TieEight, 2, 2) == Step(Tie, TieEnd)
    ensures PlayRound(TieEnd, 1, 1) == Step(Locked, TieEnd)
  {
    assert TieEight.board[8 := o] == TieBoard;
    TieRoundHasNoWinner();
  }
}
