/**
 Win detection (`checkWinner`). The checker reads the row-major flattening of
 the board and looks at eight fixed index triples: three rows, three columns
 and the two diagonals. A triple is a win when its first cell holds a token
 and the other two hold the same token.

 Beside the triple scan, this module gives a geometric definition of "three
 in a row" in terms of rows, columns and diagonals. It then proves that the
 two definitions agree and that a move that creates a win creates it for the
 player who moved.
 */
module Winner {
  import opened Gameboard

  /** A position in the flattened board. */
  type CellIndex = i: int | 0 <= i < Capacity

  /** Three positions that form a line. */
  datatype Combo = Combo(a: CellIndex, b: CellIndex, c: CellIndex)

  /** The eight winning lines, in the order the checker tries them. */
  const WinningCombos: seq<Combo> := [
    Combo(0, 1, 2), // top row
    Combo(3, 4, 5), // middle row
    Combo(6, 7, 8), // bottom row
    Combo(0, 3, 6), // left column
    Combo(1, 4, 7), // middle column
    Combo(2, 5, 8), // right column
    Combo(0, 4, 8), // diagonal from top left
    Combo(2, 4, 6)  // diagonal from top right
  ]

  /** The per-combo test: the first cell is not empty and the other two equal it. */
  predicate Completes(b: Board, k: Combo) {
    b[k.a] != Empty && b[k.a] == b[k.b] && b[k.a] == b[k.c]
  }

  /** All three cells of `k` hold `t`. */
  predicate LineOf(b: Board, k: Combo, t: Token) {
    b[k.a] == Filled(t) && b[k.b] == Filled(t) && b[k.c] == Filled(t)
  }

  /** The `some` scan: try the combos in order and stop at the first that completes. */
  predicate AnyCompletes(b: Board, combos: seq<Combo>) {
    if |combos| == 0 then false
    else Completes(b, combos[0]) || AnyCompletes(b, combos[1..])
  }

  /** `checkWinner`: the scan over the eight winning combos. */
  predicate CheckWinner(b: Board) {
    AnyCompletes(b, WinningCombos)
  }

  /** The scan succeeds exactly when some combo of the list completes. */
  lemma {:induction false} AnyCompletesFindsCombo(b: Board, combos: seq<Combo>)
    ensures AnyCompletes(b, combos) <==> exists j | 0 <= j < |combos| :: Completes(b, combos[j])
  {
    if |combos| > 0 {
      AnyCompletesFindsCombo(b, combos[1..]);
      assert forall j | 1 <= j < |combos| :: combos[1..][j - 1] == combos[j];
    }
  }

  /** `checkWinner` holds exactly when one of the eight winning combos completes. */
  lemma CheckWinnerFindsCombo(b: Board)
    ensures CheckWinner(b) <==> exists j | 0 <= j < |WinningCombos| :: Completes(b, WinningCombos[j])
  {
    AnyCompletesFindsCombo(b, WinningCombos);
  }

  /** The empty board has no winner. */
  lemma EmptyBoardHasNoWinner()
    ensures !CheckWinner(EmptyBoard)
  {
    CheckWinnerFindsCombo(EmptyBoard);
    assert forall i | 0 <= i < 9 :: EmptyBoard[i] == Empty;
  }

  /** `b'` keeps every token already on `b`: cells may only go from empty to filled. */
  predicate Extends(b: Board, b': Board) {
    forall i | 0 <= i < Capacity :: b[i] != Empty ==> b'[i] == b[i]
  }

  /** Adding tokens never undoes a complete line. */
  lemma WinnerPersists(b: Board, b': Board)
    requires Extends(b, b')
    ensures CheckWinner(b) ==> CheckWinner(b')
  {
    CheckWinnerFindsCombo(b);
    CheckWinnerFindsCombo(b');
  }

  /** A completed combo needs three tokens of one kind: with at most two O's and two X's there is no winner. */
  lemma FewTokensNoWinner(b: Board)
    requires Count(b, Filled(O)) < 3 && Count(b, Filled(X)) < 3
    ensures !CheckWinner(b)
  {
    CheckWinnerFindsCombo(b);
    if j :| 0 <= j < |WinningCombos| && Completes(b, WinningCombos[j]) {
      var k := WinningCombos[j];
      assert Completes(b, k);
      assert b[k.a].Filled? && (b[k.a].token == O || b[k.a].token == X);
      CountThree(b, b[k.a], k.a, k.b, k.c);
      assert false;
    }
  }

  // ---------------------------------------------------------------------------
  // Reference definition in terms of rows, columns and diagonals

  /** Cell (row, col) holds `t`. */
  predicate Holds(b: Board, row: int, col: int, t: Token)
    requires InRange(row) && InRange(col)
  {
    b[Index(row, col)] == Filled(t)
  }

  predicate RowOf(b: Board, row: int, t: Token)
    requires InRange(row)
  {
    forall col | 0 <= col < 3 :: Holds(b, row, col, t)
  }

  predicate ColumnOf(b: Board, col: int, t: Token)
    requires InRange(col)
  {
    forall row | 0 <= row < 3 :: Holds(b, row, col, t)
  }

  /** The diagonal from the top left: the cells with row == col. */
  predicate DiagonalOf(b: Board, t: Token) {
    forall row, col | 0 <= row < 3 && 0 <= col < 3 && row == col :: Holds(b, row, col, t)
  }

  /** The diagonal from the top right: the cells with row + col == 2. */
  predicate AntiDiagonalOf(b: Board, t: Token) {
    forall row, col | 0 <= row < 3 && 0 <= col < 3 && row + col == 2 :: Holds(b, row, col, t)
  }

  /** Player `t` owns a full row, a full column or a full diagonal. */
  predicate Wins(b: Board, t: Token) {
    || (exists row | 0 <= row < 3 :: RowOf(b, row, t))
    || (exists col | 0 <= col < 3 :: ColumnOf(b, col, t))
    || DiagonalOf(b, t)
    || AntiDiagonalOf(b, t)
  }

  /** Row `row` is the combo at position `row`. */
  lemma RowIsCombo(b: Board, row: int, t: Token)
    requires InRange(row)
    ensures RowOf(b, row, t) <==> LineOf(b, WinningCombos[row], t)
  {
    assert Index(row, 0) == 3 * row && Index(row, 1) == 3 * row + 1 && Index(row, 2) == 3 * row + 2;
    if LineOf(b, WinningCombos[row], t) {
      forall col | 0 <= col < 3
        ensures Holds(b, row, col, t)
      {
        assert col == 0 || col == 1 || col == 2;
      }
    }
    if RowOf(b, row, t) {
      assert Holds(b, row, 0, t) && Holds(b, row, 1, t) && Holds(b, row, 2, t);
    }
  }

  /** Column `col` is the combo at position `3 + col`. */
  lemma ColumnIsCombo(b: Board, col: int, t: Token)
    requires InRange(col)
    ensures ColumnOf(b, col, t) <==> LineOf(b, WinningCombos[3 + col], t)
  {
    assert Index(0, col) == col && Index(1, col) == col + 3 && Index(2, col) == col + 6;
    if LineOf(b, WinningCombos[3 + col], t) {
      forall row | 0 <= row < 3
        ensures Holds(b, row, col, t)
      {
        assert row == 0 || row == 1 || row == 2;
      }
    }
    if ColumnOf(b, col, t) {
      assert Holds(b, 0, col, t) && Holds(b, 1, col, t) && Holds(b, 2, col, t);
    }
  }

  /** The diagonal from the top left is the combo at position 6. */
  lemma DiagonalIsCombo(b: Board, t: Token)
    ensures DiagonalOf(b, t) <==> LineOf(b, WinningCombos[6], t)
  {
    if DiagonalOf(b, t) {
      assert Holds(b, 0, 0, t) && Holds(b, 1, 1, t) && Holds(b, 2, 2, t);
    }
  }

  /** The diagonal from the top right is the combo at position 7. */
  lemma AntiDiagonalIsCombo(b: Board, t: Token)
    ensures AntiDiagonalOf(b, t) <==> LineOf(b, WinningCombos[7], t)
  {
    if AntiDiagonalOf(b, t) {
      assert Holds(b, 0, 2, t) && Holds(b, 1, 1, t) && Holds(b, 2, 0, t);
    }
  }

  /** The eight combos are exactly the rows, columns and diagonals of the grid. */
  lemma WinsIffLine(b: Board, t: Token)
    ensures Wins(b, t) <==> exists j | 0 <= j < |WinningCombos| :: LineOf(b, WinningCombos[j], t)
  {
    if Wins(b, t) {
      if row :| 0 <= row < 3 && RowOf(b, row, t) {
        RowIsCombo(b, row, t);
        assert LineOf(b, WinningCombos[row], t);
      } else if col :| 0 <= col < 3 && ColumnOf(b, col, t) {
        ColumnIsCombo(b, col, t);
        assert LineOf(b, WinningCombos[3 + col], t);
      } else if DiagonalOf(b, t) {
        DiagonalIsCombo(b, t);
        assert LineOf(b, WinningCombos[6], t);
      } else {
        AntiDiagonalIsCombo(b, t);
        assert LineOf(b, WinningCombos[7], t);
      }
    }
    if j :| 0 <= j < |WinningCombos| && LineOf(b, WinningCombos[j], t) {
      if j < 3 {
        RowIsCombo(b, j, t);
      } else if j < 6 {
        ColumnIsCombo(b, j - 3, t);
      } else if j == 6 {
        DiagonalIsCombo(b, t);
      } else {
        AntiDiagonalIsCombo(b, t);
      }
    }
  }

  /** A completed combo is a line of the token in its first cell. */
  lemma CompletesIsLine(b: Board, k: Combo)
    ensures Completes(b, k) <==> exists t: Token :: LineOf(b, k, t)
  {
    if Completes(b, k) {
      assert LineOf(b, k, b[k.a].token);
    }
  }

  /** `checkWinner` holds exactly when one of the players has three in a row. */
  lemma CheckWinnerIffThreeInARow(b: Board)
    ensures CheckWinner(b) <==> Wins(b, O) || Wins(b, X)
  {
    WinsIffLine(b, O);
    WinsIffLine(b, X);
    CheckWinnerFindsCombo(b);
    if CheckWinner(b) {
      var j :| 0 <= j < |WinningCombos| && Completes(b, WinningCombos[j]);
      var k := WinningCombos[j];
      assert LineOf(b, k, b[k.a].token);
      assert b[k.a].token == O || b[k.a].token == X;
    }
    if Wins(b, O) || Wins(b, X) {
      var t := if Wins(b, O) then O else X;
      var j :| 0 <= j < |WinningCombos| && LineOf(b, WinningCombos[j], t);
      assert Completes(b, WinningCombos[j]);
    }
  }

  /**
   A move that turns a board without a winner into one with a winner makes the
   mover the winner, and the mover alone: the other player has no line.
   */
  lemma NewWinBelongsToMover(b: Board, row: int, col: int, t: Token)
    requires InRange(row) && InRange(col)
    requires !CheckWinner(b)
    ensures var p := SetToken(b, row, col, t);
      p.accepted && CheckWinner(p.board) ==> Wins(p.board, t) && !Wins(p.board, Flip(t))
  {
    var p := SetToken(b, row, col, t);
    if p.accepted && CheckWinner(p.board) {
      var b' := p.board;
      var i := Index(row, col);
      CheckWinnerFindsCombo(b);
      CheckWinnerFindsCombo(b');
      var j :| 0 <= j < |WinningCombos| && Completes(b', WinningCombos[j]);
      var k := WinningCombos[j];
      // The new line must pass through the cell just written, so it holds `t`.
      assert i == k.a || i == k.b || i == k.c;
      assert LineOf(b', k, t);
      WinsIffLine(b', t);
      WinsIffLine(b', Flip(t));
    }
  }

}
