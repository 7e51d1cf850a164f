/**
 The 3x3 grid of write-once cells: the `Gameboard` and `Cell` factories of the
 game. A board is kept as its row-major flattening, so the cell in row `row`
 and column `col` lives at index `row * 3 + col`; this is the same order in
 which the win checker reads the board.
 */
module Gameboard {

  /** The two marks a player can place. The first player plays O, the second X. */
  datatype Token = O | X

  /** The mark of the other player. */
  function Flip(t: Token): (u: Token)
    ensures u != t
  {
    if t == O then X else O
  }

  /** A cell is empty until a token is written into it. */
  datatype Cell = Empty | Filled(token: Token)

  /** Number of cells on the board (`capacity()`). */
  const Capacity: nat := 9

  /** A board: the nine cells in row-major order. */
  type Board = b: seq<Cell> | |b| == Capacity
    witness [Empty, Empty, Empty, Empty, Empty, Empty, Empty, Empty, Empty]

  /** The board of a fresh round: every cell empty. */
  const EmptyBoard: Board := [Empty, Empty, Empty, Empty, Empty, Empty, Empty, Empty, Empty]

  /** Rows and columns are numbered 0, 1 and 2. */
  predicate InRange(k: int) {
    0 <= k < 3
  }

  /** A row or column number. */
  type Coord = k: int | InRange(k)

  /** Position of cell (row, col) in the row-major flattening. */
  function Index(row: int, col: int): (i: nat)
    requires InRange(row) && InRange(col)
    ensures i < Capacity
    ensures i / 3 == row && i % 3 == col
  {
    row * 3 + col
  }

  /** Number of cells of `s` equal to `c`. */
  function Count(s: seq<Cell>, c: Cell): (n: nat)
    ensures n <= |s|
  {
    if |s| == 0 then 0 else (if s[0] == c then 1 else 0) + Count(s[1..], c)
  }

  /** Number of cells holding a token. */
  function Occupied(s: seq<Cell>): (n: nat)
    ensures n <= |s|
  {
    |s| - Count(s, Empty)
  }

  /** No cell equals `c` exactly when the count of `c` is zero. */
  lemma {:induction false} CountZero(s: seq<Cell>, c: Cell)
    ensures Count(s, c) == 0 <==> forall i | 0 <= i < |s| :: s[i] != c
  {
    if |s| > 0 {
      CountZero(s[1..], c);
      assert forall i | 1 <= i < |s| :: s[1..][i - 1] == s[i];
    }
  }

  /** Every cell equals `c` exactly when the count of `c` is the length. */
  lemma {:induction false} CountAll(s: seq<Cell>, c: Cell)
    ensures Count(s, c) == |s| <==> forall i | 0 <= i < |s| :: s[i] == c
  {
    if |s| > 0 {
      CountAll(s[1..], c);
      assert forall i | 1 <= i < |s| :: s[1..][i - 1] == s[i];
    }
  }

  /**
   Every cell holds a token exactly when the number of occupied cells reaches
   the length. With the move counter kept equal to the occupied cells, a
   counter at `capacity()` therefore means a full board.
   */
  lemma OccupiedFull(s: seq<Cell>)
    ensures Occupied(s) == |s| <==> forall i | 0 <= i < |s| :: s[i] != Empty
  {
    CountZero(s, Empty);
  }

  /** Writing `v` at position `i` moves one cell from the count of the old value to the count of `v`. */
  lemma {:induction false} CountUpdate(s: seq<Cell>, i: nat, v: Cell, c: Cell)
    requires i < |s|
    ensures Count(s[i := v], c) == Count(s, c) - (if s[i] == c then 1 else 0) + (if v == c then 1 else 0)
  {
    if i == 0 {
      assert s[i := v][1..] == s[1..];
    } else {
      assert s[i := v][1..] == s[1..][i - 1 := v];
      CountUpdate(s[1..], i - 1, v, c);
    }
  }

  /** Three distinct positions holding `c` put the count of `c` at three or more. */
  lemma CountThree(s: seq<Cell>, c: Cell, i: nat, j: nat, k: nat)
    requires i < |s| && j < |s| && k < |s|
    requires i != j && j != k && i != k
    requires s[i] == c && s[j] == c && s[k] == c
    ensures Count(s, c) >= 3
  {
    var v := if c == Empty then Filled(O) else Empty;
    CountUpdate(s, i, v, c);
    var s1 := s[i := v];
    CountUpdate(s1, j, v, c);
    var s2 := s1[j := v];
    assert s2[k] == c;
    CountZero(s2, c);
  }

  /** The empty board holds no token at all. */
  lemma EmptyBoardCounts(t: Token)
    ensures Occupied(EmptyBoard) == 0
    ensures Count(EmptyBoard, Filled(t)) == 0
  {
    CountAll(EmptyBoard, Empty);
    CountZero(EmptyBoard, Filled(t));
  }

  /** Outcome of `setToken`: whether the move was accepted, and the board afterwards. */
  datatype Placement = Placement(accepted: bool, board: Board)

  /**
   Write `t` into cell (row, col). An occupied cell is never overwritten: the
   move is refused and the board is returned unchanged. Otherwise exactly that
   cell receives the token and the other eight keep their contents.
   */
  function SetToken(b: Board, row: int, col: int, t: Token): (p: Placement)
    requires InRange(row) && InRange(col)
    ensures p.accepted <==> b[Index(row, col)] == Empty
    ensures !p.accepted ==> p.board == b
    ensures p.accepted ==> p.board[Index(row, col)] == Filled(t)
    ensures forall i | 0 <= i < Capacity && i != Index(row, col) :: p.board[i] == b[i]
  {
    var i := Index(row, col);
    if b[i] != Empty then Placement(false, b)
    else Placement(true, b[i := Filled(t)])
  }

  /**
   An accepted move fills one more cell: the number of occupied cells and the
   number of `t` tokens each rise by one, and the other player's tokens stay as
   they were.
   */
  lemma SetTokenCounts(b: Board, row: int, col: int, t: Token)
    requires InRange(row) && InRange(col)
    requires SetToken(b, row, col, t).accepted
    ensures Occupied(SetToken(b, row, col, t).board) == Occupied(b) + 1
    ensures Count(SetToken(b, row, col, t).board, Filled(t)) == Count(b, Filled(t)) + 1
    ensures Count(SetToken(b, row, col, t).board, Filled(Flip(t))) == Count(b, Filled(Flip(t)))
  {
    var i := Index(row, col);
    assert SetToken(b, row, col, t).board == b[i := Filled(t)];
    CountUpdate(b, i, Filled(t), Empty);
    CountUpdate(b, i, Filled(t), Filled(t));
    CountUpdate(b, i, Filled(t), Filled(Flip(t)));
  }
}
