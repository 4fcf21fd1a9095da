/** Colours, piece codes, the 10 x 9 board as a value, and moves on it.
    A board cell holds -1 (empty) or color * 10 + kind, with red = 0 and black = 1. */
module Types {

  datatype Option<+T> = None | Some(value: T)

  datatype Color = Red | Black

  function Opponent(c: Color): (o: Color)
    ensures o != c
  {
    if c == Red then Black else Red
  }

  const EMPTY: int := -1
  const ROWS: int := 10
  const COLS: int := 9

  const KING: int := 0
  const ADVISOR: int := 1
  const BISHOP: int := 2
  const KNIGHT: int := 3
  const ROOK: int := 4
  const CANNON: int := 5
  const PAWN: int := 6

  type Cell = p: int | p == -1 || 0 <= p <= 6 || 10 <= p <= 16 witness -1

  predicate IsGrid(g: seq<seq<Cell>>) {
    |g| == ROWS && forall r :: 0 <= r < ROWS ==> |g[r]| == COLS
  }

  type Grid = g: seq<seq<Cell>> | IsGrid(g) witness seq(10, _ => seq(9, _ => -1))

  predicate OnBoard(col: int, row: int) {
    0 <= col < COLS && 0 <= row < ROWS
  }

  /** The cell at (col, row); off the board every cell reads as empty. */
  function At(g: Grid, col: int, row: int): Cell {
    if OnBoard(col, row) then g[row][col] else EMPTY
  }

  /** The board with one cell replaced; a write off the board is dropped. */
  function Put(g: Grid, col: int, row: int, p: Cell): (h: Grid)
    ensures forall c, r :: At(h, c, r) == if OnBoard(c, r) && c == col && r == row then p else At(g, c, r)
  {
    if OnBoard(col, row) then
      var changed: seq<Cell> := g[row][col := p];
      g[row := changed]
    else g
  }

  /** Boards with the same cells are the same board. */
  lemma SameCells(g: Grid, h: Grid)
    requires forall c, r :: OnBoard(c, r) ==> At(g, c, r) == At(h, c, r)
    ensures g == h
  {
    forall r | 0 <= r < ROWS
      ensures g[r] == h[r]
    {
      forall c | 0 <= c < COLS
        ensures g[r][c] == h[r][c]
      {
        assert At(g, c, r) == At(h, c, r);
      }
    }
  }

  predicate IsPiece(p: Cell) {
    p >= 0
  }

  predicate Owns(color: Color, p: Cell) {
    p >= 0 && p / 10 == (if color == Red then 0 else 1)
  }

  function ColorOf(p: Cell): Color
    requires IsPiece(p)
  {
    if p / 10 == 0 then Red else Black
  }

  function Kind(p: Cell): int {
    p % 10
  }

  function KingOf(color: Color): Cell {
    if color == Red then 0 else 10
  }

  datatype Move = Move(fromCol: int, fromRow: int, toCol: int, toRow: int)

  predicate InBounds(m: Move) {
    OnBoard(m.fromCol, m.fromRow) && OnBoard(m.toCol, m.toRow)
  }

  /** The board after a move: the piece is written to the target, then its origin is emptied. */
  function Apply(g: Grid, m: Move): Grid {
    Put(Put(g, m.toCol, m.toRow, At(g, m.fromCol, m.fromRow)), m.fromCol, m.fromRow, EMPTY)
  }

  /** The piece each side starts with on a column of its back rank: king in the middle, then
      advisor, bishop, knight and rook outwards. */
  function BackRankKind(col: int): int {
    if col < 4 then 4 - col else col - 4
  }

  /** The opening layout: black on rows 0 to 3, red on rows 6 to 9. */
  function StartCell(col: int, row: int): Cell
    requires OnBoard(col, row)
  {
    if row == 0 then 10 + BackRankKind(col)
    else if row == 9 then BackRankKind(col)
    else if row == 2 && (col == 1 || col == 7) then 15
    else if row == 7 && (col == 1 || col == 7) then 5
    else if row == 3 && col % 2 == 0 then 16
    else if row == 6 && col % 2 == 0 then 6
    else EMPTY
  }

  function InitialGrid(): Grid {
    seq(ROWS, r requires 0 <= r < ROWS => seq(COLS, c requires 0 <= c < COLS => StartCell(c, r)))
  }

  /** The board without pieces. */
  function Blank(): Grid {
    seq(ROWS, r requires 0 <= r < ROWS => seq(COLS, c requires 0 <= c < COLS => EMPTY))
  }

  /** The layout written out row by row. */
  lemma InitialRows()
    ensures var g := InitialGrid(); var none: seq<Cell> := [-1, -1, -1, -1, -1, -1, -1, -1, -1];
      && g[0] == [14, 13, 12, 11, 10, 11, 12, 13, 14]
      && g[2] == [-1, 15, -1, -1, -1, -1, -1, 15, -1]
      && g[3] == [16, -1, 16, -1, 16, -1, 16, -1, 16]
      && g[6] == [6, -1, 6, -1, 6, -1, 6, -1, 6]
      && g[7] == [-1, 5, -1, -1, -1, -1, -1, 5, -1]
      && g[9] == [4, 3, 2, 1, 0, 1, 2, 3, 4]
      && g[1] == none && g[4] == none && g[5] == none && g[8] == none
  {
  }
}
