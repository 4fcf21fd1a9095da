/** The mutable board object of chess/piece.py. */
module BoardModel {
  import opened Types
  import opened MoveRules

  class Board {
    var cells: Grid

    constructor (g: Grid)
      ensures cells == g
    {
      cells := g;
    }

    method Clone() returns (b: Board)
      ensures fresh(b) && b.cells == cells
    {
      b := new Board(cells);
    }

    function Get(col: int, row: int): Cell
      reads this
    {
      At(cells, col, row)
    }

    method Set(col: int, row: int, piece: Cell)
      modifies this
      ensures cells == Put(old(cells), col, row, piece)
    {
      if OnBoard(col, row) {
        var changed: seq<Cell> := cells[row][col := piece];
        cells := cells[row := changed];
      }
    }

    /** Scans the board in reading order. */
    method LocateKing(color: Color) returns (pos: Option<(int, int)>)
      ensures pos == FindKing(cells, color)
    {
      for row := 0 to ROWS
        invariant FindKing(cells, color) == KingFrom(cells, color, 0, row)
      {
        for col := 0 to COLS
          invariant FindKing(cells, color) == KingFrom(cells, color, col, row)
        {
          if cells[row][col] == KingOf(color) {
            return Some((col, row));
          }
        }
      }
      return None;
    }

    /** Plays a move in place and returns what stood on the target. */
    method MakeMove(m: Move) returns (captured: Cell)
      modifies this
      ensures cells == Apply(old(cells), m)
      ensures captured == At(old(cells), m.toCol, m.toRow)
    {
      var piece := Get(m.fromCol, m.fromRow);
      captured := Get(m.toCol, m.toRow);
      Set(m.toCol, m.toRow, piece);
      Set(m.fromCol, m.fromRow, EMPTY);
    }

    method UnmakeMove(m: Move, captured: Cell)
      modifies this
      ensures cells == Unapply(old(cells), m, captured)
    {
      var piece := Get(m.toCol, m.toRow);
      Set(m.fromCol, m.fromRow, piece);
      Set(m.toCol, m.toRow, captured);
    }
  }

  /** Pieces other than kings among the first n cells of a row. */
  function RowNonKings(row: seq<Cell>, n: nat): nat
    requires n <= |row|
  {
    if n == 0 then 0 else RowNonKings(row, n - 1) + if row[n - 1] >= 0 && Kind(row[n - 1]) != KING then 1 else 0
  }

  /** Pieces other than kings on the first n rows. */
  function NonKings(g: Grid, n: nat): nat
    requires n <= ROWS
  {
    if n == 0 then 0 else NonKings(g, n - 1) + RowNonKings(g[n - 1], COLS)
  }

  /** The count made by the evaluation and by the null-move test. */
  method CountNonKings(board: Board) returns (count: nat)
    ensures count == NonKings(board.cells, ROWS)
  {
    count := 0;
    for r := 0 to ROWS
      invariant count == NonKings(board.cells, r)
    {
      for c := 0 to COLS
        invariant count == NonKings(board.cells, r) + RowNonKings(board.cells[r], c)
      {
        var p := board.Get(c, r);
        if p >= 0 && Kind(p) != KING {
          count := count + 1;
        }
      }
    }
  }

  function Unapply(g: Grid, m: Move, captured: Cell): Grid {
    Put(Put(g, m.fromCol, m.fromRow, At(g, m.toCol, m.toRow)), m.toCol, m.toRow, captured)
  }

  /** Unmaking a move gives back the board before it exactly when the move stays on the
      board or starts from an empty cell, and, if it goes nowhere, starts from an empty cell. */
  lemma UnmakeRestores(g: Grid, m: Move)
    ensures Unapply(Apply(g, m), m, At(g, m.toCol, m.toRow)) == g
            <==> At(g, m.fromCol, m.fromRow) == EMPTY || OnBoard(m.toCol, m.toRow)
  {
    var p, q := At(g, m.fromCol, m.fromRow), At(g, m.toCol, m.toRow);
    var h := Unapply(Apply(g, m), m, q);
    if p == EMPTY || OnBoard(m.toCol, m.toRow) {
      SameCells(h, g);
    } else {
      assert At(h, m.fromCol, m.fromRow) == EMPTY;
    }
  }
}
