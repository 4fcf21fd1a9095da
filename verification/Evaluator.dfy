/** The static evaluation of ai/engine.py and the bound that keeps it apart from mate scores. */
module Evaluator {
  import opened Types
  import opened BoardModel
  import opened SearchSpec

  // ----- Tables -----

  type PositionTable = t: seq<seq<int>> | |t| == ROWS && forall r :: 0 <= r < ROWS ==> |t[r]| == COLS
    witness seq(ROWS, _ => seq(COLS, _ => 0))

  const PAWN_POSITIONAL: PositionTable := [
    [70, 100, 120, 150, 180, 150, 120, 100, 70],
    [40, 60, 90, 120, 130, 120, 90, 60, 40],
    [30, 40, 70, 100, 110, 100, 70, 40, 30],
    [20, 30, 50, 80, 90, 80, 50, 30, 20],
    [20, 20, 40, 60, 70, 60, 40, 20, 20],
    [0, 0, 10, 25, 30, 25, 10, 0, 0],
    [0, 0, 0, 10, 10, 10, 0, 0, 0],
    [0, 0, 0, 0, 0, 0, 0, 0, 0],
    [0, 0, 0, 0, 0, 0, 0, 0, 0],
    [0, 0, 0, 0, 0, 0, 0, 0, 0]]

  const KNIGHT_POSITIONAL: PositionTable := [
    [-8, -6, 2, 4, 6, 4, 2, -6, -8],
    [-4, 4, 10, 12, 14, 12, 10, 4, -4],
    [-2, 0, 12, 14, 14, 14, 12, 0, -2],
    [-4, 2, 16, 18, 20, 18, 16, 2, -4],
    [-4, 4, 18, 22, 22, 22, 18, 4, -4],
    [-4, 6, 18, 20, 22, 20, 18, 6, -4],
    [-4, 6, 16, 18, 18, 18, 16, 6, -4],
    [-6, -4, 14, 16, 14, 16, 14, -4, -6],
    [-8, -10, 6, 8, 6, 8, 6, -10, -8],
    [-10, -28, -6, -4, -8, -4, -6, -28, -10]]

  const CANNON_POSITIONAL: PositionTable := [
    [9, 7, 3, 1, -1, 1, 3, 7, 9],
    [5, 5, 3, 7, 5, 7, 3, 5, 5],
    [7, 9, 11, 23, 25, 23, 11, 9, 7],
    [13, 17, 19, 31, 35, 31, 19, 17, 13],
    [15, 19, 21, 35, 39, 35, 21, 19, 15],
    [12, 16, 18, 32, 36, 32, 18, 16, 12],
    [10, 14, 16, 28, 32, 28, 16, 14, 10],
    [8, 10, 12, 24, 26, 24, 12, 10, 8],
    [6, 8, 8, 18, 20, 18, 8, 8, 6],
    [4, 6, 6, 16, 16, 16, 6, 6, 4]]

  const ROOK_POSITIONAL: PositionTable := [
    [19, 19, 17, 33, 31, 33, 17, 19, 19],
    [21, 25, 23, 39, 41, 39, 23, 25, 21],
    [17, 17, 17, 33, 33, 33, 17, 17, 17],
    [17, 23, 21, 37, 37, 37, 21, 23, 17],
    [17, 19, 17, 33, 33, 33, 17, 19, 17],
    [12, 16, 14, 30, 30, 30, 14, 16, 12],
    [6, 10, 8, 24, 24, 24, 8, 10, 6],
    [4, 8, 6, 24, 22, 24, 6, 8, 4],
    [8, 4, 8, 26, 18, 26, 8, 4, 8],
    [-2, 10, 6, 24, 22, 24, 6, 10, -2]]

  const ADVISOR_POSITIONAL: PositionTable := [
    [0, 0, 0, 0, 0, 0, 0, 0, 0],
    [0, 0, 0, 0, 0, 0, 0, 0, 0],
    [0, 0, 0, 0, 0, 0, 0, 0, 0],
    [0, 0, 0, 0, 0, 0, 0, 0, 0],
    [0, 0, 0, 0, 0, 0, 0, 0, 0],
    [0, 0, 0, 0, 0, 0, 0, 0, 0],
    [0, 0, 0, 0, 0, 0, 0, 0, 0],
    [0, 0, 0, 20, 0, 20, 0, 0, 0],
    [0, 0, 0, 0, 30, 0, 0, 0, 0],
    [0, 0, 0, 15, 0, 15, 0, 0, 0]]

  const BISHOP_POSITIONAL: PositionTable := [
    [0, 0, 0, 0, 0, 0, 0, 0, 0],
    [0, 0, 0, 0, 0, 0, 0, 0, 0],
    [0, 0, 0, 0, 0, 0, 0, 0, 0],
    [0, 0, 0, 0, 0, 0, 0, 0, 0],
    [0, 0, 0, 0, 0, 0, 0, 0, 0],
    [0, 0, 20, 0, 0, 0, 20, 0, 0],
    [0, 0, 0, 0, 0, 0, 0, 0, 0],
    [0, 0, 0, 0, 25, 0, 0, 0, 0],
    [0, 0, 0, 0, 0, 0, 0, 0, 0],
    [0, 0, 10, 0, 0, 0, 10, 0, 0]]

  const KING_POSITIONAL: PositionTable := [
    [0, 0, 0, 0, 0, 0, 0, 0, 0],
    [0, 0, 0, 0, 0, 0, 0, 0, 0],
    [0, 0, 0, 0, 0, 0, 0, 0, 0],
    [0, 0, 0, 0, 0, 0, 0, 0, 0],
    [0, 0, 0, 0, 0, 0, 0, 0, 0],
    [0, 0, 0, 0, 0, 0, 0, 0, 0],
    [0, 0, 0, 0, 0, 0, 0, 0, 0],
    [0, 0, 0, 5, 10, 5, 0, 0, 0],
    [0, 0, 0, 8, 15, 8, 0, 0, 0],
    [0, 0, 0, 10, 20, 10, 0, 0, 0]]

  function BaseValue(kind: int): real {
    if kind == PAWN then 100.0
    else if kind == ADVISOR || kind == BISHOP then 200.0
    else if kind == KNIGHT then 400.0
    else if kind == CANNON then 450.0
    else if kind == ROOK then 900.0
    else 10000.0
  }

  /** The table of a kind, written from red's side with row 0 as black's back rank. */
  function TableOf(kind: int): PositionTable {
    if kind == PAWN then PAWN_POSITIONAL
    else if kind == ADVISOR then ADVISOR_POSITIONAL
    else if kind == BISHOP then BISHOP_POSITIONAL
    else if kind == KNIGHT then KNIGHT_POSITIONAL
    else if kind == CANNON then CANNON_POSITIONAL
    else if kind == ROOK then ROOK_POSITIONAL
    else KING_POSITIONAL
  }

  /** The least and the greatest entry of a kind's table. */
  function Entries(kind: int): (int, int) {
    if kind == PAWN then (0, 180)
    else if kind == ADVISOR then (0, 30)
    else if kind == BISHOP then (0, 25)
    else if kind == KNIGHT then (-28, 22)
    else if kind == CANNON then (-1, 39)
    else if kind == ROOK then (-2, 41)
    else (0, 20)
  }

  lemma PawnEntry(r: int, c: int)
    requires OnBoard(c, r)
    ensures 0 <= PAWN_POSITIONAL[r][c] <= 180
  {
  }

  lemma AdvisorEntry(r: int, c: int)
    requires OnBoard(c, r)
    ensures 0 <= ADVISOR_POSITIONAL[r][c] <= 30
  {
  }

  lemma BishopEntry(r: int, c: int)
    requires OnBoard(c, r)
    ensures 0 <= BISHOP_POSITIONAL[r][c] <= 25
  {
  }

  lemma KnightEntry(r: int, c: int)
    requires OnBoard(c, r)
    ensures -28 <= KNIGHT_POSITIONAL[r][c] <= 22
  {
  }

  lemma CannonEntry(r: int, c: int)
    requires OnBoard(c, r)
    ensures -1 <= CANNON_POSITIONAL[r][c] <= 39
  {
  }

  lemma RookEntry(r: int, c: int)
    requires OnBoard(c, r)
    ensures -2 <= ROOK_POSITIONAL[r][c] <= 41
  {
  }

  lemma KingEntry(r: int, c: int)
    requires OnBoard(c, r)
    ensures 0 <= KING_POSITIONAL[r][c] <= 20
  {
  }

  /** Position tables as a lookup by kind, row and column, which keeps their entries out of the
      proofs that only need their range. */
  datatype Tables = Tables(entry: (int, int, int) -> int)

  function Shipped(): Tables {
    Tables((kind: int, r: int, c: int) => if OnBoard(c, r) then TableOf(kind)[r][c] else 0)
  }

  ghost predicate InRange(t: Tables) {
    forall kind, r, c :: OnBoard(c, r) ==> Entries(kind).0 <= t.entry(kind, r, c) <= Entries(kind).1
  }

  lemma TableEntry(kind: int, r: int, c: int)
    requires OnBoard(c, r)
    ensures Entries(kind).0 <= TableOf(kind)[r][c] <= Entries(kind).1
  {
    PawnEntry(r, c);
    AdvisorEntry(r, c);
    BishopEntry(r, c);
    KnightEntry(r, c);
    CannonEntry(r, c);
    RookEntry(r, c);
    KingEntry(r, c);
  }

  lemma ShippedInRange()
    ensures InRange(Shipped())
  {
    forall kind, r, c | OnBoard(c, r)
      ensures Entries(kind).0 <= Shipped().entry(kind, r, c) <= Entries(kind).1
    {
      TableEntry(kind, r, c);
    }
  }

  // ----- Evaluation -----

  const MAX_PIECES: real := 30.0

  /** How far the game is from its end, 0 with all pieces on the board and 1 with none. */
  function EndPhase(pieces: nat): real {
    if pieces as real >= MAX_PIECES then 0.0 else (MAX_PIECES - pieces as real) / MAX_PIECES
  }

  /** Knights gain and cannons lose as pieces go. */
  function Multiplier(kind: int, phase: real): real {
    if kind == KNIGHT then 1.0 + 0.5 * phase
    else if kind == CANNON then 1.0 + 0.5 * (1.0 - phase)
    else 1.0
  }

  function PhaseFactor(kind: int, phase: real): real {
    if kind == PAWN || kind == BISHOP then 1.0 + 0.3 * phase
    else if kind == ROOK || kind == CANNON then 1.0 + 0.3 * (1.0 - phase)
    else if kind == KNIGHT then 1.0 + 0.4 * phase
    else if kind == ADVISOR then 1.0 + 0.2 * phase
    else 1.0
  }

  function WorthOf(kind: int, entry: int, phase: real): real {
    BaseValue(kind) * Multiplier(kind, phase) + entry as real * PhaseFactor(kind, phase)
  }

  function Worth(t: Tables, piece: Cell, col: int, row: int, phase: real): real
    requires IsPiece(piece)
  {
    var r := if ColorOf(piece) == Red then row else ROWS - 1 - row;
    WorthOf(Kind(piece), t.entry(Kind(piece), r, col), phase)
  }

  /** No piece of a kind is ever worth more than this, or less than nothing. */
  function Cap(kind: int): real {
    if kind == PAWN then 334.0
    else if kind == ADVISOR then 236.0
    else if kind == BISHOP then 233.0
    else if kind == KNIGHT then 631.0
    else if kind == CANNON then 726.0
    else if kind == ROOK then 954.0
    else 10020.0
  }

  lemma Grows(a: real, b: real, f: real)
    requires a <= b && 0.0 <= f
    ensures a * f <= b * f
  {
  }

  lemma Scaled(x: real, lo: real, hi: real, factor: real, most: real)
    requires lo <= x <= hi && lo <= 0.0 <= hi && 0.0 <= factor <= most
    ensures lo * most <= x * factor <= hi * most
  {
    Grows(lo, x, factor);
    Grows(x, hi, factor);
    Grows(factor, most, hi);
    Grows(factor, most, -lo);
  }

  function MostFactor(kind: int): real {
    if kind == PAWN || kind == BISHOP || kind == ROOK || kind == CANNON then 1.3
    else if kind == KNIGHT then 1.4
    else if kind == ADVISOR then 1.2
    else 1.0
  }

  lemma EntryScaled(kind: int, entry: int, phase: real)
    requires Entries(kind).0 <= entry <= Entries(kind).1 && 0.0 <= phase <= 1.0
    ensures Entries(kind).0 as real * MostFactor(kind) <= entry as real * PhaseFactor(kind, phase)
      <= Entries(kind).1 as real * MostFactor(kind)
  {
    Scaled(entry as real, Entries(kind).0 as real, Entries(kind).1 as real, PhaseFactor(kind, phase), MostFactor(kind));
  }

  function BaseCap(kind: int): real {
    if kind == KNIGHT then 600.0 else if kind == CANNON then 675.0 else BaseValue(kind)
  }

  lemma BaseCapped(kind: int, phase: real)
    requires 0.0 <= phase <= 1.0
    ensures BaseValue(kind) <= BaseValue(kind) * Multiplier(kind, phase) <= BaseCap(kind)
  {
    if kind == KNIGHT {
    } else if kind == CANNON {
    } else {
    }
  }

  lemma TotalCapped(kind: int, base: real, positional: real)
    requires BaseValue(kind) <= base <= BaseCap(kind)
    requires Entries(kind).0 as real * MostFactor(kind) <= positional <= Entries(kind).1 as real * MostFactor(kind)
    ensures 0.0 <= base + positional <= Cap(kind)
  {
  }

  lemma KindCapped(kind: int, entry: int, phase: real)
    requires Entries(kind).0 <= entry <= Entries(kind).1 && 0.0 <= phase <= 1.0
    ensures 0.0 <= WorthOf(kind, entry, phase) <= Cap(kind)
  {
    BaseCapped(kind, phase);
    EntryScaled(kind, entry, phase);
    TotalCapped(kind, BaseValue(kind) * Multiplier(kind, phase), entry as real * PhaseFactor(kind, phase));
  }

  lemma WorthCapped(t: Tables, piece: Cell, col: int, row: int, phase: real)
    requires InRange(t) && IsPiece(piece) && OnBoard(col, row) && 0.0 <= phase <= 1.0
    ensures 0.0 <= Worth(t, piece, col, row, phase) <= Cap(Kind(piece))
  {
    var r := if ColorOf(piece) == Red then row else ROWS - 1 - row;
    assert OnBoard(col, r);
    KindCapped(Kind(piece), t.entry(Kind(piece), r, col), phase);
  }

  /** The worth of a side's pieces on the first n columns of a row. */
  function RowWorth(t: Tables, row: seq<Cell>, r: int, color: Color, phase: real, n: nat): real
    requires n <= |row|
  {
    if n == 0 then 0.0
    else
      RowWorth(t, row, r, color, phase, n - 1)
      + if Owns(color, row[n - 1]) then Worth(t, row[n - 1], n - 1, r, phase) else 0.0
  }

  /** The worth of a side's pieces on the first n rows. */
  function SideWorth(t: Tables, g: Grid, color: Color, phase: real, n: nat): real
    requires n <= ROWS
  {
    if n == 0 then 0.0
    else SideWorth(t, g, color, phase, n - 1) + RowWorth(t, g[n - 1], n - 1, color, phase, COLS)
  }

  /** The evaluation for the side to move. */
  function Evaluate(t: Tables, g: Grid, turn: Color): real {
    var phase := EndPhase(NonKings(g, ROWS));
    var raw := SideWorth(t, g, Red, phase, ROWS) - SideWorth(t, g, Black, phase, ROWS);
    if turn == Black then -raw else raw
  }

  method EvaluateBoard(t: Tables, board: Board, turn: Color) returns (score: real)
    ensures score == Evaluate(t, board.cells, turn)
  {
    var red, black := 0.0, 0.0;
    var total := CountNonKings(board);
    var phase := EndPhase(total);
    for row := 0 to ROWS
      invariant red == SideWorth(t, board.cells, Red, phase, row)
      invariant black == SideWorth(t, board.cells, Black, phase, row)
    {
      var r, b := RowScores(t, board, row, phase);
      red, black := red + r, black + b;
    }
    score := red - black;
    if turn == Black {
      score := -score;
    }
  }

  method RowScores(t: Tables, board: Board, row: int, phase: real) returns (red: real, black: real)
    requires 0 <= row < ROWS
    ensures red == RowWorth(t, board.cells[row], row, Red, phase, COLS)
    ensures black == RowWorth(t, board.cells[row], row, Black, phase, COLS)
  {
    red, black := 0.0, 0.0;
    for col := 0 to COLS
      invariant red == RowWorth(t, board.cells[row], row, Red, phase, col)
      invariant black == RowWorth(t, board.cells[row], row, Black, phase, col)
    {
      var piece := board.Get(col, row);
      if piece >= 0 {
        var worth := Worth(t, piece, col, row, phase);
        if ColorOf(piece) == Red {
          red := red + worth;
        } else {
          black := black + worth;
        }
      }
    }
  }

  // ----- Piece supply -----

  /** The cells of the first n rows. */
  function Pieces(g: Grid, n: nat): multiset<Cell>
    requires n <= ROWS
  {
    if n == 0 then multiset{} else Pieces(g, n - 1) + multiset(g[n - 1])
  }

  function CodeOf(color: Color, kind: int): Cell
    requires 0 <= kind <= 6
  {
    if color == Red then kind else 10 + kind
  }

  function Supply(kind: int): nat {
    if kind == KING then 1 else if kind == PAWN then 5 else 2
  }

  /** No side has more pieces of a kind than it starts with. */
  ghost predicate Supplied(g: Grid) {
    forall p: Cell :: IsPiece(p) ==> Pieces(g, ROWS)[p] <= Supply(Kind(p))
  }

  function OneIf(b: bool): nat {
    if b then 1 else 0
  }

  lemma PutRow(g: Grid, col: int, row: int, p: Cell, i: int, q: Cell)
    requires OnBoard(col, row) && 0 <= i < ROWS
    ensures multiset(Put(g, col, row, p)[i])[q] + OneIf(i == row && At(g, col, row) == q)
            == multiset(g[i])[q] + OneIf(i == row && p == q)
  {
    var changed: seq<Cell> := g[row][col := p];
    assert Put(g, col, row, p)[i] == if i == row then changed else g[i];
  }

  lemma {:induction false} PiecesByRow(g: Grid, h: Grid, n: nat, row: int, q: Cell, lost: nat, gained: nat)
    requires 0 <= row && n <= ROWS
    requires forall i :: 0 <= i < n ==>
      multiset(h[i])[q] + (if i == row then lost else 0) == multiset(g[i])[q] + (if i == row then gained else 0)
    ensures Pieces(h, n)[q] + (if row < n then lost else 0) == Pieces(g, n)[q] + (if row < n then gained else 0)
  {
    if n > 0 {
      PiecesByRow(g, h, n - 1, row, q, lost, gained);
    }
  }

  lemma PutChangesPieces(g: Grid, col: int, row: int, p: Cell, n: nat, q: Cell)
    requires OnBoard(col, row) && n <= ROWS
    ensures Pieces(Put(g, col, row, p), n)[q] + OneIf(row < n && At(g, col, row) == q)
            == Pieces(g, n)[q] + OneIf(row < n && p == q)
  {
    forall i | 0 <= i < n { PutRow(g, col, row, p, i, q); }
    PiecesByRow(g, Put(g, col, row, p), n, row, q, OneIf(At(g, col, row) == q), OneIf(p == q));
  }

  /** A move adds no piece: it can only empty a cell or take what stood on it. */
  lemma MoveAddsNone(g: Grid, m: Move, q: Cell)
    requires InBounds(m) && IsPiece(q)
    ensures Pieces(Apply(g, m), ROWS)[q] <= Pieces(g, ROWS)[q]
  {
    var piece := At(g, m.fromCol, m.fromRow);
    var placed := Put(g, m.toCol, m.toRow, piece);
    PutChangesPieces(g, m.toCol, m.toRow, piece, ROWS, q);
    PutChangesPieces(placed, m.fromCol, m.fromRow, EMPTY, ROWS, q);
    assert At(placed, m.fromCol, m.fromRow) == piece;
  }

  lemma MoveKeepsSupply(g: Grid, m: Move)
    requires Supplied(g) && InBounds(m)
    ensures Supplied(Apply(g, m))
  {
    forall p: Cell | IsPiece(p)
      ensures Pieces(Apply(g, m), ROWS)[p] <= Supply(Kind(p))
    {
      MoveAddsNone(g, m, p);
    }
  }

  function BackRankTally(base: int, p: Cell): nat {
    if p == base then 1 else if base < p <= base + 4 then 2 else 0
  }

  lemma BackRank(row: seq<Cell>, base: int, p: Cell)
    requires base == 0 || base == 10
    requires row == [base + 4, base + 3, base + 2, base + 1, base, base + 1, base + 2, base + 3, base + 4]
    ensures multiset(row)[p] == BackRankTally(base, p)
  {
  }

  lemma CannonRow(row: seq<Cell>, cannon: Cell, p: Cell)
    requires IsPiece(cannon) && IsPiece(p) && row == [-1, cannon, -1, -1, -1, -1, -1, cannon, -1]
    ensures multiset(row)[p] == 2 * OneIf(p == cannon)
  {
  }

  lemma PawnRow(row: seq<Cell>, pawn: Cell, p: Cell)
    requires IsPiece(pawn) && IsPiece(p) && row == [pawn, -1, pawn, -1, pawn, -1, pawn, -1, pawn]
    ensures multiset(row)[p] == 5 * OneIf(p == pawn)
  {
  }

  lemma EmptyRow(row: seq<Cell>, p: Cell)
    requires IsPiece(p) && row == [-1, -1, -1, -1, -1, -1, -1, -1, -1]
    ensures multiset(row)[p] == 0
  {
  }

  lemma TalliesAddUp(p: Cell)
    requires IsPiece(p)
    ensures BackRankTally(10, p) + 2 * OneIf(p == 15) + 5 * OneIf(p == 16) + 5 * OneIf(p == 6) + 2 * OneIf(p == 5)
      + BackRankTally(0, p)
            == Supply(Kind(p))
  {
  }

  lemma RowsAddUp(g: Grid, p: Cell)
    ensures Pieces(g, ROWS)[p]
      == multiset(g[0])[p] + multiset(g[1])[p] + multiset(g[2])[p] + multiset(g[3])[p] + multiset(g[4])[p]
         + multiset(g[5])[p] + multiset(g[6])[p] + multiset(g[7])[p] + multiset(g[8])[p] + multiset(g[9])[p]
  {
    assert Pieces(g, 1)[p] == multiset(g[0])[p];
    assert Pieces(g, 2)[p] == Pieces(g, 1)[p] + multiset(g[1])[p];
    assert Pieces(g, 3)[p] == Pieces(g, 2)[p] + multiset(g[2])[p];
    assert Pieces(g, 4)[p] == Pieces(g, 3)[p] + multiset(g[3])[p];
    assert Pieces(g, 5)[p] == Pieces(g, 4)[p] + multiset(g[4])[p];
    assert Pieces(g, 6)[p] == Pieces(g, 5)[p] + multiset(g[5])[p];
    assert Pieces(g, 7)[p] == Pieces(g, 6)[p] + multiset(g[6])[p];
    assert Pieces(g, 8)[p] == Pieces(g, 7)[p] + multiset(g[7])[p];
    assert Pieces(g, 9)[p] == Pieces(g, 8)[p] + multiset(g[8])[p];
  }

  lemma BlackRows(g: Grid, p: Cell)
    requires g == InitialGrid() && IsPiece(p)
    ensures multiset(g[0])[p] == BackRankTally(10, p) && multiset(g[1])[p] == 0
    ensures multiset(g[2])[p] == 2 * OneIf(p == 15) && multiset(g[3])[p] == 5 * OneIf(p == 16) && multiset(g[4])[p] == 0
  {
    InitialRows();
    BackRank(g[0], 10, p);
    EmptyRow(g[1], p);
    CannonRow(g[2], 15, p);
    PawnRow(g[3], 16, p);
    EmptyRow(g[4], p);
  }

  lemma RedRows(g: Grid, p: Cell)
    requires g == InitialGrid() && IsPiece(p)
    ensures multiset(g[5])[p] == 0 && multiset(g[6])[p] == 5 * OneIf(p == 6) && multiset(g[7])[p] == 2 * OneIf(p == 5)
    ensures multiset(g[8])[p] == 0 && multiset(g[9])[p] == BackRankTally(0, p)
  {
    InitialRows();
    BackRank(g[9], 0, p);
    EmptyRow(g[8], p);
    CannonRow(g[7], 5, p);
    PawnRow(g[6], 6, p);
    EmptyRow(g[5], p);
  }

  /** The opening holds each piece exactly as often as it is supplied. */
  lemma InitialSupply(g: Grid, p: Cell)
    requires g == InitialGrid() && IsPiece(p)
    ensures Pieces(g, ROWS)[p] == Supply(Kind(p))
  {
    BlackRows(g, p);
    RedRows(g, p);
    RowsAddUp(g, p);
    TalliesAddUp(p);
  }

  // ----- The bound -----

  /** The caps of a side's pieces among some cells. */
  function Capped(cells: multiset<Cell>, color: Color): real {
    Cap(KING) * cells[CodeOf(color, KING)] as real + Cap(ADVISOR) * cells[CodeOf(color, ADVISOR)] as real
    + Cap(BISHOP) * cells[CodeOf(color, BISHOP)] as real + Cap(KNIGHT) * cells[CodeOf(color, KNIGHT)] as real
    + Cap(ROOK) * cells[CodeOf(color, ROOK)] as real + Cap(CANNON) * cells[CodeOf(color, CANNON)] as real
    + Cap(PAWN) * cells[CodeOf(color, PAWN)] as real
  }

  lemma CappedOneMore(cells: multiset<Cell>, color: Color, p: Cell)
    ensures Capped(cells + multiset{p}, color) == Capped(cells, color) + if Owns(color, p) then Cap(Kind(p)) else 0.0
  {
  }

  lemma {:induction false} RowCapped(t: Tables, row: seq<Cell>, r: int, color: Color, phase: real, n: nat)
    requires InRange(t) && n <= |row| == COLS && 0 <= r < ROWS && 0.0 <= phase <= 1.0
    ensures 0.0 <= RowWorth(t, row, r, color, phase, n) <= Capped(multiset(row[..n]), color)
  {
    if n > 0 {
      var p := row[n - 1];
      RowCapped(t, row, r, color, phase, n - 1);
      assert row[..n] == row[..n - 1] + [p];
      CappedOneMore(multiset(row[..n - 1]), color, p);
      if Owns(color, p) {
        WorthCapped(t, p, n - 1, r, phase);
      }
    }
  }

  lemma {:induction false} SideCapped(t: Tables, g: Grid, color: Color, phase: real, n: nat)
    requires InRange(t) && n <= ROWS && 0.0 <= phase <= 1.0
    ensures 0.0 <= SideWorth(t, g, color, phase, n) <= Capped(Pieces(g, n), color)
  {
    if n > 0 {
      SideCapped(t, g, color, phase, n - 1);
      RowCapped(t, g[n - 1], n - 1, color, phase, COLS);
      assert g[n - 1][..COLS] == g[n - 1];
    }
  }

  /** A full side is worth well below half a mate. */
  lemma SupplyCapped(g: Grid, color: Color)
    requires Supplied(g)
    ensures Capped(Pieces(g, ROWS), color) <= 17250.0
  {
    var cells := Pieces(g, ROWS);
    forall kind | 0 <= kind <= 6
      ensures cells[CodeOf(color, kind)] <= Supply(kind)
    {
      assert Kind(CodeOf(color, kind)) == kind;
    }
  }

  lemma EvaluationBounded(t: Tables, g: Grid, turn: Color)
    requires InRange(t) && Supplied(g)
    ensures -17250.0 <= Evaluate(t, g, turn) <= 17250.0
    ensures -MATE / 2.0 < Evaluate(t, g, turn) < MATE / 2.0
  {
    var phase := EndPhase(NonKings(g, ROWS));
    SideCapped(t, g, Red, phase, ROWS);
    SideCapped(t, g, Black, phase, ROWS);
    SupplyCapped(g, Red);
    SupplyCapped(g, Black);
  }

  /** The opening after a list of moves, legal or not. */
  function BoardAfter(ms: seq<Move>): Grid {
    if ms == [] then InitialGrid() else Apply(BoardAfter(ms[..|ms| - 1]), ms[|ms| - 1])
  }

  lemma {:induction false} SupplyLasts(ms: seq<Move>)
    requires forall m :: m in ms ==> InBounds(m)
    ensures Supplied(BoardAfter(ms))
  {
    if ms == [] {
      forall p: Cell | IsPiece(p) {
        InitialSupply(InitialGrid(), p);
      }
    } else {
      SupplyLasts(ms[..|ms| - 1]);
      MoveKeepsSupply(BoardAfter(ms[..|ms| - 1]), ms[|ms| - 1]);
    }
  }

  /** On every board that moves on the board can lead to from the opening, king captures included,
      the evaluation stays below half a mate score. */
  lemma EvaluationBelowMate(ms: seq<Move>, turn: Color)
    requires forall m :: m in ms ==> InBounds(m)
    ensures -MATE / 2.0 < Evaluate(Shipped(), BoardAfter(ms), turn) < MATE / 2.0
  {
    SupplyLasts(ms);
    ShippedInRange();
    EvaluationBounded(Shipped(), BoardAfter(ms), turn);
  }
}
