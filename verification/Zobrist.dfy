/** Position hashes of chess/recorder.py, for arbitrary tables of 64-bit keys. */
module Zobrist {
  import opened Types
  import opened BoardModel

  /** A 64-bit word. */
  datatype Hash = Hash(bits: bv64)

  const ZERO: Hash := Hash(0)

  /** Keys per colour, kind and position, where a missing entry counts as zero; the key of black
      to move; and the exclusive or, held as a function value so that proofs see no more of it
      than the laws they use. */
  datatype Keys = Keys(pieces: map<(int, int, int), Hash>, side: Hash, xor: (Hash, Hash) -> Hash)

  /** Marks the pairs for which the meaning of xor is wanted; it holds of all of them. */
  ghost predicate Wanted(a: Hash, b: Hash) {
    true
  }

  ghost predicate Xors(keys: Keys) {
    forall a, b {:trigger Wanted(a, b)} :: Wanted(a, b) ==> keys.xor(a, b).bits == a.bits ^ b.bits
  }

  lemma XorIs(keys: Keys, a: Hash, b: Hash)
    requires Xors(keys)
    ensures keys.xor(a, b).bits == a.bits ^ b.bits
  {
    assert Wanted(a, b);
  }

  /** The exclusive or itself, for tables built on it. */
  lemma BitwiseXors(pieces: map<(int, int, int), Hash>, side: Hash)
    ensures Xors(Keys(pieces, side, (a: Hash, b: Hash) => Hash(a.bits ^ b.bits)))
  {
  }

  lemma BitsSwap(h: bv64, a: bv64, b: bv64)
    ensures (h ^ a) ^ b == (h ^ b) ^ a
  {
  }

  lemma XorTwice(keys: Keys, h: Hash, a: Hash, b: Hash)
    requires Xors(keys)
    ensures keys.xor(keys.xor(h, a), b).bits == (h.bits ^ a.bits) ^ b.bits
  {
    XorIs(keys, h, a);
    XorIs(keys, keys.xor(h, a), b);
  }

  lemma XorSwaps(keys: Keys, h: Hash, a: Hash, b: Hash)
    requires Xors(keys)
    ensures keys.xor(keys.xor(h, a), b) == keys.xor(keys.xor(h, b), a)
  {
    XorTwice(keys, h, a, b);
    XorTwice(keys, h, b, a);
    BitsSwap(h.bits, a.bits, b.bits);
  }

  lemma XorCancels(keys: Keys, h: Hash, a: Hash)
    requires Xors(keys)
    ensures keys.xor(keys.xor(h, a), a) == h
  {
    XorIs(keys, h, a);
    XorIs(keys, keys.xor(h, a), a);
  }

  lemma XorZero(keys: Keys, h: Hash)
    requires Xors(keys)
    ensures keys.xor(h, ZERO) == h
  {
    XorIs(keys, h, ZERO);
  }

  function PieceKey(keys: Keys, piece: Cell, pos: int): Hash {
    var k := (piece / 10, piece % 10, pos);
    if k in keys.pieces then keys.pieces[k] else ZERO
  }

  /** What a cell contributes to the hash. */
  function CellKey(keys: Keys, piece: Cell, pos: int): Hash {
    if piece >= 0 then PieceKey(keys, piece, pos) else ZERO
  }

  function PosOf(col: int, row: int): int {
    row * COLS + col
  }

  function AtPos(g: Grid, pos: int): Cell {
    At(g, pos % COLS, pos / COLS)
  }

  lemma PosParts(col: int, row: int)
    requires OnBoard(col, row)
    ensures PosOf(col, row) % COLS == col && PosOf(col, row) / COLS == row && 0 <= PosOf(col, row) < ROWS * COLS
  {
  }

  /** The keys of the first n cells in reading order, combined. */
  function CellsHash(keys: Keys, g: Grid, n: nat): Hash
    decreases n, g
  {
    if n == 0 then ZERO else keys.xor(CellsHash(keys, g, n - 1), CellKey(keys, AtPos(g, n - 1), n - 1))
  }

  function SideKey(keys: Keys, turn: Color): Hash {
    if turn == Black then keys.side else ZERO
  }

  function PositionHash(keys: Keys, g: Grid, turn: Color): Hash {
    keys.xor(CellsHash(keys, g, ROWS * COLS), SideKey(keys, turn))
  }

  lemma OneCellMore(keys: Keys, g: Grid, col: int, row: int)
    requires OnBoard(col, row) && Xors(keys)
    ensures CellsHash(keys, g, PosOf(col + 1, row)) ==
      if At(g, col, row) >= 0 then keys.xor(CellsHash(keys, g, PosOf(col, row)),
                                            PieceKey(keys, At(g, col, row), PosOf(col, row)))
      else CellsHash(keys, g, PosOf(col, row))
  {
    PosParts(col, row);
    XorZero(keys, CellsHash(keys, g, PosOf(col, row)));
  }

  /** The hash computed over the whole board. */
  method ComputeHash(keys: Keys, board: Board, turn: Color) returns (h: Hash)
    requires Xors(keys)
    ensures h == PositionHash(keys, board.cells, turn)
  {
    h := ZERO;
    for row := 0 to ROWS
      invariant h == CellsHash(keys, board.cells, PosOf(0, row))
    {
      h := AddRow(keys, board, row, h);
    }
    XorZero(keys, h);
    if turn == Black {
      h := keys.xor(h, keys.side);
    }
  }

  method AddRow(keys: Keys, board: Board, row: int, before: Hash) returns (h: Hash)
    requires Xors(keys) && 0 <= row < ROWS && before == CellsHash(keys, board.cells, PosOf(0, row))
    ensures h == CellsHash(keys, board.cells, PosOf(0, row + 1))
  {
    h := before;
    for col := 0 to COLS
      invariant h == CellsHash(keys, board.cells, PosOf(col, row))
    {
      var piece := board.Get(col, row);
      OneCellMore(keys, board.cells, col, row);
      if piece >= 0 {
        var pos := row * COLS + col;
        h := keys.xor(h, PieceKey(keys, piece, pos));
      }
    }
  }

  /** The hash updated for one move, without looking at the board. */
  function UpdateHash(keys: Keys, oldHash: Hash, piece: Cell, m: Move, captured: Cell): Hash {
    var fromPos, toPos := PosOf(m.fromCol, m.fromRow), PosOf(m.toCol, m.toRow);
    var moved := keys.xor(keys.xor(oldHash, PieceKey(keys, piece, fromPos)), PieceKey(keys, piece, toPos));
    var taken := if captured >= 0 then keys.xor(moved, PieceKey(keys, captured, toPos)) else moved;
    keys.xor(taken, keys.side)
  }

  lemma CellPasses(keys: Keys, h: Hash, a: Hash, b: Hash, k: Hash)
    requires Xors(keys)
    ensures keys.xor(keys.xor(keys.xor(h, a), b), k) == keys.xor(keys.xor(keys.xor(h, k), a), b)
  {
    XorSwaps(keys, keys.xor(h, a), b, k);
    XorSwaps(keys, h, a, k);
  }

  lemma PutPos(g: Grid, col: int, row: int, p: Cell, n: nat)
    requires OnBoard(col, row)
    ensures AtPos(Put(g, col, row, p), n) == if n == PosOf(col, row) then p else AtPos(g, n)
    ensures AtPos(g, PosOf(col, row)) == At(g, col, row)
  {
    PosParts(col, row);
    assert PosOf(n % COLS, n / COLS) == n;
  }

  /** Changing one cell trades the key of what was there for the key of what is. */
  lemma {:induction false} PutChangesHash(keys: Keys, g: Grid, col: int, row: int, p: Cell, n: nat)
    requires OnBoard(col, row) && Xors(keys)
    ensures var pos := PosOf(col, row);
      CellsHash(keys, Put(g, col, row, p), n) ==
      if pos < n then keys.xor(keys.xor(CellsHash(keys, g, n), CellKey(keys, At(g, col, row), pos)),
                               CellKey(keys, p, pos))
      else CellsHash(keys, g, n)
  {
    if n > 0 {
      PutChangesHash(keys, g, col, row, p, n - 1);
      PutPos(g, col, row, p, n - 1);
      var pos, h := PosOf(col, row), CellsHash(keys, g, n - 1);
      var was, becomes := CellKey(keys, At(g, col, row), pos), CellKey(keys, p, pos);
      if n - 1 == pos {
        XorCancels(keys, h, was);
      } else if pos < n - 1 {
        CellPasses(keys, h, was, becomes, CellKey(keys, AtPos(g, n - 1), n - 1));
      }
    }
  }

  /** The board's part of the hash after a move. */
  lemma MoveChangesCells(keys: Keys, g: Grid, m: Move)
    requires InBounds(m) && IsPiece(At(g, m.fromCol, m.fromRow)) && Xors(keys)
    ensures var fromPos, toPos := PosOf(m.fromCol, m.fromRow), PosOf(m.toCol, m.toRow);
      var fromKey, toKey := PieceKey(keys, At(g, m.fromCol, m.fromRow), fromPos),
        PieceKey(keys, At(g, m.fromCol, m.fromRow), toPos);
      CellsHash(keys, Apply(g, m), ROWS * COLS) ==
      keys.xor(keys.xor(keys.xor(CellsHash(keys, g, ROWS * COLS), CellKey(keys, At(g, m.toCol, m.toRow), toPos)),
                        toKey), fromKey)
  {
    var piece := At(g, m.fromCol, m.fromRow);
    var placed := Put(g, m.toCol, m.toRow, piece);
    PosParts(m.fromCol, m.fromRow);
    PosParts(m.toCol, m.toRow);
    PutChangesHash(keys, g, m.toCol, m.toRow, piece, ROWS * COLS);
    PutChangesHash(keys, placed, m.fromCol, m.fromRow, EMPTY, ROWS * COLS);
    XorZero(keys, keys.xor(CellsHash(keys, placed, ROWS * COLS), PieceKey(keys, piece, PosOf(m.fromCol, m.fromRow))));
  }

  /** The order of the exclusive ors does not matter, and two changes of side cancel. */
  lemma UpdateReorders(keys: Keys, h: Hash, turn: Color, fromKey: Hash, toKey: Hash, takenKey: Hash)
    requires Xors(keys)
    ensures keys.xor(keys.xor(keys.xor(keys.xor(keys.xor(h, SideKey(keys, turn)), fromKey), toKey), takenKey),
                     keys.side) ==
            keys.xor(keys.xor(keys.xor(keys.xor(h, takenKey), toKey), fromKey), SideKey(keys, Opponent(turn)))
  {
    var x := keys.xor;
    var s := SideKey(keys, turn);
    // the side key moves to the end
    XorSwaps(keys, h, s, fromKey);
    XorSwaps(keys, x(h, fromKey), s, toKey);
    XorSwaps(keys, x(x(h, fromKey), toKey), s, takenKey);
    // the move's keys are reversed
    XorSwaps(keys, h, fromKey, toKey);
    XorSwaps(keys, x(h, toKey), fromKey, takenKey);
    XorSwaps(keys, h, toKey, takenKey);
    SideSwitches(keys, x(x(x(h, fromKey), toKey), takenKey), turn);
  }

  lemma SideSwitches(keys: Keys, h: Hash, turn: Color)
    requires Xors(keys)
    ensures keys.xor(keys.xor(h, SideKey(keys, turn)), keys.side) == keys.xor(h, SideKey(keys, Opponent(turn)))
  {
    XorZero(keys, h);
    XorCancels(keys, h, keys.side);
  }

  /** The updated hash of a position is the hash of the position after the move, for any move on
      the board that starts from a piece. */
  lemma UpdateIsHash(keys: Keys, g: Grid, turn: Color, m: Move)
    requires InBounds(m) && IsPiece(At(g, m.fromCol, m.fromRow)) && Xors(keys)
    ensures UpdateHash(keys, PositionHash(keys, g, turn), At(g, m.fromCol, m.fromRow), m, At(g, m.toCol, m.toRow))
            == PositionHash(keys, Apply(g, m), Opponent(turn))
  {
    var piece, taken := At(g, m.fromCol, m.fromRow), At(g, m.toCol, m.toRow);
    var fromPos, toPos := PosOf(m.fromCol, m.fromRow), PosOf(m.toCol, m.toRow);
    MoveChangesCells(keys, g, m);
    UpdateReorders(keys, CellsHash(keys, g, ROWS * COLS), turn, PieceKey(keys, piece, fromPos),
                   PieceKey(keys, piece, toPos), CellKey(keys, taken, toPos));
    XorZero(keys, keys.xor(keys.xor(PositionHash(keys, g, turn), PieceKey(keys, piece, fromPos)),
                           PieceKey(keys, piece, toPos)));
  }

  // ----- By the table -----

  lemma KeyInTable(keys: Keys, p: Cell, color: int, kind: int, pos: int)
    requires 0 <= color <= 1 && 0 <= kind <= 6 && p == 10 * color + kind && (color, kind, pos) in keys.pieces
    ensures PieceKey(keys, p, pos) == keys.pieces[(color, kind, pos)]
  {
  }

  lemma KeyAdded(keys: Keys, h: Hash, k: Hash, side: Hash)
    requires Xors(keys)
    ensures keys.xor(keys.xor(keys.xor(h, ZERO), k), side).bits == keys.xor(h, side).bits ^ k.bits
  {
    XorZero(keys, h);
    XorSwaps(keys, h, k, side);
    XorIs(keys, keys.xor(h, side), k);
  }

  /** Putting a piece on an empty cell changes the hash by the table's entry for its colour, red 0 and
      black 1, its kind, and the cell counted in reading order. */
  lemma PieceInTable(keys: Keys, g: Grid, c: int, r: int, color: int, kind: int, p: Cell, turn: Color)
    requires Xors(keys) && OnBoard(c, r) && At(g, c, r) == EMPTY
    requires 0 <= color <= 1 && 0 <= kind <= 6 && p == 10 * color + kind && (color, kind, 9 * r + c) in keys.pieces
    ensures PositionHash(keys, Put(g, c, r, p), turn).bits
      == PositionHash(keys, g, turn).bits ^ keys.pieces[(color, kind, 9 * r + c)].bits
  {
    PosParts(c, r);
    KeyInTable(keys, p, color, kind, PosOf(c, r));
    PutChangesHash(keys, g, c, r, p, ROWS * COLS);
    KeyAdded(keys, CellsHash(keys, g, ROWS * COLS), PieceKey(keys, p, PosOf(c, r)), SideKey(keys, turn));
  }

  /** The side to move changes it by the key of black to move, and the empty board has none. */
  lemma SideInTable(keys: Keys, g: Grid)
    requires Xors(keys)
    ensures PositionHash(keys, g, Black).bits == PositionHash(keys, g, Red).bits ^ keys.side.bits
    ensures PositionHash(keys, Blank(), Red).bits == 0
  {
    XorZero(keys, CellsHash(keys, g, ROWS * COLS));
    XorIs(keys, CellsHash(keys, g, ROWS * COLS), keys.side);
    BlankHash(keys, ROWS * COLS);
    XorZero(keys, ZERO);
  }

  lemma {:induction false} BlankHash(keys: Keys, n: nat)
    requires Xors(keys)
    ensures CellsHash(keys, Blank(), n) == ZERO
  {
    if n > 0 {
      BlankHash(keys, n - 1);
      XorZero(keys, ZERO);
    }
  }
}
