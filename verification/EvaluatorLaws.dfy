/** What the evaluation says of positions, in numbers: lone pieces, boards turned round, and quiet
    moves. */
module EvaluatorLaws {
  import opened Types
  import opened BoardModel
  import opened Evaluator

  // ----- Sums over the board -----

  /** What a cell adds to a side's worth. */
  function CellWorth(t: Tables, p: Cell, c: int, r: int, color: Color, phase: real): real {
    if Owns(color, p) then Worth(t, p, c, r, phase) else 0.0
  }

  function One(p: Cell): nat {
    if IsPiece(p) && Kind(p) != KING then 1 else 0
  }

  /** Changing one cell of a row trades what the cell adds. */
  lemma {:induction false} RowWorthChanges(t: Tables, a: seq<Cell>, c: nat, p: Cell, r: int, color: Color,
                                           phase: real, n: nat)
    requires c < |a| && n <= |a|
    ensures RowWorth(t, a[c := p], r, color, phase, n) == RowWorth(t, a, r, color, phase, n)
      + if c < n then CellWorth(t, p, c, r, color, phase) - CellWorth(t, a[c], c, r, color, phase) else 0.0
  {
    if n > 0 {
      RowWorthChanges(t, a, c, p, r, color, phase, n - 1);
    }
  }

  lemma {:induction false} SideWorthChanges(t: Tables, g: Grid, c: int, r: int, p: Cell, color: Color, phase: real,
                                            n: nat)
    requires OnBoard(c, r) && n <= ROWS
    ensures SideWorth(t, Put(g, c, r, p), color, phase, n) == SideWorth(t, g, color, phase, n)
      + if r < n then CellWorth(t, p, c, r, color, phase) - CellWorth(t, At(g, c, r), c, r, color, phase) else 0.0
  {
    if n > 0 {
      SideWorthChanges(t, g, c, r, p, color, phase, n - 1);
      var changed: seq<Cell> := g[r][c := p];
      assert Put(g, c, r, p)[n - 1] == if n - 1 == r then changed else g[n - 1];
      if n - 1 == r {
        RowWorthChanges(t, g[r], c, p, r, color, phase, COLS);
      }
    }
  }

  lemma {:induction false} RowCountChanges(a: seq<Cell>, c: nat, p: Cell, n: nat)
    requires c < |a| && n <= |a|
    ensures RowNonKings(a[c := p], n) + (if c < n then One(a[c]) else 0) == RowNonKings(a, n)
      + (if c < n then One(p) else 0)
  {
    if n > 0 {
      RowCountChanges(a, c, p, n - 1);
    }
  }

  lemma {:induction false} CountChanges(g: Grid, c: int, r: int, p: Cell, n: nat)
    requires OnBoard(c, r) && n <= ROWS
    ensures NonKings(Put(g, c, r, p), n) + (if r < n then One(At(g, c, r)) else 0)
      == NonKings(g, n) + (if r < n then One(p) else 0)
  {
    if n > 0 {
      CountChanges(g, c, r, p, n - 1);
      var changed: seq<Cell> := g[r][c := p];
      assert Put(g, c, r, p)[n - 1] == if n - 1 == r then changed else g[n - 1];
      if n - 1 == r {
        RowCountChanges(g[r], c, p, COLS);
      }
    }
  }

  // ----- A piece in numbers -----

  /** The entry of a piece's own table, read from its own side of the board. */
  function EntryFor(t: Tables, p: Cell, c: int, r: int): int
    requires IsPiece(p)
  {
    t.entry(Kind(p), if p < 10 then r else 9 - r, c)
  }

  /** What a piece with a table entry of e is worth with n pieces other than kings on the board. */
  function ValueWith(kind: int, e: real, n: nat): real {
    var left := if n >= 30 then 1.0 else n as real / 30.0;
    if kind == 0 then 10000.0 + e
    else if kind == 1 then 200.0 + e * (1.0 + 0.2 * (1.0 - left))
    else if kind == 2 then 200.0 + e * (1.0 + 0.3 * (1.0 - left))
    else if kind == 3 then 400.0 * (1.0 + 0.5 * (1.0 - left)) + e * (1.0 + 0.4 * (1.0 - left))
    else if kind == 4 then 900.0 + e * (1.0 + 0.3 * left)
    else if kind == 5 then 450.0 * (1.0 + 0.5 * left) + e * (1.0 + 0.3 * left)
    else 100.0 + e * (1.0 + 0.3 * (1.0 - left))
  }

  lemma PhaseIs(n: nat, left: real)
    requires left == if n >= 30 then 1.0 else n as real / 30.0
    ensures EndPhase(n) == 1.0 - left
  {
  }

  lemma WorthInNumbers(t: Tables, p: Cell, c: int, r: int, n: nat)
    requires IsPiece(p)
    ensures Worth(t, p, c, r, EndPhase(n)) == ValueWith(Kind(p), EntryFor(t, p, c, r) as real, n)
  {
    var left := if n >= 30 then 1.0 else n as real / 30.0;
    PhaseIs(n, left);
    assert 1.0 - (1.0 - left) == left;
  }

  // ----- A lone piece -----

  lemma {:induction false} BlankRow(t: Tables, r: int, color: Color, phase: real, n: nat)
    requires 0 <= r < ROWS && n <= COLS
    ensures RowWorth(t, Blank()[r], r, color, phase, n) == 0.0 && RowNonKings(Blank()[r], n) == 0
  {
    if n > 0 {
      BlankRow(t, r, color, phase, n - 1);
    }
  }

  lemma {:induction false} BlankIsWorthless(t: Tables, color: Color, phase: real, n: nat)
    requires n <= ROWS
    ensures SideWorth(t, Blank(), color, phase, n) == 0.0 && NonKings(Blank(), n) == 0
  {
    if n > 0 {
      BlankIsWorthless(t, color, phase, n - 1);
      BlankRow(t, n - 1, color, phase, COLS);
    }
  }

  /** The board with one piece on it. */
  ghost predicate Alone(g: Grid, p: Cell, c: int, r: int) {
    OnBoard(c, r) && IsPiece(p) && forall x, y :: OnBoard(x, y) ==> At(g, x, y) == if (x, y) == (c, r) then p else EMPTY
  }

  lemma AlonePut(g: Grid, p: Cell, c: int, r: int)
    requires Alone(g, p, c, r)
    ensures g == Put(Blank(), c, r, p)
  {
    SameCells(g, Put(Blank(), c, r, p));
  }

  /** A board with one piece is worth that piece to its owner and the opposite to the other side. */
  lemma LonePiece(t: Tables, g: Grid, p: Cell, c: int, r: int)
    requires Alone(g, p, c, r)
    ensures var value := ValueWith(Kind(p), EntryFor(t, p, c, r) as real, One(p));
      var (mover, other) := if p < 10 then (Red, Black) else (Black, Red);
      Evaluate(t, g, mover) == value && Evaluate(t, g, other) == -value
  {
    var phase := EndPhase(One(p));
    AlonePut(g, p, c, r);
    CountChanges(Blank(), c, r, p, ROWS);
    BlankIsWorthless(t, Red, phase, ROWS);
    BlankIsWorthless(t, Black, phase, ROWS);
    SideWorthChanges(t, Blank(), c, r, p, Red, phase, ROWS);
    SideWorthChanges(t, Blank(), c, r, p, Black, phase, ROWS);
    EvaluateIs(t, g, Red, phase);
    EvaluateIs(t, g, Black, phase);
    WorthInNumbers(t, p, c, r, One(p));
  }

  lemma ValueIsGood(kind: int, e: int, n: nat)
    requires 0 <= kind <= 6 && Entries(kind).0 <= e <= Entries(kind).1 && n <= 1
    ensures ValueWith(kind, e as real, n) > 0.0
  {
  }

  lemma LonePieceIsGood(t: Tables, g: Grid, p: Cell, c: int, r: int)
    requires Alone(g, p, c, r) && InRange(t)
    ensures if p < 10 then Evaluate(t, g, Red) > 0.0 && Evaluate(t, g, Black) < 0.0
            else Evaluate(t, g, Black) > 0.0 && Evaluate(t, g, Red) < 0.0
  {
    var row, e := if p < 10 then r else 9 - r, EntryFor(t, p, c, r);
    LonePiece(t, g, p, c, r);
    assert Entries(Kind(p)).0 <= t.entry(Kind(p), row, c) <= Entries(Kind(p)).1;
    ValueIsGood(Kind(p), e, One(p));
  }

  // ----- The board turned round -----

  function Recoloured(p: Cell): Cell {
    if p < 0 then EMPTY else if p < 10 then p + 10 else p - 10
  }

  function RecolouredRow(row: seq<Cell>): (turned: seq<Cell>)
    ensures |turned| == |row|
  {
    seq(|row|, c requires 0 <= c < |row| => Recoloured(row[c]))
  }

  /** The rows in reverse order, with the colours swapped. */
  function Turned(g: Grid): Grid {
    seq(ROWS, r requires 0 <= r < ROWS => RecolouredRow(g[ROWS - 1 - r]))
  }

  lemma TurnedAt(g: Grid, r: int, c: int)
    requires OnBoard(c, r)
    ensures Turned(g)[r][c] == Recoloured(g[9 - r][c])
  {
    assert Turned(g)[r] == RecolouredRow(g[9 - r]);
  }

  lemma TurnedCell(t: Tables, p: Cell, c: int, r: int, color: Color, phase: real)
    ensures One(Recoloured(p)) == One(p)
    ensures CellWorth(t, Recoloured(p), c, ROWS - 1 - r, Opponent(color), phase) == CellWorth(t, p, c, r, color, phase)
  {
  }

  lemma {:induction false} TurnedRow(t: Tables, g: Grid, r: int, color: Color, phase: real, n: nat)
    requires 0 <= r < ROWS && n <= COLS
    ensures RowWorth(t, Turned(g)[r], r, Opponent(color), phase, n) == RowWorth(t, g[9 - r], 9 - r, color, phase, n)
    ensures RowNonKings(Turned(g)[r], n) == RowNonKings(g[9 - r], n)
  {
    if n > 0 {
      TurnedRow(t, g, r, color, phase, n - 1);
      TurnedAt(g, r, n - 1);
      TurnedCell(t, g[9 - r][n - 1], n - 1, 9 - r, color, phase);
    }
  }

  /** The first rows of the one board are the last of the other. */
  lemma {:induction false} TurnedSide(t: Tables, g: Grid, color: Color, phase: real, n: nat)
    requires n <= ROWS
    ensures SideWorth(t, Turned(g), Opponent(color), phase, n) + SideWorth(t, g, color, phase, ROWS - n)
      == SideWorth(t, g, color, phase, ROWS)
    ensures NonKings(Turned(g), n) + NonKings(g, ROWS - n) == NonKings(g, ROWS)
  {
    if n > 0 {
      TurnedSide(t, g, color, phase, n - 1);
      TurnedRow(t, g, n - 1, color, phase, COLS);
    }
  }

  /** Turning the board round, rows reversed and colours swapped, does not change what it is worth to
      the side to move. */
  lemma TurnedIsWorthTheSame(t: Tables, g: Grid, turn: Color)
    ensures Evaluate(t, Turned(g), Opponent(turn)) == Evaluate(t, g, turn)
  {
    var phase := EndPhase(NonKings(g, ROWS));
    TurnedSide(t, g, Red, phase, ROWS);
    TurnedSide(t, g, Black, phase, ROWS);
  }

  lemma OpeningCellTurned(c: int, r: int)
    requires OnBoard(c, r)
    ensures Recoloured(StartCell(c, 9 - r)) == StartCell(c, r)
  {
  }

  lemma OpeningTurned()
    ensures Turned(InitialGrid()) == InitialGrid()
  {
    forall c, r | OnBoard(c, r)
      ensures At(Turned(InitialGrid()), c, r) == At(InitialGrid(), c, r)
    {
      OpeningCellTurned(c, r);
      TurnedAt(InitialGrid(), r, c);
      assert InitialGrid()[9 - r][c] == StartCell(c, 9 - r);
    }
    SameCells(Turned(InitialGrid()), InitialGrid());
  }

  lemma OtherSide(t: Tables, g: Grid)
    ensures Evaluate(t, g, Black) == -Evaluate(t, g, Red)
  {
  }

  /** So the opening is worth nothing to either side. */
  lemma OpeningIsEven(t: Tables, turn: Color)
    ensures Evaluate(t, InitialGrid(), turn) == 0.0
  {
    OpeningTurned();
    TurnedIsWorthTheSame(t, InitialGrid(), Red);
    OtherSide(t, InitialGrid());
  }

  // ----- Quiet moves and captures -----

  /** How much a table entry counts with n pieces other than kings on the board. */
  function EntryWeight(kind: int, n: nat): real {
    var gone := if n >= 30 then 0.0 else (30 - n) as real / 30.0;
    if kind == 0 then 1.0
    else if kind == 1 then 1.0 + 0.2 * gone
    else if kind == 2 || kind == 6 then 1.0 + 0.3 * gone
    else if kind == 3 then 1.0 + 0.4 * gone
    else 1.0 + 0.3 * (1.0 - gone)
  }

  lemma WeightIsFactor(kind: int, n: nat)
    requires 0 <= kind <= 6
    ensures EntryWeight(kind, n) == PhaseFactor(kind, EndPhase(n))
  {
  }

  lemma MovedSide(t: Tables, g: Grid, m: Move, color: Color, phase: real)
    requires InBounds(m) && (m.fromCol, m.fromRow) != (m.toCol, m.toRow)
    ensures var p, q := At(g, m.fromCol, m.fromRow), At(g, m.toCol, m.toRow);
      SideWorth(t, Apply(g, m), color, phase, ROWS) == SideWorth(t, g, color, phase, ROWS)
        - CellWorth(t, p, m.fromCol, m.fromRow, color, phase) + CellWorth(t, p, m.toCol, m.toRow, color, phase)
        - CellWorth(t, q, m.toCol, m.toRow, color, phase)
  {
    var p := At(g, m.fromCol, m.fromRow);
    var placed := Put(g, m.toCol, m.toRow, p);
    SideWorthChanges(t, g, m.toCol, m.toRow, p, color, phase, ROWS);
    SideWorthChanges(t, placed, m.fromCol, m.fromRow, EMPTY, color, phase, ROWS);
  }

  lemma MovedCount(g: Grid, m: Move)
    requires InBounds(m) && (m.fromCol, m.fromRow) != (m.toCol, m.toRow)
    ensures NonKings(Apply(g, m), ROWS) + One(At(g, m.toCol, m.toRow)) == NonKings(g, ROWS)
  {
    var p := At(g, m.fromCol, m.fromRow);
    CountChanges(g, m.toCol, m.toRow, p, ROWS);
    CountChanges(Put(g, m.toCol, m.toRow, p), m.fromCol, m.fromRow, EMPTY, ROWS);
  }

  /** What moving a piece adds to its side, as a difference of entries with a given weight. */
  lemma EntryCounts(t: Tables, p: Cell, m: Move, phase: real, weight: real)
    requires IsPiece(p) && weight == PhaseFactor(Kind(p), phase)
    ensures Worth(t, p, m.toCol, m.toRow, phase) - Worth(t, p, m.fromCol, m.fromRow, phase)
      == (EntryFor(t, p, m.toCol, m.toRow) - EntryFor(t, p, m.fromCol, m.fromRow)) as real * weight
  {
    var a, b := EntryFor(t, p, m.toCol, m.toRow), EntryFor(t, p, m.fromCol, m.fromRow);
    assert a as real * weight - b as real * weight == (a - b) as real * weight;
  }

  lemma MovedMover(t: Tables, g: Grid, m: Move, p: Cell, mover: Color, phase: real, gain: real)
    requires InBounds(m) && (m.fromCol, m.fromRow) != (m.toCol, m.toRow)
    requires Owns(mover, p) && p == At(g, m.fromCol, m.fromRow) && At(g, m.toCol, m.toRow) == EMPTY
    requires gain == Worth(t, p, m.toCol, m.toRow, phase) - Worth(t, p, m.fromCol, m.fromRow, phase)
    ensures SideWorth(t, Apply(g, m), mover, phase, ROWS) == SideWorth(t, g, mover, phase, ROWS) + gain
    ensures SideWorth(t, Apply(g, m), Opponent(mover), phase, ROWS) == SideWorth(t, g, Opponent(mover), phase, ROWS)
  {
    MovedSide(t, g, m, mover, phase);
    MovedSide(t, g, m, Opponent(mover), phase);
  }

  lemma EvaluateIs(t: Tables, g: Grid, turn: Color, phase: real)
    requires phase == EndPhase(NonKings(g, ROWS))
    ensures Evaluate(t, g, turn) == SideWorth(t, g, turn, phase, ROWS) - SideWorth(t, g, Opponent(turn), phase, ROWS)
  {
  }

  lemma MovedEvaluates(t: Tables, g: Grid, m: Move, p: Cell, mover: Color, phase: real, gain: real)
    requires InBounds(m) && (m.fromCol, m.fromRow) != (m.toCol, m.toRow) && phase == EndPhase(NonKings(g, ROWS))
    requires Owns(mover, p) && p == At(g, m.fromCol, m.fromRow) && At(g, m.toCol, m.toRow) == EMPTY
    requires gain == Worth(t, p, m.toCol, m.toRow, phase) - Worth(t, p, m.fromCol, m.fromRow, phase)
    ensures Evaluate(t, Apply(g, m), mover) == Evaluate(t, g, mover) + gain
  {
    MovedCount(g, m);
    MovedMover(t, g, m, p, mover, phase, gain);
    EvaluateIs(t, g, mover, phase);
    EvaluateIs(t, Apply(g, m), mover, phase);
  }

  lemma QuietMoveWeighted(t: Tables, g: Grid, m: Move, mover: Color, p: Cell, phase: real, weight: real)
    requires InBounds(m) && (m.fromCol, m.fromRow) != (m.toCol, m.toRow)
    requires p == At(g, m.fromCol, m.fromRow) && Owns(mover, p) && At(g, m.toCol, m.toRow) == EMPTY
    requires phase == EndPhase(NonKings(g, ROWS)) && weight == PhaseFactor(Kind(p), phase)
    ensures Evaluate(t, Apply(g, m), mover) == Evaluate(t, g, mover)
      + (EntryFor(t, p, m.toCol, m.toRow) - EntryFor(t, p, m.fromCol, m.fromRow)) as real * weight
  {
    EntryCounts(t, p, m, phase, weight);
    MovedEvaluates(t, g, m, p, mover, phase,
                   Worth(t, p, m.toCol, m.toRow, phase) - Worth(t, p, m.fromCol, m.fromRow, phase));
  }

  /** A move to an empty cell changes what the position is worth to the side that moves by the
      difference of the piece's two table entries, weighted by how many pieces are left. */
  lemma QuietMoveGains(t: Tables, g: Grid, m: Move, mover: Color, p: Cell, weight: real)
    requires InBounds(m) && (m.fromCol, m.fromRow) != (m.toCol, m.toRow)
    requires p == At(g, m.fromCol, m.fromRow) && Owns(mover, p) && At(g, m.toCol, m.toRow) == EMPTY
    requires weight == EntryWeight(Kind(p), NonKings(g, ROWS))
    ensures Evaluate(t, Apply(g, m), mover) == Evaluate(t, g, mover)
      + (EntryFor(t, p, m.toCol, m.toRow) - EntryFor(t, p, m.fromCol, m.fromRow)) as real * weight
  {
    WeightIsFactor(Kind(p), NonKings(g, ROWS));
    QuietMoveWeighted(t, g, m, mover, p, EndPhase(NonKings(g, ROWS)), weight);
  }

  // ----- One piece in place of another -----

  /** What a piece counts for red. */
  function ForRed(t: Tables, p: Cell, c: int, r: int, n: nat): real
    requires IsPiece(p)
  {
    if p < 10 then ValueWith(Kind(p), EntryFor(t, p, c, r) as real, n)
    else -ValueWith(Kind(p), EntryFor(t, p, c, r) as real, n)
  }

  /** A piece in place of another, neither of them a king, trades their values. */
  lemma PieceTraded(t: Tables, g: Grid, c: int, r: int, p: Cell, q: Cell, n: nat)
    requires OnBoard(c, r) && p == At(g, c, r) && One(p) == 1 && One(q) == 1 && n == NonKings(g, ROWS)
    ensures Evaluate(t, Put(g, c, r, q), Red) == Evaluate(t, g, Red) - ForRed(t, p, c, r, n) + ForRed(t, q, c, r, n)
  {
    var phase := EndPhase(n);
    CountChanges(g, c, r, q, ROWS);
    SideWorthChanges(t, g, c, r, q, Red, phase, ROWS);
    SideWorthChanges(t, g, c, r, q, Black, phase, ROWS);
    EvaluateIs(t, g, Red, phase);
    EvaluateIs(t, Put(g, c, r, q), Red, phase);
    SignedWorth(t, p, c, r, n);
    SignedWorth(t, q, c, r, n);
  }

  lemma SignedWorth(t: Tables, p: Cell, c: int, r: int, n: nat)
    requires IsPiece(p)
    ensures CellWorth(t, p, c, r, Red, EndPhase(n)) - CellWorth(t, p, c, r, Black, EndPhase(n)) == ForRed(t, p, c, r, n)
  {
    WorthInNumbers(t, p, c, r, n);
  }
}
