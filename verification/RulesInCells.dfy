/** The piece rules once more, for each piece by the cells it goes to and the cells in its way, in
    columns 0 to 8 and rows 0 to 9, red's home rank being row 9. */
module RulesInCells {
  import opened Types
  import opened MoveRules
  import opened GeneratorSpec

  /** A piece code on the cell a move starts from, with a target on the board that is not its own. */
  predicate Moves(g: Grid, m: Move, red: int, color: Color) {
    && 0 <= m.fromCol <= 8 && 0 <= m.fromRow <= 9 && 0 <= m.toCol <= 8 && 0 <= m.toRow <= 9
    && (if color == Red then g[m.fromRow][m.fromCol] == red && !(0 <= g[m.toRow][m.toCol] <= 6)
        else g[m.fromRow][m.fromCol] == red + 10 && g[m.toRow][m.toCol] < 10)
  }

  /** One step up, down or sideways inside the palace: columns 3 to 5, rows 7 to 9 or 0 to 2. */
  lemma KingGoes(g: Grid, m: Move, color: Color)
    requires Moves(g, m, 0, color)
    ensures var (c, r, x, y) := (m.fromCol, m.fromRow, m.toCol, m.toRow);
      Reaches(g, color, m) <==>
        && 3 <= x <= 5 && (if color == Red then y >= 7 else y <= 2)
        && ((x, y) == (c + 1, r) || (x, y) == (c - 1, r) || (x, y) == (c, r + 1) || (x, y) == (c, r - 1))
  {
  }

  /** One diagonal step inside the palace. */
  lemma AdvisorGoes(g: Grid, m: Move, color: Color)
    requires Moves(g, m, 1, color)
    ensures var (c, r, x, y) := (m.fromCol, m.fromRow, m.toCol, m.toRow);
      Reaches(g, color, m) <==>
        && 3 <= x <= 5 && (if color == Red then y >= 7 else y <= 2)
        && ((x, y) == (c + 1, r + 1) || (x, y) == (c + 1, r - 1) || (x, y) == (c - 1, r + 1)
            || (x, y) == (c - 1, r - 1))
  {
  }

  /** Two diagonal steps with the cell between empty; red down to row 4, black up to row 3. */
  lemma BishopGoes(g: Grid, m: Move, color: Color)
    requires Moves(g, m, 2, color)
    ensures var (c, r, x, y) := (m.fromCol, m.fromRow, m.toCol, m.toRow);
      Reaches(g, color, m) <==>
        && (if color == Red then y >= 4 else y <= 3)
        && (|| ((x, y) == (c + 2, r + 2) && At(g, c + 1, r + 1) == -1)
            || ((x, y) == (c + 2, r - 2) && At(g, c + 1, r - 1) == -1)
            || ((x, y) == (c - 2, r + 2) && At(g, c - 1, r + 1) == -1)
            || ((x, y) == (c - 2, r - 2) && At(g, c - 1, r - 1) == -1))
  {
  }

  /** Two steps to the side and one up or down, with the first cell on the longer way empty. */
  predicate WideJump(g: Grid, c: int, r: int, x: int, y: int) {
    || ((x, y) == (c + 2, r + 1) && At(g, c + 1, r) == -1) || ((x, y) == (c + 2, r - 1) && At(g, c + 1, r) == -1)
    || ((x, y) == (c - 2, r + 1) && At(g, c - 1, r) == -1) || ((x, y) == (c - 2, r - 1) && At(g, c - 1, r) == -1)
  }

  /** Two steps up or down and one to the side, likewise. */
  predicate TallJump(g: Grid, c: int, r: int, x: int, y: int) {
    || ((x, y) == (c + 1, r + 2) && At(g, c, r + 1) == -1) || ((x, y) == (c - 1, r + 2) && At(g, c, r + 1) == -1)
    || ((x, y) == (c + 1, r - 2) && At(g, c, r - 1) == -1) || ((x, y) == (c - 1, r - 2) && At(g, c, r - 1) == -1)
  }

  lemma JumpShape(g: Grid, m: Move)
    requires OnBoard(m.fromCol, m.fromRow) && OnBoard(m.toCol, m.toRow)
    ensures var (c, r, x, y) := (m.fromCol, m.fromRow, m.toCol, m.toRow);
      KnightShape(g, m) <==> WideJump(g, c, r, x, y) || TallJump(g, c, r, x, y)
  {
  }

  lemma KnightGoes(g: Grid, m: Move, color: Color)
    requires Moves(g, m, 3, color)
    ensures var (c, r, x, y) := (m.fromCol, m.fromRow, m.toCol, m.toRow);
      Reaches(g, color, m) <==> WideJump(g, c, r, x, y) || TallJump(g, c, r, x, y)
  {
    JumpShape(g, m);
  }

  /** One step towards the other side, red up the board and black down; one step sideways too, red
      from row 4 up and black from row 5 down. */
  lemma PawnGoes(g: Grid, m: Move, color: Color)
    requires Moves(g, m, 6, color)
    ensures var (c, r, x, y) := (m.fromCol, m.fromRow, m.toCol, m.toRow);
      Reaches(g, color, m) <==>
        if color == Red then (x, y) == (c, r - 1) || (r <= 4 && ((x, y) == (c - 1, r) || (x, y) == (c + 1, r)))
        else (x, y) == (c, r + 1) || (r >= 5 && ((x, y) == (c - 1, r) || (x, y) == (c + 1, r)))
  {
  }

  /** The i-th cell ahead of where a move starts. */
  function Ahead(m: Move, d: Dir, i: int): (int, int) {
    match d
    case Down => (m.fromCol, m.fromRow + i)
    case Up => (m.fromCol, m.fromRow - i)
    case Right => (m.fromCol + i, m.fromRow)
    case Left => (m.fromCol - i, m.fromRow)
  }

  predicate PieceAhead(g: Grid, m: Move, d: Dir, i: int) {
    At(g, Ahead(m, d, i).0, Ahead(m, d, i).1) >= 0
  }

  /** How many pieces stand on the first n cells ahead. */
  function PiecesAlong(g: Grid, m: Move, d: Dir, n: nat): nat {
    if n == 0 then 0 else PiecesAlong(g, m, d, n - 1) + if PieceAhead(g, m, d, n) then 1 else 0
  }

  /** The target lies behind the first n cells ahead. */
  predicate Along(m: Move, d: Dir, n: nat) {
    Ahead(m, d, n + 1) == (m.toCol, m.toRow)
  }

  ghost predicate OnlyAhead(g: Grid, m: Move, d: Dir, n: nat, k: int) {
    1 <= k <= n && PieceAhead(g, m, d, k) && forall i :: 1 <= i <= n && i != k ==> !PieceAhead(g, m, d, i)
  }

  lemma {:induction false} NoneAlong(g: Grid, m: Move, d: Dir, n: nat)
    ensures PiecesAlong(g, m, d, n) == 0 <==> forall i :: 1 <= i <= n ==> !PieceAhead(g, m, d, i)
  {
    if n > 0 {
      NoneAlong(g, m, d, n - 1);
    }
  }

  lemma OnlyAheadGrows(g: Grid, m: Move, d: Dir, n: nat, k: int)
    requires n > 0 && !PieceAhead(g, m, d, n)
    ensures OnlyAhead(g, m, d, n, k) <==> OnlyAhead(g, m, d, n - 1, k)
  {
  }

  lemma {:induction false} OneAlong(g: Grid, m: Move, d: Dir, n: nat)
    ensures PiecesAlong(g, m, d, n) == 1 <==> exists k :: OnlyAhead(g, m, d, n, k)
  {
    if n > 0 {
      OneAlong(g, m, d, n - 1);
      NoneAlong(g, m, d, n - 1);
      if PieceAhead(g, m, d, n) {
        if PiecesAlong(g, m, d, n) == 1 { assert OnlyAhead(g, m, d, n, n); }
        if k :| OnlyAhead(g, m, d, n, k) { assert k == n; }
      } else {
        var before := n - 1;
        if k :| OnlyAhead(g, m, d, before, k) { OnlyAheadGrows(g, m, d, n, k); }
        if k :| OnlyAhead(g, m, d, n, k) { OnlyAheadGrows(g, m, d, n, k); }
      }
    }
  }

  /** The cells between are the first n ahead. */
  lemma AheadIsBetween(m: Move, d: Dir, n: nat, x: int, y: int) returns (i: int)
    requires Along(m, d, n)
    ensures Between(m, x, y) <==> 1 <= i <= n && (x, y) == Ahead(m, d, i)
  {
    i := match d
      case Down => y - m.fromRow
      case Up => m.fromRow - y
      case Right => x - m.fromCol
      case Left => m.fromCol - x;
  }

  lemma AheadLies(m: Move, d: Dir, n: nat, i: int)
    requires Along(m, d, n) && 1 <= i <= n
    ensures Between(m, Ahead(m, d, i).0, Ahead(m, d, i).1)
  {
  }

  lemma ClearAlong(g: Grid, m: Move, d: Dir, n: nat)
    requires Along(m, d, n)
    ensures NothingBetween(g, m) <==> PiecesAlong(g, m, d, n) == 0
  {
    NoneAlong(g, m, d, n);
    if NothingBetween(g, m) {
      forall i | 1 <= i <= n { AheadLies(m, d, n, i); }
    }
    if forall i :: 1 <= i <= n ==> !PieceAhead(g, m, d, i) {
      forall x, y | Between(m, x, y)
        ensures !IsPiece(At(g, x, y))
      {
        var i := AheadIsBetween(m, d, n, x, y);
        assert !PieceAhead(g, m, d, i);
      }
    }
  }

  lemma ScreenAhead(g: Grid, m: Move, d: Dir, n: nat, x: int, y: int) returns (k: int)
    requires Along(m, d, n) && OnlyScreen(g, m, x, y)
    ensures OnlyAhead(g, m, d, n, k)
  {
    k := AheadIsBetween(m, d, n, x, y);
    forall i | 1 <= i <= n && i != k
      ensures !PieceAhead(g, m, d, i)
    {
      AheadLies(m, d, n, i);
      assert (Ahead(m, d, i).0, Ahead(m, d, i).1) != (x, y);
    }
  }

  lemma AheadScreens(g: Grid, m: Move, d: Dir, n: nat, k: int)
    requires Along(m, d, n) && OnlyAhead(g, m, d, n, k)
    ensures OnlyScreen(g, m, Ahead(m, d, k).0, Ahead(m, d, k).1)
  {
    AheadLies(m, d, n, k);
    forall x, y | Between(m, x, y) && (x, y) != (Ahead(m, d, k).0, Ahead(m, d, k).1)
      ensures !IsPiece(At(g, x, y))
    {
      var i := AheadIsBetween(m, d, n, x, y);
      assert !PieceAhead(g, m, d, i);
    }
  }

  lemma OneScreenAlong(g: Grid, m: Move, d: Dir, n: nat)
    requires Along(m, d, n)
    ensures OneBetween(g, m) <==> PiecesAlong(g, m, d, n) == 1
  {
    OneAlong(g, m, d, n);
    if x, y :| OnlyScreen(g, m, x, y) {
      var k := ScreenAhead(g, m, d, n, x, y);
    }
    if k :| OnlyAhead(g, m, d, n, k) {
      AheadScreens(g, m, d, n, k);
    }
  }

  lemma GoesByShape(g: Grid, m: Move, kind: int, color: Color)
    requires 0 <= kind <= 6 && Moves(g, m, kind, color)
    ensures Reaches(g, color, m) <==> Shape(g, m, color, kind)
  {
  }

  lemma AlongIsStraight(m: Move, d: Dir, n: nat)
    requires Along(m, d, n)
    ensures Straight(m)
  {
  }

  /** In a straight line, with no piece on the cells between. */
  lemma RookGoes(g: Grid, m: Move, color: Color, d: Dir, n: nat)
    requires Moves(g, m, 4, color) && Along(m, d, n)
    ensures Reaches(g, color, m) <==> PiecesAlong(g, m, d, n) == 0
  {
    GoesByShape(g, m, ROOK, color);
    AlongIsStraight(m, d, n);
    ClearAlong(g, m, d, n);
  }

  /** In a straight line, with no piece on the cells between to an empty cell and exactly one piece, of
      either colour, to capture. */
  lemma CannonGoes(g: Grid, m: Move, color: Color, d: Dir, n: nat)
    requires Moves(g, m, 5, color) && Along(m, d, n)
    ensures Reaches(g, color, m) <==>
      PiecesAlong(g, m, d, n) == if At(g, m.toCol, m.toRow) == -1 then 0 else 1
  {
    GoesByShape(g, m, CANNON, color);
    AlongIsStraight(m, d, n);
    ClearAlong(g, m, d, n);
    OneScreenAlong(g, m, d, n);
  }

  /** Neither goes anywhere else. */
  lemma StraightOnly(g: Grid, m: Move, color: Color)
    requires Moves(g, m, 4, color) || Moves(g, m, 5, color)
    ensures Reaches(g, color, m) ==> (m.fromCol == m.toCol) != (m.fromRow == m.toRow)
  {
  }

  /** And nothing else moves: the piece that starts is one's own, on the board, and does not end on
      one's own. */
  lemma OthersStay(g: Grid, m: Move, color: Color)
    ensures Reaches(g, color, m) ==> exists red :: 0 <= red <= 6 && Moves(g, m, red, color)
  {
    if Reaches(g, color, m) {
      assert Moves(g, m, At(g, m.fromCol, m.fromRow) % 10, color);
    }
  }

  /** An entry of the generated list names the piece that moves, what it takes, and whether it does. */
  lemma ListedEntry(g: Grid, color: Color, lm: LegalMove)
    requires lm in AllMoves(g, color)
    ensures lm.piece == At(g, lm.move.fromCol, lm.move.fromRow) && lm.captured == At(g, lm.move.toCol, lm.move.toRow)
    ensures lm.isCapture <==> At(g, lm.move.toCol, lm.move.toRow) != -1
  {
    AllMovesExact(g, color, lm);
  }
}
