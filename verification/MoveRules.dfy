/** How the pieces move, stated without any reference to how moves are generated, and what it
    means for a king to be exposed and for a move to be legal. */
module MoveRules {
  import opened Types

  predicate InPalace(col: int, row: int, color: Color) {
    3 <= col <= 5 && (if color == Red then 7 <= row <= 9 else 0 <= row <= 2)
  }

  const RIVER_ROW: int := 4

  function Abs(x: int): int {
    if x < 0 then -x else x
  }

  /** The move goes along one row or one column. */
  predicate Straight(m: Move) {
    (m.fromCol == m.toCol) != (m.fromRow == m.toRow)
  }

  /** (c, r) lies strictly between the ends of a straight move. */
  predicate Between(m: Move, c: int, r: int) {
    || (m.fromCol == m.toCol == c && (m.fromRow < r < m.toRow || m.toRow < r < m.fromRow))
    || (m.fromRow == m.toRow == r && (m.fromCol < c < m.toCol || m.toCol < c < m.fromCol))
  }

  ghost predicate NothingBetween(g: Grid, m: Move) {
    forall c, r :: Between(m, c, r) ==> !IsPiece(At(g, c, r))
  }

  /** The one piece between the ends of the move stands on (c, r). */
  ghost predicate OnlyScreen(g: Grid, m: Move, c: int, r: int) {
    && Between(m, c, r) && IsPiece(At(g, c, r))
    && forall c', r' :: Between(m, c', r') && (c', r') != (c, r) ==> !IsPiece(At(g, c', r'))
  }

  ghost predicate OneBetween(g: Grid, m: Move) {
    exists c, r :: OnlyScreen(g, m, c, r)
  }

  predicate KingShape(m: Move, color: Color) {
    InPalace(m.toCol, m.toRow, color) && Abs(m.toCol - m.fromCol) + Abs(m.toRow - m.fromRow) == 1
  }

  predicate AdvisorShape(m: Move, color: Color) {
    InPalace(m.toCol, m.toRow, color) && Abs(m.toCol - m.fromCol) == 1 && Abs(m.toRow - m.fromRow) == 1
  }

  /** Two steps diagonally on the own side with the eye free; red's side starts at row 4. */
  predicate BishopShape(g: Grid, m: Move, color: Color) {
    && Abs(m.toCol - m.fromCol) == 2 && Abs(m.toRow - m.fromRow) == 2
    && (if color == Red then m.toRow >= RIVER_ROW else m.toRow < RIVER_ROW)
    && !IsPiece(At(g, (m.fromCol + m.toCol) / 2, (m.fromRow + m.toRow) / 2))
  }

  /** Two along one axis and one along the other, with the leg on the long axis free. */
  predicate KnightShape(g: Grid, m: Move) {
    || (Abs(m.toCol - m.fromCol) == 1 && Abs(m.toRow - m.fromRow) == 2
        && !IsPiece(At(g, m.fromCol, (m.fromRow + m.toRow) / 2)))
    || (Abs(m.toCol - m.fromCol) == 2 && Abs(m.toRow - m.fromRow) == 1
        && !IsPiece(At(g, (m.fromCol + m.toCol) / 2, m.fromRow)))
  }

  ghost predicate RookShape(g: Grid, m: Move) {
    Straight(m) && NothingBetween(g, m)
  }

  /** A quiet cannon move needs a free path, a capture exactly one piece to jump. */
  ghost predicate CannonShape(g: Grid, m: Move) {
    Straight(m) && if IsPiece(At(g, m.toCol, m.toRow)) then OneBetween(g, m) else NothingBetween(g, m)
  }

  /** One step forward, or sideways once across: from row 4 up for red, beyond row 4 for black. */
  predicate PawnShape(m: Move, color: Color) {
    if color == Red then
      || (m.toCol == m.fromCol && m.toRow == m.fromRow - 1)
      || (m.fromRow <= RIVER_ROW && Abs(m.toCol - m.fromCol) == 1 && m.toRow == m.fromRow)
    else
      || (m.toCol == m.fromCol && m.toRow == m.fromRow + 1)
      || (m.fromRow > RIVER_ROW && Abs(m.toCol - m.fromCol) == 1 && m.toRow == m.fromRow)
  }

  ghost predicate Shape(g: Grid, m: Move, color: Color, kind: int) {
    if kind == KING then KingShape(m, color)
    else if kind == ADVISOR then AdvisorShape(m, color)
    else if kind == BISHOP then BishopShape(g, m, color)
    else if kind == KNIGHT then KnightShape(g, m)
    else if kind == ROOK then RookShape(g, m)
    else if kind == CANNON then CannonShape(g, m)
    else PawnShape(m, color)
  }

  /** color may move along m as far as the pieces' own rules go. */
  ghost predicate Reaches(g: Grid, color: Color, m: Move) {
    && InBounds(m)
    && Owns(color, At(g, m.fromCol, m.fromRow))
    && !Owns(color, At(g, m.toCol, m.toRow))
    && Shape(g, m, color, Kind(At(g, m.fromCol, m.fromRow)))
  }

  // ----- Check -----

  /** The first cell in reading order, from (col, row) on, that holds the king. */
  function KingFrom(g: Grid, color: Color, col: int, row: int): Option<(int, int)>
    requires 0 <= col <= COLS && 0 <= row <= ROWS
    decreases ROWS - row, COLS - col, g
  {
    if row == ROWS then None
    else if col == COLS then KingFrom(g, color, 0, row + 1)
    else if At(g, col, row) == KingOf(color) then Some((col, row))
    else KingFrom(g, color, col + 1, row)
  }

  function FindKing(g: Grid, color: Color): Option<(int, int)> {
    KingFrom(g, color, 0, 0)
  }

  lemma {:induction false} KingFromFinds(g: Grid, color: Color, col: int, row: int)
    requires 0 <= col <= COLS && 0 <= row <= ROWS
    ensures var pos := KingFrom(g, color, col, row);
      if pos.Some? then OnBoard(pos.value.0, pos.value.1) && At(g, pos.value.0, pos.value.1) == KingOf(color)
      else forall c, r :: OnBoard(c, r) && (r > row || (r == row && c >= col)) ==> At(g, c, r) != KingOf(color)
    decreases ROWS - row, COLS - col
  {
    if row < ROWS {
      if col == COLS {
        KingFromFinds(g, color, 0, row + 1);
      } else if At(g, col, row) != KingOf(color) {
        KingFromFinds(g, color, col + 1, row);
      }
    }
  }

  /** The king is found if it is on the board at all. */
  lemma KingFound(g: Grid, color: Color)
    ensures var pos := FindKing(g, color);
      if pos.Some? then OnBoard(pos.value.0, pos.value.1) && At(g, pos.value.0, pos.value.1) == KingOf(color)
      else forall c, r :: OnBoard(c, r) ==> At(g, c, r) != KingOf(color)
  {
    KingFromFinds(g, color, 0, 0);
  }

  /** The two kings look at each other along an empty column. */
  ghost predicate KingsFace(g: Grid, a: (int, int), b: (int, int)) {
    a.0 == b.0 && NothingBetween(g, Move(a.0, a.1, b.0, b.1))
  }

  ghost predicate Attacks(g: Grid, attacker: Color, col: int, row: int) {
    exists c, r :: Reaches(g, attacker, Move(c, r, col, row))
  }

  ghost predicate Exposed(g: Grid, color: Color) {
    var king := FindKing(g, color);
    var other := FindKing(g, Opponent(color));
    king.Some? &&
    ((other.Some? && KingsFace(g, king.value, other.value))
     || Attacks(g, Opponent(color), king.value.0, king.value.1))
  }

  /** A move the side to move may make: it follows the rules and leaves its own king safe. */
  ghost predicate IsLegal(g: Grid, color: Color, m: Move) {
    Reaches(g, color, m) && !Exposed(Apply(g, m), color)
  }

  ghost predicate HasLegalMove(g: Grid, color: Color) {
    exists m :: IsLegal(g, color, m)
  }
}
