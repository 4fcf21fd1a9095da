/** Positions in which both kings stand on their home cells out of every enemy's reach, and moves
    away from the central file, which keep them there. */
module Shelter {
  import opened Types
  import opened MoveRules
  import opened Kings

  /** A black piece too far up the board to reach the red king's home cell. */
  predicate BlackHarmless(p: Cell, c: int, r: int) {
    r <= 5 && (c == 4 ==> r == 0 || Kind(p) == PAWN)
  }

  /** A red piece that does not reach the black king's home cell: away from the central file, or a
      cannon on it with two screens or none. */
  predicate RedHarmless(g: Grid, p: Cell, c: int, r: int) {
    r >= 3 &&
    (c == 4 ==>
      || r == 9 || Kind(p) == PAWN
      || (Kind(p) == CANNON && r == 7 && IsPiece(At(g, 4, 3)))
      || (Kind(p) == CANNON && r == 3 && !IsPiece(At(g, 4, 1)) && !IsPiece(At(g, 4, 2))))
  }

  ghost predicate AllHarmless(g: Grid, attacker: Color) {
    forall c, r :: Owns(attacker, At(g, c, r)) ==>
      if attacker == Black then BlackHarmless(At(g, c, r), c, r) else RedHarmless(g, At(g, c, r), c, r)
  }

  /** Both kings are at home with red's centre pawn between them. */
  ghost predicate Apart(g: Grid) {
    KingAt(g, Red, 4, 9) && KingAt(g, Black, 4, 0) && IsPiece(At(g, 4, 6))
  }

  ghost predicate Sheltered(g: Grid, color: Color) {
    Apart(g) && AllHarmless(g, Opponent(color))
  }

  lemma BlackMisses(g: Grid, c: int, r: int)
    requires Sheltered(g, Red)
    ensures !Reaches(g, Black, Move(c, r, 4, 9))
  {
  }

  lemma RedMisses(g: Grid, c: int, r: int)
    requires Sheltered(g, Black)
    ensures !Reaches(g, Red, Move(c, r, 4, 0))
  {
    var m := Move(c, r, 4, 0);
    if Owns(Red, At(g, c, r)) && Kind(At(g, c, r)) == CANNON && c == 4 {
      CannonMisses(g, r);
    }
  }

  lemma CannonMisses(g: Grid, r: int)
    requires Apart(g) && RedHarmless(g, 5, 4, r) && r != 9
    ensures !CannonShape(g, Move(4, r, 4, 0))
  {
    var m := Move(4, r, 4, 0);
    forall y
      ensures !OnlyScreen(g, m, 4, y)
    {
      if r == 7 {
        assert Between(m, 4, 6) && Between(m, 4, 3);
      }
    }
  }

  lemma ShelteredIsSafe(g: Grid, color: Color)
    requires Sheltered(g, color)
    ensures !Exposed(g, color)
  {
    KingIsFound(g, Red, 4, 9);
    KingIsFound(g, Black, 4, 0);
    assert Between(Move(4, 9, 4, 0), 4, 6) && Between(Move(4, 0, 4, 9), 4, 6);
    if color == Red {
      forall c, r { BlackMisses(g, c, r); }
    } else {
      forall c, r { RedMisses(g, c, r); }
    }
  }

  ghost predicate Calm(g: Grid) {
    Sheltered(g, Red) && Sheltered(g, Black)
  }

  /** A move that stays on its own side of things and away from the central file. */
  predicate Aside(color: Color, m: Move) {
    m.fromCol != 4 && m.toCol != 4 && if color == Red then m.toRow >= 3 else m.toRow <= 5
  }

  lemma AsideKeepsApart(g: Grid, color: Color, m: Move)
    requires Apart(g) && Reaches(g, color, m) && Aside(color, m)
    ensures Apart(Apply(g, m))
  {
  }

  lemma AsideKeepsHarmless(g: Grid, color: Color, m: Move, attacker: Color)
    requires AllHarmless(g, attacker) && Reaches(g, color, m) && Aside(color, m)
    ensures AllHarmless(Apply(g, m), attacker)
  {
  }

  /** Such a move is legal in a calm position and leaves one. */
  lemma AsideIsLegal(g: Grid, color: Color, m: Move)
    requires Calm(g) && Reaches(g, color, m) && Aside(color, m)
    ensures IsLegal(g, color, m) && Calm(Apply(g, m))
  {
    AsideKeepsApart(g, color, m);
    AsideKeepsHarmless(g, color, m, Red);
    AsideKeepsHarmless(g, color, m, Black);
    ShelteredIsSafe(Apply(g, m), color);
  }

  lemma InitialHarmless(c: int, r: int)
    ensures var g := InitialGrid(); var p := At(g, c, r);
      && (Owns(Black, p) ==> BlackHarmless(p, c, r)) && (Owns(Red, p) ==> RedHarmless(g, p, c, r))
  {
  }

  lemma InitialCalm()
    ensures Calm(InitialGrid())
  {
    InitialKings();
    forall c, r { InitialHarmless(c, r); }
  }

  /** So the opening is sound: no red piece reaches the black king and the kings do not face. */
  lemma InitialSound()
    ensures Sound(InitialGrid(), Red)
  {
    InitialCalm();
    ShelteredIsSafe(InitialGrid(), Black);
  }
}
