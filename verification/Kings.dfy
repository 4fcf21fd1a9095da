/** King safety along play: what a legal move keeps. */
module Kings {
  import opened Types
  import opened MoveRules

  /** The king of color stands on (c, r), inside its palace, and nowhere else. */
  ghost predicate KingAt(g: Grid, color: Color, c: int, r: int) {
    && InPalace(c, r, color) && At(g, c, r) == KingOf(color)
    && forall x, y :: At(g, x, y) == KingOf(color) ==> (x, y) == (c, r)
  }

  ghost predicate OneKing(g: Grid, color: Color) {
    exists c, r :: KingAt(g, color, c, r)
  }

  /** Both kings are home and the side that is not to move is not in check. */
  ghost predicate Sound(g: Grid, toMove: Color) {
    OneKing(g, Red) && OneKing(g, Black) && !Exposed(g, Opponent(toMove))
  }

  lemma KingIsFound(g: Grid, color: Color, c: int, r: int)
    requires KingAt(g, color, c, r)
    ensures FindKing(g, color) == Some((c, r))
  {
    KingFound(g, color);
  }

  /** In a sound position no legal move lands on a king. */
  lemma NoKingCapture(g: Grid, color: Color, m: Move)
    requires Sound(g, color) && Reaches(g, color, m)
    ensures At(g, m.toCol, m.toRow) != KingOf(Opponent(color))
  {
    var opponent := Opponent(color);
    if At(g, m.toCol, m.toRow) == KingOf(opponent) {
      var c, r :| KingAt(g, opponent, c, r);
      KingIsFound(g, opponent, c, r);
      assert Reaches(g, color, Move(m.fromCol, m.fromRow, c, r));
      assert Attacks(g, Opponent(opponent), c, r);
    }
  }

  lemma OwnKingStays(g: Grid, color: Color, m: Move)
    requires OneKing(g, color) && Reaches(g, color, m)
    ensures OneKing(Apply(g, m), color)
  {
    var h := Apply(g, m);
    var c, r :| KingAt(g, color, c, r);
    if (m.fromCol, m.fromRow) == (c, r) {
      assert KingAt(h, color, m.toCol, m.toRow);
    } else {
      assert KingAt(h, color, c, r);
    }
  }

  lemma OtherKingStays(g: Grid, color: Color, m: Move)
    requires OneKing(g, Opponent(color)) && Reaches(g, color, m)
    requires At(g, m.toCol, m.toRow) != KingOf(Opponent(color))
    ensures OneKing(Apply(g, m), Opponent(color))
  {
    var c, r :| KingAt(g, Opponent(color), c, r);
    assert KingAt(Apply(g, m), Opponent(color), c, r);
  }

  /** Legal play keeps positions sound. */
  lemma LegalMoveKeepsSound(g: Grid, color: Color, m: Move)
    requires Sound(g, color) && IsLegal(g, color, m)
    ensures Sound(Apply(g, m), Opponent(color))
    ensures At(g, m.toCol, m.toRow) != KingOf(Opponent(color))
  {
    NoKingCapture(g, color, m);
    OwnKingStays(g, color, m);
    OtherKingStays(g, color, m);
  }

  // ----- The opening position -----

  lemma InitialCells(c: int, r: int)
    ensures At(InitialGrid(), c, r) == 0 <==> (c, r) == (4, 9)
    ensures At(InitialGrid(), c, r) == 10 <==> (c, r) == (4, 0)
    ensures Owns(Red, At(InitialGrid(), c, r)) ==> r >= 6
    ensures Owns(Red, At(InitialGrid(), c, r)) && c == 4 ==> r == 9 || Kind(At(InitialGrid(), c, r)) == PAWN
  {
  }

  lemma InitialKings()
    ensures KingAt(InitialGrid(), Red, 4, 9) && KingAt(InitialGrid(), Black, 4, 0)
  {
    forall c, r { InitialCells(c, r); }
  }

  // ----- Kings that face each other -----

  /** The red king on (c, r) and the black one on (c, s), with nothing but empty cells between. */
  ghost predicate Facing(g: Grid, c: int, r: int, s: int) {
    KingAt(g, Red, c, r) && KingAt(g, Black, c, s) && forall y :: s < y < r ==> At(g, c, y) == EMPTY
  }

  /** Some piece stands between kings that share a column. */
  ghost predicate Screened(g: Grid) {
    forall c, r, s :: KingAt(g, Red, c, r) && KingAt(g, Black, c, s) ==> exists y :: s < y < r && IsPiece(At(g, c, y))
  }

  /** Kings that face each other are both in check. */
  lemma FacingIsCheck(g: Grid, c: int, r: int, s: int)
    requires Facing(g, c, r, s)
    ensures Exposed(g, Red) && Exposed(g, Black)
  {
    KingIsFound(g, Red, c, r);
    KingIsFound(g, Black, c, s);
  }

  lemma NotFacingIsScreened(g: Grid, c: int, r: int, s: int)
    requires KingAt(g, Red, c, r) && KingAt(g, Black, c, s) && !Facing(g, c, r, s)
    ensures exists y :: s < y < r && IsPiece(At(g, c, y))
  {
    var y :| s < y < r && At(g, c, y) != EMPTY;
    assert IsPiece(At(g, c, y));
  }

  /** Where one side is not in check no kings face each other. */
  lemma SafeIsScreened(g: Grid, color: Color)
    requires !Exposed(g, color)
    ensures Screened(g)
  {
    forall c, r, s | KingAt(g, Red, c, r) && KingAt(g, Black, c, s)
      ensures exists y :: s < y < r && IsPiece(At(g, c, y))
    {
      if Facing(g, c, r, s) {
        FacingIsCheck(g, c, r, s);
      } else {
        NotFacingIsScreened(g, c, r, s);
      }
    }
  }

  /** So no legal move leaves the kings facing each other, and one that would is refused. */
  lemma LegalMoveScreens(g: Grid, color: Color, m: Move)
    ensures IsLegal(g, color, m) ==> Screened(Apply(g, m))
    ensures (exists c, r, s :: Facing(Apply(g, m), c, r, s)) ==> !IsLegal(g, color, m)
  {
    if IsLegal(g, color, m) {
      SafeIsScreened(Apply(g, m), color);
    }
    if c, r, s :| Facing(Apply(g, m), c, r, s) {
      FacingIsCheck(Apply(g, m), c, r, s);
    }
  }
}
