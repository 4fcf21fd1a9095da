/** A game of seven moves that ends in mate by two cannons on the central file, and what taking
    back no move from it comes to. */
module Mate {
  import opened Types
  import opened MoveRules
  import opened Checkers
  import opened Kings
  import opened Shelter
  import opened GameSpec
  import opened GameRuns
  import opened GameUndo
  import opened GameReplay
  import opened Lines

  // ----- The line -----

  /** Red's cannons come to the central file while black pushes pawns on the edges. */
  function MateMove(k: nat): Move {
    if k == 0 then Move(7, 7, 4, 7) else if k == 1 then Move(0, 3, 0, 4)
    else if k == 2 then Move(4, 7, 4, 3) else if k == 3 then Move(8, 3, 8, 4)
    else if k == 4 then Move(1, 7, 1, 5) else if k == 5 then Move(0, 4, 0, 5)
    else Move(1, 5, 4, 5)
  }

  /** The cells after k of these moves. */
  function StageCell(k: nat, c: int, r: int): Cell
    requires OnBoard(c, r)
  {
    if c == 7 && r == 7 && k >= 1 then EMPTY
    else if c == 4 && r == 7 && 1 <= k <= 2 then 5
    else if c == 0 && r == 3 && k >= 2 then EMPTY
    else if c == 0 && r == 4 && 2 <= k <= 5 then 16
    else if c == 4 && r == 3 && k >= 3 then 5
    else if c == 8 && r == 3 && k >= 4 then EMPTY
    else if c == 8 && r == 4 && k >= 4 then 16
    else if c == 1 && r == 7 && k >= 5 then EMPTY
    else if c == 1 && r == 5 && 5 <= k <= 6 then 5
    else if c == 0 && r == 5 && k >= 6 then 16
    else if c == 4 && r == 5 && k >= 7 then 5
    else StartCell(c, r)
  }

  function StageGrid(k: nat): Grid {
    seq(ROWS, r requires 0 <= r < ROWS => seq(COLS, c requires 0 <= c < COLS => StageCell(k, c, r)))
  }

  ghost predicate AtStage(g: Grid, k: nat) {
    forall c, r :: OnBoard(c, r) ==> At(g, c, r) == StageCell(k, c, r)
  }

  lemma StageCells(k: nat)
    ensures AtStage(StageGrid(k), k)
  {
  }

  lemma StageOpens(g: Grid)
    requires AtStage(g, 0)
    ensures g == InitialGrid()
  {
    SameCells(g, InitialGrid());
  }

  lemma StageGoesOn(g: Grid, k: nat, h: Grid)
    requires k < 7 && AtStage(g, k) && AtStage(h, k + 1)
    ensures Apply(g, MateMove(k)) == h
  {
    var h' := Apply(g, MateMove(k));
    forall c, r | OnBoard(c, r)
      ensures At(h', c, r) == At(h, c, r)
    {
      CellGoesOn(g, k, c, r);
    }
    SameCells(h', h);
  }

  lemma CellGoesOn(g: Grid, k: nat, c: int, r: int)
    requires k < 7 && AtStage(g, k) && OnBoard(c, r)
    ensures At(Apply(g, MateMove(k)), c, r) == StageCell(k + 1, c, r)
  {
    CellAfter(g, MateMove(k), c, r);
  }

  lemma StagesApart(g: Grid, k: nat, h: Grid, n: nat)
    requires k < n <= 7 && AtStage(g, k) && AtStage(h, n)
    ensures g != h
  {
    var m := MateMove(n - 1);
    assert At(g, m.toCol, m.toRow) != At(h, m.toCol, m.toRow);
  }

  // ----- The moves are legal -----

  lemma StageReaches(g: Grid, k: nat)
    requires k < 7 && AtStage(g, k)
    ensures Reaches(g, TurnAt(k), MateMove(k))
  {
    if k == 2 {
      assert OnlyScreen(g, MateMove(2), 4, 6);
    }
  }

  lemma StageApart(g: Grid, k: nat)
    requires k <= 7 && AtStage(g, k)
    ensures Apart(g)
  {
  }

  lemma StageSafe(g: Grid, k: nat)
    requires 0 < k <= 7 && AtStage(g, k)
    ensures !Exposed(g, TurnAt(k - 1))
  {
    StageApart(g, k);
    ShelteredIsSafe(g, TurnAt(k - 1));
  }

  lemma StageLegal(g: Grid, k: nat, h: Grid) returns (m: Move)
    requires k < 7 && AtStage(g, k) && AtStage(h, k + 1)
    ensures IsLegal(g, TurnAt(k), m) && Apply(g, m) == h
  {
    m := MateMove(k);
    StageGoesOn(g, k, h);
    StageReaches(g, k);
    StageSafe(h, k + 1);
  }

  lemma StageLeads(g: Grid, k: nat, h: Grid)
    requires k < 7 && AtStage(g, k) && AtStage(h, k + 1)
    ensures Leads((g, TurnAt(k)), (h, TurnAt(k + 1)))
  {
    var m := StageLegal(g, k, h);
    assert LeadsBy((g, TurnAt(k)), m, (h, TurnAt(k + 1)));
  }

  // ----- The last one mates -----

  /** Two red cannons on the central file, the black king behind its advisors, and no black piece
      that can come between the cannons or take one. */
  ghost predicate Cornered(g: Grid) {
    && At(g, 4, 0) == 10 && At(g, 3, 0) == 11 && At(g, 5, 0) == 11
    && At(g, 4, 3) == 5 && At(g, 4, 5) == 5
    && !IsPiece(At(g, 4, 1)) && !IsPiece(At(g, 4, 2)) && !IsPiece(At(g, 4, 4))
    && KingAt(g, Black, 4, 0)
    && forall c, r, t :: 3 <= t <= 5 ==> !Reaches(g, Black, Move(c, r, 4, t))
  }

  lemma OutOfReach(g: Grid, c: int, r: int, t: int)
    requires AtStage(g, 7) && 3 <= t <= 5
    ensures !Reaches(g, Black, Move(c, r, 4, t))
  {
  }

  lemma LastIsCornered(g: Grid)
    requires AtStage(g, 7)
    ensures Cornered(g)
  {
    forall c, r, t | 3 <= t <= 5
      ensures !Reaches(g, Black, Move(c, r, 4, t))
    {
      OutOfReach(g, c, r, t);
    }
  }

  /** A cannon on the central file checks a king on it across the one piece in between. */
  lemma CannonChecks(g: Grid, from: int, screen: int, king: int)
    requires 0 <= king < screen < from < ROWS && At(g, 4, from) == 5 && KingAt(g, Black, 4, king)
    requires IsPiece(At(g, 4, screen))
    requires forall r :: king < r < from && r != screen ==> !IsPiece(At(g, 4, r))
    ensures Exposed(g, Black)
  {
    KingIsFound(g, Black, 4, king);
    assert OnlyScreen(g, Move(4, from, 4, king), 4, screen);
    assert Reaches(g, Red, Move(4, from, 4, king));
  }

  lemma CorneredIsExposed(g: Grid)
    requires Cornered(g)
    ensures Exposed(g, Black)
  {
    CannonChecks(g, 5, 3, 0);
  }

  lemma KingStaysExposed(g: Grid, m: Move)
    requires Cornered(g) && Reaches(g, Black, m) && (m.fromCol, m.fromRow) == (4, 0)
    ensures Exposed(Apply(g, m), Black)
  {
    CannonChecks(Apply(g, m), 5, 3, 1);
  }

  lemma OthersLeaveExposed(g: Grid, m: Move)
    requires Cornered(g) && Reaches(g, Black, m) && (m.fromCol, m.fromRow) != (4, 0)
    ensures Exposed(Apply(g, m), Black)
  {
    if m.toCol == 4 && 1 <= m.toRow <= 2 {
      CannonChecks(Apply(g, m), 3, m.toRow, 0);
    } else {
      CannonChecks(Apply(g, m), 5, 3, 0);
    }
  }

  lemma CorneredIsMated(g: Grid)
    requires Cornered(g)
    ensures OverFor(g, Black) == Over(Some(Red), Checkmate)
  {
    CorneredIsExposed(g);
    forall m | Reaches(g, Black, m)
      ensures Exposed(Apply(g, m), Black)
    {
      if (m.fromCol, m.fromRow) == (4, 0) {
        KingStaysExposed(g, m);
      } else {
        OthersLeaveExposed(g, m);
      }
    }
  }

  lemma LastMates(g: Grid, k: nat) returns (m: Move)
    requires k == 6 && AtStage(g, k)
    ensures IsLegal(g, Red, m) && OverFor(Apply(g, m), Black) == Over(Some(Red), Checkmate)
  {
    var h := StageGrid(k + 1);
    StageCells(k + 1);
    m := StageLegal(g, k, h);
    LastIsCornered(h);
    CorneredIsMated(h);
  }

  // ----- The game -----

  function Stages(n: nat): seq<(Grid, Color)> {
    seq(n, i requires 0 <= i < n => (StageGrid(i), TurnAt(i)))
  }

  lemma {:induction false} StagesArePath(ps: seq<(Grid, Color)>)
    requires |ps| <= 8 && forall i :: 0 <= i < |ps| ==> AtStage(ps[i].0, i) && ps[i].1 == TurnAt(i)
    ensures Path(ps)
  {
    forall k | 0 <= k < |ps| - 1
      ensures Leads(Spot(ps, k), ps[k + 1]) && AtMostOnce(ps[..k], ps[k])
    {
      StageLeads(ps[k].0, k, ps[k + 1].0);
      forall i | 0 <= i < k { StagesApart(ps[i].0, i, ps[k].0, k); }
    }
  }

  /** A mating move ends the game before the turn passes. */
  lemma {:induction false} MatePlayed(es: seq<Event>, m: Move) returns (es': seq<Event>)
    requires var s := After(es); s.outcome == ONGOING && s.turn == Red && IsLegal(s.grid, Red, m)
    requires OverFor(Apply(After(es).grid, m), Black) == Over(Some(Red), Checkmate)
    ensures var s := After(es); var e := After(es');
      && e.history == s.history + [RecordOf(s.grid, Red, m)] && e.grid == Apply(s.grid, m)
      && e.turn == Red && e.outcome == EndedBy(Some(Red), Checkmate)
  {
    es' := es + [TryMove(m, None)];
    OneMoreEvent(es, TryMove(m, None));
    LegalAccepted(After(es), m);
  }

  /** The code can be brought to a mated game. */
  lemma {:induction false} MateIsReachable() returns (es: seq<Event>)
    ensures var s := After(es);
      && EndedOnBoard(s) && s.outcome == EndedBy(Some(Red), Checkmate) && |s.history| == 7
      && s.turn == Red && TurnAfter(s.history) == Black && !HasLegalMove(s.grid, Black)
  {
    var ps := Stages(8);
    forall i | 0 <= i < 8 { StageCells(i); }
    StagesArePath(ps);
    StageOpens(ps[0].0);
    es := PathStarts(ps);
    es := ComeTo(es, ps[0], ps, 6);
    es := MateAfter(es, ps, 6);
  }

  lemma {:induction false} MateAfter(es: seq<Event>, ps: seq<(Grid, Color)>, k: nat) returns (es': seq<Event>)
    requires k == 6 && k < |ps| && Come(es, ps[0], ps, k) && AtStage(ps[k].0, k) && ps[k].1 == Red
    ensures var s := After(es');
      && EndedOnBoard(s) && s.outcome == EndedBy(Some(Red), Checkmate) && |s.history| == 7
      && s.turn == Red && TurnAfter(s.history) == Black && !HasLegalMove(s.grid, Black)
  {
    assert EndsIn(es, After(es));
    var m := LastMates(ps[k].0, k);
    es' := MatePlayed(es, m);
  }

  /** Taking back no move there opens it again with black to move and no legal move, where the
      other undo leaves red to move. */
  lemma {:induction false} MateIsReopened() returns (es: seq<Event>)
    ensures var s := After(es);
      && EndedOnBoard(s) && Alive(s) && |s.history| == 7
      && var (u, ok) := Undo(s, 0); var (v, _) := UndoByBefore(s, 0);
        && ok && After(es + [TakeBack(0)]) == u && u.outcome == ONGOING && u.history == s.history
        && u.turn == Black && !HasLegalMove(u.grid, u.turn) && v.turn == Red
  {
    es := MateIsReachable();
    OneMoreEvent(es, TakeBack(0));
    ReachableCoherent(es);
    Reopens(After(es));
  }

  lemma Reopens(s: Game)
    requires Coherent(s) && s.outcome == EndedBy(Some(Red), Checkmate)
    requires TurnAfter(s.history) == Black && !HasLegalMove(s.grid, Black)
    ensures var (u, ok) := Undo(s, 0); var (v, _) := UndoByBefore(s, 0);
      && ok && u.outcome == ONGOING && u.history == s.history
      && u.turn == Black && !HasLegalMove(u.grid, u.turn) && v.turn == Red
  {
    assert s.history[..|s.history|] == s.history;
    UndosAgree(s, 0);
  }
}
