/** Where kings, advisors and bishops can ever stand. */
module Homes {
  import opened Types
  import opened MoveRules
  import opened GameSpec
  import opened GameRuns

  /** The corners and the centre of the palace. */
  predicate AdvisorPoint(color: Color, c: int, r: int) {
    if color == Red then (c, r) in [(3, 9), (5, 9), (4, 8), (3, 7), (5, 7)]
    else (c, r) in [(3, 0), (5, 0), (4, 1), (3, 2), (5, 2)]
  }

  /** Seven points for red; only five for black, whose bishops never reach their bank of the river
      in row 4. */
  predicate BishopPoint(color: Color, c: int, r: int) {
    if color == Red then (c, r) in [(2, 9), (6, 9), (0, 7), (4, 7), (8, 7), (2, 5), (6, 5)]
    else (c, r) in [(2, 0), (6, 0), (0, 2), (4, 2), (8, 2)]
  }

  predicate AtHome(p: Cell, c: int, r: int) {
    IsPiece(p) ==>
      && (Kind(p) == KING ==> InPalace(c, r, ColorOf(p)))
      && (Kind(p) == ADVISOR ==> AdvisorPoint(ColorOf(p), c, r))
      && (Kind(p) == BISHOP ==> BishopPoint(ColorOf(p), c, r))
  }

  ghost predicate Homed(g: Grid) {
    forall c, r :: OnBoard(c, r) ==> AtHome(At(g, c, r), c, r)
  }

  /** An allowed move of a piece that is at home ends at home. */
  lemma StaysHome(g: Grid, color: Color, m: Move)
    requires Reaches(g, color, m) && AtHome(At(g, m.fromCol, m.fromRow), m.fromCol, m.fromRow)
    ensures AtHome(At(g, m.fromCol, m.fromRow), m.toCol, m.toRow)
  {
    var kind := Kind(At(g, m.fromCol, m.fromRow));
    if kind == ADVISOR {
      AdvisorStays(color, m);
    } else if kind == BISHOP {
      BishopStays(g, color, m);
    }
  }

  lemma AdvisorStays(color: Color, m: Move)
    requires AdvisorShape(m, color) && AdvisorPoint(color, m.fromCol, m.fromRow)
    ensures AdvisorPoint(color, m.toCol, m.toRow)
  {
  }

  lemma BishopStays(g: Grid, color: Color, m: Move)
    requires InBounds(m) && BishopShape(g, m, color) && BishopPoint(color, m.fromCol, m.fromRow)
    ensures BishopPoint(color, m.toCol, m.toRow)
  {
  }

  lemma MoveKeepsHomed(g: Grid, color: Color, m: Move)
    requires Homed(g) && Reaches(g, color, m)
    ensures Homed(Apply(g, m))
  {
    StaysHome(g, color, m);
  }

  lemma InitialHomed()
    ensures Homed(InitialGrid())
  {
  }

  lemma {:induction false} HistoryHomed(h: seq<MoveRecord>)
    requires ValidHistory(h)
    ensures Homed(GridAfter(h))
  {
    if h == [] {
      InitialHomed();
    } else {
      HistoryHomed(Front(h));
      RecordedLegally(Front(h), Last(h));
      MoveKeepsHomed(GridAfter(Front(h)), TurnAfter(Front(h)), Last(h).move);
    }
  }

  /** In every run kings and advisors stay in their palaces and bishops on their points. */
  lemma AlwaysHomed(events: seq<Event>)
    ensures Homed(After(events).grid)
  {
    ReachableCoherent(events);
    HistoryHomed(After(events).history);
  }
}
