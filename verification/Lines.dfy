/** Lines of play from the opening, move by move. */
module Lines {
  import opened Types
  import opened Counting
  import opened MoveRules
  import opened Checkers
  import opened Shelter
  import opened GameSpec
  import opened GameRuns
  import opened GameReplay
  import opened GameLength

  // ----- Playing on -----

  /** A game in play whose counts start from the position first, and the positions counted. */
  ghost predicate Stands(s: Game, first: (Grid, Color), visits: seq<(Grid, Color)>) {
    && s.outcome == ONGOING
    && s.counts == Recount(map[Key(first) := 1], s.history)
    && visits == Visited(first, s.history)
  }

  lemma {:induction false} OneMoreEvent(es: seq<Event>, e: Event)
    ensures After(es + [e]) == Next(After(es), e)
  {
    assert (es + [e])[..|es|] == es;
  }

  lemma Opened() returns (es: seq<Event>)
    ensures Stands(After(es), Opening(), [Opening()]) && After(es).history == [] && UndoFree(es)
    ensures After(es).grid == InitialGrid() && After(es).turn == Red
  {
    es := [];
    OneMoreEvent(es, StartGame);
    es := es + [StartGame];
  }

  /** The position after a move of the side to move. */
  function AfterMove(g: Grid, side: Color, m: Move): (Grid, Color) {
    (Apply(g, m), Opponent(side))
  }

  lemma VisitedOneMore(first: (Grid, Color), h: seq<MoveRecord>, rec: MoveRecord)
    ensures Visited(first, h + [rec]) == Visited(first, h) + [(rec.boardAfter, Opponent(rec.player))]
    ensures Recount(map[Key(first) := 1], h + [rec]) == CountIn(Recount(map[Key(first) := 1], h), KeyAfter(rec))
  {
    assert (h + [rec])[..|h|] == h;
  }

  /** A legal move that leaves a reply, to a position counted at most once so far, is played and
      the game goes on. */
  lemma {:induction false} PlayOn(es: seq<Event>, first: (Grid, Color), visits: seq<(Grid, Color)>, m: Move)
    returns (es': seq<Event>)
    requires var s := After(es); Stands(s, first, visits) && IsLegal(s.grid, s.turn, m)
    requires var s := After(es); HasLegalMove(Apply(s.grid, m), Opponent(s.turn))
    requires var s := After(es); multiset(visits)[AfterMove(s.grid, s.turn, m)] <= 1
    ensures es' == es + [TryMove(m, None)]
    ensures var s := After(es); var e := After(es');
      && Stands(e, first, visits + [AfterMove(s.grid, s.turn, m)])
      && (e.grid, e.turn) == AfterMove(s.grid, s.turn, m)
      && e.history == s.history + [RecordOf(s.grid, s.turn, m)]
  {
    var s := After(es);
    ReachableCoherent(es);
    es' := es + [TryMove(m, None)];
    OneMoreEvent(es, TryMove(m, None));
    LegalAccepted(s, m);
    PlayedOn(s, m);
    PlayedKeeps(s, m);
    var rec := RecordOf(s.grid, s.turn, m);
    CountsCountPositions(first, s.history, AfterMove(s.grid, s.turn, m));
    VisitedOneMore(first, s.history, rec);
    Counted(Moved(s, m), rec, CountIn(s.counts, KeyAfter(rec)));
  }

  predicate StandsAt(s: Game, p: (Grid, Color)) {
    (s.grid, s.turn) == p
  }

  /** A game that stands at p has a legal move to q. */
  ghost predicate Leads(p: (Grid, Color), q: (Grid, Color)) {
    forall s {:trigger StandsAt(s, p)} | StandsAt(s, p) :: exists m :: LeadsBy(p, m, q)
  }

  ghost predicate LeadsBy(p: (Grid, Color), m: Move, q: (Grid, Color)) {
    IsLegal(p.0, p.1, m) && q == AfterMove(p.0, p.1, m)
  }

  lemma LegalLeads(p: (Grid, Color), m: Move, q: (Grid, Color))
    requires Reaches(p.0, p.1, m) && q == AfterMove(p.0, p.1, m) && !Exposed(q.0, p.1)
    ensures Leads(p, q)
  {
    assert LeadsBy(p, m, q);
  }

  lemma LeadsFurther(p: (Grid, Color), q: (Grid, Color), s: Game)
    requires Leads(p, q) && StandsAt(s, p)
    ensures HasLegalMove(p.0, p.1)
  {
    var m :| LeadsBy(p, m, q);
  }

  lemma {:induction false} PlayLeading(es: seq<Event>, first: (Grid, Color), visits: seq<(Grid, Color)>,
                                       p: (Grid, Color), q: (Grid, Color), r: (Grid, Color))
    returns (es': seq<Event>)
    requires var s := After(es); Stands(s, first, visits) && (s.grid, s.turn) == p
    requires Leads(p, q) && Leads(q, r) && multiset(visits)[q] <= 1
    ensures var s := After(es); var e := After(es');
      Stands(e, first, visits + [q]) && (e.grid, e.turn) == q && |e.history| == |s.history| + 1
  {
    LeadsFurther(q, r, After(es).(grid := q.0, turn := q.1));
    assert StandsAt(After(es), p);
    var m :| LeadsBy(p, m, q);
    es' := PlayOn(es, first, visits, m);
  }

  /** A third occurrence is drawn. */
  lemma {:induction false} PlayThird(es: seq<Event>, first: (Grid, Color), visits: seq<(Grid, Color)>,
                                     p: (Grid, Color), q: (Grid, Color), r: (Grid, Color))
    returns (es': seq<Event>)
    requires var s := After(es); Stands(s, first, visits) && (s.grid, s.turn) == p
    requires Leads(p, q) && Leads(q, r) && multiset(visits)[q] >= REPETITION_THRESHOLD - 1
    ensures var s := After(es); var e := After(es');
      && e.outcome == EndedBy(None, ThreefoldRepetition)
      && Visited(first, e.history) == visits + [q] && |e.history| == |s.history| + 1
  {
    LeadsFurther(q, r, After(es).(grid := q.0, turn := q.1));
    assert StandsAt(After(es), p);
    var m :| LeadsBy(p, m, q);
    es' := PlayThirdBy(es, first, visits, m);
  }

  lemma {:induction false} PlayThirdBy(es: seq<Event>, first: (Grid, Color), visits: seq<(Grid, Color)>, m: Move)
    returns (es': seq<Event>)
    requires var s := After(es); Stands(s, first, visits) && IsLegal(s.grid, s.turn, m)
    requires var s := After(es); HasLegalMove(Apply(s.grid, m), Opponent(s.turn))
    requires var s := After(es); multiset(visits)[AfterMove(s.grid, s.turn, m)] >= REPETITION_THRESHOLD - 1
    ensures var s := After(es); var e := After(es');
      && e.outcome == EndedBy(None, ThreefoldRepetition)
      && Visited(first, e.history) == visits + [AfterMove(s.grid, s.turn, m)] && |e.history| == |s.history| + 1
  {
    var s := After(es);
    es' := es + [TryMove(m, None)];
    OneMoreEvent(es, TryMove(m, None));
    LegalAccepted(s, m);
    PlayedOn(s, m);
    var rec := RecordOf(s.grid, s.turn, m);
    CountsCountPositions(first, s.history, AfterMove(s.grid, s.turn, m));
    VisitedOneMore(first, s.history, rec);
    Counted(Moved(s, m), rec, CountIn(s.counts, KeyAfter(rec)));
    RepetitionAlwaysDraws(es');
  }

  lemma AsideLeads(g: Grid, side: Color, m: Move)
    requires Calm(g) && Reaches(g, side, m) && Aside(side, m)
    ensures Leads((g, side), AfterMove(g, side, m)) && Calm(Apply(g, m))
  {
    AsideIsLegal(g, side, m);
    assert LeadsBy((g, side), m, AfterMove(g, side, m));
  }

  lemma CellAfter(g: Grid, m: Move, c: int, r: int)
    requires InBounds(m) && OnBoard(c, r) && (m.fromCol, m.fromRow) != (m.toCol, m.toRow)
    ensures At(Apply(g, m), c, r) == if (c, r) == (m.fromCol, m.fromRow) then EMPTY
                                     else if (c, r) == (m.toCol, m.toRow) then At(g, m.fromCol, m.fromRow)
                                     else At(g, c, r)
  {
  }

  lemma RookSteps(g: Grid, color: Color, m: Move)
    requires InBounds(m) && Straight(m) && Abs(m.toCol - m.fromCol) + Abs(m.toRow - m.fromRow) == 1
    requires At(g, m.fromCol, m.fromRow) == (if color == Red then 4 else 14) && !Owns(color, At(g, m.toCol, m.toRow))
    ensures Reaches(g, color, m)
  {
  }

  // ----- Paths -----

  ghost predicate EndsIn(es: seq<Event>, s: Game) {
    After(es) == s
  }

  function Spot(ps: seq<(Grid, Color)>, i: nat): (Grid, Color)
    requires i < |ps|
  {
    ps[i]
  }

  predicate AtMostOnce<T(==)>(s: seq<T>, x: T) {
    forall i, j :: 0 <= i < j < |s| && s[i] == x ==> s[j] != x
  }

  lemma {:induction false} OnceCounted<T>(s: seq<T>, x: T)
    requires AtMostOnce(s, x)
    ensures multiset(s)[x] <= 1
  {
    if s != [] {
      var front, last := s[..|s| - 1], s[|s| - 1];
      assert s == front + [last];
      OnceCounted(front, x);
      assert s[|s| - 1] == last && forall i :: 0 <= i < |front| ==> s[i] == front[i];
    }
  }

  /** Positions each of which leads to the next, none but the last visited for the third time. */
  ghost predicate Path(ps: seq<(Grid, Color)>) {
    forall k {:trigger Spot(ps, k)} ::
      0 <= k < |ps| - 1 ==> Leads(Spot(ps, k), ps[k + 1]) && AtMostOnce(ps[..k], ps[k])
  }

  /** The game has come along the path up to its k-th position. */
  ghost predicate Come(es: seq<Event>, first: (Grid, Color), ps: seq<(Grid, Color)>, k: nat)
    requires k < |ps|
  {
    forall s {:trigger EndsIn(es, s)} | EndsIn(es, s) ::
      Stands(s, first, ps[..k + 1]) && (s.grid, s.turn) == ps[k] && |s.history| == k
  }

  lemma {:induction false} PathLeads(ps: seq<(Grid, Color)>, k: nat)
    requires Path(ps) && k + 2 < |ps|
    ensures Leads(ps[k], ps[k + 1]) && Leads(ps[k + 1], ps[k + 2])
    ensures multiset(ps[..k + 1])[ps[k + 1]] <= 1 && ps[..k + 2] == ps[..k + 1] + [ps[k + 1]]
  {
    assert Leads(Spot(ps, k), ps[k + 1]) && Leads(Spot(ps, k + 1), ps[k + 2]);
    OnceCounted(ps[..k + 1], ps[k + 1]);
  }

  lemma {:induction false} ComeOn(es: seq<Event>, first: (Grid, Color), ps: seq<(Grid, Color)>, k: nat)
    returns (es': seq<Event>)
    requires Path(ps) && k + 2 < |ps| && Come(es, first, ps, k)
    ensures Come(es', first, ps, k + 1)
  {
    PathLeads(ps, k);
    assert EndsIn(es, After(es));
    es' := PlayLeading(es, first, ps[..k + 1], ps[k], ps[k + 1], ps[k + 2]);
  }

  lemma {:induction false} PathStarts(ps: seq<(Grid, Color)>) returns (es: seq<Event>)
    requires ps != [] && ps[0] == Opening()
    ensures Come(es, ps[0], ps, 0)
  {
    es := Opened();
    assert ps[..1] == [ps[0]];
  }

  /** A path can be played up to the position before its last. */
  lemma {:induction false} ComeTo(es: seq<Event>, first: (Grid, Color), ps: seq<(Grid, Color)>, k: nat)
    returns (es': seq<Event>)
    requires Path(ps) && k + 1 < |ps| && Come(es, first, ps, 0)
    ensures Come(es', first, ps, k)
  {
    if k == 0 {
      es' := es;
    } else {
      es' := ComeTo(es, first, ps, k - 1);
      es' := ComeOn(es', first, ps, k - 1);
    }
  }

  // ----- Two rooks going back and forth -----

  /** A step forward and back of red's rook, and of black's in between. */
  function ShuffleMove(i: nat): Move {
    if i == 0 then Move(0, 9, 0, 8) else if i == 1 then Move(0, 0, 0, 1)
    else if i == 2 then Move(0, 8, 0, 9) else Move(0, 1, 0, 0)
  }

  function ShuffleGrid(i: nat): Grid {
    var g := InitialGrid();
    if i == 0 then g
    else if i == 1 then Apply(g, Move(0, 9, 0, 8))
    else if i == 2 then Apply(Apply(g, Move(0, 9, 0, 8)), Move(0, 0, 0, 1))
    else Apply(g, Move(0, 0, 0, 1))
  }

  function TurnAt(i: nat): Color {
    if i % 2 == 0 then Red else Black
  }

  /** The positions they go through. */
  function Shuffled(i: nat): (Grid, Color) {
    (ShuffleGrid(i), TurnAt(i))
  }

  function After4(i: nat): nat {
    if i == 3 then 0 else i + 1
  }

  lemma ShuffleGoesRound(i: nat)
    requires i < 4
    ensures AfterMove(ShuffleGrid(i), TurnAt(i), ShuffleMove(i)) == Shuffled(After4(i))
  {
    if i == 2 {
      RedRookBack(InitialGrid());
    } else if i == 3 {
      BlackRookBack(InitialGrid());
    }
  }

  lemma BlackRookBack(g: Grid)
    requires At(g, 0, 0) == 14 && At(g, 0, 1) == EMPTY
    ensures Apply(Apply(g, Move(0, 0, 0, 1)), Move(0, 1, 0, 0)) == g
  {
    SameCells(Apply(Apply(g, Move(0, 0, 0, 1)), Move(0, 1, 0, 0)), g);
  }

  lemma RedRookBack(g: Grid)
    requires At(g, 0, 9) == 4 && At(g, 0, 8) == EMPTY
    ensures Apply(Apply(Apply(g, Move(0, 9, 0, 8)), Move(0, 0, 0, 1)), Move(0, 8, 0, 9)) == Apply(g, Move(0, 0, 0, 1))
  {
    SameCells(Apply(Apply(Apply(g, Move(0, 9, 0, 8)), Move(0, 0, 0, 1)), Move(0, 8, 0, 9)), Apply(g, Move(0, 0, 0, 1)));
  }

  lemma ShuffleReaches(i: nat)
    requires i < 4
    ensures Reaches(ShuffleGrid(i), TurnAt(i), ShuffleMove(i)) && Aside(TurnAt(i), ShuffleMove(i))
  {
    RookSteps(ShuffleGrid(i), TurnAt(i), ShuffleMove(i));
  }

  // ----- Rounds of four positions -----

  /** Four different positions that lead to one another in turn. */
  ghost predicate Round(ps: seq<(Grid, Color)>) {
    && |ps| == 4
    && (forall i {:trigger Spot(ps, i)} :: 0 <= i < 4 ==> Leads(Spot(ps, i), ps[After4(i)]))
    && (forall i, j :: 0 <= i < j < 4 ==> ps[i] != ps[j])
  }

  /** The first positions visited by a game that goes round, its counts started from place f. */
  function Going(ps: seq<(Grid, Color)>, f: nat, n: nat): (visits: seq<(Grid, Color)>)
    requires |ps| == 4 && f < 4
    ensures |visits| == n
  {
    seq(n, i requires 0 <= i < n => ps[if i == 0 then f else i % 4])
  }

  lemma {:induction false} GoingOn(ps: seq<(Grid, Color)>, f: nat, n: nat)
    requires |ps| == 4 && f < 4 && 0 < n
    ensures Going(ps, f, n + 1) == Going(ps, f, n) + [ps[n % 4]] && After4((n - 1) % 4) == n % 4
  {
  }

  /** Going round from place f, the n-th position visited has come up at most once before. */
  predicate Fits(f: nat, n: nat) {
    (f == 0 && 0 < n < 8) || (f == 1 && 6 <= n <= 8)
  }

  lemma {:induction false} FitsOnce(ps: seq<(Grid, Color)>, f: nat, n: nat)
    requires Round(ps) && Fits(f, n)
    ensures multiset(Going(ps, f, n))[ps[n % 4]] <= 1
  {
    OnceCounted(Going(ps, f, n), ps[n % 4]);
  }

  /** The game has visited n positions and stands at the last of them. */
  ghost predicate Gone(es: seq<Event>, first: (Grid, Color), ps: seq<(Grid, Color)>, f: nat, n: nat)
    requires |ps| == 4 && f < 4 && 0 < n
  {
    forall s {:trigger EndsIn(es, s)} | EndsIn(es, s) ::
      Stands(s, first, Going(ps, f, n)) && (s.grid, s.turn) == ps[(n - 1) % 4] && |s.history| == n - 1
  }

  lemma RoundLeads(ps: seq<(Grid, Color)>, n: nat)
    requires Round(ps) && 0 < n
    ensures Leads(ps[(n - 1) % 4], ps[n % 4])
  {
    GoingOn(ps, 0, n);
    assert Leads(Spot(ps, (n - 1) % 4), ps[n % 4]);
  }

  lemma {:induction false} NextInRound(ps: seq<(Grid, Color)>, f: nat, n: nat)
    returns (p: (Grid, Color), q: (Grid, Color), r: (Grid, Color))
    requires Round(ps) && Fits(f, n)
    ensures p == ps[(n - 1) % 4] && q == ps[n % 4] && Leads(p, q) && Leads(q, r)
    ensures multiset(Going(ps, f, n))[q] <= 1 && Going(ps, f, n + 1) == Going(ps, f, n) + [q]
  {
    p, q, r := ps[(n - 1) % 4], ps[n % 4], ps[(n + 1) % 4];
    RoundLeads(ps, n);
    RoundLeads(ps, n + 1);
    GoingOn(ps, f, n);
    FitsOnce(ps, f, n);
  }

  lemma {:induction false} PlayRound(es: seq<Event>, first: (Grid, Color), ps: seq<(Grid, Color)>, f: nat, n: nat)
    returns (es': seq<Event>)
    requires Round(ps) && Fits(f, n) && Gone(es, first, ps, f, n)
    ensures Gone(es', first, ps, f, n + 1)
  {
    var p, q, r := NextInRound(ps, f, n);
    assert EndsIn(es, After(es));
    es' := PlayLeading(es, first, Going(ps, f, n), p, q, r);
  }

  lemma {:induction false} PlayRounds(es: seq<Event>, first: (Grid, Color), ps: seq<(Grid, Color)>, f: nat, m: nat,
                                      n: nat)
    returns (es': seq<Event>)
    requires Round(ps) && f < 4 && 0 < m <= n && Gone(es, first, ps, f, m) && forall i :: m <= i < n ==> Fits(f, i)
    ensures Gone(es', first, ps, f, n)
  {
    if m == n {
      es' := es;
    } else {
      es' := PlayRounds(es, first, ps, f, m, n - 1);
      es' := PlayRound(es', first, ps, f, n - 1);
    }
  }

  /** From the last place visited the game goes elsewhere. */
  lemma {:induction false} PlayAway(es: seq<Event>, first: (Grid, Color), ps: seq<(Grid, Color)>, f: nat, n: nat,
                                    q: (Grid, Color), r: (Grid, Color))
    returns (es': seq<Event>)
    requires Round(ps) && f < 4 && 0 < n && Gone(es, first, ps, f, n)
    requires Leads(ps[(n - 1) % 4], q) && Leads(q, r) && forall i :: 0 <= i < 4 ==> q != ps[i]
    ensures Stands(After(es'), first, Going(ps, f, n) + [q]) && |After(es').history| == n
  {
    assert EndsIn(es, After(es));
    assert q !in Going(ps, f, n);
    es' := PlayLeading(es, first, Going(ps, f, n), ps[(n - 1) % 4], q, r);
  }

  // ----- The rooks' round -----

  lemma ShuffledApart(i: nat, j: nat)
    requires i < j < 4
    ensures Shuffled(i) != Shuffled(j)
  {
    if TurnAt(i) == TurnAt(j) {
      assert At(ShuffleGrid(i), 0, 9) != At(ShuffleGrid(j), 0, 9);
    }
  }

  lemma ShuffleCalm(i: nat)
    requires i < 4
    ensures Calm(ShuffleGrid(i))
    decreases i
  {
    if i == 0 {
      InitialCalm();
    } else {
      ShuffleCalm(i - 1);
      ShuffleReaches(i - 1);
      AsideIsLegal(ShuffleGrid(i - 1), TurnAt(i - 1), ShuffleMove(i - 1));
      ShuffleGoesRound(i - 1);
    }
  }

  lemma ShuffleLeads(i: nat)
    requires i < 4
    ensures Leads(Shuffled(i), Shuffled(After4(i)))
  {
    ShuffleCalm(i);
    ShuffleGoesRound(i);
    ShuffleReaches(i);
    AsideLeads(ShuffleGrid(i), TurnAt(i), ShuffleMove(i));
  }

  function Shuffle(): seq<(Grid, Color)> {
    seq(4, i requires 0 <= i < 4 => Shuffled(i))
  }

  lemma {:induction false} ShuffleIsRound(ps: seq<(Grid, Color)>)
    requires |ps| == 4 && forall i :: 0 <= i < 4 ==> ps[i] == Shuffled(i)
    ensures Round(ps)
  {
    forall i | 0 <= i < 4
      ensures Leads(Spot(ps, i), ps[After4(i)])
    {
      ShuffleLeads(i);
    }
    forall i, j | 0 <= i < j < 4
      ensures ps[i] != ps[j]
    {
      ShuffledApart(i, j);
    }
  }

  /** From the opening red's other rook can step forward instead, to a position outside the round,
      and black's rook too. */
  lemma LeavingLeads() returns (q: (Grid, Color), r: (Grid, Color))
    ensures Leads(Opening(), q) && Leads(q, r) && forall i :: 0 <= i < 4 ==> q != Shuffled(i)
  {
    var g := InitialGrid();
    q, r := RooksLead(g);
    forall i | 0 <= i < 4
      ensures q != Shuffled(i)
    {
      assert At(q.0, 8, 9) != At(ShuffleGrid(i), 8, 9);
    }
  }

  lemma RooksLead(g: Grid) returns (q: (Grid, Color), r: (Grid, Color))
    requires g == InitialGrid()
    ensures Leads((g, Red), q) && Leads(q, r) && At(q.0, 8, 9) == EMPTY
  {
    var m, n := Move(8, 9, 8, 8), Move(0, 0, 0, 1);
    InitialCalm();
    RookSteps(g, Red, m);
    AsideLeads(g, Red, m);
    q := AfterMove(g, Red, m);
    RookSteps(q.0, Black, n);
    AsideLeads(q.0, Black, n);
    r := AfterMove(q.0, Black, n);
  }

  // ----- A reachable game that its stored moves do not rebuild -----

  lemma {:induction false} VisitedFrom(first: (Grid, Color), other: (Grid, Color), h: seq<MoveRecord>)
    ensures Visited(other, h) == [other] + Visited(first, h)[1..]
  {
    if h != [] {
      VisitedFrom(first, other, h[..|h| - 1]);
    }
  }

  lemma {:induction false} VisitedPrefix(first: (Grid, Color), h: seq<MoveRecord>, n: nat)
    requires n <= |h|
    ensures Visited(first, h[..n]) == Visited(first, h)[..n + 1]
    decreases |h|
  {
    if n == |h| {
      assert h[..n] == h;
    } else {
      VisitedPrefix(first, h[..|h| - 1], n);
      assert h[..|h| - 1][..n] == h[..n];
    }
  }

  lemma {:induction false} LastByVisits(q: seq<MoveRecord>, p: (Grid, Color))
    requires q != [] && p == (Last(q).boardAfter, Opponent(Last(q).player))
    ensures NotThird(q) <==> multiset(Visited(Opening(), q))[p] < REPETITION_THRESHOLD
  {
    CountsCountPositions(Opening(), q, p);
  }

  lemma LastVisited(first: (Grid, Color), q: seq<MoveRecord>)
    requires q != []
    ensures Visited(first, q)[|q|] == (Last(q).boardAfter, Opponent(Last(q).player))
  {
  }

  /** A prefix ends in a third occurrence exactly if its last position is visited three times. */
  lemma {:induction false} ThirdByVisits(h: seq<MoveRecord>, n: nat, visits: seq<(Grid, Color)>)
    requires 0 < n <= |h| && visits == Visited(Opening(), h)
    ensures NotThird(h[..n]) <==> multiset(visits[..n + 1])[visits[n]] < REPETITION_THRESHOLD
  {
    VisitedPrefix(Opening(), h, n);
    LastVisited(Opening(), h[..n]);
    LastByVisits(h[..n], visits[n]);
  }

  /** Taking back no move from a game in play counts anew from the position it stands in. */
  lemma {:induction false} TakeBackNothing(es: seq<Event>, first: (Grid, Color), visits: seq<(Grid, Color)>)
    returns (es': seq<Event>)
    requires Stands(After(es), first, visits)
    ensures es' == es + [TakeBack(0)]
    ensures var s := After(es); var e := After(es');
      && Stands(e, (s.grid, s.turn), [(s.grid, s.turn)] + visits[1..])
      && e.grid == s.grid && e.turn == s.turn && e.history == s.history
  {
    es' := es + [TakeBack(0)];
    OneMoreEvent(es, TakeBack(0));
    var s := After(es);
    ReachableCoherent(es);
    assert s.history[..|s.history|] == s.history;
    VisitedFrom(first, (s.grid, s.turn), s.history);
  }

  lemma {:induction false} AtOpening(es: seq<Event>, ps: seq<(Grid, Color)>)
    requires |ps| == 4 && ps[0] == Opening()
    requires Stands(After(es), Opening(), [Opening()]) && After(es).history == []
    requires After(es).grid == InitialGrid() && After(es).turn == Red
    ensures Gone(es, ps[0], ps, 0, 1)
  {
    assert Going(ps, 0, 1) == [ps[0]];
  }

  /** An undo of no moves on the second round moves the first count to the position it finds. */
  lemma {:induction false} RoundUndone(es: seq<Event>, ps: seq<(Grid, Color)>, n: nat) returns (es': seq<Event>)
    requires Round(ps) && n == 6 && Gone(es, ps[0], ps, 0, n)
    ensures Gone(es', ps[1], ps, 1, n)
  {
    assert EndsIn(es, After(es));
    es' := TakeBackNothing(es, ps[0], Going(ps, 0, n));
    OtherStart(ps, 0, 1, n);
  }

  lemma {:induction false} OtherStart(ps: seq<(Grid, Color)>, f: nat, k: nat, n: nat)
    requires |ps| == 4 && f < 4 && k < 4 && n > 0
    ensures Going(ps, k, n) == [ps[k]] + Going(ps, f, n)[1..]
  {
  }

  /** Of these positions only the ninth is visited for the third time. */
  lemma {:induction false} NinthIsThird(ps: seq<(Grid, Color)>, n: nat)
    requires Round(ps) && 0 < n <= 8
    ensures multiset(Going(ps, 0, n + 1))[ps[n % 4]] < REPETITION_THRESHOLD <==> n < 8
  {
    GoingOn(ps, 0, n);
    if n < 8 {
      FitsOnce(ps, 0, n);
    } else {
      Thrice(Going(ps, 0, n + 1), ps[0]);
    }
  }

  lemma {:induction false} Thrice<T>(s: seq<T>, x: T)
    requires |s| == 9 && s[0] == x && s[4] == x && s[8] == x
    ensures multiset(s)[x] >= 3
  {
    assert s == [s[0]] + s[1..4] + [s[4]] + s[5..8] + [s[8]];
  }

  lemma {:induction false} ThirdInRound(h: seq<MoveRecord>, ps: seq<(Grid, Color)>, n: nat, q: (Grid, Color))
    requires Round(ps) && |h| == 9 && 0 < n < |h| && Visited(Opening(), h) == Going(ps, 0, |h|) + [q]
    ensures NotThird(h[..n]) <==> n < 8
  {
    var visits := Going(ps, 0, |h|) + [q];
    assert visits[..n + 1] == Going(ps, 0, n + 1);
    ThirdByVisits(h, n, visits);
    NinthIsThird(ps, n);
  }

  lemma {:induction false} StopsAtEight(h: seq<MoveRecord>, ps: seq<(Grid, Color)>, q: (Grid, Color))
    requires Round(ps) && ValidHistory(h) && |h| == 9 && Visited(Opening(), h) == Going(ps, 0, |h|) + [q]
    ensures !NoThirdBefore(h)
    ensures var r := Replay(StoredMoves(h)); r.history == h[..8] && r.outcome == EndedBy(None, ThreefoldRepetition)
  {
    forall n | 0 < n <= 8
      ensures NotThird(h[..n]) <==> n < 8
    {
      ThirdInRound(h, ps, n, q);
    }
    ReplayStops(h, 8);
  }

  lemma {:induction false} FiveMoves(ps: seq<(Grid, Color)>) returns (es: seq<Event>)
    requires Round(ps) && ps[0] == Opening()
    ensures Gone(es, ps[0], ps, 0, 6)
  {
    es := Opened();
    AtOpening(es, ps);
    es := PlayRounds(es, ps[0], ps, 0, 1, 6);
  }

  lemma {:induction false} EightMoves(es: seq<Event>, ps: seq<(Grid, Color)>) returns (es': seq<Event>)
    requires Round(ps) && Gone(es, ps[0], ps, 0, 6)
    ensures Gone(es', ps[1], ps, 1, 9)
  {
    es' := RoundUndone(es, ps, 6);
    es' := PlayRounds(es', ps[1], ps, 1, 6, 9);
  }

  lemma {:induction false} NineFallShort(h: seq<MoveRecord>, ps: seq<(Grid, Color)>, q: (Grid, Color))
    requires Round(ps) && ps[0] == Opening() && ValidHistory(h) && |h| == 9
    requires Visited(ps[1], h) == Going(ps, 1, |h|) + [q]
    ensures !NoThirdBefore(h)
    ensures var r := Replay(StoredMoves(h)); r.history == h[..8] && r.outcome == EndedBy(None, ThreefoldRepetition)
  {
    VisitedFrom(ps[1], Opening(), h);
    OtherStart(ps, 1, 0, |h|);
    StopsAtEight(h, ps, q);
  }

  /** Undo lets the code reach a game in play that its own stored moves do not rebuild: of the nine
      moves of this one a replay makes eight, which end in a draw by repetition. */
  lemma ReplayFallsShort() returns (es: seq<Event>)
    ensures var s := After(es); var r := Replay(StoredMoves(s.history));
      && s.outcome.phase == Playing && |s.history| == 9 && !NoThirdBefore(s.history)
      && r.history == s.history[..8] && r.outcome == EndedBy(None, ThreefoldRepetition)
  {
    var ps := Shuffle();
    ShuffleIsRound(ps);
    var q, r := LeavingLeads();
    es := FiveMoves(ps);
    es := EightMoves(es, ps);
    es := GoneFallsShort(es, ps, 9, q, r);
  }

  lemma {:induction false} GoneFallsShort(es: seq<Event>, ps: seq<(Grid, Color)>, n: nat,
                                          q: (Grid, Color), r: (Grid, Color))
    returns (es': seq<Event>)
    requires Round(ps) && ps[0] == Opening() && n == 9 && Gone(es, ps[1], ps, 1, n)
    requires Leads(ps[0], q) && Leads(q, r) && forall i :: 0 <= i < 4 ==> q != ps[i]
    ensures var s := After(es'); var r := Replay(StoredMoves(s.history));
      && s.outcome.phase == Playing && |s.history| == 9 && !NoThirdBefore(s.history)
      && r.history == s.history[..8] && r.outcome == EndedBy(None, ThreefoldRepetition)
  {
    es' := PlayAway(es, ps[1], ps, 1, n, q, r);
    ReachableCoherent(es');
    NineFallShort(After(es').history, ps, q);
  }
}
