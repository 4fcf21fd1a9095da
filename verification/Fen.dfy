/** The position text of chess/piece.py, its parser there, and the client's parser in
    cmd/web/src/types/chess.ts. */
module Fen {
  import opened Types

  // ----- Printing -----

  function DigitChar(n: nat): char
    requires n <= 9
  {
    '0' + n as char
  }

  function PieceChar(p: Cell): char
    requires IsPiece(p)
  {
    match p
    case 0 => 'K' case 1 => 'A' case 2 => 'B' case 3 => 'N' case 4 => 'R' case 5 => 'C' case 6 => 'P'
    case 10 => 'k' case 11 => 'a' case 12 => 'b' case 13 => 'n' case 14 => 'r' case 15 => 'c' case _ => 'p'
  }

  /** A run of empty cells is one digit; no run is no text. */
  function Run(empty: nat): string
    requires empty <= 9
  {
    if empty > 0 then [DigitChar(empty)] else ""
  }

  /** The text of a row from a column on, with a run of empty cells still to be written. */
  function RowText(cells: seq<Cell>, empty: nat): string
    requires empty + |cells| <= 9
  {
    if cells == [] then Run(empty)
    else if cells[0] < 0 then RowText(cells[1..], empty + 1)
    else Run(empty) + [PieceChar(cells[0])] + RowText(cells[1..], 0)
  }

  predicate RowsFit(rows: seq<seq<Cell>>) {
    forall i :: 0 <= i < |rows| ==> |rows[i]| <= 9
  }

  function RowTexts(rows: seq<seq<Cell>>): seq<string>
    requires RowsFit(rows)
  {
    seq(|rows|, i requires 0 <= i < |rows| => RowText(rows[i], 0))
  }

  function Join(parts: seq<string>, sep: char): string {
    if parts == [] then ""
    else if |parts| == 1 then parts[0]
    else parts[0] + [sep] + Join(parts[1..], sep)
  }

  function TurnChar(turn: Color): char {
    if turn == Black then 'b' else 'r'
  }

  function BoardToFen(g: Grid, turn: Color): string {
    Join(RowTexts(g), '/') + " " + [TurnChar(turn)] + " - - 0 1"
  }

  lemma PieceFrom(row: seq<Cell>, k: nat, empty: nat)
    requires k < |row| && empty + |row| - k <= 9 && row[k] >= 0
    ensures RowText(row[k..], empty) == Run(empty) + [PieceChar(row[k])] + RowText(row[k + 1..], 0)
  {
    assert row[k..][1..] == row[k + 1..];
  }

  lemma EmptyFrom(row: seq<Cell>, k: nat, empty: nat)
    requires k < |row| && empty + |row| - k <= 9 && row[k] < 0
    ensures RowText(row[k..], empty) == RowText(row[k + 1..], empty + 1)
  {
    assert row[k..][1..] == row[k + 1..];
  }

  lemma {:induction false} EmptiesFrom(row: seq<Cell>, k: nat, n: nat, empty: nat)
    requires k + n <= |row| && empty + |row| - k <= 9 && forall i :: k <= i < k + n ==> row[i] == EMPTY
    ensures RowText(row[k..], empty) == RowText(row[k + n..], empty + n)
  {
    if n > 0 {
      EmptiesFrom(row, k, n - 1, empty);
      EmptyFrom(row, k + n - 1, empty + n - 1);
    }
  }

  lemma EmptyRowText(row: seq<Cell>)
    requires |row| == 9 && forall i :: 0 <= i < |row| ==> row[i] == EMPTY
    ensures RowText(row, 0) == "9"
  {
    EmptiesFrom(row, 0, 9, 0);
    assert row[0..] == row;
  }

  /** A row without empty cells has a letter for each. */
  lemma {:induction false} FullRowText(row: seq<Cell>)
    requires |row| <= 9 && forall i :: 0 <= i < |row| ==> row[i] >= 0
    ensures |RowText(row, 0)| == |row| && forall i :: 0 <= i < |row| ==> RowText(row, 0)[i] == PieceChar(row[i])
  {
    if row != [] {
      FullRowText(row[1..]);
      assert RowText(row, 0) == [PieceChar(row[0])] + RowText(row[1..], 0);
    }
  }

  lemma RedRankText(row: seq<Cell>)
    requires row == [4, 3, 2, 1, 0, 1, 2, 3, 4]
    ensures RowText(row, 0) == "RNBAKABNR"
  {
    FullRowText(row);
  }

  lemma BlackRankText(row: seq<Cell>)
    requires row == [14, 13, 12, 11, 10, 11, 12, 13, 14]
    ensures RowText(row, 0) == "rnbakabnr"
  {
    FullRowText(row);
  }

  /** Some empty cells, a piece, and the rest of the row. */
  lemma RunAndPiece(row: seq<Cell>, k: nat, n: nat, rest: string)
    requires k + n < |row| <= 9 && row[k + n] >= 0 && forall i :: k <= i < k + n ==> row[i] == EMPTY
    requires rest == RowText(row[k + n + 1..], 0)
    ensures RowText(row[k..], 0) == Run(n) + [PieceChar(row[k + n])] + rest
  {
    EmptiesFrom(row, k, n, 0);
    PieceFrom(row, k + n, n);
  }

  lemma CannonText(row: seq<Cell>, p: Cell)
    requires (p == 5 || p == 15) && |row| == 9 && row[1] == p && row[7] == p
    requires forall i :: 0 <= i < 9 && i != 1 && i != 7 ==> row[i] == EMPTY
    ensures RowText(row, 0) == if p == 5 then "1C5C1" else "1c5c1"
  {
    EmptiesFrom(row, 8, 1, 0);
    RunAndPiece(row, 2, 5, "1");
    RunAndPiece(row, 0, 1, "5" + [PieceChar(p)] + "1");
    assert row[0..] == row;
  }

  lemma PawnStep(row: seq<Cell>, k: nat, p: Cell, rest: string)
    requires k + 1 < |row| <= 9 && row[k] == EMPTY && row[k + 1] == p && p >= 0 && rest == RowText(row[k + 2..], 0)
    ensures RowText(row[k..], 0) == ['1', PieceChar(p)] + rest
  {
    RunAndPiece(row, k, 1, rest);
  }

  lemma PawnText(row: seq<Cell>, p: Cell, c: char)
    requires p >= 0 && c == PieceChar(p) && row == [p, -1, p, -1, p, -1, p, -1, p]
    ensures RowText(row, 0) == [c, '1', c, '1', c, '1', c, '1', c]
  {
    PawnStep(row, 7, p, []);
    PawnStep(row, 5, p, ['1', c]);
    PawnStep(row, 3, p, ['1', c, '1', c]);
    PawnStep(row, 1, p, ['1', c, '1', c, '1', c]);
    RunAndPiece(row, 0, 0, ['1', c, '1', c, '1', c, '1', c]);
    assert row[0..] == row;
  }

  /** The opening's text, row by row and letter by letter. */
  lemma OpeningText(g: Grid, turn: Color, rows: seq<string>)
    requires g == InitialGrid() && rows == RowTexts(g)
    ensures |rows| == 10 && rows[0] == "rnbakabnr" && rows[2] == "1c5c1" && rows[3] == "p1p1p1p1p"
    ensures rows[6] == "P1P1P1P1P" && rows[7] == "1C5C1" && rows[9] == "RNBAKABNR"
    ensures rows[1] == rows[4] == rows[5] == rows[8] == "9"
    ensures BoardToFen(g, turn) == Join(rows, '/') + " " + (if turn == Red then "r" else "b") + " - - 0 1"
  {
    InitialTexts(g);
  }

  lemma InitialTexts(g: Grid)
    requires g == InitialGrid()
    ensures RowText(g[0], 0) == "rnbakabnr" && RowText(g[2], 0) == "1c5c1" && RowText(g[3], 0) == "p1p1p1p1p"
    ensures RowText(g[6], 0) == "P1P1P1P1P" && RowText(g[7], 0) == "1C5C1" && RowText(g[9], 0) == "RNBAKABNR"
    ensures RowText(g[1], 0) == RowText(g[4], 0) == RowText(g[5], 0) == RowText(g[8], 0) == "9"
  {
    InitialRows();
    BlackRankText(g[0]);
    CannonText(g[2], 15);
    PawnText(g[3], 16, 'p');
    PawnText(g[6], 6, 'P');
    CannonText(g[7], 5);
    RedRankText(g[9]);
    EmptyRowText(g[1]);
    EmptyRowText(g[4]);
    EmptyRowText(g[5]);
    EmptyRowText(g[8]);
  }

  // ----- Parsing -----

  /** The pieces of a text between separators; a text without one is a single piece. */
  function Split(s: string, sep: char): (parts: seq<string>)
    ensures parts != []
  {
    if s == [] then [""]
    else if s[0] == sep then [""] + Split(s[1..], sep)
    else
      var rest := Split(s[1..], sep);
      [[s[0]] + rest[0]] + rest[1..]
  }

  function BoardRows(fen: string): seq<string> {
    Split(Split(fen, ' ')[0], '/')
  }

  /** The piece a letter stands for, and an empty cell for any other character. */
  function LetterPiece(ch: char): Cell {
    match ch
    case 'K' => 0 case 'A' => 1 case 'B' => 2 case 'N' => 3 case 'R' => 4 case 'C' => 5 case 'P' => 6
    case 'k' => 10 case 'a' => 11 case 'b' => 12 case 'n' => 13 case 'r' => 14 case 'c' => 15 case 'p' => 16
    case _ => EMPTY
  }

  predicate IsDigit(ch: char) {
    '0' <= ch <= '9'
  }

  function DigitValue(ch: char): nat
    requires IsDigit(ch)
  {
    ch as int - '0' as int
  }

  /** Writes n cells of value p from (col, row) on, as far as the row goes. */
  function Fill(g: Grid, col: nat, row: int, p: Cell, n: nat): (Grid, nat)
    decreases n
  {
    if n == 0 || col >= COLS then (g, col) else Fill(Put(g, col, row, p), col + 1, row, p, n - 1)
  }

  function ReadRow(g: Grid, text: string, col: nat, row: int): Grid
    decreases text
  {
    if text == [] then g
    else
      var (h, next) := ReadChar(g, text[0], col, row);
      ReadRow(h, text[1..], next, row)
  }

  function ReadChar(g: Grid, ch: char, col: nat, row: int): (Grid, nat) {
    if IsDigit(ch) then Fill(g, col, row, EMPTY, DigitValue(ch)) else Fill(g, col, row, LetterPiece(ch), 1)
  }

  function ReadRows(g: Grid, texts: seq<string>, row: nat): Grid
    decreases texts
  {
    if texts == [] then g else ReadRows(ReadRow(g, texts[0], 0, row), texts[1..], row + 1)
  }

  /** The server's parser overwrites the opening layout, so cells the text does not reach keep
      their opening pieces. */
  function FenToBoard(fen: string): Grid {
    ReadRows(InitialGrid(), BoardRows(fen), 0)
  }

  function Repeat(p: Cell, n: nat): seq<Cell> {
    if n == 0 then [] else [p] + Repeat(p, n - 1)
  }

  predicate IsLetter(ch: char) {
    'A' <= ch <= 'Z' || 'a' <= ch <= 'z'
  }

  /** The client's parser appends to a row of its own and skips every other character. */
  function ClientRow(text: string): seq<Cell> {
    if text == [] then [] else ClientCells(text[0]) + ClientRow(text[1..])
  }

  function ClientCells(ch: char): seq<Cell> {
    if '1' <= ch <= '9' then Repeat(EMPTY, DigitValue(ch))
    else if IsLetter(ch) then [LetterPiece(ch)]
    else []
  }

  function ClientRows(texts: seq<string>): seq<seq<Cell>> {
    if texts == [] then [] else [ClientRow(texts[0])] + ClientRows(texts[1..])
  }

  function ClientParse(fen: string): seq<seq<Cell>> {
    ClientRows(BoardRows(fen))
  }

  // ----- Splitting undoes joining -----

  predicate Free(s: string, sep: char) {
    forall i :: 0 <= i < |s| ==> s[i] != sep
  }

  lemma {:induction false} SplitFree(s: string, sep: char)
    requires Free(s, sep)
    ensures Split(s, sep) == [s]
  {
    if s != [] {
      SplitFree(s[1..], sep);
      assert [s[0]] + s[1..] == s;
    }
  }

  lemma {:induction false} SplitAt(s: string, sep: char, rest: string)
    requires Free(s, sep)
    ensures Split(s + [sep] + rest, sep) == [s] + Split(rest, sep)
  {
    var whole := s + [sep] + rest;
    if s == [] {
      assert whole[1..] == rest;
    } else {
      SplitAt(s[1..], sep, rest);
      assert whole[1..] == s[1..] + [sep] + rest;
      assert [s[0]] + s[1..] == s;
    }
  }

  lemma {:induction false} SplitJoin(parts: seq<string>, sep: char)
    requires parts != [] && forall i :: 0 <= i < |parts| ==> Free(parts[i], sep)
    ensures Split(Join(parts, sep), sep) == parts
  {
    if |parts| == 1 {
      SplitFree(parts[0], sep);
    } else {
      SplitJoin(parts[1..], sep);
      SplitAt(parts[0], sep, Join(parts[1..], sep));
    }
  }

  // ----- The printed text -----

  /** What rows are written with: digits from 1 on and piece letters. */
  predicate RowChar(ch: char) {
    '1' <= ch <= '9' || IsLetter(ch)
  }

  lemma {:induction false} RowTextChars(cells: seq<Cell>, empty: nat)
    requires empty + |cells| <= 9
    ensures forall i :: 0 <= i < |RowText(cells, empty)| ==> RowChar(RowText(cells, empty)[i])
  {
    if cells != [] {
      if cells[0] < 0 {
        RowTextChars(cells[1..], empty + 1);
      } else {
        RowTextChars(cells[1..], 0);
        LetterOfPiece(cells[0]);
      }
    }
  }

  lemma LetterOfPiece(p: Cell)
    requires IsPiece(p)
    ensures IsLetter(PieceChar(p)) && LetterPiece(PieceChar(p)) == p
  {
  }

  lemma ClientRowCons(ch: char, rest: string)
    ensures ClientRow([ch] + rest) == ClientCells(ch) + ClientRow(rest)
  {
    assert ([ch] + rest)[1..] == rest;
  }

  lemma ClientRun(empty: nat, rest: string)
    requires empty <= 9
    ensures ClientRow(Run(empty) + rest) == Repeat(EMPTY, empty) + ClientRow(rest)
  {
    if empty > 0 {
      ClientRowCons(DigitChar(empty), rest);
    } else {
      assert Run(empty) + rest == rest;
    }
  }

  lemma {:induction false} RepeatMore(p: Cell, n: nat)
    ensures Repeat(p, n + 1) == Repeat(p, n) + [p]
  {
    if n > 0 {
      RepeatMore(p, n - 1);
    }
  }

  lemma LetterFirst(cells: seq<Cell>, rest: string)
    requires cells != [] && IsPiece(cells[0]) && ClientRow(rest) == cells[1..]
    ensures ClientRow([PieceChar(cells[0])] + rest) == cells
  {
    LetterOfPiece(cells[0]);
    ClientRowCons(PieceChar(cells[0]), rest);
    assert cells == [cells[0]] + cells[1..];
  }

  lemma LetterReads(cells: seq<Cell>, rest: string, empty: nat)
    requires cells != [] && IsPiece(cells[0]) && empty <= 9 && ClientRow(rest) == cells[1..]
    ensures ClientRow(Run(empty) + [PieceChar(cells[0])] + rest) == Repeat(EMPTY, empty) + cells
  {
    var tail := [PieceChar(cells[0])] + rest;
    LetterFirst(cells, rest);
    ClientRun(empty, tail);
    assert Run(empty) + [PieceChar(cells[0])] + rest == Run(empty) + tail;
  }

  lemma {:induction false} ClientRowReads(cells: seq<Cell>, empty: nat)
    requires empty + |cells| <= 9
    ensures ClientRow(RowText(cells, empty)) == Repeat(EMPTY, empty) + cells
  {
    if cells == [] {
      ClientRun(empty, "");
      assert Run(empty) + "" == Run(empty);
    } else if cells[0] < 0 {
      ClientRowReads(cells[1..], empty + 1);
      EmptyReads(cells, RowText(cells, empty), empty);
    } else {
      ClientRowReads(cells[1..], 0);
      LetterReads(cells, RowText(cells[1..], 0), empty);
    }
  }

  lemma EmptyReads(cells: seq<Cell>, text: string, empty: nat)
    requires cells != [] && cells[0] == EMPTY && ClientRow(text) == Repeat(EMPTY, empty + 1) + cells[1..]
    ensures ClientRow(text) == Repeat(EMPTY, empty) + cells
  {
    RepeatMore(EMPTY, empty);
    assert cells == [EMPTY] + cells[1..];
  }

  lemma {:induction false} ClientRowsAre(texts: seq<string>)
    ensures |ClientRows(texts)| == |texts|
    ensures forall i :: 0 <= i < |texts| ==> ClientRows(texts)[i] == ClientRow(texts[i])
  {
    if texts != [] {
      ClientRowsAre(texts[1..]);
      assert forall i :: 0 < i < |texts| ==>
        texts[i] == texts[1..][i - 1] && ClientRows(texts)[i] == ClientRows(texts[1..])[i - 1];
    }
  }

  lemma {:induction false} JoinFree(parts: seq<string>, sep: char, other: char)
    requires sep != other && forall i :: 0 <= i < |parts| ==> Free(parts[i], other)
    ensures Free(Join(parts, sep), other)
  {
    if |parts| > 1 {
      JoinFree(parts[1..], sep, other);
    }
  }

  lemma RowsOfFen(g: Grid, turn: Color)
    ensures BoardRows(BoardToFen(g, turn)) == RowTexts(g)
  {
    var texts := RowTexts(g);
    forall i | 0 <= i < |texts|
      ensures Free(texts[i], '/') && Free(texts[i], ' ')
    {
      RowTextChars(g[i], 0);
    }
    JoinFree(texts, '/', ' ');
    var board, rest := Join(texts, '/'), [TurnChar(turn)] + " - - 0 1";
    assert BoardToFen(g, turn) == board + [' '] + rest;
    SplitAt(board, ' ', rest);
    SplitJoin(texts, '/');
  }

  /** The client reads back exactly the board the server printed. */
  lemma ClientRoundTrip(g: Grid, turn: Color)
    ensures ClientParse(BoardToFen(g, turn)) == g
  {
    RowsOfFen(g, turn);
    ClientRowsAre(RowTexts(g));
    forall i | 0 <= i < ROWS
      ensures ClientParse(BoardToFen(g, turn))[i] == g[i]
    {
      ClientRowReads(g[i], 0);
    }
  }

  // ----- What the server reads -----

  /** What a character writes: a digit as many empty cells, any other one cell. */
  function ServerCells(ch: char): seq<Cell> {
    if IsDigit(ch) then Repeat(EMPTY, DigitValue(ch)) else [LetterPiece(ch)]
  }

  /** What a text writes into its row, wider than the board or not. */
  function ServerRow(text: string): seq<Cell> {
    if text == [] then [] else ServerCells(text[0]) + ServerRow(text[1..])
  }

  /** h is g with the given cells written into a row from col on, as far as they are on the board. */
  ghost predicate Written(h: Grid, g: Grid, row: int, col: nat, cells: seq<Cell>) {
    forall c, r :: OnBoard(c, r) ==>
      At(h, c, r) == if r == row && col <= c < col + |cells| then cells[c - col] else At(g, c, r)
  }

  lemma WrittenMore(f: Grid, h: Grid, g: Grid, row: int, col: nat, a: seq<Cell>, b: seq<Cell>)
    requires Written(h, g, row, col, a) && Written(f, h, row, col + |a|, b)
    ensures Written(f, g, row, col, a + b)
  {
  }

  /** The column after n more cells, which never passes the end of the row. */
  function Stopped(col: nat, n: nat): nat {
    if col >= COLS then col else if col + n <= COLS then col + n else COLS
  }

  lemma {:induction false} RepeatIs(p: Cell, n: nat)
    ensures |Repeat(p, n)| == n && forall i :: 0 <= i < n ==> Repeat(p, n)[i] == p
  {
    if n > 0 {
      RepeatIs(p, n - 1);
    }
  }

  lemma PutWrites(g: Grid, col: nat, row: int, p: Cell)
    ensures Written(Put(g, col, row, p), g, row, col, [p])
  {
  }

  lemma {:induction false} FillWrites(g: Grid, col: nat, row: int, p: Cell, n: nat)
    ensures |Repeat(p, n)| == n && Fill(g, col, row, p, n).1 == Stopped(col, n)
    ensures Written(Fill(g, col, row, p, n).0, g, row, col, Repeat(p, n))
    decreases n
  {
    RepeatIs(p, n);
    if n > 0 && col < COLS {
      var h := Put(g, col, row, p);
      PutWrites(g, col, row, p);
      FillWrites(h, col + 1, row, p, n - 1);
      WrittenMore(Fill(h, col + 1, row, p, n - 1).0, h, g, row, col, [p], Repeat(p, n - 1));
    }
  }

  lemma ReadCharWrites(g: Grid, ch: char, col: nat, row: int)
    ensures Written(ReadChar(g, ch, col, row).0, g, row, col, ServerCells(ch))
    ensures ReadChar(g, ch, col, row).1 == Stopped(col, |ServerCells(ch)|)
  {
    var n := if IsDigit(ch) then DigitValue(ch) else 1;
    var p := if IsDigit(ch) then EMPTY else LetterPiece(ch);
    assert ServerCells(ch) == Repeat(p, n) by {
      if !IsDigit(ch) { assert Repeat(p, 1) == [p] + Repeat(p, 0); }
    }
    FillWrites(g, col, row, p, n);
  }

  /** Behind the end of the row nothing is written. */
  lemma {:induction false} FullRowStays(g: Grid, text: string, col: nat, row: int)
    ensures col >= COLS ==> ReadRow(g, text, col, row) == g
    decreases text
  {
    if text != [] && col >= COLS {
      FullRowStays(g, text[1..], col, row);
    }
  }

  lemma {:induction false} ReadRowWrites(g: Grid, text: string, col: nat, row: int)
    ensures Written(ReadRow(g, text, col, row), g, row, col, ServerRow(text))
    decreases text
  {
    if text != [] {
      ReadCharWrites(g, text[0], col, row);
      var (h, next) := ReadChar(g, text[0], col, row);
      ReadRowWrites(h, text[1..], next, row);
      FullRowStays(h, text[1..], next, row);
      ReadRowOn(ReadRow(h, text[1..], next, row), h, g, row, col, next, ServerCells(text[0]), ServerRow(text[1..]));
    }
  }

  /** The rest of a row is written on from where its first character stopped. */
  lemma ReadRowOn(f: Grid, h: Grid, g: Grid, row: int, col: nat, next: nat, a: seq<Cell>, b: seq<Cell>)
    requires Written(h, g, row, col, a) && next == Stopped(col, |a|) && Written(f, h, row, next, b)
    requires next >= COLS ==> f == h
    ensures Written(f, g, row, col, a + b)
  {
    if next == col + |a| {
      WrittenMore(f, h, g, row, col, a, b);
    }
  }

  /** The texts of rows from a row on write the cell (c, r). */
  predicate Reached(texts: seq<string>, row: nat, c: int, r: int) {
    row <= r < row + |texts| && 0 <= c < |ServerRow(texts[r - row])|
  }

  lemma {:induction false} ReadRowsWrites(g: Grid, texts: seq<string>, row: nat, c: int, r: int)
    requires OnBoard(c, r)
    ensures At(ReadRows(g, texts, row), c, r)
      == if Reached(texts, row, c, r) then ServerRow(texts[r - row])[c] else At(g, c, r)
    decreases texts
  {
    if texts != [] {
      ReadRowWrites(g, texts[0], 0, row);
      ReadRowsWrites(ReadRow(g, texts[0], 0, row), texts[1..], row + 1, c, r);
    }
  }

  /** Whatever the text, a cell it reaches is read from it and any other keeps its opening piece. */
  lemma ServerReads(fen: string, c: int, r: int)
    requires OnBoard(c, r)
    ensures At(FenToBoard(fen), c, r)
      == if Reached(BoardRows(fen), 0, c, r) then ServerRow(BoardRows(fen)[r])[c] else StartCell(c, r)
  {
    ReadRowsWrites(InitialGrid(), BoardRows(fen), 0, c, r);
  }

  /** What the parser is said to read, starting from the board without pieces. */
  function FenToBoardFromBlank(fen: string): Grid {
    ReadRows(Blank(), BoardRows(fen), 0)
  }

  /** Starting from the opening layout makes no difference exactly to the texts that reach every cell
      on which a piece stands in the opening. */
  lemma OpeningShowsThrough(fen: string)
    ensures FenToBoard(fen) == FenToBoardFromBlank(fen) <==>
      forall c, r :: OnBoard(c, r) && IsPiece(StartCell(c, r)) ==> Reached(BoardRows(fen), 0, c, r)
  {
    var read, meant := FenToBoard(fen), FenToBoardFromBlank(fen);
    forall c, r | OnBoard(c, r)
      ensures At(read, c, r) == At(meant, c, r) <==>
        (IsPiece(StartCell(c, r)) ==> Reached(BoardRows(fen), 0, c, r))
    {
      ServerReads(fen, c, r);
      ReadRowsWrites(Blank(), BoardRows(fen), 0, c, r);
    }
    if forall c, r :: OnBoard(c, r) ==> At(read, c, r) == At(meant, c, r) {
      SameCells(read, meant);
    }
  }

  /** The empty text is read as the opening. */
  lemma EmptyTextIsOpening()
    ensures FenToBoard("") == InitialGrid() && FenToBoardFromBlank("") == Blank() && Blank() != InitialGrid()
  {
    assert Split("", ' ') == [""] && Split("", '/') == [""];
    assert BoardRows("") == [""];
    assert At(Blank(), 4, 9) != At(InitialGrid(), 4, 9);
  }

  // ----- The two parsers agree -----

  /** The client reads at most the cells the server does. */
  lemma {:induction false} ClientReadsNoMore(text: string)
    ensures |ClientRow(text)| <= |ServerRow(text)|
  {
    if text != [] {
      ClientReadsNoMore(text[1..]);
    }
  }

  /** A row on which the parsers agree: the client's cells are the first of the server's. */
  predicate RowAgrees(text: string) {
    ClientRow(text) <= ServerRow(text)
  }

  /** Whatever the text, the server reads the board the client reads exactly if the client reads ten
      rows of nine cells and in none of them a character it skips moves a piece for the server. */
  lemma ParsersAgreeExactly(fen: string)
    ensures FenToBoard(fen) == ClientParse(fen) <==>
      IsGrid(ClientParse(fen)) && forall i :: 0 <= i < |BoardRows(fen)| ==> RowAgrees(BoardRows(fen)[i])
  {
    var texts := BoardRows(fen);
    ClientRowsAre(texts);
    if IsGrid(ClientParse(fen)) {
      var read: Grid := ClientParse(fen);
      forall r | 0 <= r < ROWS
        ensures FenToBoard(fen)[r] == read[r] <==> RowAgrees(texts[r])
      {
        RowReadAlike(fen, r);
      }
      if FenToBoard(fen) != read {
        DifferInRow(FenToBoard(fen), read);
      }
    }
  }

  lemma DifferInRow(g: Grid, h: Grid)
    requires g != h
    ensures exists r :: 0 <= r < ROWS && g[r] != h[r]
  {
  }

  lemma RowReadAlike(fen: string, r: int)
    requires 0 <= r < ROWS == |BoardRows(fen)| && |ClientRow(BoardRows(fen)[r])| == COLS
    ensures FenToBoard(fen)[r] == ClientRow(BoardRows(fen)[r]) <==> RowAgrees(BoardRows(fen)[r])
  {
    var text, row := BoardRows(fen)[r], FenToBoard(fen)[r];
    ClientReadsNoMore(text);
    forall c | 0 <= c < COLS
      ensures row[c] == ServerRow(text)[c]
    {
      ServerReads(fen, c, r);
      assert At(FenToBoard(fen), c, r) == row[c];
    }
  }

  /** A character other than digits and letters is an empty cell to the server and nothing to the
      client. */
  lemma SkippedCharacterMoves()
    ensures |ClientRow("-k8")| == COLS && ClientRow("-k8")[0] == 10 && ServerRow("-k8")[..2] == [EMPTY, 10]
    ensures !RowAgrees("-k8")
  {
    assert "-k8"[1..] == "k8" && "k8"[1..] == "8" && "8"[1..] == "";
    RepeatIs(EMPTY, 8);
    assert ClientRow("8") == Repeat(EMPTY, 8) && ServerRow("8") == Repeat(EMPTY, 8);
    assert ClientRow("k8") == [10] + ClientRow("8") && ServerRow("k8") == [10] + ServerRow("8");
    assert ClientRow("-k8") == ClientRow("k8") && ServerRow("-k8") == [EMPTY] + ServerRow("k8");
  }

  /** A text of digits and letters only. */
  predicate Plain(text: string) {
    forall i :: 0 <= i < |text| ==> IsDigit(text[i]) || IsLetter(text[i])
  }

  lemma {:induction false} PlainRowsAgree(text: string)
    requires Plain(text)
    ensures ServerRow(text) == ClientRow(text)
  {
    if text != [] {
      PlainRowsAgree(text[1..]);
    }
  }

  /** So of a text whose rows are written with digits and letters only, exactly if the client reads
      ten rows of nine cells. */
  lemma ParsersAgree(fen: string)
    requires forall i :: 0 <= i < |BoardRows(fen)| ==> Plain(BoardRows(fen)[i])
    ensures FenToBoard(fen) == ClientParse(fen) <==> IsGrid(ClientParse(fen))
  {
    ParsersAgreeExactly(fen);
    forall i | 0 <= i < |BoardRows(fen)|
      ensures RowAgrees(BoardRows(fen)[i])
    {
      PlainRowsAgree(BoardRows(fen)[i]);
    }
  }

  /** The server reads back exactly the board it printed. */
  lemma ServerRoundTrip(g: Grid, turn: Color)
    ensures FenToBoard(BoardToFen(g, turn)) == g
  {
    var fen := BoardToFen(g, turn);
    RowsOfFen(g, turn);
    ClientRoundTrip(g, turn);
    forall i | 0 <= i < |BoardRows(fen)|
      ensures Plain(BoardRows(fen)[i])
    {
      RowTextChars(g[i], 0);
    }
    ParsersAgree(fen);
  }

  /** Position texts identify positions: repetition counting by text counts positions. */
  lemma FenInjective(g: Grid, turn: Color, g': Grid, turn': Color)
    ensures BoardToFen(g, turn) == BoardToFen(g', turn') <==> g == g' && turn == turn'
  {
    if BoardToFen(g, turn) == BoardToFen(g', turn') {
      ClientRoundTrip(g, turn);
      ClientRoundTrip(g', turn');
      var board := Join(RowTexts(g), '/');
      assert BoardToFen(g, turn)[|board| + 1] == TurnChar(turn);
      assert BoardToFen(g', turn')[|board| + 1] == TurnChar(turn');
    }
  }
}
