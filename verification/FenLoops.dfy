/** The loops that print and parse position texts. */
module FenLoops {
  import opened Types
  import opened BoardModel
  import opened Fen

  lemma PieceAppended(line: string, run: string, piece: string, rest: string)
    ensures line + (run + piece + rest) == (line + run + piece) + rest
  {
  }

  method PrintRow(cells: seq<Cell>) returns (line: string)
    requires |cells| == COLS
    ensures line == RowText(cells, 0)
  {
    line := "";
    var empty := 0;
    for col := 0 to COLS
      invariant 0 <= empty <= col
      invariant line + RowText(cells[col..], empty) == RowText(cells, 0)
    {
      assert cells[col..][1..] == cells[col + 1..];
      if cells[col] < 0 {
        empty := empty + 1;
      } else {
        PieceAppended(line, Run(empty), [PieceChar(cells[col])], RowText(cells[col + 1..], 0));
        if empty > 0 {
          line := line + [DigitChar(empty)];
        }
        line := line + [PieceChar(cells[col])];
        empty := 0;
      }
    }
    if empty > 0 {
      line := line + [DigitChar(empty)];
    }
  }

  method PrintBoard(board: Board, turn: Color) returns (fen: string)
    ensures fen == BoardToFen(board.cells, turn)
  {
    var lines: seq<string> := [];
    var rows: seq<seq<Cell>> := board.cells;
    for row := 0 to ROWS
      invariant lines == RowTexts(rows)[..row]
    {
      var line := PrintRow(rows[row]);
      lines := lines + [line];
    }
    assert RowTexts(rows)[..ROWS] == RowTexts(rows);
    fen := Join(lines, '/') + " " + [TurnChar(turn)] + " - - 0 1";
  }

  /** One row of the server's parser, written into the board. */
  method ReadRowInto(board: Board, text: string, row: int)
    modifies board
    ensures board.cells == ReadRow(old(board.cells), text, 0, row)
  {
    var col := 0;
    for k := 0 to |text|
      invariant ReadRow(board.cells, text[k..], col, row) == ReadRow(old(board.cells), text, 0, row)
    {
      var ch := text[k];
      assert text[k..][1..] == text[k + 1..];
      ghost var before, start := board.cells, col;
      if IsDigit(ch) {
        var count := DigitValue(ch);
        for j := 0 to count
          invariant Fill(board.cells, col, row, EMPTY, count - j) == Fill(before, start, row, EMPTY, count)
        {
          if col < COLS {
            board.Set(col, row, EMPTY);
            col := col + 1;
          }
        }
        assert Fill(board.cells, col, row, EMPTY, 0) == (board.cells, col);
      } else {
        if col < COLS {
          board.Set(col, row, LetterPiece(ch));
          col := col + 1;
        }
        assert (board.cells, col) == Fill(before, start, row, LetterPiece(ch), 1);
      }
      assert (board.cells, col) == ReadChar(before, ch, start, row);
    }
    assert text[|text|..] == [];
  }

  method ReadFen(fen: string) returns (board: Board)
    ensures fresh(board) && board.cells == FenToBoard(fen)
  {
    var texts := Split(Split(fen, ' ')[0], '/');
    board := new Board(InitialGrid());
    for i := 0 to |texts|
      invariant fresh(board)
      invariant ReadRows(board.cells, texts[i..], i) == FenToBoard(fen)
    {
      assert texts[i..][1..] == texts[i + 1..];
      ReadRowInto(board, texts[i], i);
    }
    assert texts[|texts|..] == [];
  }

  method ClientReadChar(ch: char) returns (cells: seq<Cell>)
    ensures cells == ClientCells(ch)
  {
    cells := [];
    if '1' <= ch <= '9' {
      for j := 0 to DigitValue(ch)
        invariant cells == Repeat(EMPTY, j)
      {
        RepeatMore(EMPTY, j);
        cells := cells + [EMPTY];
      }
    } else if IsLetter(ch) {
      cells := [LetterPiece(ch)];
    }
  }

  method ClientReadRow(text: string) returns (row: seq<Cell>)
    ensures row == ClientRow(text)
  {
    row := [];
    for k := 0 to |text|
      invariant row + ClientRow(text[k..]) == ClientRow(text)
    {
      var cells := ClientReadChar(text[k]);
      assert text[k..][1..] == text[k + 1..];
      row := row + cells;
    }
    assert text[|text|..] == [];
  }

  method ClientReadFen(fen: string) returns (board: seq<seq<Cell>>)
    ensures board == ClientParse(fen)
  {
    var texts := Split(Split(fen, ' ')[0], '/');
    board := [];
    for i := 0 to |texts|
      invariant board + ClientRows(texts[i..]) == ClientRows(texts)
    {
      var row := ClientReadRow(texts[i]);
      assert texts[i..][1..] == texts[i + 1..];
      board := board + [row];
    }
    assert texts[|texts|..] == [];
  }
}
