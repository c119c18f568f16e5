/** An unbounded canvas of rows: what a terminal of fixed size shows a window of. */
module Canvases {
  import opened Bits

  datatype Cell = Cell(character: nat, fg: nat, bg: nat)

  const WHITE: nat := 0xFFFFFF
  const BLACK: nat := 0
  const BLANK: Cell := Cell(32, WHITE, BLACK)

  const NEWLINE: nat := 10
  const BACKSPACE: nat := 8

  /** rows from the first ever shown; top is the first row in the window; x and y place the cursor in it. */
  datatype Canvas = Canvas(width: nat, height: nat, rows: seq<seq<Cell>>, top: nat, x: nat, y: nat, color: nat)

  ghost predicate Proper(c: Canvas) {
    && 0 < c.width && 0 < c.height && c.x < c.width && c.y < c.height
    && |c.rows| == c.top + c.height
    && forall r :: 0 <= r < |c.rows| ==> |c.rows[r]| == c.width
  }

  function BlankRow(width: nat): seq<Cell> {
    seq(width, _ => BLANK)
  }

  function Cleared(width: nat, height: nat, color: nat): Canvas {
    Canvas(width, height, seq(height, _ => BlankRow(width)), 0, 0, 0, color)
  }

  /** The window moves down over a new blank row when the cursor has left it at the bottom. */
  function Scrolled(c: Canvas): Canvas
    requires c.height > 0
  {
    if c.y < c.height then c
    else c.(rows := c.rows + [BlankRow(c.width)], top := c.top + 1, y := c.y - 1)
  }

  function SetCell(rows: seq<seq<Cell>>, row: nat, col: nat, cell: Cell): seq<seq<Cell>>
    requires row < |rows| && col < |rows[row]|
  {
    rows[row := rows[row][col := cell]]
  }

  function Put(c: Canvas, ch: nat): Canvas
    requires Proper(c)
  {
    if ch == NEWLINE then Scrolled(c.(x := 0, y := c.y + 1))
    else if ch == BACKSPACE then
      var (x, y) := if c.x > 0 then (c.x - 1, c.y) else if c.y > 0 then (c.width - 1, c.y - 1) else (c.x, c.y);
      var row := c.top + y;
      c.(x := x, y := y, rows := SetCell(c.rows, row, x, c.rows[row][x].(character := 32)))
    else
      var row := c.top + c.y;
      var d := c.(rows := SetCell(c.rows, row, c.x, c.rows[row][c.x].(character := ch, fg := c.color)));
      if c.x + 1 < c.width then d.(x := c.x + 1) else Scrolled(d.(x := 0, y := c.y + 1))
  }

  lemma PutProper(c: Canvas, ch: nat)
    requires Proper(c)
    ensures Proper(Put(c, ch)) && Put(c, ch).width == c.width && Put(c, ch).height == c.height
    ensures c.top <= Put(c, ch).top && Put(c, ch).rows[..c.top] == c.rows[..c.top]
  {
  }

  ghost function Written(c: Canvas, text: seq<nat>): (d: Canvas)
    requires Proper(c)
    ensures Proper(d) && d.width == c.width && d.height == c.height && c.top <= d.top
    decreases |text|
  {
    if text == [] then c
    else
      var n := |text| - 1;
      var d := Written(c, text[..n]);
      PutProper(d, text[n]);
      Put(d, text[n])
  }

  lemma WrittenOneMore(c: Canvas, text: seq<nat>, ch: nat)
    requires Proper(c)
    ensures Written(c, text + [ch]) == Put(Written(c, text), ch)
  {
    assert (text + [ch])[..|text|] == text;
  }

  lemma ShorterPrefix<T>(s: seq<T>, t: seq<T>, m: nat, n: nat)
    requires n <= m <= |s| && m <= |t| && s[..m] == t[..m]
    ensures s[..n] == t[..n]
  {
    assert s[..n] == s[..m][..n] == t[..m][..n] == t[..n];
  }

  /** Whatever is written, rows that have left the window never change again. */
  lemma {:induction false} RowsAboveFrozen(c: Canvas, text: seq<nat>)
    requires Proper(c)
    ensures Written(c, text).rows[..c.top] == c.rows[..c.top]
    decreases |text|
  {
    hide Put;
    if text != [] {
      var n := |text| - 1;
      var d := Written(c, text[..n]);
      RowsAboveFrozen(c, text[..n]);
      PutProper(d, text[n]);
      ShorterPrefix(d.rows, Put(d, text[n]).rows, d.top, c.top);
    }
  }

  /** A newline changes no cell; the cursor goes to the start of the next canvas row. */
  lemma NewlineMovesDown(c: Canvas)
    requires Proper(c)
    ensures var d := Put(c, NEWLINE);
            d.rows[..|c.rows|] == c.rows && d.top + d.y == c.top + c.y + 1 && d.x == 0
            && (|d.rows| > |c.rows| <==> c.y + 1 == c.height)
  {
  }

  lemma SetCellTwice(rows: seq<seq<Cell>>, row: nat, col: nat, a: Cell, b: Cell)
    requires row < |rows| && col < |rows[row]|
    ensures SetCell(SetCell(rows, row, col, a), row, col, b) == SetCell(rows, row, col, b)
  {
    assert rows[row][col := a][col := b] == rows[row][col := b];
  }

  /** What an ordinary character leaves: one cell changed, the cursor on the cell after it. */
  lemma PutOrdinary(c: Canvas, ch: nat)
    requires Proper(c) && ch != NEWLINE && ch != BACKSPACE
    ensures var d := Put(c, ch); var row := c.top + c.y;
            && d.rows[..|c.rows|] == SetCell(c.rows, row, c.x, c.rows[row][c.x].(character := ch, fg := c.color))
            && d.width == c.width && d.top >= c.top && |d.rows| >= |c.rows|
            && d.top + d.y == (if c.x + 1 < c.width then row else row + 1)
            && d.x == (if c.x + 1 < c.width then c.x + 1 else 0)
            && (d.y == 0 <==> c.y == 0 && (c.x + 1 < c.width || c.height == 1))
  {
  }

  /** A backspace after an ordinary character leaves the cursor at the canvas cell it came from, now a space,
      exactly unless the window has a single row and the character filled it. */
  lemma BackspaceUndoes(c: Canvas, ch: nat)
    requires Proper(c) && ch != NEWLINE && ch != BACKSPACE
    ensures Proper(Put(c, ch))
    ensures var d := Put(Put(c, ch), BACKSPACE); var row := c.top + c.y;
            && (d.top + d.y == row && d.x == c.x <==> !(c.height == 1 && c.x + 1 == c.width))
            && (d.top + d.y == row && d.x == c.x ==>
                  d.rows[..|c.rows|] == SetCell(c.rows, row, c.x, c.rows[row][c.x].(character := 32, fg := c.color)))
  {
    PutProper(c, ch);
    PutOrdinary(c, ch);
    var row, d := c.top + c.y, Put(c, ch);
    var cell := c.rows[row][c.x].(character := ch, fg := c.color);
    if !(c.height == 1 && c.x + 1 == c.width) {
      assert d.rows[row] == d.rows[..|c.rows|][row];
      SetCellTwice(c.rows, row, c.x, cell, cell.(character := 32));
      assert Put(d, BACKSPACE).rows[..|c.rows|] == SetCell(d.rows[..|c.rows|], row, c.x, cell.(character := 32));
    }
  }

  // ----- Plain text -----

  /** Cell x of row y, counted row by row. */
  function At(width: nat, y: nat, x: nat): nat {
    y * width + x
  }

  lemma AtInjective(width: nat, y: nat, x: nat, y': nat, x': nat)
    requires x < width && x' < width && At(width, y, x) == At(width, y', x')
    ensures y == y' && x == x'
  {
    QuotientUnique(At(width, y, x), width, y, x);
    QuotientUnique(At(width, y', x'), width, y', x');
  }

  lemma NextAt(width: nat, y: nat, x: nat)
    requires x < width
    ensures x + 1 < width ==> At(width, y, x + 1) == At(width, y, x) + 1
    ensures x + 1 == width ==> At(width, y + 1, 0) == At(width, y, x) + 1
  {
    assert (y + 1) * width == y * width + width;
  }

  /** Cell k of a plain text written on a cleared screen: the character in the current colour on black, or
      a white space on black past the end. */
  function TextCell(text: seq<nat>, k: nat, color: nat): Cell {
    if k < |text| then Cell(text[k], color, 0x000000) else Cell(32, 0xFFFFFF, 0x000000)
  }

  /** The cells counted row by row read as the text, the rest is blank, and the cursor is on the cell after it.
      The window has moved only as far as that takes. */
  ghost predicate LaidOut(c: Canvas, text: seq<nat>) {
    && Proper(c) && At(c.width, c.top + c.y, c.x) == |text| && (c.top > 0 ==> c.y + 1 == c.height)
    && (forall r: nat, x: nat :: x < c.width && At(c.width, r, x) < |text| ==> r < |c.rows|)
    && forall r: nat, x: nat :: x < c.width && r < |c.rows| ==>
         c.rows[r][x] == TextCell(text, At(c.width, r, x), c.color)
  }

  /** An ordinary character changes one cell of the rows there are; a row it adds is blank. */
  lemma PutOneCell(c: Canvas, ch: nat)
    requires Proper(c) && ch != NEWLINE && ch != BACKSPACE
    ensures var d := Put(c, ch); var row := c.top + c.y;
            && Proper(d) && d.width == c.width && d.height == c.height && d.color == c.color && |c.rows| <= |d.rows|
            && d.rows[row][c.x] == c.rows[row][c.x].(character := ch, fg := c.color)
            && (forall r, x :: 0 <= r < |c.rows| && 0 <= x < c.width && (r != row || x != c.x) ==>
                  d.rows[r][x] == c.rows[r][x])
            && (forall r, x :: |c.rows| <= r < |d.rows| && 0 <= x < c.width ==> d.rows[r][x] == BLANK)
            && d.top + d.y == (if c.x + 1 < c.width then row else row + 1)
            && d.x == (if c.x + 1 < c.width then c.x + 1 else 0)
            && (d.top == c.top || d.y + 1 == d.height) && (c.y + 1 == c.height ==> d.y + 1 == d.height)
  {
    PutProper(c, ch);
  }

  lemma PutLaidOut(c: Canvas, text: seq<nat>, ch: nat)
    requires LaidOut(c, text) && ch != NEWLINE && ch != BACKSPACE
    ensures LaidOut(Put(c, ch), text + [ch]) && Put(c, ch).color == c.color
  {
    hide Put, At;
    var w, row, d := c.width, c.top + c.y, Put(c, ch);
    var all := text + [ch];
    NextAt(w, row, c.x);
    PutOneCell(c, ch);
    forall r: nat, x: nat | x < w && At(w, r, x) < |all|
      ensures r < |d.rows|
    {
      if At(w, r, x) == |text| {
        AtInjective(w, r, x, row, c.x);
      }
    }
    forall r: nat, x: nat | x < w && r < |d.rows|
      ensures d.rows[r][x] == TextCell(all, At(w, r, x), d.color)
    {
      var k := At(w, r, x);
      if k == |text| {
        AtInjective(w, r, x, row, c.x);
        assert c.rows[r][x] == TextCell(text, k, c.color);
      } else if r < |c.rows| {
        assert d.rows[r][x] == c.rows[r][x] == TextCell(text, k, c.color);
      } else {
        assert k >= |text|;
      }
    }
  }

  /** Text without newlines and backspaces from a cleared screen wraps every width characters. */
  lemma {:induction false} PlainTextWraps(width: nat, height: nat, color: nat, text: seq<nat>)
    requires 0 < width && 0 < height && NEWLINE !in text && BACKSPACE !in text
    ensures Proper(Cleared(width, height, color))
    ensures var d := Written(Cleared(width, height, color), text);
            LaidOut(d, text) && d.width == width && d.height == height && d.color == color
    decreases |text|
  {
    var c := Cleared(width, height, color);
    if text == [] {
      assert At(width, 0, 0) == 0;
    } else {
      var n := |text| - 1;
      PlainTextWraps(width, height, color, text[..n]);
      PutLaidOut(Written(c, text[..n]), text[..n], text[n]);
      assert text[..n] + [text[n]] == text;
    }
  }

  /** Rows of the text that have left a window of height rows when the cursor stands at position n. */
  function RowsGone(width: nat, height: nat, n: nat): nat
    requires width > 0
  {
    if n / width < height then 0 else n / width - height + 1
  }

  lemma LaidOutTop(c: Canvas, text: seq<nat>)
    requires LaidOut(c, text)
    ensures c.top == RowsGone(c.width, c.height, |text|)
  {
    QuotientUnique(|text|, c.width, c.top + c.y, c.x);
  }

  // ----- Single characters in full -----

  /** What a backspace does, wherever the cursor is: it stands one cell before, or stays in the window's first
      cell; that cell shows a space in its old colours; nothing else changes. */
  lemma BackspaceInFull(c: Canvas)
    requires Proper(c)
    ensures var d := Put(c, BACKSPACE);
            && d == c.(x := d.x, y := d.y, rows := d.rows) && d.x < c.width && d.y < c.height && |d.rows| == |c.rows|
            && At(c.width, d.y, d.x) == (if c.x == 0 && c.y == 0 then 0 else At(c.width, c.y, c.x) - 1)
            && d.rows[c.top + d.y][d.x] == Cell(32, c.rows[c.top + d.y][d.x].fg, c.rows[c.top + d.y][d.x].bg)
            && forall r, x :: 0 <= r < |c.rows| && 0 <= x < c.width && (r != c.top + d.y || x != d.x) ==>
                 d.rows[r][x] == c.rows[r][x]
  {
    if c.x > 0 {
      NextAt(c.width, c.y, c.x - 1);
    } else if c.y > 0 {
      NextAt(c.width, c.y - 1, c.width - 1);
    }
  }

  /** Every row that a character adds below the window is white spaces on black. */
  lemma NewRowsBlank(c: Canvas, ch: nat, r: nat, x: nat)
    requires Proper(c)
    ensures |Put(c, ch).rows| <= |c.rows| + 1
    ensures |c.rows| <= r < |Put(c, ch).rows| && x < c.width ==>
              |Put(c, ch).rows[r]| == c.width && Put(c, ch).rows[r][x] == Cell(32, 0xFFFFFF, 0x000000)
  {
  }

  /** Typing in white on a blank cell and a backspace give the blank screen back. */
  lemma BlankRestored(c: Canvas, ch: nat)
    requires Proper(c) && ch != NEWLINE && ch != BACKSPACE && c.color == WHITE
    requires c.rows[c.top + c.y][c.x] == BLANK && !(c.height == 1 && c.x + 1 == c.width)
    ensures Proper(Put(c, ch)) && Put(Put(c, ch), BACKSPACE).rows[..|c.rows|] == c.rows
  {
    hide Put;
    PutProper(c, ch);
    BackspaceUndoes(c, ch);
    var row := c.top + c.y;
    assert c.rows[row][c.x := BLANK] == c.rows[row];
  }
}
