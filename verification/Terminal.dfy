/** The terminal: a flat cell buffer with a cursor, wrapping, backspace and in-place scrolling. */
module Terminals {
  import opened Bits
  import opened Canvases

  lemma AtInside(width: nat, height: nat, y: nat, x: nat)
    requires y < height && x < width
    ensures At(width, y, x) < width * height
    ensures At(width, y + 1, x) == At(width, y, x) + width
  {
    MulMonotone(width, y + 1, height);
    assert (y + 1) * width == y * width + width;
  }

  lemma AtBelow(width: nat, y: nat, x: nat, z: nat)
    requires x < width && y < z
    ensures At(width, y, x) < At(width, z, 0)
  {
    MulMonotone(width, y + 1, z);
    assert (y + 1) * width == y * width + width;
  }

  /** The buffer shows exactly the canvas rows from top on. */
  ghost predicate Shows(cells: seq<Cell>, c: Canvas) {
    Proper(c) && c.width * c.height <= |cells| &&
    forall y, x :: 0 <= y < c.height && 0 <= x < c.width ==>
      At(c.width, y, x) < |cells| && cells[At(c.width, y, x)] == c.rows[c.top + y][x]
  }

  lemma ShowsCell(cells: seq<Cell>, c: Canvas, y: nat, x: nat, cell: Cell)
    requires Shows(cells, c) && y < c.height && x < c.width
    ensures At(c.width, y, x) < |cells|
    ensures Shows(cells[At(c.width, y, x) := cell], c.(rows := SetCell(c.rows, c.top + y, x, cell)))
  {
    var k := At(c.width, y, x);
    var d := c.(rows := SetCell(c.rows, c.top + y, x, cell));
    forall y', x' | 0 <= y' < c.height && 0 <= x' < c.width
      ensures At(c.width, y', x') < |cells| && cells[k := cell][At(c.width, y', x')] == d.rows[d.top + y'][x']
    {
      assert cells[At(c.width, y', x')] == c.rows[c.top + y'][x'];
      if At(c.width, y', x') == k {
        AtInjective(c.width, y, x, y', x');
      }
    }
  }

  lemma ShowsCursor(cells: seq<Cell>, c: Canvas, d: Canvas)
    requires Shows(cells, c) && d == c.(x := d.x, y := d.y, color := d.color) && d.x < d.width && d.y < d.height
    ensures Shows(cells, d)
  {
    forall y, x | 0 <= y < d.height && 0 <= x < d.width
      ensures At(d.width, y, x) < |cells| && cells[At(d.width, y, x)] == d.rows[d.top + y][x]
    {
      assert cells[At(c.width, y, x)] == c.rows[c.top + y][x];
    }
  }

  /** Every cell but the last row has moved up by one row; the last row is blank. */
  ghost predicate MovedUp(before: seq<Cell>, after: seq<Cell>, width: nat, height: nat) {
    && |after| == |before| && width * height <= |before| && width > 0 && height > 0
    && (forall i {:trigger after[i]} :: 0 <= i < At(width, height - 1, 0) ==> after[i] == before[i + width])
    && (forall i {:trigger after[i]} :: At(width, height - 1, 0) <= i < width * height ==> after[i] == BLANK)
  }

  /** Row y starts at cell k. */
  ghost predicate RowAt(width: nat, y: nat, k: nat) {
    k == y * width
  }

  lemma RowAfter(width: nat, height: nat, y: nat, k: nat, last: nat)
    requires y + 1 < height && RowAt(width, y, k) && RowAt(width, height - 1, last)
    ensures RowAt(width, y + 1, k + width) && k + width <= last
  {
    assert (y + 1) * width == y * width + width;
    MulMonotone(width, y + 1, height - 1);
  }

  lemma FirstAndLast(width: nat, height: nat, n: nat) returns (last: nat)
    requires height > 0 && width * height <= n
    ensures RowAt(width, 0, 0) && RowAt(width, height - 1, last) && last + width <= n
  {
    last := (height - 1) * width;
  }

  lemma SameRow(width: nat, y: nat, k: nat, last: nat)
    requires RowAt(width, y, k) && RowAt(width, y, last)
    ensures k == last
  {
  }

  lemma MovedUpBy(before: seq<Cell>, after: seq<Cell>, width: nat, height: nat, last: nat)
    requires |after| == |before| && width > 0 && height > 0
    requires RowAt(width, height - 1, last) && last + width <= |before|
    requires after[..last] == before[width..last + width] && after[last..last + width] == BlankRow(width)
    ensures MovedUp(before, after, width, height)
  {
    forall i | 0 <= i < last
      ensures after[i] == before[i + width]
    {
      assert after[i] == after[..last][i] == before[width..last + width][i];
    }
    forall i | last <= i < last + width
      ensures after[i] == BLANK
    {
      assert after[i] == after[last..last + width][i - last];
    }
  }

  lemma ScrolledCell(before: seq<Cell>, after: seq<Cell>, c: Canvas, y: nat, x: nat)
    requires c.height > 0 && c.y == c.height && Shows(before, c.(y := c.height - 1))
    requires MovedUp(before, after, c.width, c.height) && y < c.height && x < c.width
    ensures At(c.width, y, x) < |after|
    ensures var d := Scrolled(c);
            d.top + y < |d.rows| && x < |d.rows[d.top + y]| && after[At(c.width, y, x)] == d.rows[d.top + y][x]
  {
    var w, k := c.width, At(c.width, y, x);
    AtInside(w, c.height, y, x);
    var last := At(w, c.height - 1, 0);
    if y < c.height - 1 {
      AtBelow(w, y, x, c.height - 1);
      hide At;
      assert k < last && after[k] == before[k + w];
      assert before[At(w, y + 1, x)] == c.rows[c.top + (y + 1)][x];
    } else {
      assert last <= k;
      hide At;
      assert after[k] == BLANK;
    }
  }

  /** c's cursor is just below the window. */
  lemma ShowsScrolled(before: seq<Cell>, after: seq<Cell>, c: Canvas)
    requires c.height > 0 && c.y == c.height && Shows(before, c.(y := c.height - 1))
    requires MovedUp(before, after, c.width, c.height)
    ensures Shows(after, Scrolled(c))
  {
    var d := Scrolled(c);
    forall y, x | 0 <= y < c.height && 0 <= x < c.width
      ensures At(c.width, y, x) < |after| && after[At(c.width, y, x)] == d.rows[d.top + y][x]
    {
      ScrolledCell(before, after, c, y, x);
    }
  }

  /** A char is signed; the terminal takes 32-bit codes. */
  function Code(b: Byte): nat {
    if b < 128 then b else b + 0x1_0000_0000 - 256
  }

  function Codes(s: seq<Byte>): (r: seq<nat>)
    ensures |r| == |s|
  {
    if s == [] then [] else Codes(s[..|s| - 1]) + [Code(s[|s| - 1])]
  }

  lemma CodesOneMore(s: seq<Byte>, i: nat)
    requires i < |s|
    ensures Codes(s[..i + 1]) == Codes(s[..i]) + [Code(s[i])]
  {
    assert s[..i + 1][..i] == s[..i];
  }

  /** The characters of the text are its bytes, those from 128 on as negative numbers in 32 bits. */
  lemma {:induction false} CodesAt(s: seq<Byte>, i: nat)
    requires i < |s|
    ensures Codes(s)[i] == if s[i] < 128 then s[i] as int else 0xFFFFFF00 + s[i] as int
  {
    if i < |s| - 1 {
      CodesAt(s[..|s| - 1], i);
    }
  }

  lemma CodesPlain(s: seq<Byte>)
    requires 10 !in s && 8 !in s
    ensures NEWLINE !in Codes(s) && BACKSPACE !in Codes(s)
  {
    forall i | 0 <= i < |s|
      ensures Codes(s)[i] != NEWLINE && Codes(s)[i] != BACKSPACE
    {
      CodesAt(s, i);
    }
  }

  /** Position k of a plain text on a cleared screen: its byte in the current colour, or a blank past the end. */
  function ByteCell(str: seq<Byte>, k: nat, color: nat): Cell {
    if k >= |str| then Cell(32, 0xFFFFFF, 0x000000)
    else Cell(if str[k] < 128 then str[k] as int else 0xFFFFFF00 + str[k] as int, color, 0x000000)
  }

  lemma ByteCellIsTextCell(str: seq<Byte>, k: nat, color: nat)
    ensures ByteCell(str, k, color) == TextCell(Codes(str), k, color)
  {
    if k < |str| {
      CodesAt(str, k);
    }
  }

  /** The first n cells read as the text from position gone on. */
  ghost predicate ReadsFrom(cells: seq<Cell>, n: int, color: nat, str: seq<Byte>, gone: nat) {
    n <= |cells| && forall i :: 0 <= i < n ==> cells[i] == ByteCell(str, gone + i, color)
  }

  /** The whole screen after a plain text on a cleared one: the text from the first row still there. */
  ghost predicate ShowsText(cells: seq<Cell>, width: nat, height: nat, color: nat, str: seq<Byte>)
    requires width > 0
  {
    ReadsFrom(cells, width * height, color, str, At(width, RowsGone(width, height, |str|), 0))
  }

  lemma ShowsAt(cells: seq<Cell>, c: Canvas, y: nat, x: nat)
    requires Shows(cells, c) && y < c.height && x < c.width
    ensures Proper(c) && At(c.width, y, x) < |cells| && cells[At(c.width, y, x)] == c.rows[c.top + y][x]
  {
    hide At;
  }

  lemma LaidOutAt(c: Canvas, text: seq<nat>, r: nat, x: nat)
    requires LaidOut(c, text) && r < |c.rows| && x < c.width
    ensures c.rows[r][x] == TextCell(text, At(c.width, r, x), c.color)
  {
    hide At, TextCell;
  }

  lemma ShownAt(cells: seq<Cell>, c: Canvas, str: seq<Byte>, gone: nat, i: nat, y: nat, x: nat)
    requires Shows(cells, c) && LaidOut(c, Codes(str)) && i == At(c.width, y, x) && y < c.height && x < c.width
    requires gone == At(c.width, c.top, 0)
    ensures i < |cells| && cells[i] == ByteCell(str, gone + i, c.color)
  {
    hide Codes, At, ByteCell, TextCell, Shows, LaidOut;
    ShowsAt(cells, c, y, x);
    var r := c.top + y;
    LaidOutAt(c, Codes(str), r, x);
    AtSum(c.width, c.top, y, x);
    ByteCellIsTextCell(str, At(c.width, r, x), c.color);
  }

  lemma CellPosition(w: nat, h: nat, i: nat) returns (y: nat, x: nat)
    requires i < w * h && w > 0
    ensures i == At(w, y, x) && y < h && x < w
  {
    y, x := i / w, i % w;
    RowOf(w, h, i, y, x);
  }

  lemma RowOf(w: nat, h: nat, i: nat, y: nat, x: nat)
    requires i == y * w + x && i < w * h
    ensures y < h
  {
    if y >= h {
      MulMonotone(w, h, y);
      assert false;
    }
  }

  lemma AtSum(w: nat, top: nat, y: nat, x: nat)
    ensures At(w, top + y, x) == At(w, top, 0) + At(w, y, x)
  {
    assert (top + y) * w == top * w + y * w;
  }

  /** Whatever the length of the text. */
  lemma ScreenShows(cells: seq<Cell>, width: nat, height: nat, color: nat, str: seq<Byte>, d: Canvas)
    requires 0 < width && 0 < height && 10 !in str && 8 !in str
    requires Proper(Cleared(width, height, color)) && d == Written(Cleared(width, height, color), Codes(str))
    requires Shows(cells, d)
    ensures ShowsText(cells, width, height, color, str)
  {
    hide Codes, LaidOut, ReadsFrom, Cleared, RowsGone, Shows, ByteCell;
    CodesPlain(str);
    PlainTextWraps(width, height, color, Codes(str));
    LaidOutTop(d, Codes(str));
    ScreenReads(cells, d, str, width, height, RowsGone(width, height, |str|), color);
  }

  lemma ScreenReads(cells: seq<Cell>, c: Canvas, str: seq<Byte>, width: nat, height: nat, top: nat, color: nat)
    requires Shows(cells, c) && LaidOut(c, Codes(str))
    requires c.width == width && c.height == height && c.top == top && c.color == color
    ensures ReadsFrom(cells, width * height, color, str, At(width, top, 0))
  {
    hide Codes, LaidOut, ByteCell, At;
    forall i | 0 <= i < width * height
      ensures cells[i] == ByteCell(str, At(width, top, 0) + i, color)
    {
      var y, x := CellPosition(width, height, i);
      ShownAt(cells, c, str, At(width, top, 0), i, y, x);
    }
  }

  /** As long as nothing has scrolled the text starts in the first cell. */
  lemma ShortText(cells: seq<Cell>, width: nat, height: nat, color: nat, str: seq<Byte>)
    requires width > 0 && ShowsText(cells, width, height, color, str)
    ensures |str| < width * height ==>
              forall i :: 0 <= i < |str| && str[i] < 128 ==> i < |cells| && cells[i].character == str[i] as int
  {
    if |str| < width * height {
      var y, x := CellPosition(width, height, |str|);
      QuotientUnique(|str|, width, y, x);
    }
  }

  class Terminal {
    const buffer: array<Cell>
    const width: nat
    const height: nat
    const bufferSize: nat
    var cursorX: nat
    var cursorY: nat
    var currentColor: nat
    /** Everything ever shown. */
    ghost var canvas: Canvas

    ghost predicate Valid()
      reads this, buffer
    {
      && bufferSize == width * height && canvas.width == width && canvas.height == height
      && canvas.x == cursorX && canvas.y == cursorY && canvas.color == currentColor
      && Shows(buffer[..], canvas)
    }

    constructor (buffer: array<Cell>, width: nat, height: nat)
      requires 0 < width && 0 < height && width * height <= buffer.Length
      modifies buffer
      ensures Valid() && canvas == Cleared(width, height, WHITE) && this.buffer == buffer
    {
      this.buffer := buffer;
      this.width := width;
      this.height := height;
      bufferSize := width * height;
      cursorX, cursorY := 0, 0;
      currentColor := WHITE;
      canvas := Cleared(width, height, WHITE);
      new;
      Clear();
    }

    method Clear()
      requires 0 < width && 0 < height && bufferSize == width * height <= buffer.Length
      modifies this`cursorX, this`cursorY, this`canvas, buffer
      ensures Valid() && canvas == Cleared(width, height, currentColor)
    {
      for i := 0 to bufferSize
        invariant forall k :: 0 <= k < i ==> buffer[k] == BLANK
      {
        buffer[i] := BLANK;
      }
      cursorX, cursorY := 0, 0;
      canvas := Cleared(width, height, currentColor);
      forall y, x | 0 <= y < height && 0 <= x < width
        ensures At(width, y, x) < buffer.Length && buffer[..][At(width, y, x)] == canvas.rows[y][x]
      {
        AtInside(width, height, y, x);
      }
    }

    method SetColor(fg: nat)
      requires Valid()
      modifies this`currentColor, this`canvas
      ensures Valid() && canvas == old(canvas).(color := fg)
    {
      ghost var c := canvas;
      currentColor := fg;
      canvas := canvas.(color := fg);
      ShowsCursor(buffer[..], c, canvas);
    }

    /** Copy row y + 1 over row y. */
    method MoveRow(y: nat, ghost k: nat)
      requires y + 1 < height && RowAt(width, y, k) && k + 2 * width <= buffer.Length
      modifies buffer
      ensures forall i {:trigger buffer[i]} :: 0 <= i < buffer.Length ==>
                buffer[i] == if k <= i < k + width then old(buffer[i + width]) else old(buffer[i])
    {
      var x := 0;
      assert (y + 1) * width == k + width;
      while x < width
        invariant 0 <= x <= width
        invariant forall i {:trigger buffer[i]} :: 0 <= i < buffer.Length ==>
                    buffer[i] == if k <= i < k + x then old(buffer[i + width]) else old(buffer[i])
      {
        buffer[y * width + x] := buffer[(y + 1) * width + x];
        x := x + 1;
      }
    }

    method BlankLastRow(ghost k: nat)
      requires 0 < height && RowAt(width, height - 1, k) && k + width <= buffer.Length
      modifies buffer
      ensures buffer[..k] == old(buffer[..k]) && buffer[k..k + width] == BlankRow(width)
    {
      var x := 0;
      while x < width
        invariant 0 <= x <= width
        invariant forall i {:trigger buffer[i]} :: 0 <= i < buffer.Length ==>
                    buffer[i] == if k <= i < k + x then BLANK else old(buffer[i])
      {
        buffer[(height - 1) * width + x] := BLANK;
        x := x + 1;
      }
    }

    /** Copy every row but the first over the one above it. */
    method MoveRows(ghost last: nat)
      requires 0 < height && RowAt(width, 0, 0) && RowAt(width, height - 1, last) && last + width <= buffer.Length
      modifies buffer
      ensures buffer[..last] == old(buffer[width..last + width])
    {
      hide RowAt;
      var y: nat := 0;
      ghost var k: nat := 0;
      while y < height - 1
        invariant y <= height - 1 && RowAt(width, y, k) && k <= last
        invariant forall i {:trigger buffer[i]} :: 0 <= i < k ==> buffer[i] == old(buffer[i + width])
        invariant forall i {:trigger buffer[i]} :: k <= i < buffer.Length ==> buffer[i] == old(buffer[i])
      {
        RowAfter(width, height, y, k, last);
        MoveRow(y, k);
        k := k + width;
        y := y + 1;
      }
      SameRow(width, y, k, last);
    }

    /** Move everything up one row in place, blank the last row, and take the cursor along. */
    method Scroll()
      requires 0 < width && 0 < height && width * height <= buffer.Length && cursorY > 0
      modifies this`cursorY, buffer
      ensures MovedUp(old(buffer[..]), buffer[..], width, height) && cursorY == old(cursorY) - 1
    {
      hide RowAt, MovedUp;
      ghost var last := FirstAndLast(width, height, buffer.Length);
      MoveRows(last);
      BlankLastRow(last);
      cursorY := cursorY - 1;
      MovedUpBy(old(buffer[..]), buffer[..], width, height, last);
    }

    method WriteChar(ch: nat)
      requires Valid()
      modifies this`cursorX, this`cursorY, this`canvas, buffer
      ensures Valid() && canvas == Put(old(canvas), ch)
    {
      ghost var c := canvas;
      if ch == NEWLINE {
        cursorX := 0;
        cursorY := cursorY + 1;
        ShowsCursor(buffer[..], c, c.(x := 0));
        WrapDown(c.(x := 0, y := c.y + 1));
      } else if ch == BACKSPACE {
        if cursorX > 0 {
          cursorX := cursorX - 1;
        } else if cursorY > 0 {
          cursorY := cursorY - 1;
          cursorX := width - 1;
        }
        ghost var d := c.(x := cursorX, y := cursorY);
        ShowsCursor(buffer[..], c, d);
        canvas := d;
        StoreCharacter(32);
      } else {
        PutCharacter(ch);
      }
    }

    /** An ordinary character: store it in the current colour, advance, and wrap if the row is full. */
    method PutCharacter(ch: nat)
      requires Valid() && ch != NEWLINE && ch != BACKSPACE
      modifies this`cursorX, this`cursorY, this`canvas, buffer
      ensures Valid() && canvas == Put(old(canvas), ch)
    {
      ghost var c := canvas;
      ghost var row := c.top + c.y;
      StoreCharacter(ch);
      StoreColor();
      ghost var d := canvas;
      SetCellTwice(c.rows, row, c.x, c.rows[row][c.x].(character := ch), d.rows[row][c.x]);
      assert d == c.(rows := SetCell(c.rows, row, c.x, c.rows[row][c.x].(character := ch, fg := c.color)));
      cursorX := cursorX + 1;
      if cursorX >= width {
        cursorX := 0;
        cursorY := cursorY + 1;
        ShowsCursor(buffer[..], d, d.(x := 0));
        WrapDown(d.(x := 0, y := d.y + 1));
      } else {
        canvas := d.(x := cursorX);
        ShowsCursor(buffer[..], d, canvas);
      }
    }

    /** buffer[index].character = ch, at the cursor. */
    method StoreCharacter(ch: nat)
      requires Valid()
      modifies this`canvas, buffer
      ensures Valid() && Proper(old(canvas))
      ensures var c := old(canvas); var row := c.top + c.y;
              canvas == c.(rows := SetCell(c.rows, row, c.x, c.rows[row][c.x].(character := ch)))
    {
      ghost var c := canvas;
      AtInside(width, height, cursorY, cursorX);
      var index := cursorY * width + cursorX;
      assert buffer[..][At(width, cursorY, cursorX)] == c.rows[c.top + cursorY][cursorX];
      var cell := buffer[index].(character := ch);
      ShowsCell(buffer[..], c, cursorY, cursorX, cell);
      ghost var cells := buffer[..];
      buffer[index] := cell;
      assert buffer[..] == cells[index := cell];
      canvas := c.(rows := SetCell(c.rows, c.top + c.y, c.x, cell));
    }

    /** buffer[index].fg_color = current_fg_color, at the cursor. */
    method StoreColor()
      requires Valid()
      modifies this`canvas, buffer
      ensures Valid() && Proper(old(canvas))
      ensures var c := old(canvas); var row := c.top + c.y;
              canvas == c.(rows := SetCell(c.rows, row, c.x, c.rows[row][c.x].(fg := c.color)))
    {
      ghost var c := canvas;
      AtInside(width, height, cursorY, cursorX);
      var index := cursorY * width + cursorX;
      assert buffer[..][At(width, cursorY, cursorX)] == c.rows[c.top + cursorY][cursorX];
      var cell := buffer[index].(fg := currentColor);
      ShowsCell(buffer[..], c, cursorY, cursorX, cell);
      ghost var cells := buffer[..];
      buffer[index] := cell;
      assert buffer[..] == cells[index := cell];
      canvas := c.(rows := SetCell(c.rows, c.top + c.y, c.x, cell));
    }

    /** The cursor has gone to the start of the next row: scroll if that is below the window. */
    method WrapDown(ghost c: Canvas)
      requires bufferSize == width * height && c.width == width && c.height == height && c.color == currentColor
      requires cursorX == c.x == 0 && cursorY == c.y && 0 < c.y <= height && Shows(buffer[..], c.(y := c.y - 1))
      modifies this`cursorY, this`canvas, buffer
      ensures Valid() && canvas == Scrolled(c)
    {
      ghost var before := buffer[..];
      if cursorY >= height {
        Scroll();
        ShowsScrolled(before, buffer[..], c);
      } else {
        ShowsCursor(buffer[..], c.(y := c.y - 1), c);
      }
      canvas := Scrolled(c);
    }

    /** str is the text up to its NUL. */
    method WriteString(str: seq<Byte>)
      requires Valid() && 0 !in str
      modifies this`cursorX, this`cursorY, this`canvas, buffer
      ensures Proper(old(canvas)) && Valid() && canvas == Written(old(canvas), Codes(str))
      ensures width > 0
      ensures old(canvas) == Cleared(width, height, currentColor) && 10 !in str && 8 !in str ==>
                ShowsText(buffer[..], width, height, currentColor, str)
      ensures old(canvas) == Cleared(width, height, currentColor) && 10 !in str && 8 !in str && |str| < bufferSize ==>
                forall i :: 0 <= i < |str| && str[i] < 128 ==> i < buffer.Length && buffer[i].character == str[i] as int
    {
      ghost var c := canvas;
      for i := 0 to |str|
        invariant Valid() && canvas == Written(old(canvas), Codes(str[..i]))
      {
        CodesOneMore(str, i);
        WrittenOneMore(old(canvas), Codes(str[..i]), Code(str[i]));
        WriteChar(Code(str[i]));
      }
      assert str[..|str|] == str;
      if c == Cleared(width, height, currentColor) && 10 !in str && 8 !in str {
        ScreenShows(buffer[..], width, height, currentColor, str, canvas);
        ShortText(buffer[..], width, height, currentColor, str);
      }
    }
  }
}
