/**
 * The screen model of the terminal core (`TerminalState` in
 * receiver/outputProcessor.cjs): a main and an alternate buffer of `rows`
 * lines, each line a sparse array of cells with a text rebuilt from them,
 * a cursor, a saved cursor, the current style and the mode flags.
 *
 * Each operation is given once as a pure function over a `Term` value; the
 * class `TerminalState` keeps the same state in fields, updates them the way
 * the source does, and is proved to follow those functions.
 *
 * Lines are values here, not shared objects. `writeText` holds on to the
 * line object under the cursor while it writes; the model follows that
 * object by its index in the active buffer, which moves up by one on every
 * scroll and drops below 0 once the line has been scrolled out.
 */
module Screen {
  import opened Js
  import opened Ansi

  /** `currentStyle`: the attributes switched on, and the two colours (`null` is None). */
  datatype CellStyle = CellStyle(flags: set<Attr>, fgColor: Option<SgrStyle>, bgColor: Option<SgrStyle>)

  /** The style of a fresh state and of SGR 0: every flag off, both colours `null`. */
  const PlainStyle: CellStyle := CellStyle({}, None, None)

  /** An entry of a line's sparse `cells` array: never written (a hole), erased (`null`), or written. */
  datatype Slot = Hole | Erased | Cell(ch: char, style: CellStyle)

  /** A line object: its cells and the text last rebuilt from them. */
  datatype Line = Line(text: string, cells: seq<Slot>)

  /** `createLine`. */
  const BlankLine: Line := Line("", [])

  datatype Modes = Modes(
    applicationKeypad: bool,
    originMode: bool,
    autowrap: bool,
    insertMode: bool,
    cursorVisible: bool,
    alternateScreen: bool,
    bracketedPaste: bool,
    mouseTracking: bool)

  const InitialModes: Modes := Modes(false, false, true, false, true, false, false, false)

  datatype Point = Point(x: int, y: int)

  /** The fields of a `TerminalState`. */
  datatype Term = Term(
    cols: int,
    rows: int,
    cursorX: int,
    cursorY: int,
    savedCursor: Point,
    currentStyle: CellStyle,
    modes: Modes,
    mainBuffer: seq<Line>,
    alternateBuffer: seq<Line>,
    title: string)

  function Min(a: int, b: int): int { if a < b then a else b }
  function Max(a: int, b: int): int { if a < b then b else a }

  /**
   * What every operation keeps true from a fresh state on: both buffers hold
   * `rows` lines, the cursor row is on the screen, and the cursor column may
   * reach `cols` (one past the last column) after a write.
   */
  predicate TermValid(t: Term) {
    && t.cols >= 1 && t.rows >= 1
    && |t.mainBuffer| == t.rows && |t.alternateBuffer| == t.rows
    && 0 <= t.cursorX <= t.cols && 0 <= t.cursorY < t.rows
    && 0 <= t.savedCursor.x <= t.cols && 0 <= t.savedCursor.y < t.rows
  }

  /** `createBuffer`: `rows` blank lines, none when `rows` is not positive. */
  function Blank(rows: int): (b: seq<Line>)
    ensures |b| == Max(rows, 0)
    ensures forall k :: 0 <= k < |b| ==> b[k] == BlankLine
  {
    if rows <= 0 then [] else seq(rows, _ => BlankLine)
  }

  /** `new TerminalState(cols, rows)`. */
  function NewTerm(cols: int, rows: int): Term {
    Term(cols, rows, 0, 0, Point(0, 0), PlainStyle, InitialModes, Blank(rows), Blank(rows), "")
  }

  /** `getActiveBuffer`. */
  function Active(t: Term): seq<Line> {
    if t.modes.alternateScreen then t.alternateBuffer else t.mainBuffer
  }

  /** The state with its active buffer replaced. */
  function WithActive(t: Term, b: seq<Line>): Term {
    if t.modes.alternateScreen then t.(alternateBuffer := b) else t.(mainBuffer := b)
  }

  /** `switchToAlternateScreen`. */
  function ToAlternate(t: Term): Term {
    if t.modes.alternateScreen then t
    else t.(modes := t.modes.(alternateScreen := true), savedCursor := Point(t.cursorX, t.cursorY),
            cursorX := 0, cursorY := 0)
  }

  /** `switchToMainScreen`. */
  function ToMain(t: Term): Term {
    if !t.modes.alternateScreen then t
    else t.(modes := t.modes.(alternateScreen := false), cursorX := t.savedCursor.x, cursorY := t.savedCursor.y)
  }

  // ---------------------------------------------------------------------------
  // Lines
  // ---------------------------------------------------------------------------

  /** What one entry contributes to `cells.map(cell => cell ? cell.char : ' ').join('')`. */
  function SlotText(s: Slot): string {
    match s
    case Hole => ""
    case Erased => " "
    case Cell(c, _) => [c]
  }

  /** `updateLineText`'s text: holes vanish, erased cells become spaces. */
  function LineText(cells: seq<Slot>): (s: string)
    ensures |s| <= |cells|
  {
    if cells == [] then "" else SlotText(cells[0]) + LineText(cells[1..])
  }

  /**
   * `cells[x] = v` on a JavaScript array: a write past the end lengthens the
   * array and leaves holes between; a negative index is no array element.
   */
  function SetCell(cells: seq<Slot>, x: int, v: Slot): (r: seq<Slot>)
    ensures x < 0 ==> r == cells
    ensures x >= 0 ==> |r| == Max(|cells|, x + 1) && r[x] == v
    ensures x >= 0 ==> forall k :: 0 <= k < |r| && k != x ==> r[k] == (if k < |cells| then cells[k] else Hole)
  {
    if x < 0 then cells
    else if x < |cells| then cells[x := v]
    else cells + seq(x - |cells|, _ => Hole) + [v]
  }

  /** `if (cell) cell = null`: only written cells are erased. */
  function Erase(s: Slot): Slot {
    if s.Cell? then Erased else s
  }

  /** The erase loops over columns `lo <= x < hi`. */
  function ClearCells(cells: seq<Slot>, lo: int, hi: int): (r: seq<Slot>)
    ensures |r| == |cells|
  {
    seq(|cells|, k requires 0 <= k < |cells| => if lo <= k < hi then Erase(cells[k]) else cells[k])
  }

  /** `updateLineText` on the line at index `li` of the active buffer. */
  function TextRebuilt(t: Term, li: int): Term {
    var b := Active(t);
    if 0 <= li < |b| then WithActive(t, b[li := b[li].(text := LineText(b[li].cells))]) else t
  }

  /** Writing `v` at column `x` of the line at index `li` of the active buffer. */
  function CellPut(t: Term, li: int, x: int, v: Slot): Term {
    var b := Active(t);
    if 0 <= li < |b| then WithActive(t, b[li := b[li].(cells := SetCell(b[li].cells, x, v))]) else t
  }

  /** `scroll`: the first line of the active buffer is dropped and a blank one appended. */
  function Scrolled(t: Term): Term {
    var b := Active(t);
    WithActive(t, (if b == [] then [] else b[1..]) + [BlankLine])
  }

  // ---------------------------------------------------------------------------
  // writeText
  // ---------------------------------------------------------------------------

  /** The state while `writeText` runs, with the index of the line it captured. */
  datatype Pen = Pen(term: Term, line: int)

  /** What `writeText` does before a character when `cursorX >= cols`: wrap (and maybe scroll), or clamp. */
  function Advance(p: Pen): Pen {
    var t := p.term;
    if t.cursorX < t.cols then p
    else if !t.modes.autowrap then Pen(t.(cursorX := t.cols - 1), p.line)
    else
      var u := t.(cursorX := 0, cursorY := t.cursorY + 1);
      if u.cursorY >= u.rows then Pen(Scrolled(u).(cursorY := u.rows - 1), p.line - 1) else Pen(u, p.line)
  }

  /** One character of `writeText`: written into the captured line with a copy of the current style. */
  function WriteChar(p: Pen, c: char): Pen {
    var q := Advance(p);
    var t := q.term;
    Pen(CellPut(t, q.line, t.cursorX, Cell(c, t.currentStyle)).(cursorX := t.cursorX + 1), q.line)
  }

  function WriteChars(p: Pen, s: string): Pen
    decreases |s|
  {
    if s == [] then p else WriteChars(WriteChar(p, s[0]), s[1..])
  }

  /**
   * `writeText(text)`: nothing when there is no line under the cursor;
   * otherwise every character goes into the line captured at the start,
   * and only that line's text is rebuilt at the end.
   */
  function Written(t: Term, text: string): Term {
    if !(0 <= t.cursorY < |Active(t)|) then t
    else
      var p := WriteChars(Pen(t, t.cursorY), text);
      TextRebuilt(p.term, p.line)
  }

  // ---------------------------------------------------------------------------
  // Erasing
  // ---------------------------------------------------------------------------

  /** `clearLine(mode)`: mode 0 erases from the cursor on, 1 up to and including it, 2 the whole line. */
  function LineCleared(t: Term, mode: int): Term {
    var b := Active(t);
    if !(0 <= t.cursorY < |b|) then t
    else
      var cells := b[t.cursorY].cells;
      var erased :=
        if mode == 0 then ClearCells(cells, t.cursorX, t.cols)
        else if mode == 1 then ClearCells(cells, 0, t.cursorX + 1)
        else if mode == 2 then []
        else cells;
      WithActive(t, b[t.cursorY := Line(LineText(erased), erased)])
  }

  /**
   * The buffer after the mode-0 loop of `clearScreen` has handled the rows
   * `cy <= y < upTo`: the cursor row loses its cells from `cx` on (its text
   * is left as it was), the rows below it become blank.
   */
  function BelowCleared(b: seq<Line>, cy: int, cx: int, cols: int, upTo: int): (r: seq<Line>)
    ensures |r| == |b|
  {
    seq(|b|, k requires 0 <= k < |b| =>
      if k == cy && cy < upTo then b[k].(cells := ClearCells(b[k].cells, cx, cols))
      else if cy < k < upTo then BlankLine
      else b[k])
  }

  /**
   * The buffer after the mode-1 loop of `clearScreen` has handled the rows
   * `0 <= y < upTo`: the rows above the cursor become blank, the cursor row
   * loses its cells up to and including `cx` (its text is left as it was).
   */
  function AboveCleared(b: seq<Line>, cy: int, cx: int, upTo: int): (r: seq<Line>)
    ensures |r| == |b|
  {
    seq(|b|, k requires 0 <= k < |b| =>
      if k == cy && k < upTo then b[k].(cells := ClearCells(b[k].cells, 0, cx + 1))
      else if k < upTo && k < cy then BlankLine
      else b[k])
  }

  /** The buffer after the mode-2 loop of `clearScreen` has blanked the rows `0 <= y < upTo`. */
  function RowsBlanked(b: seq<Line>, upTo: int): (r: seq<Line>)
    ensures |r| == |b|
  {
    seq(|b|, k requires 0 <= k < |b| => if k < upTo then BlankLine else b[k])
  }

  /** `clearScreen(mode)`; any other mode changes nothing. */
  function ScreenCleared(t: Term, mode: int): Term {
    var b := Active(t);
    if mode == 0 then WithActive(t, BelowCleared(b, t.cursorY, t.cursorX, t.cols, t.rows))
    else if mode == 1 then WithActive(t, AboveCleared(b, t.cursorY, t.cursorX, Max(t.cursorY + 1, 0)))
    else if mode == 2 then WithActive(t, RowsBlanked(b, t.rows))
    else t
  }

  /**
   * `clearScreen(mode)` reads `buffer[cursorY].cells` where the active buffer
   * has no line at the cursor row, which throws a TypeError; `ScreenCleared`
   * skips that row instead.
   */
  predicate ClearScreenThrows(t: Term, mode: int) {
    var n := |Active(t)|;
    || (mode == 0 && t.cursorY < t.rows && t.cursorX < t.cols && (t.cursorY < 0 || t.cursorY >= n))
    || (mode == 1 && 0 <= t.cursorY && 0 <= t.cursorX && t.cursorY >= n)
  }

  // ---------------------------------------------------------------------------
  // The class
  // ---------------------------------------------------------------------------

  /** `createLine`'s loop in `createBuffer`, for a given row count. */
  method BlankBuffer(rows: int) returns (buffer: seq<Line>)
    ensures buffer == Blank(rows)
  {
    buffer := [];
    var i := 0;
    while i < rows
      invariant 0 <= i && (i <= rows || i == 0)
      invariant buffer == seq(i, _ => BlankLine)
    {
      buffer := buffer + [BlankLine];
      i := i + 1;
    }
  }

  /** The erase loop `for (x = lo; x < hi; x++) if (cells[x]) cells[x] = null`. */
  method EraseCells(cells: seq<Slot>, lo: int, hi: int) returns (r: seq<Slot>)
    ensures r == ClearCells(cells, lo, hi)
  {
    r := cells;
    var x := lo;
    while x < hi
      invariant lo <= x && (x <= hi || x == lo)
      invariant r == ClearCells(cells, lo, x)
      decreases hi - x
    {
      if 0 <= x < |r| && r[x].Cell? {
        r := r[x := Erased];
      }
      x := x + 1;
    }
  }

  class TerminalState {
    var cols: int
    var rows: int
    var cursorX: int
    var cursorY: int
    var savedCursor: Point
    var currentStyle: CellStyle
    var modes: Modes
    var mainBuffer: seq<Line>
    var alternateBuffer: seq<Line>
    var title: string

    function Snapshot(): Term
      reads this
    {
      Term(cols, rows, cursorX, cursorY, savedCursor, currentStyle, modes, mainBuffer, alternateBuffer, title)
    }

    constructor (cols: int, rows: int)
      ensures Snapshot() == NewTerm(cols, rows)
    {
      this.cols := cols;
      this.rows := rows;
      cursorX, cursorY := 0, 0;
      savedCursor := Point(0, 0);
      currentStyle := PlainStyle;
      modes := InitialModes;
      title := "";
      new;
      mainBuffer := CreateBuffer();
      alternateBuffer := CreateBuffer();
    }

    /** `rows` fresh lines. */
    method CreateBuffer() returns (buffer: seq<Line>)
      ensures buffer == Blank(rows)
    {
      buffer := BlankBuffer(rows);
    }

    /** Stores `b` as the active buffer (the source mutates that array in place). */
    method SetActiveBuffer(b: seq<Line>)
      modifies this
      ensures Snapshot() == WithActive(old(Snapshot()), b)
    {
      if modes.alternateScreen {
        alternateBuffer := b;
      } else {
        mainBuffer := b;
      }
    }

    method SwitchToAlternateScreen()
      modifies this
      ensures Snapshot() == ToAlternate(old(Snapshot()))
    {
      if !modes.alternateScreen {
        modes := modes.(alternateScreen := true);
        savedCursor := Point(cursorX, cursorY);
        cursorX := 0;
        cursorY := 0;
      }
    }

    method SwitchToMainScreen()
      modifies this
      ensures Snapshot() == ToMain(old(Snapshot()))
    {
      if modes.alternateScreen {
        modes := modes.(alternateScreen := false);
        cursorX := savedCursor.x;
        cursorY := savedCursor.y;
      }
    }

    /** `line.cells[x] = v` on the line at index `li` of the active buffer. */
    method PutCell(li: int, x: int, v: Slot)
      modifies this
      ensures Snapshot() == CellPut(old(Snapshot()), li, x, v)
    {
      var b := Active(Snapshot());
      if 0 <= li < |b| {
        SetActiveBuffer(b[li := b[li].(cells := SetCell(b[li].cells, x, v))]);
      }
    }

    method WriteText(text: string)
      modifies this
      ensures Snapshot() == Written(old(Snapshot()), text)
    {
      if !(0 <= cursorY < |Active(Snapshot())|) {
        return;
      }
      // the index in the active buffer of the line captured here
      var line := cursorY;
      for i := 0 to |text|
        invariant WriteChars(Pen(Snapshot(), line), text[i..]) == WriteChars(Pen(old(Snapshot()), old(cursorY)), text)
      {
        line := WriteOne(line, text[i]);
        assert text[i..][1..] == text[i + 1..];
      }
      UpdateLineText(line);
    }

    /** One turn of the loop of `writeText`; `line` is the index of the captured line. */
    method WriteOne(line: int, c: char) returns (line': int)
      modifies this
      ensures Pen(Snapshot(), line') == WriteChar(Pen(old(Snapshot()), line), c)
    {
      line' := WrapOrClamp(line);
      PutCell(line', cursorX, Cell(c, currentStyle));
      cursorX := cursorX + 1;
    }

    /** The `cursorX >= cols` branch of `writeText`'s loop. */
    method WrapOrClamp(line: int) returns (line': int)
      modifies this
      ensures Pen(Snapshot(), line') == Advance(Pen(old(Snapshot()), line))
    {
      line' := line;
      if cursorX >= cols {
        if modes.autowrap {
          cursorX := 0;
          cursorY := cursorY + 1;
          if cursorY >= rows {
            Scroll();
            cursorY := rows - 1;
            line' := line - 1;
          }
        } else {
          cursorX := cols - 1;
        }
      }
    }

    /** `updateLineText` on the line at index `li` of the active buffer. */
    method UpdateLineText(li: int)
      modifies this
      ensures Snapshot() == TextRebuilt(old(Snapshot()), li)
    {
      var b := Active(Snapshot());
      if 0 <= li < |b| {
        SetActiveBuffer(b[li := b[li].(text := LineText(b[li].cells))]);
      }
    }

    method Scroll()
      modifies this
      ensures Snapshot() == Scrolled(old(Snapshot()))
    {
      var b := Active(Snapshot());
      SetActiveBuffer((if b == [] then [] else b[1..]) + [BlankLine]);
    }

    method ClearScreen(mode: int)
      modifies this
      ensures Snapshot() == ScreenCleared(old(Snapshot()), mode)
    {
      var b := Active(Snapshot());
      if mode == 0 {
        var buffer := ClearFromCursor(b);
        SetActiveBuffer(buffer);
      } else if mode == 1 {
        var buffer := ClearToCursor(b);
        SetActiveBuffer(buffer);
      } else if mode == 2 {
        var buffer := ClearAllRows(b);
        SetActiveBuffer(buffer);
      }
    }

    /** The mode-0 loop of `clearScreen` over the active buffer `b0`. */
    method ClearFromCursor(b0: seq<Line>) returns (buffer: seq<Line>)
      ensures buffer == BelowCleared(b0, cursorY, cursorX, cols, rows)
    {
      buffer := b0;
      var y := cursorY;
      while y < rows
        invariant cursorY <= y && (y <= rows || y == cursorY)
        invariant buffer == BelowCleared(b0, cursorY, cursorX, cols, y)
        decreases rows - y
      {
        if 0 <= y < |buffer| {
          if y == cursorY {
            var cells := EraseCells(buffer[y].cells, cursorX, cols);
            buffer := buffer[y := buffer[y].(cells := cells)];
          } else {
            buffer := buffer[y := BlankLine];
          }
        }
        y := y + 1;
      }
    }

    /** The mode-1 loop of `clearScreen` over the active buffer `b0`. */
    method ClearToCursor(b0: seq<Line>) returns (buffer: seq<Line>)
      ensures buffer == AboveCleared(b0, cursorY, cursorX, Max(cursorY + 1, 0))
    {
      buffer := b0;
      var y := 0;
      while y <= cursorY
        invariant 0 <= y <= Max(cursorY + 1, 0)
        invariant buffer == AboveCleared(b0, cursorY, cursorX, y)
        decreases cursorY - y
      {
        if 0 <= y < |buffer| {
          if y == cursorY {
            var cells := EraseCells(buffer[y].cells, 0, cursorX + 1);
            buffer := buffer[y := buffer[y].(cells := cells)];
          } else {
            buffer := buffer[y := BlankLine];
          }
        }
        y := y + 1;
      }
    }

    /** The mode-2 loop of `clearScreen` over the active buffer `b0`. */
    method ClearAllRows(b0: seq<Line>) returns (buffer: seq<Line>)
      ensures buffer == RowsBlanked(b0, rows)
    {
      buffer := b0;
      var y := 0;
      while y < rows
        invariant 0 <= y && (y <= rows || y == 0)
        invariant buffer == RowsBlanked(b0, y)
        decreases rows - y
      {
        if y < |buffer| {
          buffer := buffer[y := BlankLine];
        }
        y := y + 1;
      }
    }

    method ClearLine(mode: int)
      modifies this
      ensures Snapshot() == LineCleared(old(Snapshot()), mode)
    {
      var b := Active(Snapshot());
      if !(0 <= cursorY < |b|) {
        return;
      }
      var cells := b[cursorY].cells;
      if mode == 0 {
        cells := EraseCells(cells, cursorX, cols);
      } else if mode == 1 {
        cells := EraseCells(cells, 0, cursorX + 1);
      } else if mode == 2 {
        cells := [];
      }
      SetActiveBuffer(b[cursorY := Line(LineText(cells), cells)]);
    }
  }
}
