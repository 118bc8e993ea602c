/**
 * Properties of the screen model: the bounds every operation keeps, what
 * `writeText` does at the right margin, what erasing and styling do, the
 * alternate screen, and what becomes of the screen when parsed text is fed
 * through an `OutputProcessor`.
 */
module ScreenProperties {
  import opened Js
  import opened Ansi
  import opened AnsiProperties
  import opened Screen
  import opened Output

  /** What only a mode switch, `saveCursor` or `resize` can change: the size, the modes, the saved cursor and the inactive buffer. */
  predicate Untouched(t: Term, u: Term) {
    && u.cols == t.cols && u.rows == t.rows && u.modes == t.modes && u.savedCursor == t.savedCursor
    && (if t.modes.alternateScreen then u.mainBuffer == t.mainBuffer else u.alternateBuffer == t.alternateBuffer)
  }

  /** The fields an operation on the cursor or the active buffer leaves alone. */
  predicate SameSettings(t: Term, u: Term) {
    Untouched(t, u) && u.currentStyle == t.currentStyle && u.title == t.title
  }

  /** Events that are neither private mode sequences nor the escapes the parser never emits. */
  predicate Ordinary(es: seq<Event>) {
    forall k :: 0 <= k < |es| ==> !PrivateMode(es[k]) && !GuardedEscapeEvent(es[k])
  }

  // ---------------------------------------------------------------------------
  // Bounds
  // ---------------------------------------------------------------------------

  /** A fresh state of positive size is valid. */
  lemma NewTermValid(cols: int, rows: int)
    requires cols >= 1 && rows >= 1
    ensures TermValid(NewTerm(cols, rows))
    ensures Active(NewTerm(cols, rows)) == Blank(rows)
  {
  }

  /** `scroll` keeps `rows` lines: the first goes, the rest move up one, a blank one comes in at the bottom. */
  lemma ScrollShiftsLines(t: Term)
    requires |Active(t)| >= 1
    ensures |Active(Scrolled(t))| == |Active(t)|
    ensures forall k :: 0 <= k < |Active(t)| - 1 ==> Active(Scrolled(t))[k] == Active(t)[k + 1]
    ensures Active(Scrolled(t))[|Active(t)| - 1] == BlankLine
    ensures Scrolled(t) == t.(mainBuffer := Scrolled(t).mainBuffer, alternateBuffer := Scrolled(t).alternateBuffer)
    ensures t.modes.alternateScreen ==> Scrolled(t).mainBuffer == t.mainBuffer
    ensures !t.modes.alternateScreen ==> Scrolled(t).alternateBuffer == t.alternateBuffer
  {
  }

  /** Before a character is written, the cursor column is inside the line. */
  lemma AdvanceValid(p: Pen)
    requires TermValid(p.term)
    ensures TermValid(Advance(p).term) && SameSettings(p.term, Advance(p).term)
    ensures Advance(p).term.cursorX < p.term.cols
    ensures Advance(p).line <= p.line
  {
    var t := p.term;
    if t.cursorX >= t.cols && t.modes.autowrap && t.cursorY + 1 >= t.rows {
      var u := t.(cursorX := 0, cursorY := t.cursorY + 1);
      ScrollShiftsLines(u);
    }
  }

  lemma WriteCharValid(p: Pen, c: char)
    requires TermValid(p.term)
    ensures TermValid(WriteChar(p, c).term) && SameSettings(p.term, WriteChar(p, c).term)
    ensures WriteChar(p, c).line <= p.line
  {
    AdvanceValid(p);
  }

  lemma {:induction false} WriteCharsValid(p: Pen, s: string)
    requires TermValid(p.term)
    ensures TermValid(WriteChars(p, s).term) && SameSettings(p.term, WriteChars(p, s).term)
    ensures WriteChars(p, s).line <= p.line
    decreases |s|
  {
    if s != [] {
      WriteCharValid(p, s[0]);
      WriteCharsValid(WriteChar(p, s[0]), s[1..]);
    }
  }

  /**
   * After `writeText` the cursor row is on the screen and the column is at
   * most `cols`; the settings are untouched.
   */
  lemma WrittenValid(t: Term, s: string)
    requires TermValid(t)
    ensures TermValid(Written(t, s)) && SameSettings(t, Written(t, s))
  {
    WriteCharsValid(Pen(t, t.cursorY), s);
  }

  /** The column can be `cols` after a write: writing the last column leaves the cursor past it. */
  lemma CursorReachesCols(t: Term, c: char)
    requires TermValid(t) && t.cursorX == t.cols - 1
    ensures Written(t, [c]).cursorX == t.cols && Written(t, [c]).cursorY == t.cursorY
  {
    assert WriteChars(Pen(t, t.cursorY), [c]) == WriteChar(Pen(t, t.cursorY), c);
  }

  // ---------------------------------------------------------------------------
  // writeText at the right margin
  // ---------------------------------------------------------------------------

  lemma {:induction false} WriteCharsAppend(p: Pen, a: string, c: char)
    ensures WriteChars(p, a + [c]) == WriteChar(WriteChars(p, a), c)
    decreases |a|
  {
    if a == [] {
      assert WriteChars(WriteChar(p, c), []) == WriteChar(p, c);
    } else {
      assert (a + [c])[1..] == a[1..] + [c];
      WriteCharsAppend(WriteChar(p, a[0]), a[1..], c);
    }
  }

  /** With autowrap off the cursor stays on its row and stops at `cols`. */
  lemma {:induction false} ClampedWrites(p: Pen, s: string)
    requires TermValid(p.term) && !p.term.modes.autowrap
    ensures WriteChars(p, s).line == p.line
    ensures WriteChars(p, s).term.cursorY == p.term.cursorY
    ensures WriteChars(p, s).term.cursorX == Min(p.term.cursorX + |s|, p.term.cols)
    decreases |s|
  {
    if s != [] {
      WriteCharValid(p, s[0]);
      ClampedWrites(WriteChar(p, s[0]), s[1..]);
    }
  }

  /** The last character of a clamped write is in the column just left of the cursor. */
  lemma ClampedLastCell(p: Pen, s: string)
    requires TermValid(p.term) && !p.term.modes.autowrap && s != []
    requires 0 <= p.line < p.term.rows
    ensures var q := WriteChars(p, s);
      && |Active(q.term)| == p.term.rows
      && |Active(q.term)[p.line].cells| >= q.term.cursorX >= 1
      && Active(q.term)[p.line].cells[q.term.cursorX - 1] == Cell(s[|s| - 1], p.term.currentStyle)
  {
    var a, c := s[..|s| - 1], s[|s| - 1];
    assert s == a + [c];
    WriteCharsAppend(p, a, c);
    ClampedWrites(p, a);
    WriteCharsValid(p, a);
    WrittenCell(WriteChars(p, a), c);
  }

  /** A character not preceded by a scroll is written just left of where the cursor ends. */
  lemma WrittenCell(p: Pen, c: char)
    requires TermValid(p.term) && 0 <= p.line < p.term.rows && Advance(p).line == p.line
    ensures var r := WriteChar(p, c);
      && |Active(r.term)| == p.term.rows
      && |Active(r.term)[p.line].cells| >= r.term.cursorX >= 1
      && Active(r.term)[p.line].cells[r.term.cursorX - 1] == Cell(c, p.term.currentStyle)
  {
    AdvanceValid(p);
    var q := Advance(p);
    var b := Active(q.term);
    assert |b| == p.term.rows;
    var cells := SetCell(b[p.line].cells, q.term.cursorX, Cell(c, q.term.currentStyle));
    assert Active(WriteChar(p, c).term) == b[p.line := b[p.line].(cells := cells)];
  }

  /**
   * With autowrap off, `writeText` never leaves the cursor row, the cursor
   * ends at `min(x + |s|, cols)`, and every character past the margin
   * overwrites the last column, so the last character of the text is there.
   */
  lemma ClampedLastChar(t: Term, s: string)
    requires TermValid(t) && !t.modes.autowrap && s != []
    ensures Written(t, s).cursorY == t.cursorY
    ensures Written(t, s).cursorX == Min(t.cursorX + |s|, t.cols)
    ensures |Active(Written(t, s))| == t.rows
    ensures var cells := Active(Written(t, s))[t.cursorY].cells;
      |cells| >= Written(t, s).cursorX && cells[Written(t, s).cursorX - 1] == Cell(s[|s| - 1], t.currentStyle)
  {
    var p0 := Pen(t, t.cursorY);
    ClampedWrites(p0, s);
    ClampedLastCell(p0, s);
    WriteCharsValid(p0, s);
  }

  /**
   * After an autowrap `writeText` goes on writing into the line it started
   * on: a character written at the margin lands in column 0 of the original
   * row, while the cursor moves to the next row, whose line is left as it was.
   */
  lemma WrapKeepsWritingCapturedLine(t: Term, c: char)
    requires TermValid(t) && t.modes.autowrap && t.cursorX == t.cols && t.cursorY + 1 < t.rows
    ensures var u := Written(t, [c]);
      && u.cursorX == 1 && u.cursorY == t.cursorY + 1
      && |Active(u)| == t.rows
      && |Active(u)[t.cursorY].cells| >= 1
      && Active(u)[t.cursorY].cells[0] == Cell(c, t.currentStyle)
      && Active(u)[t.cursorY + 1] == Active(t)[t.cursorY + 1]
  {
    assert WriteChars(Pen(t, t.cursorY), [c]) == WriteChar(Pen(t, t.cursorY), c);
  }

  // ---------------------------------------------------------------------------
  // The handlers keep the state valid
  // ---------------------------------------------------------------------------

  /** `params[i] || d` for parameters the parser produces is at least `min(d, 1)` when `d >= 0`. */
  lemma DefaultedParam(ps: seq<JsNum>, i: int, d: int)
    requires SaneParams(ps) && d >= 0
    ensures OrDefault(At(ps, i), d) >= 0
    ensures d >= 1 ==> OrDefault(At(ps, i), d) >= 1
  {
  }

  predicate CountsNonNegative(info: SeqInfo) {
    match info
    case CursorUp(n) => n >= 0
    case CursorDown(n) => n >= 0
    case CursorForward(n) => n >= 0
    case CursorBack(n) => n >= 0
    case _ => true
  }

  /** Cursor sequences clamp the cursor into the screen. */
  lemma CursorMovedValid(t: Term, info: SeqInfo)
    requires TermValid(t) && CountsNonNegative(info)
    ensures TermValid(CursorMoved(t, info)) && SameSettings(t, CursorMoved(t, info))
    ensures Active(CursorMoved(t, info)) == Active(t)
  {
  }

  /** Erasing keeps both buffers' sizes and the cursor. */
  lemma EraseValid(t: Term, info: SeqInfo)
    requires TermValid(t)
    ensures var u := EraseHandled(t, info);
      TermValid(u) && SameSettings(t, u) && u.cursorX == t.cursorX && u.cursorY == t.cursorY
  {
  }

  lemma ModeSetValid(t: Term, params: seq<JsNum>, enable: bool, isPrivate: bool)
    requires TermValid(t)
    ensures TermValid(ModeSet(t, params, enable, isPrivate))
    ensures !isPrivate ==> ModeSet(t, params, enable, isPrivate) == t
  {
  }

  /** Counts of cursor sequences from the parser are never negative. */
  lemma InfoCounts(sq: Sequence)
    requires SaneParams(sq.params)
    ensures CountsNonNegative(sq.Info())
  {
    DefaultedParam(sq.params, 0, 1);
  }

  lemma SequenceHandledValid(t: Term, sq: Sequence)
    requires TermValid(t) && SaneParams(sq.params)
    ensures TermValid(SequenceHandled(t, sq).term)
    ensures !PrivateMode(SequenceEvent(sq)) ==> Untouched(t, SequenceHandled(t, sq).term)
  {
    var info := sq.Info();
    InfoCounts(sq);
    match info {
      case Style(_) =>
      case SetMode(isPrivate) => ModeSetValid(t, sq.params, true, isPrivate);
      case ResetMode(isPrivate) => ModeSetValid(t, sq.params, false, isPrivate);
      case EraseDisplay(_) => EraseValid(t, info);
      case EraseLine(_) => EraseValid(t, info);
      case Unknown =>
      case _ => CursorMovedValid(t, info);
    }
  }

  /** `Math.ceil((x + 1) / 8) * 8` for a column `x >= 0`: the first multiple of 8 to the right of `x`. */
  lemma TabStop(x: int)
    requires x >= 0
    ensures NextTabStop(x) % 8 == 0 && x < NextTabStop(x) <= x + 8
  {
  }

  /**
   * Every handler keeps the state valid, and one that is neither a private
   * mode sequence nor one of the escapes the parser never emits changes
   * neither the modes, nor the saved cursor, nor the inactive buffer.
   */
  lemma HandleValid(t: Term, e: Event)
    requires TermValid(t) && (e.SequenceEvent? ==> SaneParams(e.sq.params))
    ensures TermValid(Handle(t, e).term)
    ensures !PrivateMode(e) && !GuardedEscapeEvent(e) ==> Untouched(t, Handle(t, e).term)
  {
    match e {
      case Text(s) => WrittenValid(t, s);
      case Linefeed =>
        var u := t.(cursorY := t.cursorY + 1);
        if u.cursorY >= u.rows {
          ScrollShiftsLines(u);
        }
      case Tab => TabStop(t.cursorX);
      case SequenceEvent(sq) => SequenceHandledValid(t, sq);
      case _ =>
    }
  }

  /** `handleLineFeed` at the bottom row scrolls and pins the cursor there; elsewhere it moves down one row. */
  lemma LineFeedScrolls(t: Term)
    requires TermValid(t)
    ensures t.cursorY == t.rows - 1 ==> LineFed(t) == Scrolled(t)
    ensures t.cursorY < t.rows - 1 ==> LineFed(t) == t.(cursorY := t.cursorY + 1)
  {
    if t.cursorY == t.rows - 1 {
      ScrollShiftsLines(t);
      ScrollShiftsLines(t.(cursorY := t.cursorY + 1));
    }
  }

  lemma {:induction false} HandleAllValid(t: Term, es: seq<Event>)
    requires TermValid(t) && SaneEvents(es)
    ensures TermValid(HandleAll(t, es).term)
    ensures Ordinary(es) ==> Untouched(t, HandleAll(t, es).term)
    decreases |es|
  {
    if es != [] {
      FeedCons(Handle, t, es);
      HandleValid(t, es[0]);
      var u := Handle(t, es[0]).term;
      assert SaneEvents(es[1..]) by {
        forall k | 0 <= k < |es[1..]| ensures es[1..][k] == es[k + 1] { }
      }
      HandleAllValid(u, es[1..]);
      if Ordinary(es) {
        assert Ordinary(es[1..]) by {
          forall k | 0 <= k < |es[1..]| ensures es[1..][k] == es[k + 1] { }
        }
      }
    }
  }

  // ---------------------------------------------------------------------------
  // Text through the whole pipeline
  // ---------------------------------------------------------------------------

  /**
   * Whatever text an `OutputProcessor` is fed, the screen stays valid, and
   * the modes, the saved cursor and the inactive buffer never change: the
   * parser emits no private mode sequence and no cursor save or restore.
   */
  lemma ProcessedOutputKeepsModes(t: Term, p: Parser, data: string)
    requires TermValid(t) && Wf(p) && ParamsSane(p)
    ensures TermValid(HandleAll(t, Run(p, data).events).term)
    ensures Untouched(t, HandleAll(t, Run(p, data).events).term)
  {
    RunSane(p, data);
    NeverPrivate(p, data);
    GuardedEscapesNeverEmitted(p, data);
    HandleAllValid(t, Run(p, data).events);
  }

  /**
   * Entering the alternate screen, handling ordinary events and leaving it
   * again gives back the cursor position and the main buffer as they were.
   */
  lemma AlternateScreenRoundTrip(t: Term, es: seq<Event>)
    requires TermValid(t) && !t.modes.alternateScreen && SaneEvents(es) && Ordinary(es)
    ensures var u := ToMain(HandleAll(ToAlternate(t), es).term);
      && !u.modes.alternateScreen
      && u.mainBuffer == t.mainBuffer
      && u.cursorX == t.cursorX && u.cursorY == t.cursorY
  {
    HandleAllValid(ToAlternate(t), es);
  }

  // ---------------------------------------------------------------------------
  // Styles
  // ---------------------------------------------------------------------------

  lemma {:induction false} StyledAllAppend(cs: CellStyle, a: seq<SgrStyle>, b: seq<SgrStyle>)
    ensures StyledAll(cs, a + b) == StyledAll(StyledAll(cs, a), b)
    decreases |a|
  {
    if a == [] {
      assert a + b == b;
    } else {
      assert (a + b)[0] == a[0] && (a + b)[1..] == a[1..] + b;
      StyledAllAppend(Styled(cs, a[0]), a[1..], b);
    }
  }

  /** A `reset` entry forgets everything before it: the style then starts from the default one. */
  lemma ResetForgets(cs: CellStyle, a: seq<SgrStyle>, b: seq<SgrStyle>)
    ensures StyledAll(cs, a + [ResetStyle] + b) == StyledAll(PlainStyle, b)
  {
    StyledAllAppend(cs, a + [ResetStyle], b);
    StyledAllAppend(cs, a, [ResetStyle]);
  }

  /** The flags after `styles`, read from the end: those set since the last reset. */
  function FlagsAfter(cs: CellStyle, styles: seq<SgrStyle>): set<Attr>
    decreases |styles|
  {
    if styles == [] then cs.flags
    else
      var s := styles[|styles| - 1];
      if s.ResetStyle? then {}
      else if s.Flag? then FlagsAfter(cs, styles[..|styles| - 1]) + {s.attr}
      else FlagsAfter(cs, styles[..|styles| - 1])
  }

  /** The colour after `styles`, read from the end: the last entry of its kind, unless a reset follows it. */
  function ColorAfter(initial: Option<SgrStyle>, styles: seq<SgrStyle>, foreground: bool): Option<SgrStyle>
    decreases |styles|
  {
    if styles == [] then initial
    else
      var s := styles[|styles| - 1];
      if s.ResetStyle? then None
      else if (if foreground then s.IsForeground() else s.IsBackground()) then Some(s)
      else ColorAfter(initial, styles[..|styles| - 1], foreground)
  }

  /** `handleStyleSequence` agrees with the reading from the end, field by field. */
  lemma {:induction false} StyledAllFromTheEnd(cs: CellStyle, styles: seq<SgrStyle>)
    ensures StyledAll(cs, styles) ==
      CellStyle(FlagsAfter(cs, styles), ColorAfter(cs.fgColor, styles, true), ColorAfter(cs.bgColor, styles, false))
    decreases |styles|
  {
    if styles != [] {
      var front, s := styles[..|styles| - 1], styles[|styles| - 1];
      assert styles == front + [s];
      StyledAllAppend(cs, front, [s]);
      StyledAllFromTheEnd(cs, front);
    }
  }

  // ---------------------------------------------------------------------------
  // Line text
  // ---------------------------------------------------------------------------

  lemma {:induction false} LineTextAppend(a: seq<Slot>, b: seq<Slot>)
    ensures LineText(a + b) == LineText(a) + LineText(b)
    decreases |a|
  {
    if a == [] {
      assert a + b == b;
    } else {
      assert (a + b)[0] == a[0] && (a + b)[1..] == a[1..] + b;
      LineTextAppend(a[1..], b);
    }
  }

  /** The character a slot that is not a hole shows. */
  function Shown(s: Slot): char
    requires !s.Hole?
  {
    if s.Cell? then s.ch else ' '
  }

  /** A line without holes shows one character per cell: the cell's own, or a space for an erased one. */
  lemma {:induction false} LineTextWithoutHoles(cells: seq<Slot>)
    requires forall k :: 0 <= k < |cells| ==> !cells[k].Hole?
    ensures |LineText(cells)| == |cells|
    ensures forall k :: 0 <= k < |cells| ==> LineText(cells)[k] == Shown(cells[k])
    decreases |cells|
  {
    if cells != [] {
      LineTextWithoutHoles(cells[1..]);
      assert LineText(cells) == [Shown(cells[0])] + LineText(cells[1..]);
    }
  }

  /** Two lines with holes in the same places have texts of the same length. */
  lemma {:induction false} SameHolesSameWidth(a: seq<Slot>, b: seq<Slot>)
    requires |a| == |b| && forall k :: 0 <= k < |a| ==> (a[k].Hole? <==> b[k].Hole?)
    ensures |LineText(a)| == |LineText(b)|
    decreases |a|
  {
    if a != [] {
      SameHolesSameWidth(a[1..], b[1..]);
    }
  }

  /** Erasing cells never changes the width a line's text has: a written cell becomes a space. */
  lemma ErasingKeepsWidth(cells: seq<Slot>, lo: int, hi: int)
    ensures |LineText(ClearCells(cells, lo, hi))| == |LineText(cells)|
  {
    SameHolesSameWidth(ClearCells(cells, lo, hi), cells);
  }

  /** `clearLine` rebuilds the cursor line's text from its erased cells. */
  lemma LineClearedText(t: Term, mode: int)
    requires TermValid(t)
    ensures var line := Active(LineCleared(t, mode))[t.cursorY];
      && line.text == LineText(line.cells)
      && (mode == 0 ==> line.cells == ClearCells(Active(t)[t.cursorY].cells, t.cursorX, t.cols))
      && (mode == 1 ==> line.cells == ClearCells(Active(t)[t.cursorY].cells, 0, t.cursorX + 1))
      && (mode == 2 ==> line == Line("", []))
  {
  }

  /**
   * `clearScreen` in modes 0 and 1 erases the cursor line's cells but keeps
   * its text, so `getScreen` still shows the erased characters there.
   */
  lemma ClearScreenKeepsCursorLineText(t: Term, mode: int)
    requires TermValid(t) && (mode == 0 || mode == 1)
    ensures var line := Active(ScreenCleared(t, mode))[t.cursorY];
      && line.text == Active(t)[t.cursorY].text
      && line.cells == (if mode == 0 then ClearCells(Active(t)[t.cursorY].cells, t.cursorX, t.cols)
                        else ClearCells(Active(t)[t.cursorY].cells, 0, t.cursorX + 1))
  {
  }

  /** `clearScreen(2)` leaves every row of the active buffer blank. */
  lemma ClearScreenAll(t: Term)
    requires TermValid(t)
    ensures Active(ScreenCleared(t, 2)) == Blank(t.rows)
  {
  }

  /** On a valid screen the cursor row is always in the buffer, so `clearScreen` never throws. */
  lemma ClearScreenNeverThrows(t: Term, mode: int)
    requires TermValid(t)
    ensures !ClearScreenThrows(t, mode)
  {
  }

  /**
   * A screen of no rows: `clearScreen(1)` reads the missing row 0, and after a
   * line feed (which scrolls in one line and sets the cursor row to -1)
   * `clearScreen(0)` reads row -1; the model leaves the screen as it was in
   * both cases.
   */
  lemma ClearScreenWithoutRows(cols: int)
    requires cols >= 1
    ensures ClearScreenThrows(NewTerm(cols, 0), 1) && ScreenCleared(NewTerm(cols, 0), 1) == NewTerm(cols, 0)
    ensures var t := LineFed(NewTerm(cols, 0)); t.cursorY == -1 && ClearScreenThrows(t, 0) && ScreenCleared(t, 0) == t
  {
    var t := NewTerm(cols, 0);
    assert Active(t) == [];
    var u := LineFed(t);
    assert Active(u) == [BlankLine];
    assert AboveCleared([], 0, 0, 1) == [];
    assert BelowCleared([BlankLine], -1, 0, cols, 0) == [BlankLine];
  }

  /** `getScreen` shows one line per row. */
  lemma ScreenViewSize(t: Term)
    requires TermValid(t)
    ensures |ScreenOf(t).lines| == t.rows
    ensures forall k :: 0 <= k < t.rows ==> ScreenOf(t).lines[k] == Active(t)[k].text
  {
  }
}
