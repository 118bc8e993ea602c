/**
 * `OutputProcessor` (receiver/outputProcessor.cjs): it feeds text through an
 * `ANSIParser` and applies every event the parser emits to a
 * `TerminalState`, emitting a notification for each kind of change.
 *
 * What one event does is given once as the pure function `Handle`; the
 * class follows it handler by handler.
 */
module Output {
  import opened Js
  import opened Ansi
  import opened Screen

  /** The notifications `OutputProcessor` emits: `update` with its type, `title`, `resize`, `reset`. */
  datatype Notice =
    | TextUpdate(text: string)
    | CursorUpdate
    | EraseUpdate
    | StyleUpdate
    | ModeUpdate
    | TitleNotice(title: string)
    | ResizeNotice(cols: int, rows: int)
    | ResetNotice

  /** The state after an event, and the notifications emitted meanwhile. */
  datatype Handled = Handled(term: Term, notices: seq<Notice>)

  /** What `getScreen` returns. */
  datatype ScreenView = ScreenView(lines: seq<string>, x: int, y: int, visible: bool, title: string)

  /** `Math.ceil((x + 1) / 8) * 8`: the next multiple of 8 after `x`. */
  function NextTabStop(x: int): int {
    ((x + 1 + 7) / 8) * 8
  }

  /** `handleLineFeed`: one row down, scrolling at the bottom. */
  function LineFed(t: Term): Term {
    var u := t.(cursorY := t.cursorY + 1);
    if u.cursorY >= u.rows then Scrolled(u).(cursorY := u.rows - 1) else u
  }

  /** `handleCursorSequence`: moves are clamped to the screen; scrolling sequences change nothing. */
  function CursorMoved(t: Term, info: SeqInfo): Term {
    match info
    case CursorUp(n) => t.(cursorY := Max(0, t.cursorY - n))
    case CursorDown(n) => t.(cursorY := Min(t.rows - 1, t.cursorY + n))
    case CursorForward(n) => t.(cursorX := Min(t.cols - 1, t.cursorX + n))
    case CursorBack(n) => t.(cursorX := Max(0, t.cursorX - n))
    case CursorPosition(row, col) =>
      t.(cursorY := Min(t.rows - 1, Max(0, row - 1)), cursorX := Min(t.cols - 1, Max(0, col - 1)))
    case CursorColumn(col) => t.(cursorX := Min(t.cols - 1, Max(0, col - 1)))
    case _ => t
  }

  /** `handleEraseSequence`. */
  function EraseHandled(t: Term, info: SeqInfo): Term {
    match info
    case EraseDisplay(mode) => ScreenCleared(t, mode)
    case EraseLine(mode) => LineCleared(t, mode)
    case _ => t
  }

  /** One entry of `styles` applied to `currentStyle`. */
  function Styled(cs: CellStyle, s: SgrStyle): CellStyle {
    match s
    case ResetStyle => PlainStyle
    case Flag(a) => cs.(flags := cs.flags + {a})
    case Fg(_) => cs.(fgColor := Some(s))
    case Fg256(_) => cs.(fgColor := Some(s))
    case FgRGB(_, _, _) => cs.(fgColor := Some(s))
    case Bg(_) => cs.(bgColor := Some(s))
    case Bg256(_) => cs.(bgColor := Some(s))
    case BgRGB(_, _, _) => cs.(bgColor := Some(s))
  }

  /** `handleStyleSequence`: the styles applied left to right. */
  function StyledAll(cs: CellStyle, styles: seq<SgrStyle>): CellStyle
    decreases |styles|
  {
    if styles == [] then cs else StyledAll(Styled(cs, styles[0]), styles[1..])
  }

  /** `handleModeSequence`: only private modes 1049, 25, 1000 and 2004 do anything. */
  function ModeSet(t: Term, params: seq<JsNum>, enable: bool, isPrivate: bool): Term {
    if !isPrivate then t
    else
      var mode := At(params, 0);
      if mode == Some(Num(1049)) then (if enable then ToAlternate(t) else ToMain(t))
      else if mode == Some(Num(25)) then t.(modes := t.modes.(cursorVisible := enable))
      else if mode == Some(Num(1000)) then t.(modes := t.modes.(mouseTracking := enable))
      else if mode == Some(Num(2004)) then t.(modes := t.modes.(bracketedPaste := enable))
      else t
  }

  /** `handleSequence`: dispatch on the sequence's type; `unknown` sequences are ignored. */
  function SequenceHandled(t: Term, sq: Sequence): Handled {
    var info := sq.Info();
    match info
    case Style(styles) => Handled(t.(currentStyle := StyledAll(t.currentStyle, styles)), [StyleUpdate])
    case SetMode(isPrivate) => Handled(ModeSet(t, sq.params, true, isPrivate), [ModeUpdate])
    case ResetMode(isPrivate) => Handled(ModeSet(t, sq.params, false, isPrivate), [ModeUpdate])
    case EraseDisplay(_) => Handled(EraseHandled(t, info), [EraseUpdate])
    case EraseLine(_) => Handled(EraseHandled(t, info), [EraseUpdate])
    case Unknown => Handled(t, [])
    case _ => Handled(CursorMoved(t, info), [CursorUpdate])
  }

  /** The parser handlers of `setupParserHandlers`; events without a handler change nothing. */
  function Handle(t: Term, e: Event): Handled {
    match e
    case Text(s) => Handled(Written(t, s), [TextUpdate(s)])
    case Linefeed => Handled(LineFed(t), [CursorUpdate])
    case CarriageReturn => Handled(t.(cursorX := 0), [CursorUpdate])
    case Backspace => if t.cursorX > 0 then Handled(t.(cursorX := t.cursorX - 1), [CursorUpdate]) else Handled(t, [])
    case Tab => Handled(t.(cursorX := Min(NextTabStop(t.cursorX), t.cols - 1)), [CursorUpdate])
    case SequenceEvent(sq) => SequenceHandled(t, sq)
    case Title(s) => Handled(t.(title := s), [TitleNotice(s)])
    case SaveCursor => Handled(t.(savedCursor := Point(t.cursorX, t.cursorY)), [])
    case RestoreCursor => Handled(t.(cursorX := t.savedCursor.x, cursorY := t.savedCursor.y), [CursorUpdate])
    case _ => Handled(t, [])
  }

  /** The events of `es` through a handler, in order. */
  function Feed(h: (Term, Event) -> Handled, t: Term, es: seq<Event>): Handled
    decreases |es|
  {
    if es == [] then Handled(t, [])
    else
      var f := h(t, es[0]);
      var g := Feed(h, f.term, es[1..]);
      Handled(g.term, f.notices + g.notices)
  }

  /** Every event of `es` handled in order. */
  function HandleAll(t: Term, es: seq<Event>): Handled {
    Feed(Handle, t, es)
  }

  /** `getScreen`: the text of every line of the active buffer, the cursor and the title. */
  function ScreenOf(t: Term): ScreenView {
    ScreenView(seq(|Active(t)|, k requires 0 <= k < |Active(t)| => Active(t)[k].text),
               t.cursorX, t.cursorY, t.modes.cursorVisible, t.title)
  }

  lemma FeedCons(h: (Term, Event) -> Handled, t: Term, es: seq<Event>)
    requires es != []
    ensures Feed(h, t, es).term == Feed(h, h(t, es[0]).term, es[1..]).term
    ensures Feed(h, t, es).notices == h(t, es[0]).notices + Feed(h, h(t, es[0]).term, es[1..]).notices
  {
  }

  /** One event taken off the front of the events still to be fed, for any handler. */
  lemma FeedOneStep(h: (Term, Event) -> Handled, t: Term, m: seq<Notice>, es: seq<Event>, i: nat, u: Term, m2: seq<Notice>)
    requires i < |es|
    requires u == h(t, es[i]).term && m2 == m + h(t, es[i]).notices
    ensures Feed(h, u, es[i + 1..]).term == Feed(h, t, es[i..]).term
    ensures m2 + Feed(h, u, es[i + 1..]).notices == m + Feed(h, t, es[i..]).notices
  {
    FeedCons(h, t, es[i..]);
    assert es[i..][0] == es[i] && es[i..][1..] == es[i + 1..];
  }

  /** One event taken off the front of the events still to be handled. */
  lemma HandleOneStep(t: Term, m: seq<Notice>, es: seq<Event>, i: nat, u: Term, m2: seq<Notice>)
    requires i < |es|
    requires u == Handle(t, es[i]).term && m2 == m + Handle(t, es[i]).notices
    ensures HandleAll(u, es[i + 1..]).term == HandleAll(t, es[i..]).term
    ensures m2 + HandleAll(u, es[i + 1..]).notices == m + HandleAll(t, es[i..]).notices
  {
    FeedOneStep(Handle, t, m, es, i, u, m2);
  }

  class OutputProcessor {
    var cols: int
    var rows: int
    var state: TerminalState
    var parser: ANSIParser
    /** Every notification emitted so far, oldest first. */
    var notices: seq<Notice>

    /** `new OutputProcessor({cols, rows})`: a missing, zero or NaN size defaults to 80 x 24. */
    constructor (cols: Option<JsNum>, rows: Option<JsNum>)
      ensures this.cols == OrDefault(cols, 80) && this.rows == OrDefault(rows, 24)
      ensures state.Snapshot() == NewTerm(this.cols, this.rows)
      ensures parser.Snapshot() == Initial && parser.events == [] && notices == []
    {
      this.cols := OrDefault(cols, 80);
      this.rows := OrDefault(rows, 24);
      state := new TerminalState(OrDefault(cols, 80), OrDefault(rows, 24));
      parser := new ANSIParser();
      notices := [];
    }

    /** The listener `setupParserHandlers` registers for the event `e`. */
    method HandleEvent(e: Event)
      modifies this, state
      ensures state == old(state) && parser == old(parser)
      ensures state.Snapshot() == Handle(old(state.Snapshot()), e).term
      ensures notices == old(notices) + Handle(old(state.Snapshot()), e).notices
    {
      match e {
        case Text(s) =>
          state.WriteText(s);
          notices := notices + [TextUpdate(s)];
        case Linefeed =>
          HandleLineFeed();
        case CarriageReturn =>
          state.cursorX := 0;
          notices := notices + [CursorUpdate];
        case Backspace =>
          if state.cursorX > 0 {
            state.cursorX := state.cursorX - 1;
            notices := notices + [CursorUpdate];
          }
        case Tab =>
          var nextTab := NextTabStop(state.cursorX);
          state.cursorX := Min(nextTab, state.cols - 1);
          notices := notices + [CursorUpdate];
        case SequenceEvent(sq) =>
          HandleSequence(sq);
        case Title(s) =>
          state.title := s;
          notices := notices + [TitleNotice(s)];
        case SaveCursor =>
          state.savedCursor := Point(state.cursorX, state.cursorY);
        case RestoreCursor =>
          state.cursorX := state.savedCursor.x;
          state.cursorY := state.savedCursor.y;
          notices := notices + [CursorUpdate];
        case _ =>
      }
    }

    method HandleLineFeed()
      modifies this, state
      ensures state == old(state) && parser == old(parser)
      ensures state.Snapshot() == LineFed(old(state.Snapshot()))
      ensures notices == old(notices) + [CursorUpdate]
    {
      state.cursorY := state.cursorY + 1;
      if state.cursorY >= state.rows {
        state.Scroll();
        state.cursorY := state.rows - 1;
      }
      notices := notices + [CursorUpdate];
    }

    method HandleSequence(sq: Sequence)
      modifies this, state
      ensures state == old(state) && parser == old(parser)
      ensures state.Snapshot() == SequenceHandled(old(state.Snapshot()), sq).term
      ensures notices == old(notices) + SequenceHandled(old(state.Snapshot()), sq).notices
    {
      var info := sq.Info();
      match info {
        case Style(styles) => HandleStyleSequence(styles);
        case SetMode(isPrivate) => HandleModeSequence(sq.params, true, isPrivate);
        case ResetMode(isPrivate) => HandleModeSequence(sq.params, false, isPrivate);
        case EraseDisplay(_) => HandleEraseSequence(info);
        case EraseLine(_) => HandleEraseSequence(info);
        case Unknown =>
        case _ => HandleCursorSequence(info);
      }
    }

    method HandleCursorSequence(info: SeqInfo)
      modifies this, state
      ensures state == old(state) && parser == old(parser)
      ensures state.Snapshot() == CursorMoved(old(state.Snapshot()), info)
      ensures notices == old(notices) + [CursorUpdate]
    {
      match info {
        case CursorUp(n) => state.cursorY := Max(0, state.cursorY - n);
        case CursorDown(n) => state.cursorY := Min(state.rows - 1, state.cursorY + n);
        case CursorForward(n) => state.cursorX := Min(state.cols - 1, state.cursorX + n);
        case CursorBack(n) => state.cursorX := Max(0, state.cursorX - n);
        case CursorPosition(row, col) =>
          state.cursorY := Min(state.rows - 1, Max(0, row - 1));
          state.cursorX := Min(state.cols - 1, Max(0, col - 1));
        case CursorColumn(col) => state.cursorX := Min(state.cols - 1, Max(0, col - 1));
        case _ =>
      }
      notices := notices + [CursorUpdate];
    }

    method HandleEraseSequence(info: SeqInfo)
      modifies this, state
      ensures state == old(state) && parser == old(parser)
      ensures state.Snapshot() == EraseHandled(old(state.Snapshot()), info)
      ensures notices == old(notices) + [EraseUpdate]
    {
      if info.EraseDisplay? {
        state.ClearScreen(info.mode);
      } else if info.EraseLine? {
        state.ClearLine(info.mode);
      }
      notices := notices + [EraseUpdate];
    }

    method HandleStyleSequence(styles: seq<SgrStyle>)
      modifies this, state
      ensures state == old(state) && parser == old(parser)
      ensures state.Snapshot() == old(state.Snapshot()).(currentStyle := StyledAll(old(state.currentStyle), styles))
      ensures notices == old(notices) + [StyleUpdate]
    {
      for i := 0 to |styles|
        invariant state == old(state) && parser == old(parser) && notices == old(notices)
        invariant state.Snapshot() == old(state.Snapshot()).(currentStyle := state.currentStyle)
        invariant StyledAll(state.currentStyle, styles[i..]) == StyledAll(old(state.currentStyle), styles)
      {
        var style := styles[i];
        match style {
          case ResetStyle => state.currentStyle := PlainStyle;
          case Flag(a) => state.currentStyle := state.currentStyle.(flags := state.currentStyle.flags + {a});
          case Fg(_) => state.currentStyle := state.currentStyle.(fgColor := Some(style));
          case Fg256(_) => state.currentStyle := state.currentStyle.(fgColor := Some(style));
          case FgRGB(_, _, _) => state.currentStyle := state.currentStyle.(fgColor := Some(style));
          case Bg(_) => state.currentStyle := state.currentStyle.(bgColor := Some(style));
          case Bg256(_) => state.currentStyle := state.currentStyle.(bgColor := Some(style));
          case BgRGB(_, _, _) => state.currentStyle := state.currentStyle.(bgColor := Some(style));
        }
        assert styles[i..][1..] == styles[i + 1..];
      }
      notices := notices + [StyleUpdate];
    }

    method HandleModeSequence(params: seq<JsNum>, enable: bool, isPrivate: bool)
      modifies this, state
      ensures state == old(state) && parser == old(parser)
      ensures state.Snapshot() == ModeSet(old(state.Snapshot()), params, enable, isPrivate)
      ensures notices == old(notices) + [ModeUpdate]
    {
      if isPrivate {
        var mode := At(params, 0);
        if mode == Some(Num(1049)) {
          if enable {
            state.SwitchToAlternateScreen();
          } else {
            state.SwitchToMainScreen();
          }
        } else if mode == Some(Num(25)) {
          state.modes := state.modes.(cursorVisible := enable);
        } else if mode == Some(Num(1000)) {
          state.modes := state.modes.(mouseTracking := enable);
        } else if mode == Some(Num(2004)) {
          state.modes := state.modes.(bracketedPaste := enable);
        }
      }
      notices := notices + [ModeUpdate];
    }

    /**
     * `process(data)`. The listeners run while the parser emits; since none
     * of them feeds the parser again, this is the parse followed by the
     * emitted events in order.
     */
    method Process(data: string)
      modifies this, state, parser
      ensures state == old(state) && parser == old(parser)
      ensures parser.Snapshot() == Run(old(parser.Snapshot()), data).parser
      ensures parser.events == old(parser.events) + Run(old(parser.Snapshot()), data).events
      ensures state.Snapshot() == HandleAll(old(state.Snapshot()), Run(old(parser.Snapshot()), data).events).term
      ensures notices == old(notices) + HandleAll(old(state.Snapshot()), Run(old(parser.Snapshot()), data).events).notices
    {
      var before := |parser.events|;
      parser.Parse(data);
      var emitted := parser.events[before..];
      assert emitted == Run(old(parser.Snapshot()), data).events;
      ghost var t0, m0 := state.Snapshot(), notices;
      for i := 0 to |emitted|
        invariant state == old(state) && parser == old(parser)
        invariant parser.Snapshot() == Run(old(parser.Snapshot()), data).parser
        invariant parser.events == old(parser.events) + emitted
        invariant HandleAll(state.Snapshot(), emitted[i..]).term == HandleAll(t0, emitted).term
        invariant notices + HandleAll(state.Snapshot(), emitted[i..]).notices == m0 + HandleAll(t0, emitted).notices
      {
        ghost var t, m := state.Snapshot(), notices;
        HandleEvent(emitted[i]);
        HandleOneStep(t, m, emitted, i, state.Snapshot(), notices);
      }
      assert HandleAll(state.Snapshot(), []).notices == [];
    }

    /** `getScreen`. */
    method GetScreen() returns (s: ScreenView)
      ensures s == ScreenOf(state.Snapshot())
    {
      var buffer := Active(state.Snapshot());
      s := ScreenView(seq(|buffer|, k requires 0 <= k < |buffer| => buffer[k].text),
                      state.cursorX, state.cursorY, state.modes.cursorVisible, state.title);
    }

    /** `resize(cols, rows)`: a fresh state of the new size replaces the old one. */
    method Resize(cols: int, rows: int)
      modifies this
      ensures this.cols == cols && this.rows == rows && parser == old(parser)
      ensures state.Snapshot() == NewTerm(cols, rows)
      ensures notices == old(notices) + [ResizeNotice(cols, rows)]
    {
      this.cols := cols;
      this.rows := rows;
      state := new TerminalState(cols, rows);
      notices := notices + [ResizeNotice(cols, rows)];
    }

    /** `reset`: a fresh state of the current size, and the parser back to its initial state. */
    method Reset()
      modifies this, parser
      ensures cols == old(cols) && rows == old(rows) && parser == old(parser)
      ensures state.Snapshot() == NewTerm(cols, rows)
      ensures parser.Snapshot() == Initial && parser.events == old(parser.events)
      ensures notices == old(notices) + [ResetNotice]
    {
      state := new TerminalState(cols, rows);
      parser.Reset();
      notices := notices + [ResetNotice];
    }
  }
}
