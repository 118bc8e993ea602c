/**
 * The string builders for ANSI/VT100 control sequences: cursor, screen,
 * text-attribute and mode requests, the bell, titles, hyperlinks and
 * `compose`. Each builder object is a datatype of its calls with one
 * function that renders a call; the lemmas read each rendering back through
 * the escape-sequence parser and state what the parser makes of it.
 */
module Controls {
  import opened Js
  import A = Ansi
  import P = AnsiProperties

  const Esc: char := '\U{1B}'
  const Csi: string := "\U{1B}["

  /** The calls of the `cursor` object. */
  datatype CursorCall =
    | MoveTo(row: int, col: int)
    | MoveUp(n: int)
    | MoveDown(n: int)
    | MoveRight(n: int)
    | MoveLeft(n: int)
    | Save
    | Restore
    | Show
    | Hide
    | Home
    | NextLine(n: int)
    | PrevLine(n: int)
    | Column(n: int)

  /** `${CSI}${a};${b}…f`: the numbers in decimal, separated by `;`, then the final byte. */
  function CsiNumbers(ns: seq<int>, f: char): string
    requires |ns| >= 1
  {
    Csi + Fields(ns) + [f]
  }

  function Cursor(call: CursorCall): (r: string)
    ensures |r| >= 2 && r[0] == Esc
  {
    match call
    case MoveTo(row, col) => CsiNumbers([row, col], 'H')
    case MoveUp(n) => CsiNumbers([n], 'A')
    case MoveDown(n) => CsiNumbers([n], 'B')
    case MoveRight(n) => CsiNumbers([n], 'C')
    case MoveLeft(n) => CsiNumbers([n], 'D')
    case Save => [Esc, '7']
    case Restore => [Esc, '8']
    case Show => DecMode("25", 'h')
    case Hide => DecMode("25", 'l')
    case Home => Csi + "H"
    case NextLine(n) => CsiNumbers([n], 'E')
    case PrevLine(n) => CsiNumbers([n], 'F')
    case Column(n) => CsiNumbers([n], 'G')
  }

  /** The calls of the `screen` object. */
  datatype ScreenCall =
    | Clear
    | ClearFromCursor
    | ClearToCursor
    | ClearLine
    | ClearLineFromCursor
    | ClearLineToCursor
    | ScrollUp(n: int)
    | ScrollDown(n: int)
    | SetScrollRegion(top: int, bottom: int)
    | ResetScrollRegion

  function Screen(call: ScreenCall): (r: string)
    ensures |r| >= 3 && r[..2] == Csi
  {
    match call
    case Clear => CsiNumbers([2], 'J') + (Csi + "H")
    case ClearFromCursor => CsiNumbers([0], 'J')
    case ClearToCursor => CsiNumbers([1], 'J')
    case ClearLine => CsiNumbers([2], 'K')
    case ClearLineFromCursor => CsiNumbers([0], 'K')
    case ClearLineToCursor => CsiNumbers([1], 'K')
    case ScrollUp(n) => CsiNumbers([n], 'S')
    case ScrollDown(n) => CsiNumbers([n], 'T')
    case SetScrollRegion(top, bottom) => CsiNumbers([top, bottom], 'r')
    case ResetScrollRegion => Csi + "r"
  }

  /** The calls of the `text` object. */
  datatype TextCall =
    | Reset | Bold | Dim | Italic | Underline | Blink | Reverse | Hidden | Strikethrough
    | NoBold | NoItalic | NoUnderline | NoBlink | NoReverse | NoHidden | NoStrikethrough
    | FgColor(code: int)
    | BgColor(code: int)
    | Fg256(n: int)
    | Bg256(n: int)
    | FgRGB(r: int, g: int, b: int)
    | BgRGB(r: int, g: int, b: int)
    | DefaultFg
    | DefaultBg

  /** The SGR parameter of the calls that send a single one. */
  function SgrCode(call: TextCall): int
    requires !(call.Fg256? || call.Bg256? || call.FgRGB? || call.BgRGB?)
  {
    match call
    case Reset => 0
    case Bold => 1
    case Dim => 2
    case Italic => 3
    case Underline => 4
    case Blink => 5
    case Reverse => 7
    case Hidden => 8
    case Strikethrough => 9
    case NoBold => 22
    case NoItalic => 23
    case NoUnderline => 24
    case NoBlink => 25
    case NoReverse => 27
    case NoHidden => 28
    case NoStrikethrough => 29
    case FgColor(code) => 30 + code
    case BgColor(code) => 40 + code
    case DefaultFg => 39
    case DefaultBg => 49
  }

  function Text(call: TextCall): (r: string)
    ensures |r| >= 3 && r[..2] == Csi && r[|r| - 1] == 'm'
  {
    match call
    case Fg256(n) => CsiNumbers([38, 5, n], 'm')
    case Bg256(n) => CsiNumbers([48, 5, n], 'm')
    case FgRGB(r, g, b) => CsiNumbers([38, 2, r, g, b], 'm')
    case BgRGB(r, g, b) => CsiNumbers([48, 2, r, g, b], 'm')
    case _ => CsiNumbers([SgrCode(call)], 'm')
  }

  /** `${CSI}?digits` then `h` or `l`: a DEC private mode set or reset. */
  function DecMode(digits: string, f: char): string {
    Csi + ("?" + digits) + [f]
  }

  /** The calls of the `mode` object. */
  datatype ModeCall =
    | AlternateScreen | NormalScreen
    | MouseTracking | NoMouseTracking
    | Autowrap | NoAutowrap
    | BracketedPaste | NoBracketedPaste
    | ApplicationKeypad | NormalKeypad
    | SetRawMode(enable: bool)

  function Mode(call: ModeCall): (r: string)
    ensures |r| >= 2 && r[0] == Esc
    decreases call.SetRawMode?
  {
    match call
    case AlternateScreen => DecMode("1049", 'h')
    case NormalScreen => DecMode("1049", 'l')
    case MouseTracking => DecMode("1000", 'h')
    case NoMouseTracking => DecMode("1000", 'l')
    case Autowrap => DecMode("7", 'h')
    case NoAutowrap => DecMode("7", 'l')
    case BracketedPaste => DecMode("2004", 'h')
    case NoBracketedPaste => DecMode("2004", 'l')
    case ApplicationKeypad => [Esc, '=']
    case NormalKeypad => [Esc, '>']
    case SetRawMode(enable) =>
      if enable then Compose([Mode(AlternateScreen), Mode(MouseTracking), Cursor(Hide), Mode(NoBracketedPaste)])
      else Compose([Mode(NormalScreen), Mode(NoMouseTracking), Cursor(Show), Mode(BracketedPaste)])
  }

  /** `bell()`. */
  const Bell: string := "\U{7}"

  /** The calls of the `title` object. */
  datatype TitleCall = SetTitle(s: string) | SetWindow(s: string) | SetTab(s: string)

  function Title(call: TitleCall): (r: string)
    ensures |r| == |call.s| + 5 && r[..2] == [Esc, ']'] && r[3] == ';' && r[4..|r| - 1] == call.s && r[|r| - 1] == '\U{7}'
  {
    match call
    case SetTitle(s) => [Esc] + "]0;" + s + "\U{7}"
    case SetWindow(s) => [Esc] + "]2;" + s + "\U{7}"
    case SetTab(s) => [Esc] + "]1;" + s + "\U{7}"
  }

  /** `hyperlink.start(url, id)`: an empty `id` leaves the parameters empty. */
  function HyperlinkStart(url: string, id: string): (r: string)
    ensures |r| >= |url| + 5 && r[..4] == [Esc] + "]8;" && r[|r| - 1 - |url|..|r| - 1] == url && r[|r| - 1] == '\U{7}'
  {
    [Esc] + "]8;" + (if id != "" then "id=" + id else "") + ";" + url + "\U{7}"
  }

  /** `hyperlink.end()`. */
  function HyperlinkEnd(): (r: string)
    ensures r == HyperlinkStart("", "")
  {
    [Esc] + "]8;;\U{7}"
  }

  /** `compose(...sequences)`. */
  function Compose(sequences: seq<string>): (r: string)
    ensures |r| == TotalLength(sequences)
    ensures |sequences| == 1 ==> r == sequences[0]
  {
    JoinLength(sequences);
    Join(sequences, "")
  }

  /** The number of characters of all the sequences together. */
  function TotalLength(sequences: seq<string>): nat {
    if sequences == [] then 0 else |sequences[0]| + TotalLength(sequences[1..])
  }

  /** Joining with no separator adds and drops nothing. */
  lemma {:induction false} JoinLength(parts: seq<string>)
    ensures |Join(parts, "")| == TotalLength(parts)
    decreases |parts|
  {
    if |parts| == 1 {
      assert parts[1..] == [];
    } else if |parts| > 1 {
      JoinLength(parts[1..]);
    }
  }

  // ---------------------------------------------------------------------------
  // What the parser makes of the builders
  // ---------------------------------------------------------------------------

  /**
   * Parsing `s` from NORMAL emits whatever text was pending and then one
   * control sequence per entry of `infos`, with that meaning, and nothing
   * else; the parser is back in NORMAL with nothing buffered.
   */
  predicate Dispatches(p: A.Parser, s: string, infos: seq<A.SeqInfo>) {
    var r := A.Run(p, s);
    var pre := A.Flushed(p).events;
    && r.parser.state == A.Normal && r.parser.buffer == ""
    && |r.events| == |pre| + |infos| && r.events[..|pre|] == pre
    && forall k :: 0 <= k < |infos| ==> IsSequence(r.events[|pre| + k], infos[k])
  }

  predicate IsSequence(e: A.Event, info: A.SeqInfo) {
    e.SequenceEvent? && e.sq.Info() == info
  }

  /** A count or position of 0 means 1. */
  function One(n: int): int {
    if n == 0 then 1 else n
  }

  /** What each cursor call asks of the terminal, for non-negative arguments. */
  function CursorMeaning(call: CursorCall): seq<A.SeqInfo> {
    match call
    case MoveTo(row, col) => [A.CursorPosition(One(row), One(col))]
    case MoveUp(n) => [A.CursorUp(One(n))]
    case MoveDown(n) => [A.CursorDown(One(n))]
    case MoveRight(n) => [A.CursorForward(One(n))]
    case MoveLeft(n) => [A.CursorBack(One(n))]
    case Save => []
    case Restore => []
    case Show => [A.SetMode(false)]
    case Hide => [A.ResetMode(false)]
    case Home => [A.CursorPosition(1, 1)]
    case NextLine(_) => [A.Unknown]
    case PrevLine(_) => [A.Unknown]
    case Column(n) => [A.CursorColumn(One(n))]
  }

  function ScreenMeaning(call: ScreenCall): seq<A.SeqInfo> {
    match call
    case Clear => [A.EraseDisplay(2), A.CursorPosition(1, 1)]
    case ClearFromCursor => [A.EraseDisplay(0)]
    case ClearToCursor => [A.EraseDisplay(1)]
    case ClearLine => [A.EraseLine(2)]
    case ClearLineFromCursor => [A.EraseLine(0)]
    case ClearLineToCursor => [A.EraseLine(1)]
    case ScrollUp(n) => [A.ScrollUp(One(n))]
    case ScrollDown(n) => [A.ScrollDown(One(n))]
    case SetScrollRegion(_, _) => [A.Unknown]
    case ResetScrollRegion => [A.Unknown]
  }

  /** The style list of each text call; the `no…` and default-colour calls set nothing. */
  function TextMeaning(call: TextCall): seq<A.SgrStyle> {
    match call
    case Reset => [A.ResetStyle]
    case Bold => [A.Flag(A.Bold)]
    case Dim => [A.Flag(A.Dim)]
    case Italic => [A.Flag(A.Italic)]
    case Underline => [A.Flag(A.Underline)]
    case Blink => [A.Flag(A.Blink)]
    case Reverse => [A.Flag(A.Reverse)]
    case Hidden => [A.Flag(A.Hidden)]
    case Strikethrough => [A.Flag(A.Strikethrough)]
    case FgColor(code) => [A.Fg(code)]
    case BgColor(code) => [A.Bg(code)]
    case Fg256(n) => [A.Fg256(Some(Num(n)))]
    case Bg256(n) => [A.Bg256(Some(Num(n)))]
    case FgRGB(r, g, b) => [A.FgRGB(Some(Num(r)), Some(Num(g)), Some(Num(b)))]
    case BgRGB(r, g, b) => [A.BgRGB(Some(Num(r)), Some(Num(g)), Some(Num(b)))]
    case _ => []
  }

  /** Arguments the parser reads back: no minus sign, and basic colours in 0..7. */
  predicate CursorArgs(call: CursorCall) {
    match call
    case MoveTo(row, col) => row >= 0 && col >= 0
    case MoveUp(n) => n >= 0
    case MoveDown(n) => n >= 0
    case MoveRight(n) => n >= 0
    case MoveLeft(n) => n >= 0
    case NextLine(n) => n >= 0
    case PrevLine(n) => n >= 0
    case Column(n) => n >= 0
    case _ => true
  }

  predicate ScreenArgs(call: ScreenCall) {
    match call
    case ScrollUp(n) => n >= 0
    case ScrollDown(n) => n >= 0
    case SetScrollRegion(top, bottom) => top >= 0 && bottom >= 0
    case _ => true
  }

  predicate TextArgs(call: TextCall) {
    match call
    case FgColor(code) => 0 <= code <= 7
    case BgColor(code) => 0 <= code <= 7
    case Fg256(n) => n >= 0
    case Bg256(n) => n >= 0
    case FgRGB(r, g, b) => r >= 0 && g >= 0 && b >= 0
    case BgRGB(r, g, b) => r >= 0 && g >= 0 && b >= 0
    case _ => true
  }

  // ---------------------------------------------------------------------------
  // Numeric parameter lists
  // ---------------------------------------------------------------------------

  /** Numbers written in decimal and joined by `;`. */
  function Fields(ns: seq<int>): string
    requires |ns| >= 1
  {
    if |ns| == 1 then IntToString(ns[0]) else IntToString(ns[0]) + ";" + Fields(ns[1..])
  }

  function Nums(ns: seq<int>): (r: seq<JsNum>)
    ensures |r| == |ns| && forall k :: 0 <= k < |ns| ==> r[k] == Num(ns[k])
  {
    if ns == [] then [] else [Num(ns[0])] + Nums(ns[1..])
  }

  lemma NumberParam(n: nat)
    ensures P.ParamChars(IntToString(n)) && ';' !in IntToString(n)
    ensures IntToString(n) != "" && P.CsiParams(IntToString(n)) == [Num(n)]
    ensures A.CommitParam(IntToString(n)) == Num(n)
  {
    var s := IntToString(n);
    assert AllDigits(s);
    SplitWithoutSeparator(s, ';');
    ParseIntOfIntToString(n);
  }

  lemma CsiParamsCons(a: string, rest: string)
    requires ';' !in a
    ensures P.CsiParams(a + ";" + rest) == [A.CommitParam(a)] + P.CsiParams(rest)
  {
    P.SplitTwo(a, rest);
    PiecesCons(a, Split(rest, ';'));
  }

  /** The parameter list read from split pieces, with one more piece in front. */
  lemma PiecesCons(a: string, r: seq<string>)
    requires |r| >= 1
    ensures var pieces := [a] + r;
      P.Commits(pieces[..|pieces| - 1]) + (if pieces[|pieces| - 1] != "" then [ParseInt(pieces[|pieces| - 1])] else [])
      == [A.CommitParam(a)] + (P.Commits(r[..|r| - 1]) + (if r[|r| - 1] != "" then [ParseInt(r[|r| - 1])] else []))
  {
    var pieces := [a] + r;
    assert pieces[..|pieces| - 1] == [a] + r[..|r| - 1];
    CommitsCons(a, r[..|r| - 1]);
  }

  lemma CommitsCons(a: string, pieces: seq<string>)
    ensures P.Commits([a] + pieces) == [A.CommitParam(a)] + P.Commits(pieces)
  {
    assert ([a] + pieces)[1..] == pieces;
  }

  /** A `;`-separated list of numbers reads back as exactly those numbers. */
  lemma {:induction false} FieldsParams(ns: seq<int>)
    requires |ns| >= 1 && forall k :: 0 <= k < |ns| ==> ns[k] >= 0
    ensures P.ParamChars(Fields(ns)) && P.CsiParams(Fields(ns)) == Nums(ns)
    decreases |ns|
  {
    NumberParam(ns[0]);
    if |ns| > 1 {
      FieldsParams(ns[1..]);
      var a := IntToString(ns[0]);
      CsiParamsCons(a, Fields(ns[1..]));
      ParamCharsJoin(a, Fields(ns[1..]));
      assert Nums(ns) == [Num(ns[0])] + Nums(ns[1..]);
    } else {
      assert Nums(ns) == [Num(ns[0])];
    }
  }

  lemma ParamCharsJoin(a: string, b: string)
    requires P.ParamChars(a) && P.ParamChars(b)
    ensures P.ParamChars(a + ";" + b)
  {
  }

  // ---------------------------------------------------------------------------
  // Reading back
  // ---------------------------------------------------------------------------

  /** `ESC [ body f` dispatches one sequence, with the parameters read from `body`. */
  lemma SequenceDispatches(p: A.Parser, body: string, f: char, info: A.SeqInfo)
    requires p.state == A.Normal && P.ParamChars(body) && 0x40 <= f as int <= 0x7E
    requires A.Sequence(P.CsiParams(body), "", f).Info() == info
    ensures Dispatches(p, Csi + body + [f], [info])
  {
    P.CsiRun(p, body, f);
    assert Csi + body + [f] == [A.ESC, '['] + body + [f];
    var r := A.Run(p, Csi + body + [f]);
    var pre := A.Flushed(p).events;
    assert r.events[..|pre|] == pre;
    assert r.events[|pre| + 0] == A.SequenceEvent(A.Sequence(P.CsiParams(body), "", f));
  }

  /** `ESC [ numbers f`. */
  lemma NumbersDispatch(p: A.Parser, ns: seq<int>, f: char, info: A.SeqInfo)
    requires p.state == A.Normal && |ns| >= 1 && 0x40 <= f as int <= 0x7E
    requires forall k :: 0 <= k < |ns| ==> ns[k] >= 0
    requires A.Sequence(Nums(ns), "", f).Info() == info
    ensures Dispatches(p, CsiNumbers(ns, f), [info])
  {
    FieldsParams(ns);
    SequenceDispatches(p, Fields(ns), f, info);
  }

  /** A single escape whose character lies outside 0x40-0x5F: pending text is flushed, and nothing else. */
  lemma SilentEscape(p: A.Parser, c: char)
    requires p.state == A.Normal && !(0x40 <= c as int <= 0x5F) && c !in "[]P"
    ensures Dispatches(p, [Esc, c], [])
  {
    var q := A.Flushed(p).parser.(state := A.Escape);
    assert A.Step(p, Esc) == A.Fed(q, A.Flushed(p).events);
    A.RunCons(p, [Esc, c]);
    assert [Esc, c][1..] == [c];
    P.RunOne(q, c);
    var r := A.Run(p, [Esc, c]);
    assert r.events == A.Flushed(p).events + [];
  }

  /** `ESC [ ? digits h|l`: the `?` makes the parameter NaN, and the request is not private. */
  lemma PrivateModeDispatches(p: A.Parser, digits: string, f: char)
    requires p.state == A.Normal && digits != "" && AllDigits(digits) && (f == 'h' || f == 'l')
    ensures Dispatches(p, DecMode(digits, f), [if f == 'h' then A.SetMode(false) else A.ResetMode(false)])
  {
    QuestionMarkBody(digits);
    DecModeInfo(f);
    SequenceDispatches(p, "?" + digits, f, if f == 'h' then A.SetMode(false) else A.ResetMode(false));
  }

  lemma DecModeInfo(f: char)
    requires f == 'h' || f == 'l'
    ensures A.Sequence([NaN], "", f).Info() == if f == 'h' then A.SetMode(false) else A.ResetMode(false)
  {
  }

  /** A parameter string that starts with `?` reads as one NaN. */
  lemma QuestionMarkBody(digits: string)
    requires AllDigits(digits)
    ensures P.ParamChars("?" + digits) && P.CsiParams("?" + digits) == [NaN]
  {
    var body := "?" + digits;
    assert P.ParamChars(body);
    assert ';' !in body;
    SplitWithoutSeparator(body, ';');
    assert TrimStart(body) == body;
    assert DigitPrefix(body) == [];
  }

  /** One dispatching string after another dispatches both, in order. */
  lemma DispatchAppend(p: A.Parser, a: string, b: string, ia: seq<A.SeqInfo>, ib: seq<A.SeqInfo>)
    requires Dispatches(p, a, ia) && Dispatches(A.Run(p, a).parser, b, ib)
    ensures Dispatches(p, a + b, ia + ib)
  {
    P.RunAppend(p, a, b);
    var q := A.Run(p, a).parser;
    DispatchFromRest(q, b, ib);
    EventsAppend(A.Flushed(p).events, A.Run(p, a).events, A.Run(q, b).events, ia, ib);
  }

  /** From a parser in NORMAL with nothing buffered, a dispatching run emits exactly the requested sequences. */
  lemma DispatchFromRest(q: A.Parser, b: string, ib: seq<A.SeqInfo>)
    requires q.state == A.Normal && q.buffer == "" && Dispatches(q, b, ib)
    ensures |A.Run(q, b).events| == |ib|
    ensures forall k :: 0 <= k < |ib| ==> IsSequence(A.Run(q, b).events[k], ib[k])
  {
    assert A.Flushed(q).events == [];
    var eb := A.Run(q, b).events;
    forall k | 0 <= k < |ib| ensures IsSequence(eb[k], ib[k]) {
      assert IsSequence(eb[0 + k], ib[k]);
    }
  }

  /** The events of two dispatching runs, one after the other, match both lists of requests. */
  lemma EventsAppend(pre: seq<A.Event>, ea: seq<A.Event>, eb: seq<A.Event>, ia: seq<A.SeqInfo>, ib: seq<A.SeqInfo>)
    requires |ea| == |pre| + |ia| && ea[..|pre|] == pre
    requires forall k :: 0 <= k < |ia| ==> IsSequence(ea[|pre| + k], ia[k])
    requires |eb| == |ib| && forall k :: 0 <= k < |ib| ==> IsSequence(eb[k], ib[k])
    ensures |ea + eb| == |pre| + |ia + ib| && (ea + eb)[..|pre|] == pre
    ensures forall k :: 0 <= k < |ia + ib| ==> IsSequence((ea + eb)[|pre| + k], (ia + ib)[k])
  {
    assert (ea + eb)[..|pre|] == ea[..|pre|];
    forall k | 0 <= k < |ia + ib|
      ensures IsSequence((ea + eb)[|pre| + k], (ia + ib)[k])
    {
      if k < |ia| {
        assert (ea + eb)[|pre| + k] == ea[|pre| + k] && (ia + ib)[k] == ia[k];
      } else {
        assert (ea + eb)[|pre| + k] == eb[k - |ia|] && (ia + ib)[k] == ib[k - |ia|];
      }
    }
  }

  /** A parser left in NORMAL with nothing buffered. */
  lemma DispatchedParserIsNormal(p: A.Parser, s: string, infos: seq<A.SeqInfo>)
    requires Dispatches(p, s, infos)
    ensures A.Run(p, s).parser.state == A.Normal && A.Flushed(A.Run(p, s).parser).events == []
  {
  }

  /** Each cursor call reads back as its meaning; save and restore read back as nothing. */
  lemma CursorReadsBack(p: A.Parser, call: CursorCall)
    requires p.state == A.Normal && CursorArgs(call)
    ensures Dispatches(p, Cursor(call), CursorMeaning(call))
  {
    match call
    case MoveTo(row, col) => NumbersDispatch(p, [row, col], 'H', CursorMeaning(call)[0]);
    case MoveUp(n) => OneNumber(p, n, 'A', CursorMeaning(call)[0]);
    case MoveDown(n) => OneNumber(p, n, 'B', CursorMeaning(call)[0]);
    case MoveRight(n) => OneNumber(p, n, 'C', CursorMeaning(call)[0]);
    case MoveLeft(n) => OneNumber(p, n, 'D', CursorMeaning(call)[0]);
    case Save => SilentEscape(p, '7');
    case Restore => SilentEscape(p, '8');
    case Show => PrivateModeDispatches(p, "25", 'h');
    case Hide => PrivateModeDispatches(p, "25", 'l');
    case Home => NoParams(p, 'H', A.CursorPosition(1, 1));
    case NextLine(n) => OneNumber(p, n, 'E', A.Unknown);
    case PrevLine(n) => OneNumber(p, n, 'F', A.Unknown);
    case Column(n) => OneNumber(p, n, 'G', CursorMeaning(call)[0]);
  }

  /** `ESC [ f` with no parameters. */
  lemma NoParams(p: A.Parser, f: char, info: A.SeqInfo)
    requires p.state == A.Normal && 0x40 <= f as int <= 0x7E
    requires A.Sequence([], "", f).Info() == info
    ensures Dispatches(p, Csi + [f], [info])
  {
    assert Csi + [f] == Csi + "" + [f];
    assert P.ParamChars("") && P.CsiParams("") == [];
    SequenceDispatches(p, "", f, info);
  }

  /** `ESC [ n f` for one number. */
  lemma OneNumber(p: A.Parser, n: nat, f: char, info: A.SeqInfo)
    requires p.state == A.Normal && 0x40 <= f as int <= 0x7E
    requires A.Sequence([Num(n)], "", f).Info() == info
    ensures Dispatches(p, CsiNumbers([n], f), [info])
  {
    assert Nums([n]) == [Num(n)];
    NumbersDispatch(p, [n], f, info);
  }

  /** Each screen call reads back as its meaning; `clear` is an erase of the whole display, then home. */
  lemma ScreenReadsBack(p: A.Parser, call: ScreenCall)
    requires p.state == A.Normal && ScreenArgs(call)
    ensures Dispatches(p, Screen(call), ScreenMeaning(call))
  {
    match call
    case Clear => EraseThenHome(p, 2);
    case ClearFromCursor => OneNumber(p, 0, 'J', A.EraseDisplay(0));
    case ClearToCursor => OneNumber(p, 1, 'J', A.EraseDisplay(1));
    case ClearLine => OneNumber(p, 2, 'K', A.EraseLine(2));
    case ClearLineFromCursor => OneNumber(p, 0, 'K', A.EraseLine(0));
    case ClearLineToCursor => OneNumber(p, 1, 'K', A.EraseLine(1));
    case ScrollUp(n) => OneNumber(p, n, 'S', ScreenMeaning(call)[0]);
    case ScrollDown(n) => OneNumber(p, n, 'T', ScreenMeaning(call)[0]);
    case SetScrollRegion(top, bottom) => NumbersDispatch(p, [top, bottom], 'r', A.Unknown);
    case ResetScrollRegion => NoParams(p, 'r', A.Unknown);
  }

  /** `ESC [ n J ESC [ H`: an erase of the display in mode n, then the cursor home; `clear()` is n = 2. */
  lemma EraseThenHome(p: A.Parser, n: nat)
    requires p.state == A.Normal
    ensures Dispatches(p, CsiNumbers([n], 'J') + (Csi + "H"), [A.EraseDisplay(n), A.CursorPosition(1, 1)])
  {
    var a, b := CsiNumbers([n], 'J'), Csi + "H";
    OneNumber(p, n, 'J', A.EraseDisplay(n));
    NoParams(A.Run(p, a).parser, 'H', A.CursorPosition(1, 1));
    DispatchAppend(p, a, b, [A.EraseDisplay(n)], [A.CursorPosition(1, 1)]);
    assert [A.EraseDisplay(n)] + [A.CursorPosition(1, 1)] == [A.EraseDisplay(n), A.CursorPosition(1, 1)];
  }

  /** A single SGR parameter reads back as the styles the parser derives from it. */
  lemma SgrCodeReadsBack(p: A.Parser, code: nat)
    requires p.state == A.Normal
    ensures Dispatches(p, CsiNumbers([code], 'm'), [A.Style(A.SgrFrom([Num(code)], 0))])
  {
    OneNumber(p, code, 'm', A.Style(A.SgrFrom([Num(code)], 0)));
  }

  /** The styles of each single-parameter text call. */
  lemma SgrCodeMeaning(call: TextCall)
    requires !(call.Fg256? || call.Bg256? || call.FgRGB? || call.BgRGB?) && TextArgs(call)
    ensures SgrCode(call) >= 0 && A.SgrFrom([Num(SgrCode(call))], 0) == TextMeaning(call)
  {
    var ps := [Num(SgrCode(call))];
    assert A.SgrFrom(ps, 1) == [];
    assert A.SgrFrom(ps, 0) == A.SgrHead(ps, 0).0 + [];
  }

  /** Each text call reads back as one SGR sequence whose style list is its meaning. */
  lemma TextReadsBack(p: A.Parser, call: TextCall)
    requires p.state == A.Normal && TextArgs(call)
    ensures Dispatches(p, Text(call), [A.Style(TextMeaning(call))])
  {
    if call.Fg256? {
      Color256(p, 38, call.n);
    } else if call.Bg256? {
      Color256(p, 48, call.n);
    } else if call.FgRGB? {
      ColorRgb(p, 38, call.r, call.g, call.b);
    } else if call.BgRGB? {
      ColorRgb(p, 48, call.r, call.g, call.b);
    } else {
      SgrCodeMeaning(call);
      SgrCodeReadsBack(p, SgrCode(call));
    }
  }

  /** `38;5;n` and `48;5;n`: one 256-colour index. */
  lemma Color256(p: A.Parser, selector: int, n: nat)
    requires p.state == A.Normal && (selector == 38 || selector == 48)
    ensures Dispatches(p, CsiNumbers([selector, 5, n], 'm'),
                       [A.Style([if selector == 38 then A.Fg256(Some(Num(n))) else A.Bg256(Some(Num(n)))])])
  {
    var ps := Nums([selector, 5, n]);
    assert ps == [Num(selector), Num(5), Num(n)];
    assert A.SgrHead(ps, 0) == ([if selector == 38 then A.Fg256(Some(Num(n))) else A.Bg256(Some(Num(n)))], 3);
    assert A.SgrFrom(ps, 3) == [];
    NumbersDispatch(p, [selector, 5, n], 'm', A.Style([if selector == 38 then A.Fg256(Some(Num(n))) else A.Bg256(Some(Num(n)))]));
  }

  /** `38;2;r;g;b` and `48;2;r;g;b`: one true colour. */
  lemma ColorRgb(p: A.Parser, selector: int, r: nat, g: nat, b: nat)
    requires p.state == A.Normal && (selector == 38 || selector == 48)
    ensures var c := if selector == 38 then A.FgRGB(Some(Num(r)), Some(Num(g)), Some(Num(b)))
                     else A.BgRGB(Some(Num(r)), Some(Num(g)), Some(Num(b)));
      Dispatches(p, CsiNumbers([selector, 2, r, g, b], 'm'), [A.Style([c])])
  {
    var c := if selector == 38 then A.FgRGB(Some(Num(r)), Some(Num(g)), Some(Num(b)))
             else A.BgRGB(Some(Num(r)), Some(Num(g)), Some(Num(b)));
    var ps := Nums([selector, 2, r, g, b]);
    assert ps == [Num(selector), Num(2), Num(r), Num(g), Num(b)];
    assert A.SgrHead(ps, 0) == ([c], 5);
    assert A.SgrFrom(ps, 5) == [];
    NumbersDispatch(p, [selector, 2, r, g, b], 'm', A.Style([c]));
  }

  function ModeMeaning(call: ModeCall): seq<A.SeqInfo> {
    match call
    case AlternateScreen => [A.SetMode(false)]
    case NormalScreen => [A.ResetMode(false)]
    case MouseTracking => [A.SetMode(false)]
    case NoMouseTracking => [A.ResetMode(false)]
    case Autowrap => [A.SetMode(false)]
    case NoAutowrap => [A.ResetMode(false)]
    case BracketedPaste => [A.SetMode(false)]
    case NoBracketedPaste => [A.ResetMode(false)]
    case ApplicationKeypad => []
    case NormalKeypad => []
    case SetRawMode(enable) =>
      if enable then [A.SetMode(false), A.SetMode(false), A.ResetMode(false), A.ResetMode(false)]
      else [A.ResetMode(false), A.ResetMode(false), A.SetMode(false), A.SetMode(false)]
  }

  /** The `?`-modes read back as non-private set and reset requests; the keypad escapes as nothing. */
  lemma ModeReadsBack(p: A.Parser, call: ModeCall)
    requires p.state == A.Normal
    ensures Dispatches(p, Mode(call), ModeMeaning(call))
  {
    match call
    case AlternateScreen => PrivateModeDispatches(p, "1049", 'h');
    case NormalScreen => PrivateModeDispatches(p, "1049", 'l');
    case MouseTracking => PrivateModeDispatches(p, "1000", 'h');
    case NoMouseTracking => PrivateModeDispatches(p, "1000", 'l');
    case Autowrap => PrivateModeDispatches(p, "7", 'h');
    case NoAutowrap => PrivateModeDispatches(p, "7", 'l');
    case BracketedPaste => PrivateModeDispatches(p, "2004", 'h');
    case NoBracketedPaste => PrivateModeDispatches(p, "2004", 'l');
    case ApplicationKeypad => SilentEscape(p, '=');
    case NormalKeypad => SilentEscape(p, '>');
    case SetRawMode(enable) => RawModeReadsBack(p, enable);
  }

  /** `setRawMode(b)`: its four requests, in the order listed. */
  lemma RawModeReadsBack(p: A.Parser, enable: bool)
    requires p.state == A.Normal
    ensures Dispatches(p, Mode(SetRawMode(enable)), ModeMeaning(SetRawMode(enable)))
  {
    var on, off := if enable then 'h' else 'l', if enable then 'l' else 'h';
    RawModeParts(enable, on, off);
    assert ModeMeaning(SetRawMode(enable)) == [RequestInfo(on), RequestInfo(on), RequestInfo(off), RequestInfo(off)];
    RawModeRun(p, on, off);
  }

  /** `setRawMode` joins four `?`-mode requests, the last two with the opposite final byte. */
  lemma RawModeParts(enable: bool, on: char, off: char)
    requires on == (if enable then 'h' else 'l') && off == (if enable then 'l' else 'h')
    ensures Mode(SetRawMode(enable)) == DecMode("1049", on) + (DecMode("1000", on) + (DecMode("25", off) + DecMode("2004", off)))
  {
    var parts := [DecMode("1049", on), DecMode("1000", on), DecMode("25", off), DecMode("2004", off)];
    if enable {
      assert parts == [Mode(AlternateScreen), Mode(MouseTracking), Cursor(Hide), Mode(NoBracketedPaste)];
    } else {
      assert parts == [Mode(NormalScreen), Mode(NoMouseTracking), Cursor(Show), Mode(BracketedPaste)];
    }
    ComposeFour(parts[0], parts[1], parts[2], parts[3]);
  }

  /** The four `?`-mode requests of `setRawMode`, the first two with final `on`, the last two with `off`. */
  lemma RawModeRun(p: A.Parser, on: char, off: char)
    requires p.state == A.Normal && (on == 'h' || on == 'l') && (off == 'h' || off == 'l')
    ensures Dispatches(p, DecMode("1049", on) + (DecMode("1000", on) + (DecMode("25", off) + DecMode("2004", off))),
                       [RequestInfo(on), RequestInfo(on), RequestInfo(off), RequestInfo(off)])
  {
    var ms := [("1049", on), ("1000", on), ("25", off), ("2004", off)];
    assert ms[1..] == [("1000", on), ("25", off), ("2004", off)];
    assert ms[2..] == [("25", off), ("2004", off)];
    assert ms[3..] == [("2004", off)];
    assert DecModes(ms[3..]) == DecMode("2004", off);
    assert DecModes(ms[2..]) == DecMode("25", off) + DecMode("2004", off);
    assert DecModes(ms[1..]) == DecMode("1000", on) + (DecMode("25", off) + DecMode("2004", off));
    assert DecModes(ms) == DecMode("1049", on) + (DecMode("1000", on) + (DecMode("25", off) + DecMode("2004", off)));
    var infos := DecModeInfos(ms);
    assert infos == [infos[0], infos[1], infos[2], infos[3]];
    DecModesReadBack(p, ms);
  }

  /** What the parser makes of a `?`-mode request with final `f`. */
  function RequestInfo(f: char): A.SeqInfo {
    if f == 'h' then A.SetMode(false) else A.ResetMode(false)
  }

  /** Several `?`-mode requests, one after another. */
  function DecModes(ms: seq<(string, char)>): string
    requires |ms| >= 1
  {
    if |ms| == 1 then DecMode(ms[0].0, ms[0].1) else DecMode(ms[0].0, ms[0].1) + DecModes(ms[1..])
  }

  function DecModeInfos(ms: seq<(string, char)>): (r: seq<A.SeqInfo>)
    ensures |r| == |ms| && forall k :: 0 <= k < |ms| ==> r[k] == RequestInfo(ms[k].1)
  {
    if ms == [] then [] else [RequestInfo(ms[0].1)] + DecModeInfos(ms[1..])
  }

  /** Each `?`-mode request of a run reads back in turn. */
  lemma {:induction false} DecModesReadBack(p: A.Parser, ms: seq<(string, char)>)
    requires p.state == A.Normal && |ms| >= 1
    requires forall k :: 0 <= k < |ms| ==> ms[k].0 != "" && AllDigits(ms[k].0) && (ms[k].1 == 'h' || ms[k].1 == 'l')
    ensures Dispatches(p, DecModes(ms), DecModeInfos(ms))
    decreases |ms|
  {
    var head := DecMode(ms[0].0, ms[0].1);
    PrivateModeDispatches(p, ms[0].0, ms[0].1);
    var info := [RequestInfo(ms[0].1)];
    if |ms| == 1 {
      assert DecModeInfos(ms) == info + [];
    } else {
      DecModesReadBack(A.Run(p, head).parser, ms[1..]);
      DispatchAppend(p, head, DecModes(ms[1..]), info, DecModeInfos(ms[1..]));
    }
  }

  /** Four strings composed are their concatenation. */
  lemma ComposeFour(a: string, b: string, c: string, d: string)
    ensures Compose([a, b, c, d]) == a + (b + (c + d))
  {
    assert [a, b, c, d] == [a] + [b, c, d];
    assert [b, c, d] == [b] + [c, d];
    assert [c, d] == [c] + [d];
    ComposeCons(a, [b, c, d]);
    ComposeCons(b, [c, d]);
    ComposeCons(c, [d]);
    assert Compose([d]) == d;
  }

  /** `compose` puts its first argument in front of the composition of the rest. */
  lemma ComposeCons(x: string, xs: seq<string>)
    ensures Compose([x] + xs) == x + Compose(xs)
  {
    if xs == [] {
      assert [x] + xs == [x];
    } else {
      assert ([x] + xs)[1..] == xs;
    }
  }

  /** `compose` of two lists is the concatenation of their compositions: order is kept and nothing is added. */
  lemma {:induction false} ComposeAppend(xs: seq<string>, ys: seq<string>)
    ensures Compose(xs + ys) == Compose(xs) + Compose(ys)
    decreases |xs|
  {
    if xs == [] {
      assert xs + ys == ys;
    } else {
      assert xs + ys == [xs[0]] + (xs[1..] + ys);
      assert xs == [xs[0]] + xs[1..];
      ComposeCons(xs[0], xs[1..] + ys);
      ComposeAppend(xs[1..], ys);
      ComposeCons(xs[0], xs[1..]);
    }
  }

  /** The `?` turns every mode number into NaN, so the parser emits one and the same event for all four set-mode builders. */
  lemma ModeNumberIsLost(p: A.Parser, digits: string)
    requires p.state == A.Normal && AllDigits(digits)
    ensures A.Run(p, DecMode(digits, 'h')).events
         == A.Flushed(p).events + [A.SequenceEvent(A.Sequence([NaN], "", 'h'))]
  {
    QuestionMarkBody(digits);
    P.CsiRun(p, "?" + digits, 'h');
    assert DecMode(digits, 'h') == [A.ESC, '['] + ("?" + digits) + ['h'];
  }

  /** `bell()` reads back as one bell. */
  lemma BellReadsBack(p: A.Parser)
    requires p.state == A.Normal
    ensures A.Run(p, Bell).events == A.Flushed(p).events + [A.Bell]
    ensures A.Run(p, Bell).parser.state == A.Normal
  {
    P.RunOne(p, A.BEL);
    assert Bell == [A.BEL];
  }

  function TitleMeaning(call: TitleCall): seq<A.Event> {
    match call
    case SetTitle(s) => [A.Title(s)]
    case SetWindow(s) => [A.Title(s)]
    case SetTab(_) => []
  }

  /** `title.set` and `setWindow` read back as that title; `setTab` (OSC 1) as nothing. */
  lemma TitleReadsBack(p: A.Parser, call: TitleCall)
    requires p.state == A.Normal && P.BodyChars(call.s)
    ensures A.Run(p, Title(call)).events == A.Flushed(p).events + TitleMeaning(call)
  {
    match call
    case SetTitle(s) => NumberedTitleReadsBack(p, 0, s);
    case SetWindow(s) => NumberedTitleReadsBack(p, 2, s);
    case SetTab(s) => TabTitleReadsBack(p, s);
  }

  /** OSC 0 and OSC 2 read back as the title. */
  lemma NumberedTitleReadsBack(p: A.Parser, n: int, s: string)
    requires p.state == A.Normal && P.BodyChars(s) && (n == 0 || n == 2)
    ensures A.Run(p, Title(if n == 0 then SetTitle(s) else SetWindow(s))).events == A.Flushed(p).events + [A.Title(s)]
  {
    NumberedTitleText(n, s);
    P.TitleRequest(p, n, s);
  }

  /** `title.set` and `title.setWindow` are OSC 0 and OSC 2 around the title. */
  lemma NumberedTitleText(n: int, s: string)
    requires n == 0 || n == 2
    ensures Title(if n == 0 then SetTitle(s) else SetWindow(s)) == [A.ESC, ']'] + (IntToString(n) + ";" + s) + [A.BEL]
  {
    var code := IntToString(n);
    assert code == [if n == 0 then '0' else '2'];
    if n == 0 {
      assert Title(SetTitle(s)) == [A.ESC, ']'] + (code + ";" + s) + [A.BEL];
    } else {
      assert Title(SetWindow(s)) == [A.ESC, ']'] + (code + ";" + s) + [A.BEL];
    }
  }

  /** OSC 1 reads back as nothing. */
  lemma TabTitleReadsBack(p: A.Parser, s: string)
    requires p.state == A.Normal && P.BodyChars(s)
    ensures A.Run(p, Title(SetTab(s))).events == A.Flushed(p).events
  {
    assert Title(SetTab(s)) == [A.ESC, ']'] + ("1;" + s) + [A.BEL];
    assert P.BodyChars("1;" + s);
    P.OscRun(p, "1;" + s);
    TabTitleIgnored(s);
  }

  /** OSC 1 is not one of the commands the parser acts on. */
  lemma TabTitleIgnored(s: string)
    ensures A.OscEvents("1;" + s) == []
  {
    assert "1;" + s == "1" + ";" + s;
    P.SplitTwo("1", s);
    var parts := Split("1;" + s, ';');
    assert parts[0] == "1";
    ParseIntOfOne();
    UnknownOscCommand(parts);
  }

  /** A command number other than 0, 2 and 8 gives no event. */
  lemma UnknownOscCommand(parts: seq<string>)
    requires |parts| >= 1 && ParseInt(parts[0]) == Num(1)
    ensures A.OscCommand(parts) == []
  {
  }

  lemma ParseIntOfOne()
    ensures ParseInt("1") == Num(1)
  {
    assert IntToString(1) == "1";
    ParseIntOfIntToString(1);
  }

  /** `hyperlink.start(url, id)` reads back as that link, with `id=` parameters when an id is given. */
  lemma HyperlinkReadsBack(p: A.Parser, url: string, id: string)
    requires p.state == A.Normal && P.BodyChars(url) && P.BodyChars(id) && ';' !in url && ';' !in id
    ensures A.Run(p, HyperlinkStart(url, id)).events
         == A.Flushed(p).events + [A.Hyperlink(if id != "" then "id=" + id else "", Some(url))]
  {
    var params := if id != "" then "id=" + id else "";
    assert P.BodyChars(params) && ';' !in params;
    assert HyperlinkStart(url, id) == [A.ESC, ']'] + ("8;" + params + ";" + url) + [A.BEL];
    P.HyperlinkRequest(p, params, url);
  }

  /** `hyperlink.end()` reads back as a link with empty parameters and an empty URL. */
  lemma HyperlinkEndReadsBack(p: A.Parser)
    requires p.state == A.Normal
    ensures A.Run(p, HyperlinkEnd()).events == A.Flushed(p).events + [A.Hyperlink("", Some(""))]
  {
    assert HyperlinkEnd() == [A.ESC, ']'] + ("8;" + "" + ";" + "") + [A.BEL];
    P.HyperlinkRequest(p, "", "");
  }
}
