/**
 * The streaming escape-sequence parser of the terminal core
 * (receiver/ansiParser.cjs).
 *
 * The parser is a state machine over characters with the states NORMAL,
 * ESCAPE, CSI, OSC and DCS. Its transitions are given once, as the pure
 * functions `Step` and `Run` over a `Parser` value; the class `ANSIParser`
 * keeps the same state in fields, changes them character by character, and
 * is proved to follow `Step`. Events the parser emits are appended to a log.
 *
 * Control sequences follow the byte classes of ECMA-48 section 5.4:
 * parameter bytes 0x30-0x3F, intermediate bytes 0x20-0x2F, final bytes
 * 0x40-0x7E.
 */
module Ansi {
  import opened Js

  const ESC: char := '\U{1B}'
  const BEL: char := '\U{7}'

  datatype PState = Normal | Escape | Csi | Osc | Dcs

  /** The boolean attributes an SGR parameter can switch on. */
  datatype Attr = Bold | Dim | Italic | Underline | Blink | Reverse | Hidden | Strikethrough

  /**
   * One entry of the `styles` list of an SGR sequence (ECMA-48 section
   * 8.3.117). Extended colour components read past the end of the parameter
   * list are `undefined` (None).
   */
  datatype SgrStyle =
    | ResetStyle
    | Flag(attr: Attr)
    | Fg(color: int)
    | Bg(color: int)
    | Fg256(index: Option<JsNum>)
    | Bg256(index: Option<JsNum>)
    | FgRGB(r: Option<JsNum>, g: Option<JsNum>, b: Option<JsNum>)
    | BgRGB(r: Option<JsNum>, g: Option<JsNum>, b: Option<JsNum>)
  {
    predicate IsForeground() { Fg? || Fg256? || FgRGB? }
    predicate IsBackground() { Bg? || Bg256? || BgRGB? }
  }

  /** `type` and `action` of a parsed control sequence, with the fields each action carries. */
  datatype SeqInfo =
    | CursorUp(count: int)
    | CursorDown(count: int)
    | CursorForward(count: int)
    | CursorBack(count: int)
    | CursorPosition(row: int, col: int)
    | CursorColumn(col: int)
    | ScrollUp(count: int)
    | ScrollDown(count: int)
    | EraseDisplay(mode: int)
    | EraseLine(mode: int)
    | Style(styles: seq<SgrStyle>)
    | SetMode(isPrivate: bool)
    | ResetMode(isPrivate: bool)
    | Unknown

  /**
   * The object `handleCSISequence` emits. Its `type`, `action` and the
   * fields that go with them are determined by the parameters, the
   * intermediate bytes and the final byte; `Info()` computes them.
   */
  datatype Sequence = Sequence(params: seq<JsNum>, intermediates: string, finalChar: char)
  {
    /** The switch of `handleCSISequence`: counts and positions default to 1, modes to 0. */
    function Info(): SeqInfo {
      var count := OrDefault(At(params, 0), 1);
      match finalChar
      case 'A' => CursorUp(count)
      case 'B' => CursorDown(count)
      case 'C' => CursorForward(count)
      case 'D' => CursorBack(count)
      case 'H' => CursorPosition(OrDefault(At(params, 0), 1), OrDefault(At(params, 1), 1))
      case 'f' => CursorPosition(OrDefault(At(params, 0), 1), OrDefault(At(params, 1), 1))
      case 'G' => CursorColumn(OrDefault(At(params, 0), 1))
      case 'J' => EraseDisplay(OrDefault(At(params, 0), 0))
      case 'K' => EraseLine(OrDefault(At(params, 0), 0))
      case 'm' => Style(SgrFrom(params, 0))
      case 'h' => SetMode('?' in intermediates)
      case 'l' => ResetMode('?' in intermediates)
      case 'S' => ScrollUp(count)
      case 'T' => ScrollDown(count)
      case _ => Unknown
    }
  }

  /** The events an `ANSIParser` can emit, by name. */
  datatype Event =
    | Text(text: string)
    | Bell
    | Backspace
    | Tab
    | Linefeed
    | CarriageReturn
    | Index
    | ReverseIndex
    | NextLine
    | ResetTerminal
    | SaveCursor
    | RestoreCursor
    | ApplicationKeypad(on: bool)
    | SequenceEvent(sq: Sequence)
    | Title(title: string)
    | Hyperlink(params: string, url: Option<string>)

  /** The parser's fields. `finalChar` is the empty string until the first CSI final byte. */
  datatype Parser = Parser(
    state: PState,
    buffer: string,
    params: seq<JsNum>,
    currentParam: string,
    intermediates: string,
    finalChar: string)

  const Initial: Parser := Parser(Normal, "", [], "", "", "")

  /** The state after consuming some input, and the events emitted meanwhile, in order. */
  datatype Fed = Fed(parser: Parser, events: seq<Event>)

  // ---------------------------------------------------------------------------
  // Transitions
  // ---------------------------------------------------------------------------

  /** `flushText`: a non-empty text buffer is emitted as one `text` event and cleared. */
  function Flushed(p: Parser): Fed {
    if p.buffer != "" then Fed(p.(buffer := ""), [Text(p.buffer)]) else Fed(p, [])
  }

  /** What `handleControlChar` emits after flushing. */
  function ControlEvents(c: char): seq<Event> {
    if c == BEL then [Bell]
    else if c == '\U{8}' then [Backspace]
    else if c == '\t' then [Tab]
    else if c == '\n' then [Linefeed]
    else if c == '\r' then [CarriageReturn]
    else []
  }

  function NormalStep(p: Parser, c: char): Fed {
    if c == ESC then
      var f := Flushed(p);
      Fed(f.parser.(state := Escape), f.events)
    else if (c as int) < 0x20 then
      var f := Flushed(p);
      Fed(f.parser, f.events + ControlEvents(c))
    else
      Fed(p.(buffer := p.buffer + [c]), [])
  }

  /** `handleSingleEscape`. */
  function SingleEscapeEvents(c: char): seq<Event> {
    match c
    case 'D' => [Index]
    case 'M' => [ReverseIndex]
    case 'E' => [NextLine]
    case 'c' => [ResetTerminal]
    case '7' => [SaveCursor]
    case '8' => [RestoreCursor]
    case '=' => [ApplicationKeypad(true)]
    case '>' => [ApplicationKeypad(false)]
    case _ => []
  }

  function EscapeStep(p: Parser, c: char): Fed {
    if c == '[' then Fed(p.(state := Csi, params := [], currentParam := "", intermediates := ""), [])
    else if c == ']' then Fed(p.(state := Osc, buffer := ""), [])
    else if c == 'P' then Fed(p.(state := Dcs, buffer := ""), [])
    else if 0x40 <= c as int <= 0x5F then Fed(p.(state := Normal), SingleEscapeEvents(c))
    else Fed(p.(state := Normal), [])
  }

  /** The value `;` pushes for the pending parameter: `parseInt` of it, or 0 when it is empty. */
  function CommitParam(cp: string): JsNum {
    if cp != "" then ParseInt(cp) else Num(0)
  }

  function CsiStep(p: Parser, c: char): Fed {
    var code := c as int;
    if 0x30 <= code <= 0x3F then
      if c == ';' then Fed(p.(params := p.params + [CommitParam(p.currentParam)], currentParam := ""), [])
      else Fed(p.(currentParam := p.currentParam + [c]), [])
    else if 0x20 <= code <= 0x2F then
      Fed(p.(intermediates := p.intermediates + [c]), [])
    else if 0x40 <= code <= 0x7E then
      var ps := if p.currentParam != "" then p.params + [ParseInt(p.currentParam)] else p.params;
      Fed(p.(params := ps, finalChar := [c], state := Normal),
          [SequenceEvent(Sequence(ps, p.intermediates, c))])
    else
      Fed(p.(state := Normal), [])
  }

  function OscStep(p: Parser, c: char): Fed {
    if c == BEL then Fed(p.(buffer := "", state := Normal), OscEvents(p.buffer))
    else if c == ESC then Fed(p.(state := Normal), [])
    else Fed(p.(buffer := p.buffer + [c]), [])
  }

  function DcsStep(p: Parser, c: char): Fed {
    if c == ESC then Fed(p.(state := Normal), []) else Fed(p.(buffer := p.buffer + [c]), [])
  }

  /** One character through the state machine. */
  function Step(p: Parser, c: char): Fed {
    match p.state
    case Normal => NormalStep(p, c)
    case Escape => EscapeStep(p, c)
    case Csi => CsiStep(p, c)
    case Osc => OscStep(p, c)
    case Dcs => DcsStep(p, c)
  }

  /** The characters of `data` through a step function, in order. */
  function Drive(step: (Parser, char) -> Fed, p: Parser, data: string): Fed
    decreases |data|
  {
    if data == [] then Fed(p, [])
    else
      var f := step(p, data[0]);
      var g := Drive(step, f.parser, data[1..]);
      Fed(g.parser, f.events + g.events)
  }

  /** `parse(data)`: the characters of `data` through the state machine, in order. */
  function Run(p: Parser, data: string): Fed {
    Drive(Step, p, data)
  }

  /** A non-empty input: its first character's step, then the rest. */
  lemma RunCons(p: Parser, s: string)
    requires s != []
    ensures var f := Step(p, s[0]);
      var g := Run(f.parser, s[1..]);
      Run(p, s) == Fed(g.parser, f.events + g.events)
  {
    DriveCons(Step, p, s);
  }

  lemma DriveCons(step: (Parser, char) -> Fed, p: Parser, s: string)
    requires s != []
    ensures var f := step(p, s[0]);
      var g := Drive(step, f.parser, s[1..]);
      Drive(step, p, s) == Fed(g.parser, f.events + g.events)
  {
  }

  /** `end()`: flush the text buffer, then reset. */
  function Ended(p: Parser): Fed {
    Fed(Initial, Flushed(p).events)
  }

  // ---------------------------------------------------------------------------
  // Dispatch of complete sequences
  // ---------------------------------------------------------------------------

  /** The flag an SGR parameter value sets, if it is one of 1-5, 7-9. */
  function FlagOf(param: int): Option<Attr> {
    if param == 1 then Some(Bold)
    else if param == 2 then Some(Dim)
    else if param == 3 then Some(Italic)
    else if param == 4 then Some(Underline)
    else if param == 5 then Some(Blink)
    else if param == 7 then Some(Reverse)
    else if param == 8 then Some(Hidden)
    else if param == 9 then Some(Strikethrough)
    else None
  }

  /**
   * One round of `parseGraphicsParams` at index `i`: the styles it pushes and
   * how far the index moves (1, or 3 and 5 after an extended colour).
   */
  function SgrHead(ps: seq<JsNum>, i: nat): (h: (seq<SgrStyle>, nat))
    requires i < |ps|
    ensures |h.0| <= 1 && h.1 in {1, 3, 5}
  {
    var param := OrDefault(Some(ps[i]), 0);
    if param == 0 then ([ResetStyle], 1)
    else if FlagOf(param).Some? then ([Flag(FlagOf(param).value)], 1)
    else if 30 <= param <= 37 then ([Fg(param - 30)], 1)
    else if 40 <= param <= 47 then ([Bg(param - 40)], 1)
    else if param == 38 || param == 48 then
      if At(ps, i + 1) == Some(Num(5)) then
        ([if param == 38 then Fg256(At(ps, i + 2)) else Bg256(At(ps, i + 2))], 3)
      else if At(ps, i + 1) == Some(Num(2)) then
        ([if param == 38 then FgRGB(At(ps, i + 2), At(ps, i + 3), At(ps, i + 4))
          else BgRGB(At(ps, i + 2), At(ps, i + 3), At(ps, i + 4))], 5)
      else ([], 1)
    else ([], 1)
  }

  /** `parseGraphicsParams` from index `i` on. */
  function SgrFrom(ps: seq<JsNum>, i: nat): seq<SgrStyle>
    decreases |ps| - i
  {
    if i >= |ps| then []
    else
      var h := SgrHead(ps, i);
      h.0 + SgrFrom(ps, i + h.1)
  }

  /** `handleOSCSequence`: title for commands 0 and 2, hyperlink for 8, nothing otherwise. */
  function OscEvents(body: string): seq<Event> {
    OscCommand(Split(body, ';'))
  }

  /** The dispatch on `parseInt(parts[0])`; the rest of the body is `parts.slice(1).join(';')`. */
  function OscCommand(parts: seq<string>): seq<Event>
    requires |parts| >= 1
  {
    var command := ParseInt(parts[0]);
    if command == Num(0) || command == Num(2) then [Title(Join(parts[1..], ";"))]
    else if command == Num(8) then [HyperlinkOf(Join(parts[1..], ";"))]
    else []
  }

  /** `const [params, url] = rest.split(';')`: a missing URL is `undefined`. */
  function HyperlinkOf(rest: string): Event {
    var fields := Split(rest, ';');
    Hyperlink(fields[0], if |fields| > 1 then Some(fields[1]) else None)
  }

  lemma RunOneStep(p: Parser, e: seq<Event>, data: string, i: nat, q: Parser, e2: seq<Event>)
    requires i < |data|
    requires q == Step(p, data[i]).parser && e2 == e + Step(p, data[i]).events
    ensures Run(q, data[i + 1..]).parser == Run(p, data[i..]).parser
    ensures e2 + Run(q, data[i + 1..]).events == e + Run(p, data[i..]).events
  {
    DriveOneStep(Step, p, e, data, i);
  }

  lemma DriveOneStep(step: (Parser, char) -> Fed, p: Parser, e: seq<Event>, data: string, i: nat)
    requires i < |data|
    ensures var f := step(p, data[i]);
      && Drive(step, f.parser, data[i + 1..]).parser == Drive(step, p, data[i..]).parser
      && e + f.events + Drive(step, f.parser, data[i + 1..]).events == e + Drive(step, p, data[i..]).events
  {
    DriveCons(step, p, data[i..]);
    assert data[i..][1..] == data[i + 1..];
  }

  /** One round of the `parseGraphicsParams` loop keeps the remaining work equal. */
  lemma SgrOneRound(ps: seq<JsNum>, i: nat, before: seq<SgrStyle>, styles: seq<SgrStyle>, j: nat)
    requires i < |ps| && styles == before + SgrHead(ps, i).0 && j == i + SgrHead(ps, i).1
    ensures styles + SgrFrom(ps, j) == before + SgrFrom(ps, i)
  {
  }

  // ---------------------------------------------------------------------------
  // The parser object
  // ---------------------------------------------------------------------------

  class ANSIParser {
    var state: PState
    var buffer: string
    var params: seq<JsNum>
    var currentParam: string
    var intermediates: string
    var finalChar: string
    /** Every event emitted so far, oldest first. */
    var events: seq<Event>

    function Snapshot(): Parser
      reads this
    {
      Parser(state, buffer, params, currentParam, intermediates, finalChar)
    }

    constructor ()
      ensures Snapshot() == Initial && events == []
    {
      state, buffer, params, currentParam, intermediates, finalChar := Normal, "", [], "", "", "";
      events := [];
    }

    method Reset()
      modifies this
      ensures Snapshot() == Initial && events == old(events)
    {
      state, buffer, params, currentParam, intermediates, finalChar := Normal, "", [], "", "", "";
    }

    method Parse(data: string)
      modifies this
      ensures Snapshot() == Run(old(Snapshot()), data).parser
      ensures events == old(events) + Run(old(Snapshot()), data).events
    {
      for i := 0 to |data|
        invariant Run(Snapshot(), data[i..]).parser == Run(old(Snapshot()), data).parser
        invariant events + Run(Snapshot(), data[i..]).events == old(events) + Run(old(Snapshot()), data).events
      {
        var c := data[i];
        ghost var p, e := Snapshot(), events;
        match state {
          case Normal => HandleNormal(c);
          case Escape => HandleEscape(c);
          case Csi => HandleCSI(c);
          case Osc => HandleOSC(c);
          case Dcs => HandleDCS(c);
        }
        RunOneStep(p, e, data, i, Snapshot(), events);
      }
    }

    method HandleNormal(c: char)
      modifies this
      ensures Snapshot() == NormalStep(old(Snapshot()), c).parser
      ensures events == old(events) + NormalStep(old(Snapshot()), c).events
    {
      if c == ESC {
        FlushText();
        state := Escape;
      } else if (c as int) < 0x20 {
        HandleControlChar(c);
      } else {
        buffer := buffer + [c];
      }
    }

    method HandleEscape(c: char)
      modifies this
      ensures Snapshot() == EscapeStep(old(Snapshot()), c).parser
      ensures events == old(events) + EscapeStep(old(Snapshot()), c).events
    {
      if c == '[' {
        state := Csi;
        params := [];
        currentParam := "";
        intermediates := "";
      } else if c == ']' {
        state := Osc;
        buffer := "";
      } else if c == 'P' {
        state := Dcs;
        buffer := "";
      } else if 0x40 <= c as int <= 0x5F {
        HandleSingleEscape(c);
        state := Normal;
      } else {
        state := Normal;
      }
    }

    method HandleCSI(c: char)
      modifies this
      ensures Snapshot() == CsiStep(old(Snapshot()), c).parser
      ensures events == old(events) + CsiStep(old(Snapshot()), c).events
    {
      var code := c as int;
      if 0x30 <= code <= 0x3F {
        if c == ';' {
          if currentParam != "" {
            params := params + [ParseInt(currentParam)];
          } else {
            params := params + [Num(0)];
          }
          currentParam := "";
        } else {
          currentParam := currentParam + [c];
        }
      } else if 0x20 <= code <= 0x2F {
        intermediates := intermediates + [c];
      } else if 0x40 <= code <= 0x7E {
        if currentParam != "" {
          params := params + [ParseInt(currentParam)];
        }
        finalChar := [c];
        var _ := HandleCSISequence();
        state := Normal;
      } else {
        state := Normal;
      }
    }

    method HandleOSC(c: char)
      modifies this
      ensures Snapshot() == OscStep(old(Snapshot()), c).parser
      ensures events == old(events) + OscStep(old(Snapshot()), c).events
    {
      if c == BEL {
        HandleOSCSequence();
        state := Normal;
      } else if c == ESC {
        state := Normal;
      } else {
        buffer := buffer + [c];
      }
    }

    method HandleDCS(c: char)
      modifies this
      ensures Snapshot() == DcsStep(old(Snapshot()), c).parser
      ensures events == old(events) + DcsStep(old(Snapshot()), c).events
    {
      if c == ESC {
        state := Normal;
      } else {
        buffer := buffer + [c];
      }
    }

    method HandleControlChar(c: char)
      modifies this
      ensures Snapshot() == Flushed(old(Snapshot())).parser
      ensures events == old(events) + Flushed(old(Snapshot())).events + ControlEvents(c)
    {
      FlushText();
      if c == BEL {
        events := events + [Bell];
      } else if c == '\U{8}' {
        events := events + [Backspace];
      } else if c == '\t' {
        events := events + [Tab];
      } else if c == '\n' {
        events := events + [Linefeed];
      } else if c == '\r' {
        events := events + [CarriageReturn];
      }
    }

    method HandleSingleEscape(c: char)
      modifies this
      ensures Snapshot() == old(Snapshot())
      ensures events == old(events) + SingleEscapeEvents(c)
    {
      match c
      case 'D' => events := events + [Index];
      case 'M' => events := events + [ReverseIndex];
      case 'E' => events := events + [NextLine];
      case 'c' => events := events + [ResetTerminal];
      case '7' => events := events + [SaveCursor];
      case '8' => events := events + [RestoreCursor];
      case '=' => events := events + [ApplicationKeypad(true)];
      case '>' => events := events + [ApplicationKeypad(false)];
      case _ =>
    }

    /** Emits the sequence just completed; `info` is the type and action attached to it. */
    method HandleCSISequence() returns (info: SeqInfo)
      requires |finalChar| == 1
      modifies this
      ensures Snapshot() == old(Snapshot())
      ensures events == old(events) + [SequenceEvent(Sequence(params, intermediates, finalChar[0]))]
      ensures info == Sequence(params, intermediates, finalChar[0]).Info()
    {
      var f := finalChar[0];
      var count := OrDefault(At(params, 0), 1);
      info := Unknown;
      match f {
        case 'A' => info := CursorUp(count);
        case 'B' => info := CursorDown(count);
        case 'C' => info := CursorForward(count);
        case 'D' => info := CursorBack(count);
        case 'H' => info := CursorPosition(OrDefault(At(params, 0), 1), OrDefault(At(params, 1), 1));
        case 'f' => info := CursorPosition(OrDefault(At(params, 0), 1), OrDefault(At(params, 1), 1));
        case 'G' => info := CursorColumn(OrDefault(At(params, 0), 1));
        case 'J' => info := EraseDisplay(OrDefault(At(params, 0), 0));
        case 'K' => info := EraseLine(OrDefault(At(params, 0), 0));
        case 'm' =>
          var styles := ParseGraphicsParams();
          info := Style(styles);
        case 'h' => info := SetMode('?' in intermediates);
        case 'l' => info := ResetMode('?' in intermediates);
        case 'S' => info := ScrollUp(count);
        case 'T' => info := ScrollDown(count);
        case _ =>
      }
      events := events + [SequenceEvent(Sequence(params, intermediates, f))];
    }

    method HandleOSCSequence()
      modifies this
      ensures Snapshot() == old(Snapshot()).(buffer := "")
      ensures events == old(events) + OscEvents(old(buffer))
    {
      events := events + OscEvents(buffer);
      buffer := "";
    }

    /** The `styles` list of an SGR sequence, read left to right from `params`. */
    method ParseGraphicsParams() returns (styles: seq<SgrStyle>)
      ensures styles == SgrFrom(params, 0)
    {
      styles := [];
      var i := 0;
      while i < |params|
        invariant styles + SgrFrom(params, i) == SgrFrom(params, 0)
        decreases |params| - i
      {
        ghost var before, i0 := styles, i;
        var param := OrDefault(Some(params[i]), 0);
        if param == 0 {
          styles := styles + [ResetStyle];
        } else if param == 1 {
          styles := styles + [Flag(Bold)];
        } else if param == 2 {
          styles := styles + [Flag(Dim)];
        } else if param == 3 {
          styles := styles + [Flag(Italic)];
        } else if param == 4 {
          styles := styles + [Flag(Underline)];
        } else if param == 5 {
          styles := styles + [Flag(Blink)];
        } else if param == 7 {
          styles := styles + [Flag(Reverse)];
        } else if param == 8 {
          styles := styles + [Flag(Hidden)];
        } else if param == 9 {
          styles := styles + [Flag(Strikethrough)];
        } else if 30 <= param <= 37 {
          styles := styles + [Fg(param - 30)];
        } else if 40 <= param <= 47 {
          styles := styles + [Bg(param - 40)];
        } else if param == 38 {
          if At(params, i + 1) == Some(Num(5)) {
            styles := styles + [Fg256(At(params, i + 2))];
            i := i + 2;
          } else if At(params, i + 1) == Some(Num(2)) {
            styles := styles + [FgRGB(At(params, i + 2), At(params, i + 3), At(params, i + 4))];
            i := i + 4;
          }
        } else if param == 48 {
          if At(params, i + 1) == Some(Num(5)) {
            styles := styles + [Bg256(At(params, i + 2))];
            i := i + 2;
          } else if At(params, i + 1) == Some(Num(2)) {
            styles := styles + [BgRGB(At(params, i + 2), At(params, i + 3), At(params, i + 4))];
            i := i + 4;
          }
        }
        i := i + 1;
        SgrOneRound(params, i0, before, styles, i);
      }
    }

    method FlushText()
      modifies this
      ensures Snapshot() == Flushed(old(Snapshot())).parser
      ensures events == old(events) + Flushed(old(Snapshot())).events
    {
      if buffer != "" {
        events := events + [Text(buffer)];
        buffer := "";
      }
    }

    method End()
      modifies this
      ensures Snapshot() == Ended(old(Snapshot())).parser
      ensures events == old(events) + Ended(old(Snapshot())).events
    {
      FlushText();
      Reset();
    }
  }
}
