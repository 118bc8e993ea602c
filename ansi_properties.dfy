/**
 * Properties of the escape-sequence parser: what it makes of plain text,
 * of complete CSI and OSC sequences, that input may arrive in chunks of any
 * size, and which of its events can never occur.
 */
module AnsiProperties {
  import opened Js
  import opened Ansi

  /** Characters the NORMAL state appends to the text buffer. */
  predicate Printable(s: string) {
    forall k :: 0 <= k < |s| ==> 0x20 <= s[k] as int
  }

  /** CSI parameter bytes (ECMA-48 section 5.4: 0x30-0x3F). */
  predicate ParamChars(s: string) {
    forall k :: 0 <= k < |s| ==> 0x30 <= s[k] as int <= 0x3F
  }

  /** Characters OSC and DCS bodies collect without ending the string. */
  predicate BodyChars(s: string) {
    forall k :: 0 <= k < |s| ==> s[k] != ESC && s[k] != BEL
  }

  /** What the parser keeps true of its fields from the initial state on. */
  predicate Wf(p: Parser) {
    && (forall k :: 0 <= k < |p.intermediates| ==> 0x20 <= p.intermediates[k] as int <= 0x2F)
    && ';' !in p.currentParam
    && |p.finalChar| <= 1
  }

  /** `;` pushes one value per completed field. */
  function Commits(pieces: seq<string>): (r: seq<JsNum>)
    ensures |r| == |pieces|
    ensures forall k :: 0 <= k < |pieces| ==> r[k] == CommitParam(pieces[k])
  {
    if pieces == [] then [] else [CommitParam(pieces[0])] + Commits(pieces[1..])
  }

  /**
   * The `params` list the parser builds from a parameter string: one value
   * per `;`-separated field, the last one only when it is non-empty.
   */
  function CsiParams(body: string): seq<JsNum> {
    var pieces := Split(body, ';');
    var last := pieces[|pieces| - 1];
    Commits(pieces[..|pieces| - 1]) + (if last != "" then [ParseInt(last)] else [])
  }

  /** Events that would need `?` among the intermediate bytes. */
  predicate PrivateMode(e: Event) {
    e.SequenceEvent? && var info := e.sq.Info(); (info.SetMode? || info.ResetMode?) && info.isPrivate
  }

  /** Events of `handleSingleEscape` behind characters outside 0x40-0x5F. */
  predicate GuardedEscapeEvent(e: Event) {
    e.ResetTerminal? || e.SaveCursor? || e.RestoreCursor? || e.ApplicationKeypad?
  }

  // ---------------------------------------------------------------------------
  // Streaming
  // ---------------------------------------------------------------------------

  /** For any step function, driving `a + b` is driving `a`, then `b` from where `a` left off. */
  lemma {:induction false} DriveAppend(step: (Parser, char) -> Fed, p: Parser, a: string, b: string)
    decreases |a|
    ensures Drive(step, p, a + b).parser == Drive(step, Drive(step, p, a).parser, b).parser
    ensures Drive(step, p, a + b).events == Drive(step, p, a).events + Drive(step, Drive(step, p, a).parser, b).events
  {
    if a == [] {
      assert a + b == b;
    } else {
      assert (a + b)[0] == a[0];
      assert (a + b)[1..] == a[1..] + b;
      DriveAppend(step, step(p, a[0]).parser, a[1..], b);
    }
  }

  /** A one-character run is one step. */
  lemma RunOne(p: Parser, c: char)
    ensures Run(p, [c]) == Step(p, c)
  {
    RunCons(p, [c]);
    assert [c][1..] == [];
    assert Step(p, c).events + [] == Step(p, c).events;
  }

  /** Parsing `a + b` in one call is parsing `a`, then `b` from where `a` left off. */
  lemma RunAppend(p: Parser, a: string, b: string)
    ensures Run(p, a + b).parser == Run(Run(p, a).parser, b).parser
    ensures Run(p, a + b).events == Run(p, a).events + Run(Run(p, a).parser, b).events
  {
    DriveAppend(Step, p, a, b);
  }

  /** Three consecutive chunks, the middle one emitting nothing. */
  lemma RunThree(p: Parser, a: string, b: string, c: string)
    requires Run(Run(p, a).parser, b).events == []
    ensures var q1 := Run(p, a).parser;
      var q2 := Run(q1, b).parser;
      && Run(p, a + b + c).parser == Run(q2, c).parser
      && Run(p, a + b + c).events == Run(p, a).events + Run(q2, c).events
  {
    RunAppend(p, a, b);
    RunAppend(p, a + b, c);
    assert Run(p, a).events + [] == Run(p, a).events;
  }

  lemma {:induction false} StepKeepsWf(p: Parser, c: char)
    requires Wf(p)
    ensures Wf(Step(p, c).parser)
  {
  }

  lemma {:induction false} RunKeepsWf(p: Parser, s: string)
    requires Wf(p)
    ensures Wf(Run(p, s).parser)
    decreases |s|
  {
    if s != [] {
      RunCons(p, s);
      StepKeepsWf(p, s[0]);
      RunKeepsWf(Step(p, s[0]).parser, s[1..]);
    }
  }

  // ---------------------------------------------------------------------------
  // Text
  // ---------------------------------------------------------------------------

  /** Printable characters in NORMAL are buffered and emit nothing. */
  lemma {:induction false} PrintableText(p: Parser, s: string)
    requires p.state == Normal && Printable(s)
    ensures Run(p, s) == Fed(p.(buffer := p.buffer + s), [])
    decreases |s|
  {
    if s != [] {
      var q := p.(buffer := p.buffer + [s[0]]);
      assert Step(p, s[0]) == Fed(q, []);
      RunCons(p, s);
      PrintableText(q, s[1..]);
      assert p.buffer + [s[0]] + s[1..] == p.buffer + s;
    }
  }

  /** A line of text followed by a line feed: one `text` event, then `linefeed`. */
  lemma TextThenLinefeed(s: string)
    requires s != [] && Printable(s)
    ensures Run(Initial, s + "\n") == Fed(Initial, [Text(s), Linefeed])
  {
    RunAppend(Initial, s, "\n");
    PrintableText(Initial, s);
    assert Initial.buffer + s == s;
    var q := Initial.(buffer := s);
    assert Step(q, '\n') == Fed(Initial, [Text(s), Linefeed]);
    RunOne(q, '\n');
  }

  // ---------------------------------------------------------------------------
  // CSI sequences
  // ---------------------------------------------------------------------------

  /** Parameter bytes in CSI fill `params` and `currentParam` as the split of what was read. */
  lemma {:induction false} CsiParamRun(p: Parser, s: string)
    requires p.state == Csi && ';' !in p.currentParam && ParamChars(s)
    ensures var pieces := Split(p.currentParam + s, ';');
      Run(p, s) == Fed(p.(params := p.params + Commits(pieces[..|pieces| - 1]),
                          currentParam := pieces[|pieces| - 1]), [])
    decreases |s|
  {
    var cp := p.currentParam;
    if s == [] {
      assert Run(p, s) == Fed(p, []);
      assert cp + s == cp;
      SplitWithoutSeparator(cp, ';');
      assert p.params + Commits([]) == p.params;
    } else if s[0] == ';' {
      var q := p.(params := p.params + [CommitParam(cp)], currentParam := "");
      assert Step(p, s[0]) == Fed(q, []);
      RunCons(p, s);
      CsiParamRun(q, s[1..]);
      assert "" + s[1..] == s[1..];
      SplitCommitted(p.params, cp, s);
    } else {
      var q := p.(currentParam := cp + [s[0]]);
      assert Step(p, s[0]) == Fed(q, []);
      assert ';' !in cp + [s[0]];
      RunCons(p, s);
      CsiParamRun(q, s[1..]);
      ConsAppend(cp, s);
    }
  }

  lemma ConsAppend<T>(a: seq<T>, s: seq<T>)
    requires s != []
    ensures a + [s[0]] + s[1..] == a + s
  {
  }

  /** Splitting at a leading `;` commits the field before it. */
  lemma SplitCommitted(ps: seq<JsNum>, cp: string, s: string)
    requires s != [] && s[0] == ';' && ';' !in cp
    ensures var pieces := Split(cp + s, ';');
      var rest := Split(s[1..], ';');
      && ps + [CommitParam(cp)] + Commits(rest[..|rest| - 1]) == ps + Commits(pieces[..|pieces| - 1])
      && pieces[|pieces| - 1] == rest[|rest| - 1]
  {
    var rest := Split(s[1..], ';');
    assert cp + s == cp + [';'] + s[1..];
    SplitAfterPiece(cp, ';', s[1..]);
    var pieces := [cp] + rest;
    assert pieces[..|pieces| - 1] == [cp] + rest[..|rest| - 1];
    assert Commits(pieces[..|pieces| - 1]) == [CommitParam(cp)] + Commits(rest[..|rest| - 1]);
  }

  /** `ESC` then `[`, `]` or `P` in NORMAL: pending text is flushed and the sequence is entered. */
  lemma Introducer(p: Parser, kind: char)
    requires p.state == Normal
    ensures var q := Flushed(p).parser.(state := Escape);
      Run(p, [ESC, kind]) == Fed(EscapeStep(q, kind).parser, Flushed(p).events + EscapeStep(q, kind).events)
  {
    var q := Flushed(p).parser.(state := Escape);
    assert Step(p, ESC) == Fed(q, Flushed(p).events);
    RunCons(p, [ESC, kind]);
    assert [ESC, kind][1..] == [kind];
    RunOne(q, kind);
  }

  /** A final byte in CSI dispatches the sequence with the pending parameter committed. */
  lemma FinalByte(q: Parser, f: char)
    requires q.state == Csi && 0x40 <= f as int <= 0x7E
    ensures var ps := if q.currentParam != "" then q.params + [ParseInt(q.currentParam)] else q.params;
      Run(q, [f]) == Fed(q.(params := ps, finalChar := [f], state := Normal),
                         [SequenceEvent(Sequence(ps, q.intermediates, f))])
  {
    RunOne(q, f);
  }

  /**
   * `ESC [ body f`, with `body` made of parameter bytes and `f` a final byte,
   * flushes pending text and then emits exactly the sequence for `f` with the
   * parameters of `body`; the parser is back in NORMAL.
   */
  lemma CsiRun(p: Parser, body: string, f: char)
    requires p.state == Normal && ParamChars(body) && 0x40 <= f as int <= 0x7E
    ensures var r := Run(p, [ESC, '['] + body + [f]);
      var pieces := Split(body, ';');
      && r.parser == Parser(Normal, "", CsiParams(body), pieces[|pieces| - 1], "", [f])
      && r.events == Flushed(p).events + [SequenceEvent(Sequence(CsiParams(body), "", f))]
  {
    var pieces := Split(body, ';');
    var q2 := Parser(Csi, "", Commits(pieces[..|pieces| - 1]), pieces[|pieces| - 1], "", p.finalChar);
    CsiIntroducerAndBody(p, body);
    RunAppend(p, [ESC, '['] + body, [f]);
    FinalByte(q2, f);
  }

  /** `ESC [ body` leaves the parser in CSI with the fields of `body` read. */
  lemma CsiIntroducerAndBody(p: Parser, body: string)
    requires p.state == Normal && ParamChars(body)
    ensures var pieces := Split(body, ';');
      Run(p, [ESC, '['] + body)
        == Fed(Parser(Csi, "", Commits(pieces[..|pieces| - 1]), pieces[|pieces| - 1], "", p.finalChar),
               Flushed(p).events)
  {
    var q1 := Parser(Csi, "", [], "", "", p.finalChar);
    Introducer(p, '[');
    CsiParamRun(q1, body);
    assert "" + body == body;
    var pieces := Split(body, ';');
    assert [] + Commits(pieces[..|pieces| - 1]) == Commits(pieces[..|pieces| - 1]);
    RunAppend(p, [ESC, '['], body);
    assert Flushed(p).events + [] == Flushed(p).events;
  }

  lemma QuestionMarkParam()
    ensures CsiParams("?1049") == [NaN]
  {
    var body := "?1049";
    assert body[0] == '?' && ';' !in body;
    CsiParamsSingle(body);
    ParseIntOfNonDigit(body);
  }

  /** A parameter string without `;` is one parameter. */
  lemma CsiParamsSingle(body: string)
    requires body != "" && ';' !in body
    ensures CsiParams(body) == [ParseInt(body)]
  {
    SplitWithoutSeparator(body, ';');
    assert Split(body, ';')[..0] == [];
  }

  /** `parseInt` of a string that starts with neither white space, a sign nor a digit is NaN. */
  lemma ParseIntOfNonDigit(s: string)
    requires s != [] && !IsWhitespace(s[0]) && s[0] != '-' && s[0] != '+' && !IsDigit(s[0])
    ensures ParseInt(s) == NaN
  {
    assert TrimStart(s) == s;
    assert DigitPrefix(s) == [];
  }

  /** `ESC [ ? 1049 h`: the `?` lands in the parameter, which then reads as NaN; the mode is not private. */
  lemma AlternateScreenRequest()
    ensures Run(Initial, [ESC, '['] + "?1049" + ['h']).events == [SequenceEvent(Sequence([NaN], "", 'h'))]
  {
    assert ParamChars("?1049");
    CsiRun(Initial, "?1049", 'h');
    QuestionMarkParam();
  }

  /** The sequence `ESC [ ? 1049 h` produces is a non-private set-mode request. */
  lemma AlternateScreenInfo()
    ensures Sequence([NaN], "", 'h').Info() == SetMode(false)
  {
  }

  lemma SequenceNeverPrivate(ps: seq<JsNum>, im: string, f: char)
    requires '?' !in im
    ensures !PrivateMode(SequenceEvent(Sequence(ps, im, f)))
  {
  }

  lemma {:induction false} StepNeverPrivate(p: Parser, c: char)
    requires Wf(p)
    ensures forall k :: 0 <= k < |Step(p, c).events| ==> !PrivateMode(Step(p, c).events[k])
  {
    if p.state == Csi && 0x40 <= c as int <= 0x7E {
      assert '?' !in p.intermediates;
      var ps := if p.currentParam != "" then p.params + [ParseInt(p.currentParam)] else p.params;
      SequenceNeverPrivate(ps, p.intermediates, c);
      assert Step(p, c).events == [SequenceEvent(Sequence(ps, p.intermediates, c))];
    }
  }

  /**
   * No parsed set/reset mode is ever private: `?` is a parameter byte, so it
   * never reaches the intermediate bytes that `private` is read from.
   */
  lemma {:induction false} NeverPrivate(p: Parser, s: string)
    requires Wf(p)
    ensures forall k :: 0 <= k < |Run(p, s).events| ==> !PrivateMode(Run(p, s).events[k])
    decreases |s|
  {
    if s != [] {
      RunCons(p, s);
      StepNeverPrivate(p, s[0]);
      StepKeepsWf(p, s[0]);
      NeverPrivate(Step(p, s[0]).parser, s[1..]);
    }
  }

  lemma {:induction false} StepNeverGuarded(p: Parser, c: char)
    ensures forall k :: 0 <= k < |Step(p, c).events| ==> !GuardedEscapeEvent(Step(p, c).events[k])
  {
    if p.state == Escape && 0x40 <= c as int <= 0x5F {
      assert c != 'c' && c != '7' && c != '8' && c != '=' && c != '>';
    }
  }

  /**
   * `reset`, `saveCursor`, `restoreCursor` and `applicationKeypad` are never
   * emitted: their characters lie outside 0x40-0x5F, the only range passed
   * to `handleSingleEscape`.
   */
  lemma {:induction false} GuardedEscapesNeverEmitted(p: Parser, s: string)
    ensures forall k :: 0 <= k < |Run(p, s).events| ==> !GuardedEscapeEvent(Run(p, s).events[k])
    decreases |s|
  {
    if s != [] {
      RunCons(p, s);
      StepNeverGuarded(p, s[0]);
      GuardedEscapesNeverEmitted(Step(p, s[0]).parser, s[1..]);
    }
  }

  // ---------------------------------------------------------------------------
  // Parameter values
  // ---------------------------------------------------------------------------

  /** Parameter values the parser can produce: NaN or a non-negative integer. */
  predicate SaneParams(ps: seq<JsNum>) {
    forall k :: 0 <= k < |ps| ==> ps[k].Num? ==> ps[k].n >= 0
  }

  predicate SaneEvents(es: seq<Event>) {
    forall k :: 0 <= k < |es| ==> es[k].SequenceEvent? ==> SaneParams(es[k].sq.params)
  }

  /** What the parser keeps true of its parameter fields. */
  predicate ParamsSane(p: Parser) {
    SaneParams(p.params) && ParamChars(p.currentParam)
  }

  /** Parameter bytes hold no sign and no white space, so `parseInt` of them is never negative. */
  lemma ParseIntOfParamChars(cp: string)
    requires ParamChars(cp)
    ensures ParseInt(cp).Num? ==> ParseInt(cp).n >= 0
  {
    if cp != [] {
      assert 0x30 <= cp[0] as int <= 0x3F;
      assert !IsWhitespace(cp[0]);
    }
    assert TrimStart(cp) == cp;
  }

  lemma {:induction false} StepSane(p: Parser, c: char)
    requires ParamsSane(p)
    ensures ParamsSane(Step(p, c).parser) && SaneEvents(Step(p, c).events)
  {
    match p.state
    case Normal => NormalStepSane(p, c);
    case Escape => EscapeStepSane(p, c);
    case Csi => CsiStepSane(p, c);
    case Osc => OscStepSane(p, c);
    case Dcs =>
  }

  lemma NormalStepSane(p: Parser, c: char)
    requires ParamsSane(p)
    ensures ParamsSane(NormalStep(p, c).parser) && SaneEvents(NormalStep(p, c).events)
  {
    if c != ESC && (c as int) < 0x20 {
      var es := Flushed(p).events + ControlEvents(c);
      assert forall k :: 0 <= k < |es| ==> !es[k].SequenceEvent?;
    }
  }

  lemma EscapeStepSane(p: Parser, c: char)
    requires ParamsSane(p)
    ensures ParamsSane(EscapeStep(p, c).parser) && SaneEvents(EscapeStep(p, c).events)
  {
    if c == '[' {
      assert ParamChars("");
    }
  }

  lemma OscStepSane(p: Parser, c: char)
    requires ParamsSane(p)
    ensures ParamsSane(OscStep(p, c).parser) && SaneEvents(OscStep(p, c).events)
  {
  }

  lemma CsiStepSane(p: Parser, c: char)
    requires p.state == Csi && ParamsSane(p)
    ensures ParamsSane(CsiStep(p, c).parser) && SaneEvents(CsiStep(p, c).events)
  {
    var code := c as int;
    ParseIntOfParamChars(p.currentParam);
    if 0x30 <= code <= 0x3F {
      if c == ';' {
        SaneAppend(p.params, CommitParam(p.currentParam));
      } else {
        ParamCharsAppend(p.currentParam, c);
      }
    } else if 0x40 <= code <= 0x7E {
      if p.currentParam != "" {
        SaneAppend(p.params, ParseInt(p.currentParam));
      }
    }
  }

  lemma SaneAppend(ps: seq<JsNum>, x: JsNum)
    requires SaneParams(ps) && (x.Num? ==> x.n >= 0)
    ensures SaneParams(ps + [x])
  {
    assert forall k :: 0 <= k < |ps| ==> (ps + [x])[k] == ps[k];
  }

  lemma ParamCharsAppend(cp: string, c: char)
    requires ParamChars(cp) && 0x30 <= c as int <= 0x3F
    ensures ParamChars(cp + [c])
  {
    assert forall k :: 0 <= k < |cp| ==> (cp + [c])[k] == cp[k];
  }

  /** Every control sequence the parser emits has parameters that are NaN or non-negative. */
  lemma {:induction false} RunSane(p: Parser, s: string)
    requires ParamsSane(p)
    ensures ParamsSane(Run(p, s).parser) && SaneEvents(Run(p, s).events)
    decreases |s|
  {
    if s != [] {
      RunCons(p, s);
      StepSane(p, s[0]);
      RunSane(Step(p, s[0]).parser, s[1..]);
      SaneEventsAppend(Step(p, s[0]).events, Run(Step(p, s[0]).parser, s[1..]).events);
    }
  }

  lemma SaneEventsAppend(e1: seq<Event>, e2: seq<Event>)
    requires SaneEvents(e1) && SaneEvents(e2)
    ensures SaneEvents(e1 + e2)
  {
    assert forall k :: 0 <= k < |e1 + e2| ==> (e1 + e2)[k] == (if k < |e1| then e1[k] else e2[k - |e1|]);
  }

  // ---------------------------------------------------------------------------
  // OSC and DCS strings
  // ---------------------------------------------------------------------------

  /** Inside an OSC or DCS string, characters other than BEL and ESC are collected. */
  lemma {:induction false} StringBody(p: Parser, s: string)
    requires (p.state == Osc || p.state == Dcs) && BodyChars(s)
    ensures Run(p, s) == Fed(p.(buffer := p.buffer + s), [])
    decreases |s|
  {
    if s != [] {
      var q := p.(buffer := p.buffer + [s[0]]);
      assert Step(p, s[0]) == Fed(q, []);
      RunCons(p, s);
      StringBody(q, s[1..]);
      assert p.buffer + [s[0]] + s[1..] == p.buffer + s;
    }
  }

  /** `ESC ] body BEL` from NORMAL: pending text is flushed and the OSC body is dispatched. */
  lemma OscRun(p: Parser, body: string)
    requires p.state == Normal && BodyChars(body)
    ensures var r := Run(p, [ESC, ']'] + body + [BEL]);
      && r.parser == Flushed(p).parser
      && r.events == Flushed(p).events + OscEvents(body)
  {
    var e := Flushed(p);
    var q2 := e.parser.(state := Osc, buffer := body);
    OscIntroducerAndBody(p, body);
    RunAppend(p, [ESC, ']'] + body, [BEL]);
    assert Step(q2, BEL) == Fed(e.parser, OscEvents(body));
    RunOne(q2, BEL);
  }

  /** `ESC ] body` leaves the parser in OSC with `body` collected. */
  lemma OscIntroducerAndBody(p: Parser, body: string)
    requires p.state == Normal && BodyChars(body)
    ensures Run(p, [ESC, ']'] + body) == Fed(Flushed(p).parser.(state := Osc, buffer := body), Flushed(p).events)
  {
    var q1 := Flushed(p).parser.(state := Osc);
    Introducer(p, ']');
    StringBody(q1, body);
    assert "" + body == body;
    RunAppend(p, [ESC, ']'], body);
    assert Flushed(p).events + [] == Flushed(p).events;
  }

  /** The OSC body `n;title` for n = 0 or 2 dispatches to exactly that title. */
  lemma TitleBody(command: int, title: string)
    requires command == 0 || command == 2
    ensures OscEvents(IntToString(command) + ";" + title) == [Title(title)]
  {
    var code := IntToString(command);
    assert code == [if command == 0 then '0' else '2'];
    assert code + ";" + title == code + [';'] + title;
    SplitAfterPiece(code, ';', title);
    ParseIntOfIntToString(command);
    var parts := [code] + Split(title, ';');
    assert parts[0] == code;
    assert parts[1..] == Split(title, ';');
    JoinSplit(title, ';');
  }

  /** OSC 0 and OSC 2 set the window title to everything after the first `;`. */
  lemma TitleRequest(p: Parser, command: int, title: string)
    requires p.state == Normal && (command == 0 || command == 2) && BodyChars(title)
    ensures Run(p, [ESC, ']'] + (IntToString(command) + ";" + title) + [BEL]).events
         == Flushed(p).events + [Title(title)]
  {
    var code := IntToString(command);
    assert code == [if command == 0 then '0' else '2'];
    assert BodyChars(code + ";" + title);
    OscRun(p, code + ";" + title);
    TitleBody(command, title);
  }

  /** The OSC body `8;params;url` gives a hyperlink with those two fields. */
  lemma HyperlinkBody(params: string, url: string)
    requires ';' !in params && ';' !in url
    ensures OscEvents("8;" + params + ";" + url) == [Hyperlink(params, Some(url))]
  {
    var tail := params + ";" + url;
    assert "8;" + params + ";" + url == "8" + ";" + tail;
    SplitTwo("8", tail);
    SplitTwo(params, url);
    HyperlinkCommand(params, url);
  }

  lemma HyperlinkCommand(params: string, url: string)
    requires ';' !in params && ';' !in url
    ensures OscCommand(["8", params, url]) == [Hyperlink(params, Some(url))]
  {
    var parts := ["8", params, url];
    ParseIntOfEight();
    assert parts[1..] == [params, url];
    assert Join([params, url], ";") == params + ";" + url;
    HyperlinkOfPair(params, url);
  }

  lemma ParseIntOfEight()
    ensures ParseInt("8") == Num(8)
  {
    assert IntToString(8) == "8";
    ParseIntOfIntToString(8);
  }

  /** `params;url` with no further `;` gives both fields. */
  lemma HyperlinkOfPair(params: string, url: string)
    requires ';' !in params && ';' !in url
    ensures HyperlinkOf(params + ";" + url) == Hyperlink(params, Some(url))
  {
    SplitTwo(params, url);
  }

  /** `(a + ";" + b).split(';')` when `a` has no `;`: `a`, then the pieces of `b`. */
  lemma SplitTwo(a: string, b: string)
    requires ';' !in a
    ensures Split(a + ";" + b, ';') == [a] + Split(b, ';')
    ensures ';' !in b ==> Split(a + ";" + b, ';') == [a, b]
  {
    assert a + ";" + b == a + [';'] + b;
    SplitAfterPiece(a, ';', b);
    if ';' !in b {
      SplitWithoutSeparator(b, ';');
    }
  }

  /** OSC 8: the hyperlink's parameters and URL, when neither contains `;`. */
  lemma HyperlinkRequest(p: Parser, params: string, url: string)
    requires p.state == Normal && BodyChars(params) && BodyChars(url)
    requires ';' !in params && ';' !in url
    ensures Run(p, [ESC, ']'] + ("8;" + params + ";" + url) + [BEL]).events
         == Flushed(p).events + [Hyperlink(params, Some(url))]
  {
    assert BodyChars("8;" + params + ";" + url);
    OscRun(p, "8;" + params + ";" + url);
    HyperlinkBody(params, url);
  }

  /**
   * A string ended by ST (`ESC \`) instead of BEL is not dispatched: ESC
   * returns to NORMAL with the collected body still in the text buffer, and
   * the body, then `\`, come out as ordinary text.
   */
  lemma StTerminatedStringBecomesText(kind: char, body: string)
    requires kind == ']' || kind == 'P'
    requires BodyChars(body)
    ensures var r := Run(Initial, [ESC, kind] + body + [ESC, '\\']);
      && r.events == []
      && r.parser.state == Normal
      && Ended(r.parser).events == [Text(body + "\\")]
  {
    var q1 := Initial.(state := if kind == ']' then Osc else Dcs);
    Introducer(Initial, kind);
    StringBody(q1, body);
    assert "" + body == body;
    var q2 := q1.(buffer := body);
    var q3 := q2.(state := Normal);
    assert Step(q2, ESC) == Fed(q3, []);
    var q4 := q3.(buffer := body + "\\");
    assert Step(q3, '\\') == Fed(q4, []);
    RunCons(q2, [ESC, '\\']);
    assert [ESC, '\\'][1..] == ['\\'];
    RunOne(q3, '\\');
    RunThree(Initial, [ESC, kind], body, [ESC, '\\']);
  }
}
