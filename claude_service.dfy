/**
 * The TTY Claude service: a state machine over a pseudo-terminal that
 * sends the user's messages as keystrokes, collects the program's output
 * until a prompt shows up, and turns it into assistant messages.
 *
 * The pseudo-terminal and the output processor are represented by the calls
 * they receive (the `pty` and `screen` logs), the EventEmitter by the log of
 * emitted events. The binary decoder and the input encoder are the modelled
 * classes themselves.
 */
module Session {
  import opened Js
  import Encoding
  import Binary

  // ---------------------------------------------------------------------------
  // Prompt patterns
  // ---------------------------------------------------------------------------

  const HumanPrompt := "Human:"
  const ShellPrompt := ">"
  const AssistantPrompt := "Assistant:"

  predicate AllWhitespace(s: string) {
    forall k :: 0 <= k < |s| ==> IsWhitespace(s[k])
  }

  predicate EndsWith(s: string, suffix: string) {
    |suffix| <= |s| && s[|s| - |suffix|..] == suffix
  }

  /** A pattern `/P\s*$/` whose literal part ends in a character `\s` cannot match. */
  predicate PromptLiteral(p: string) {
    p != [] && !IsWhitespace(p[|p| - 1])
  }

  /** The regular expression `/P\s*$/` matches at index `i` of `t`. */
  ghost predicate MatchesAt(t: string, p: string, i: int) {
    0 <= i && i + |p| <= |t| && t[i..i + |p|] == p && AllWhitespace(t[i + |p|..])
  }

  /** `/P\s*$/.test(t)`. */
  ghost predicate Matches(t: string, p: string) {
    exists i :: MatchesAt(t, p, i)
  }

  /** `t` ends with `p` once trailing whitespace is ignored. */
  predicate PromptAtEnd(t: string, p: string) {
    EndsWith(TrimEnd(t), p)
  }

  /** `detectPrompt`: one of the three patterns matches. */
  predicate DetectPrompt(t: string)
    ensures DetectPrompt(t) ==> var e := TrimEnd(t); e != [] && e[|e| - 1] in ":>"
  {
    var e := TrimEnd(t);
    assert EndsWith(e, HumanPrompt) || EndsWith(e, AssistantPrompt) ==> e[|e| - 1] == ':';
    PromptAtEnd(t, HumanPrompt) || PromptAtEnd(t, ShellPrompt) || PromptAtEnd(t, AssistantPrompt)
  }

  /** `t.replace(/P\s*$/, '')`: the match and everything after it removed. */
  function StripPrompt(t: string, p: string): (r: string)
    ensures r <= t
  {
    var trimmed := TrimEnd(t);
    if EndsWith(trimmed, p) then trimmed[..|trimmed| - |p|] else t
  }

  /** `promptPatterns`, in the order they are tried. */
  const Prompts := [HumanPrompt, ShellPrompt, AssistantPrompt]

  /** The `for` loop of `processResponse`: each pattern removed once, in order, then `trim`. */
  function CleanWith(t: string, prompts: seq<string>): string
    decreases |prompts|
  {
    if prompts == [] then Trim(t) else CleanWith(StripPrompt(t, prompts[0]), prompts[1..])
  }

  /** The prompt-free reply. */
  function CleanResponse(response: string): (r: string)
    ensures |r| <= |response|
    ensures r == [] || (!IsWhitespace(r[0]) && !IsWhitespace(r[|r| - 1]))
  {
    CleanWithIsTrimmed(response, Prompts);
    CleanWithIsSlice(response, Prompts);
    CleanWith(response, Prompts)
  }

  /** The three patterns of the loop, written out. */
  lemma CleanResponseSteps(response: string)
    ensures CleanResponse(response)
         == Trim(StripPrompt(StripPrompt(StripPrompt(response, HumanPrompt), ShellPrompt), AssistantPrompt))
  {
    var s1 := StripPrompt(response, HumanPrompt);
    var s2 := StripPrompt(s1, ShellPrompt);
    var s3 := StripPrompt(s2, AssistantPrompt);
    assert Prompts[1..][1..][1..] == [];
    calc {
      CleanResponse(response);
      CleanWith(s1, Prompts[1..]);
      CleanWith(s2, Prompts[1..][1..]);
      CleanWith(s3, Prompts[1..][1..][1..]);
      Trim(s3);
    }
  }

  /** Whatever the patterns, the cleaned reply neither starts nor ends with whitespace. */
  lemma {:induction false} CleanWithIsTrimmed(t: string, prompts: seq<string>)
    ensures var c := CleanWith(t, prompts); c == [] || (!IsWhitespace(c[0]) && !IsWhitespace(c[|c| - 1]))
    decreases |prompts|
  {
    if prompts == [] {
      TrimHasNoOuterWhitespace(t);
    } else {
      CleanWithIsTrimmed(StripPrompt(t, prompts[0]), prompts[1..]);
    }
  }

  lemma TrimHasNoOuterWhitespace(s: string)
    ensures var t := Trim(s); t == [] || (!IsWhitespace(t[0]) && !IsWhitespace(t[|t| - 1]))
  {
    var t := Trim(s);
    if t != [] {
      assert t[0] == TrimStart(s)[0];
    }
  }

  /** What `trimEnd` removes is whitespace, and no shorter cut leaves only whitespace. */
  lemma {:induction false} TrimEndTail(t: string)
    ensures AllWhitespace(t[|TrimEnd(t)|..])
    ensures forall j :: 0 <= j <= |t| && AllWhitespace(t[j..]) ==> |TrimEnd(t)| <= j
    decreases |t|
  {
    var r := TrimEnd(t);
    if t != [] && IsWhitespace(t[|t| - 1]) {
      var u := t[..|t| - 1];
      TrimEndTail(u);
      assert r == TrimEnd(u);
      assert t[|r|..] == u[|r|..] + [t[|t| - 1]];
    }
  }

  /** The regular expression and the trimmed-suffix test agree, and a match can only sit in one place. */
  lemma PromptTest(t: string, p: string)
    requires PromptLiteral(p)
    ensures Matches(t, p) <==> PromptAtEnd(t, p)
    ensures forall i :: MatchesAt(t, p, i) ==> i == |TrimEnd(t)| - |p|
  {
    var r := TrimEnd(t);
    forall i | MatchesAt(t, p, i)
      ensures i == |r| - |p| && PromptAtEnd(t, p)
    {
      MatchIsAtEnd(t, p, i);
    }
    if PromptAtEnd(t, p) {
      TrimEndTail(t);
      var i := |r| - |p|;
      assert t[i..i + |p|] == r[i..];
      assert MatchesAt(t, p, i);
    }
  }

  /** A match of `/P\s*$/` ends where the trailing whitespace starts. */
  lemma MatchIsAtEnd(t: string, p: string, i: int)
    requires PromptLiteral(p) && MatchesAt(t, p, i)
    ensures i == |TrimEnd(t)| - |p| && PromptAtEnd(t, p)
  {
    var r := TrimEnd(t);
    TrimEndTail(t);
    var j := i + |p|;
    assert r[i..] == t[i..j];
  }

  /** `replace` cuts the text at the match; without a match it leaves the text alone. */
  lemma ReplaceMeaning(t: string, p: string)
    requires PromptLiteral(p)
    ensures forall i :: MatchesAt(t, p, i) ==> StripPrompt(t, p) == t[..i]
    ensures !Matches(t, p) ==> StripPrompt(t, p) == t
  {
    PromptTest(t, p);
  }

  /** A prompt with trailing whitespace after a reply is removed, leaving the reply. */
  lemma StripAfter(body: string, p: string, ws: string)
    requires PromptLiteral(p) && AllWhitespace(ws)
    ensures StripPrompt(body + p + ws, p) == body
  {
    var t := body + p + ws;
    assert t[|body|..|body| + |p|] == p;
    assert t[|body| + |p|..] == ws;
    assert MatchesAt(t, p, |body|);
    ReplaceMeaning(t, p);
    assert t[..|body|] == body;
  }

  lemma TrimEndOfBlank(s: string)
    requires AllWhitespace(s)
    ensures TrimEnd(s) == []
    decreases |s|
  {
    if s != [] {
      TrimEndOfBlank(s[..|s| - 1]);
    }
  }

  lemma {:induction false} BlankUnderTrim(s: string)
    requires Trim(s) == []
    ensures AllWhitespace(s)
    decreases |s|
  {
    if s != [] && IsWhitespace(s[0]) {
      assert TrimStart(s) == TrimStart(s[1..]);
      BlankUnderTrim(s[1..]);
      assert forall k :: 1 <= k < |s| ==> s[k] == s[1..][k - 1];
    } else if s != [] {
      assert TrimStart(s) == s;
      var r := TrimEnd(s);
      assert r <= s;
      if r == [] {
        TrimEndKeepsFirst(s);
      }
    }
  }

  lemma {:induction false} TrimEndKeepsFirst(s: string)
    requires s != [] && !IsWhitespace(s[0])
    ensures TrimEnd(s) != []
    decreases |s|
  {
    if |s| > 1 && IsWhitespace(s[|s| - 1]) {
      TrimEndKeepsFirst(s[..|s| - 1]);
    }
  }

  /** Text that is only whitespace has no prompt to strip and cleans to nothing. */
  lemma {:induction false} CleanWithOfBlank(t: string, prompts: seq<string>)
    requires AllWhitespace(t)
    ensures CleanWith(t, prompts) == []
    decreases |prompts|
  {
    TrimEndOfBlank(t);
    if prompts == [] {
      assert TrimStart(t) == t[|t| - |TrimStart(t)|..];
      TrimEndOfBlank(TrimStart(t));
    } else {
      var s := StripPrompt(t, prompts[0]);
      assert s == t || s == [];
      CleanWithOfBlank(s, prompts[1..]);
    }
  }

  /** A reply that is only whitespace gives no message: the guard in front of the cleaning changes nothing. */
  lemma BlankResponseIsEmpty(response: string)
    requires Trim(response) == []
    ensures CleanResponse(response) == []
  {
    BlankUnderTrim(response);
    CleanWithOfBlank(response, Prompts);
  }

  /** Whatever the patterns, the cleaned text is a contiguous piece of the original. */
  lemma {:induction false} CleanWithIsSlice(t: string, prompts: seq<string>)
    ensures exists i, j :: 0 <= i <= j <= |t| && CleanWith(t, prompts) == t[i..j]
    decreases |prompts|
  {
    if prompts == [] {
      var i := TrimIsSlice(t);
      assert CleanWith(t, prompts) == t[i..i + |Trim(t)|];
    } else {
      var s := StripPrompt(t, prompts[0]);
      CleanWithIsSlice(s, prompts[1..]);
      var i, j :| 0 <= i <= j <= |s| && CleanWith(s, prompts[1..]) == s[i..j];
      PrefixSlice(s, t, i, j);
    }
  }

  /** `trim` keeps the piece of `s` that starts at the returned index. */
  lemma TrimIsSlice(s: string) returns (i: nat)
    ensures i + |Trim(s)| <= |s| && Trim(s) == s[i..i + |Trim(s)|]
  {
    var ts := TrimStart(s);
    var c := TrimEnd(ts);
    i := |s| - |ts|;
    assert Trim(s) == c;
    assert c == ts[..|c|];
    assert ts[..|c|] == s[i..i + |c|];
  }

  /** A slice of a prefix is the same slice of the whole. */
  lemma PrefixSlice(s: string, t: string, i: int, j: int)
    requires s <= t && 0 <= i <= j <= |s|
    ensures j <= |t| && s[i..j] == t[i..j]
  {
  }

  /** The cleaned reply is a contiguous piece of what the program printed. */
  lemma CleanResponseIsSlice(response: string)
    ensures exists i, j :: 0 <= i <= j <= |response| && CleanResponse(response) == response[i..j]
  {
    CleanWithIsSlice(response, Prompts);
  }

  /** A reply followed by the `Human:` prompt becomes the trimmed reply. */
  lemma HumanPromptIsStripped(body: string, ws: string)
    requires AllWhitespace(ws)
    requires !PromptAtEnd(body, ShellPrompt) && !PromptAtEnd(body, AssistantPrompt)
    ensures CleanResponse(body + HumanPrompt + ws) == Trim(body)
  {
    CleanResponseSteps(body + HumanPrompt + ws);
    StripThenKeep(body, HumanPrompt, ws, ShellPrompt, AssistantPrompt);
  }

  /** The first pattern is stripped after `body`; the two others find nothing in `body`. */
  lemma StripThenKeep(body: string, p: string, ws: string, q: string, r: string)
    requires PromptLiteral(p) && AllWhitespace(ws)
    requires !PromptAtEnd(body, q) && !PromptAtEnd(body, r)
    ensures StripPrompt(StripPrompt(StripPrompt(body + p + ws, p), q), r) == body
  {
    StripAfter(body, p, ws);
    assert StripPrompt(body, q) == body;
    assert StripPrompt(body, r) == body;
  }

  /** A reply followed by the `>` prompt becomes the trimmed reply. */
  lemma ShellPromptIsStripped(body: string, ws: string)
    requires AllWhitespace(ws)
    requires !PromptAtEnd(body, AssistantPrompt)
    ensures CleanResponse(body + ShellPrompt + ws) == Trim(body)
  {
    var t := body + ShellPrompt + ws;
    CleanResponseSteps(t);
    assert t[|body|..|body| + 1] == ShellPrompt;
    assert t[|body| + 1..] == ws;
    assert MatchesAt(t, ShellPrompt, |body|);
    PromptTest(t, ShellPrompt);
    var r := TrimEnd(t);
    assert r[|r| - 1] == '>';
    assert !EndsWith(r, HumanPrompt) by {
      if |HumanPrompt| <= |r| {
        assert r[|r| - |HumanPrompt|..][|HumanPrompt| - 1] == '>';
      }
    }
    StripAfter(body, ShellPrompt, ws);
  }

  /** Trailing whitespace after a visible character is exactly what `trimEnd` removes. */
  lemma {:induction false} TrimEndOfPadded(x: string, ws: string)
    requires x != [] && !IsWhitespace(x[|x| - 1]) && AllWhitespace(ws)
    ensures TrimEnd(x + ws) == x
    decreases |ws|
  {
    if ws == [] {
      assert x + ws == x;
    } else {
      assert (x + ws)[..|x + ws| - 1] == x + ws[..|ws| - 1];
      TrimEndOfPadded(x, ws[..|ws| - 1]);
    }
  }

  /** Each pattern is removed once only: a doubled prompt leaves one behind. */
  lemma DoubledPromptSurvives(ws: string)
    requires AllWhitespace(ws)
    ensures CleanResponse(HumanPrompt + ws + HumanPrompt) == HumanPrompt
  {
    var body := HumanPrompt + ws;
    TrimOfHumanPadded(ws);
    HumanPromptEndsNoOther();
    HumanPromptIsStripped(body, []);
    assert body + HumanPrompt + [] == HumanPrompt + ws + HumanPrompt;
  }

  /** `Human:` followed by white space trims to `Human:`. */
  lemma TrimOfHumanPadded(ws: string)
    requires AllWhitespace(ws)
    ensures TrimEnd(HumanPrompt + ws) == HumanPrompt && Trim(HumanPrompt + ws) == HumanPrompt
  {
    var body := HumanPrompt + ws;
    TrimEndOfPadded(HumanPrompt, ws);
    assert body[0] == 'H';
    assert TrimStart(body) == body;
  }

  /** `Human:` ends with neither `>` nor `Assistant:`. */
  lemma HumanPromptEndsNoOther()
    ensures !EndsWith(HumanPrompt, ShellPrompt) && !EndsWith(HumanPrompt, AssistantPrompt)
  {
    assert HumanPrompt[|HumanPrompt| - 1] == ':';
  }

  /** Only the newest chunk is searched for a prompt: a prompt split over two chunks is missed. */
  lemma SplitPromptIsMissed()
    ensures !DetectPrompt("an:") && DetectPrompt("Hum" + "an:")
  {
    assert TrimEnd("an:") == "an:";
    assert "Hum" + "an:" == HumanPrompt;
    assert TrimEnd(HumanPrompt) == HumanPrompt;
  }

  /** Any chunk whose last visible character is `>` ends the reply. */
  lemma AngleBracketEndsReply(body: string, ws: string)
    requires AllWhitespace(ws)
    ensures DetectPrompt(body + ">" + ws)
  {
    StripAfter(body, ShellPrompt, ws);
    var t := body + ">" + ws;
    PromptTest(t, ShellPrompt);
    assert t[|body|..|body| + 1] == ShellPrompt;
    assert t[|body| + 1..] == ws;
    assert MatchesAt(t, ShellPrompt, |body|);
  }

  // ---------------------------------------------------------------------------
  // The service
  // ---------------------------------------------------------------------------

  /** `ServiceState`. */
  datatype ServiceState = Idle | Initializing | Ready | Processing | Error | Terminated

  datatype Role = User | Assistant

  /** A history entry (its timestamp is not modelled). */
  datatype Message = Message(role: Role, content: string)

  /** How an `async` method settles: resolved, or rejected with the error's message. */
  datatype Outcome = Resolved | Rejected(error: string)

  /** The calls the pseudo-terminal manager receives. */
  datatype PtyAction = Spawn(command: string, args: seq<string>) | Write(data: string)
                     | WriteKey(value: JsString) | PtyResize(cols: int, rows: int) | Kill | ClearPtyBuffer

  /** The calls the output processor receives. */
  datatype ScreenAction = Process(text: string) | ScreenResize(cols: int, rows: int) | ScreenReset

  /** The events the service emits. */
  datatype ServiceEvent =
    | StateChange(state: ServiceState)
    | MessageEvent(message: Message)
    | Stream(text: string)
    | RawData(data: Binary.IpcData)
    | ReadyEvent
    | ErrorEvent(error: string)
    | ExitEvent(code: int)
    | ResizeEvent(cols: int, rows: int)
    | Stopped

  const NotIdleError := "Service is already initialized"
  const NotReadyError := "Service is not ready"
  const NotRunningError := "PTY is not running"
  /** The TypeError thrown by calling `encodeNewline`, which the input encoder does not have. */
  const MissingNewlineError := "this.inputEncoder.encodeNewline is not a function"

  function ClaudeCommand(platform: string): string {
    if platform == "win32" then "claude.cmd" else "claude"
  }

  function ClaudeArgs(mode: string): seq<string> {
    if mode == "print" then ["--print"] else []
  }

  /** The end-of-input character: Ctrl+Z on Windows, Ctrl+D elsewhere. */
  function EndOfInput(platform: string): string {
    if platform == "win32" then "\U{1A}" else "\U{4}"
  }

  /** The writes that send one encoded message. */
  function MessageWrites(encoded: string, platform: string, mode: string): seq<PtyAction> {
    [Write(encoded + Encoding.Newline(platform))] + (if mode == "print" then [Write(EndOfInput(platform))] else [])
  }

  /** The history after `processResponse` has handled `response`. */
  function AfterResponse(messages: seq<Message>, response: string): seq<Message> {
    if Trim(response) != [] && CleanResponse(response) != [] then messages + [Message(Assistant, CleanResponse(response))]
    else messages
  }

  /** The events `processResponse` emits for `response`. */
  function ResponseEvents(response: string): seq<ServiceEvent> {
    (if Trim(response) != [] && CleanResponse(response) != [] then [MessageEvent(Message(Assistant, CleanResponse(response)))] else [])
    + [StateChange(Ready)]
  }

  /** The history gains an assistant message exactly when the cleaned reply is non-empty. */
  lemma AfterResponseMeaning(messages: seq<Message>, response: string)
    ensures CleanResponse(response) != [] ==> AfterResponse(messages, response) == messages + [Message(Assistant, CleanResponse(response))]
    ensures CleanResponse(response) == [] ==> AfterResponse(messages, response) == messages
  {
    if Trim(response) == [] {
      BlankResponseIsEmpty(response);
    }
  }

  class ClaudeService {
    var state: ServiceState
    var cols: int
    var rows: int
    var mode: string
    var platform: string
    const hostPlatform: string
    /** The PTY manager and the output processor exist. */
    var created: bool
    var decoder: Binary.BinaryDecoder?
    var inputEncoder: Encoding.InputEncoder?
    var messages: seq<Message>
    var currentResponse: string
    var waiting: bool
    var pty: seq<PtyAction>
    var screen: seq<ScreenAction>
    var events: seq<ServiceEvent>

    predicate Created()
      reads this
    {
      created && decoder != null && inputEncoder != null
    }

    /** Sending and waiting for a reply only happen once the components exist. */
    predicate Valid()
      reads this
    {
      (state == Ready || state == Processing || waiting) ==> Created()
    }

    /** Options present are used as given (the spread overrides the `||` defaults); absent ones default. */
    constructor(cols: Option<int>, rows: Option<int>, mode: Option<string>, platform: Option<string>, hostPlatform: string)
      ensures this.cols == (if cols.Some? then cols.value else 120)
      ensures this.rows == (if rows.Some? then rows.value else 40)
      ensures this.mode == (if mode.Some? then mode.value else "interactive")
      ensures this.platform == (if platform.Some? then platform.value else hostPlatform)
      ensures this.hostPlatform == hostPlatform
      ensures state == Idle && !created && decoder == null && inputEncoder == null
      ensures messages == [] && currentResponse == [] && !waiting
      ensures pty == [] && screen == [] && events == []
      ensures Valid()
    {
      this.cols := if cols.Some? then cols.value else 120;
      this.rows := if rows.Some? then rows.value else 40;
      this.mode := if mode.Some? then mode.value else "interactive";
      this.platform := if platform.Some? then platform.value else hostPlatform;
      this.hostPlatform := hostPlatform;
      state := Idle;
      created := false;
      decoder := null;
      inputEncoder := null;
      messages := [];
      currentResponse := [];
      waiting := false;
      pty := [];
      screen := [];
      events := [];
    }

    /**
     * `initialize`: only from IDLE; creates the components and spawns the
     * program. `spawnError` is how the spawn settles (None: it and the wait
     * for the first prompt resolve).
     */
    method Initialize(utf8: Binary.Utf8, base64: Binary.Base64, spawnError: Option<string>) returns (outcome: Outcome)
      requires Valid()
      modifies this
      ensures Valid()
      ensures old(state) != Idle ==> outcome == Rejected(NotIdleError) && unchanged(this)
      ensures old(state) == Idle ==>
        && Created() && fresh(decoder) && fresh(inputEncoder)
        && decoder.utf8 == utf8 && decoder.base64 == base64 && decoder.mode == "utf8"
        && decoder.incompleteSequence == None
        && inputEncoder.platform == (if platform != "" then platform else hostPlatform)
        && !inputEncoder.applicationMode && !inputEncoder.mouseTracking && !inputEncoder.bracketedPaste
        && pty == old(pty) + [Spawn(ClaudeCommand(platform), ClaudeArgs(mode))]
        && state == (if spawnError.None? then Ready else Error)
        && outcome == (if spawnError.None? then Resolved else Rejected(spawnError.value))
        && events == old(events) + [StateChange(Initializing)]
           + (if spawnError.None? then [StateChange(Ready), ReadyEvent] else [StateChange(Error), ErrorEvent(spawnError.value)])
        && cols == old(cols) && rows == old(rows) && mode == old(mode) && platform == old(platform) && screen == old(screen)
        && messages == old(messages) && currentResponse == old(currentResponse) && waiting == old(waiting)
      ensures old(state) != Idle ==> state != Idle
    {
      if state != Idle {
        return Rejected(NotIdleError);
      }
      outcome := StartFromIdle(utf8, base64, spawnError);
    }

    /** The part of `initialize` after the state check. */
    method StartFromIdle(utf8: Binary.Utf8, base64: Binary.Base64, spawnError: Option<string>) returns (outcome: Outcome)
      requires Valid() && state == Idle
      modifies this
      ensures Valid()
      ensures
        && Created() && fresh(decoder) && fresh(inputEncoder)
        && decoder.utf8 == utf8 && decoder.base64 == base64 && decoder.mode == "utf8"
        && decoder.incompleteSequence == None
        && inputEncoder.platform == (if platform != "" then platform else hostPlatform)
        && !inputEncoder.applicationMode && !inputEncoder.mouseTracking && !inputEncoder.bracketedPaste
        && pty == old(pty) + [Spawn(ClaudeCommand(platform), ClaudeArgs(mode))]
        && state == (if spawnError.None? then Ready else Error)
        && outcome == (if spawnError.None? then Resolved else Rejected(spawnError.value))
        && events == old(events) + [StateChange(Initializing)]
           + (if spawnError.None? then [StateChange(Ready), ReadyEvent] else [StateChange(Error), ErrorEvent(spawnError.value)])
        && cols == old(cols) && rows == old(rows) && mode == old(mode) && platform == old(platform) && screen == old(screen)
        && messages == old(messages) && currentResponse == old(currentResponse) && waiting == old(waiting)
    {
      CreateComponents(utf8, base64);
      var spawn := Spawn(ClaudeCommand(platform), ClaudeArgs(mode));
      if spawnError.Some? {
        state, pty, events := Error, pty + [spawn], events + [StateChange(Initializing), StateChange(Error), ErrorEvent(spawnError.value)];
        return Rejected(spawnError.value);
      }
      state, pty, events := Ready, pty + [spawn], events + [StateChange(Initializing), StateChange(Ready), ReadyEvent];
      outcome := Resolved;
    }

    /** The components `initialize` creates: a UTF-8 decoder and an encoder for the service's platform. */
    method CreateComponents(utf8: Binary.Utf8, base64: Binary.Base64)
      modifies this
      ensures Created() && fresh(decoder) && fresh(inputEncoder)
      ensures decoder.utf8 == utf8 && decoder.base64 == base64 && decoder.mode == "utf8"
      ensures decoder.incompleteSequence == None
      ensures inputEncoder.platform == (if platform != "" then platform else hostPlatform)
      ensures !inputEncoder.applicationMode && !inputEncoder.mouseTracking && !inputEncoder.bracketedPaste
      ensures state == old(state) && messages == old(messages) && currentResponse == old(currentResponse)
      ensures waiting == old(waiting) && pty == old(pty) && screen == old(screen) && events == old(events)
      ensures cols == old(cols) && rows == old(rows) && mode == old(mode) && platform == old(platform)
    {
      var newDecoder := new Binary.BinaryDecoder(utf8, base64, Some("utf8"), None);
      var newEncoder := new Encoding.InputEncoder(Some(platform), hostPlatform, false, false, false);
      created, decoder, inputEncoder := true, newDecoder, newEncoder;
    }

    /**
     * `sendMessage` as written: it records the message and starts waiting,
     * then asks the encoder for `encodeNewline`, which it does not have; the
     * TypeError puts the service in ERROR before anything is written.
     */
    method SendMessageAsWritten(message: string) returns (outcome: Outcome)
      requires Valid()
      modifies this
      ensures Valid()
      ensures old(state) != Ready ==> outcome == Rejected(NotReadyError) && unchanged(this)
      ensures old(state) == Ready ==>
        && state == Error && outcome == Rejected(MissingNewlineError)
        && messages == old(messages) + [Message(User, message)]
        && currentResponse == [] && waiting
        && pty == old(pty)
        && events == old(events) + [StateChange(Processing), MessageEvent(Message(User, message)),
                                    StateChange(Error), ErrorEvent(MissingNewlineError)]
        && cols == old(cols) && rows == old(rows) && mode == old(mode) && platform == old(platform) && created == old(created) && decoder == old(decoder) && inputEncoder == old(inputEncoder) && screen == old(screen)
    {
      if state != Ready {
        return Rejected(NotReadyError);
      }
      outcome := SendAsWrittenWhenReady(message);
    }

    /** The part of `sendMessage` as written after the state check. */
    method SendAsWrittenWhenReady(message: string) returns (outcome: Outcome)
      requires Valid() && state == Ready
      modifies this
      ensures Valid()
      ensures
        && state == Error && outcome == Rejected(MissingNewlineError)
        && messages == old(messages) + [Message(User, message)]
        && currentResponse == [] && waiting
        && pty == old(pty)
        && events == old(events) + [StateChange(Processing), MessageEvent(Message(User, message)),
                                    StateChange(Error), ErrorEvent(MissingNewlineError)]
        && cols == old(cols) && rows == old(rows) && mode == old(mode) && platform == old(platform) && created == old(created) && decoder == old(decoder) && inputEncoder == old(inputEncoder) && screen == old(screen)
    {
      var userMessage := Message(User, message);
      var encoded := inputEncoder.Encode(Encoding.TextRequest(message));
      state, messages, currentResponse, waiting := Error, messages + [userMessage], [], true;
      events := events + [StateChange(Processing), MessageEvent(userMessage), StateChange(Error), ErrorEvent(MissingNewlineError)];
      outcome := Rejected(MissingNewlineError);
    }

    /**
     * `sendMessage` with the line ending taken from the encoder module's
     * `encodeNewline`: the encoded message and the newline are written, then,
     * in print mode, the end-of-input character.
     */
    method SendMessage(message: string) returns (outcome: Outcome)
      requires Valid()
      modifies this
      ensures Valid()
      ensures old(state) != Ready ==> outcome == Rejected(NotReadyError) && unchanged(this)
      ensures old(state) == Ready ==>
        && state == Processing && outcome == Resolved
        && messages == old(messages) + [Message(User, message)]
        && currentResponse == [] && waiting
        && pty == old(pty) + MessageWrites(inputEncoder.EncodeText(message), platform, mode)
        && events == old(events) + [StateChange(Processing), MessageEvent(Message(User, message))]
        && cols == old(cols) && rows == old(rows) && mode == old(mode) && platform == old(platform) && created == old(created) && decoder == old(decoder) && inputEncoder == old(inputEncoder) && screen == old(screen)
    {
      if state != Ready {
        return Rejected(NotReadyError);
      }
      outcome := SendWhenReady(message);
    }

    /** The part of `sendMessage` after the state check. */
    method SendWhenReady(message: string) returns (outcome: Outcome)
      requires Valid() && state == Ready
      modifies this
      ensures Valid()
      ensures
        && state == Processing && outcome == Resolved
        && messages == old(messages) + [Message(User, message)]
        && currentResponse == [] && waiting
        && pty == old(pty) + MessageWrites(inputEncoder.EncodeText(message), platform, mode)
        && events == old(events) + [StateChange(Processing), MessageEvent(Message(User, message))]
        && cols == old(cols) && rows == old(rows) && mode == old(mode) && platform == old(platform) && created == old(created) && decoder == old(decoder) && inputEncoder == old(inputEncoder) && screen == old(screen)
    {
      var userMessage := Message(User, message);
      var writes := Keystrokes(message);
      state, messages, currentResponse, waiting := Processing, messages + [userMessage], [], true;
      pty, events := pty + writes, events + [StateChange(Processing), MessageEvent(userMessage)];
      outcome := Resolved;
    }

    /** What `sendMessage` writes: the encoded text and the newline, then the end of input in print mode. */
    method Keystrokes(message: string) returns (writes: seq<PtyAction>)
      requires inputEncoder != null
      ensures writes == MessageWrites(inputEncoder.EncodeText(message), platform, mode)
    {
      var encoded := inputEncoder.Encode(Encoding.TextRequest(message));
      var lineEnding := Encoding.Newline(platform);
      writes := [Write(encoded.s + lineEnding)];
      if mode == "print" {
        writes := writes + [Write(EndOfInput(platform))];
      }
    }

    /**
     * `handleRawData`: the decoder's result goes to the output processor and,
     * while a reply is awaited, onto the reply; a prompt in the chunk ends
     * the reply. A falsy result and a thrown error stop at once.
     */
    method HandleRawData(data: Binary.IpcData) returns (decoded: Binary.Outcome)
      requires Valid() && Created()
      modifies this, decoder
      ensures Valid() && created == old(created) && decoder == old(decoder) && inputEncoder == old(inputEncoder) && cols == old(cols) && rows == old(rows) && mode == old(mode) && platform == old(platform)
      ensures var st := Binary.FromIpc(decoder.utf8, decoder.base64, old(decoder.incompleteSequence), data);
        decoded == st.outcome && decoder.incompleteSequence == st.kept && decoder.emitted == old(decoder.emitted) + st.events
      ensures decoder.mode == old(decoder.mode) && decoder.bufferSize == old(decoder.bufferSize) && decoder.buffer == old(decoder.buffer)
      ensures data.Bytes? ==>
        decoded == Binary.Produced(Binary.Scan(decoder.utf8, Binary.Joined(old(decoder.incompleteSequence), data.bytes), 0).result)
      ensures data.StringData? && !Binary.IsBase64(data.s) ==>
        decoded == Binary.Produced(Binary.Scan(decoder.utf8, Binary.Joined(old(decoder.incompleteSequence), Binary.BinaryBytes(data.s)), 0).result)
      ensures data.StringData? && Binary.IsBase64(data.s) && decoder.base64(data.s).None? ==> decoded == Binary.NullResult
      ensures data.StringData? && Binary.IsBase64(data.s) && decoder.base64(data.s).Some? ==>
        decoded == Binary.Produced(Binary.Scan(decoder.utf8, Binary.Joined(old(decoder.incompleteSequence), decoder.base64(data.s).value), 0).result)
      ensures data.OtherData? ==> decoded == Binary.Unsupported
      ensures pty == old(pty)
      ensures !decoded.Produced? ==>
        && state == old(state) && messages == old(messages) && currentResponse == old(currentResponse)
        && waiting == old(waiting) && screen == old(screen) && events == old(events)
      ensures decoded.Produced? ==>
        var text := decoded.result.text;
        && screen == old(screen) + [Process(text)]
        && (!old(waiting) ==>
              && state == old(state) && messages == old(messages) && currentResponse == old(currentResponse)
              && !waiting && events == old(events) + [RawData(data)])
        && (old(waiting) && !DetectPrompt(text) ==>
              && state == old(state) && messages == old(messages) && currentResponse == old(currentResponse) + text
              && waiting && events == old(events) + [Stream(text), RawData(data)])
        && (old(waiting) && DetectPrompt(text) ==>
              && state == Ready && messages == AfterResponse(old(messages), old(currentResponse) + text)
              && currentResponse == [] && !waiting
              && events == old(events) + ResponseEvents(old(currentResponse) + text) + [Stream(text), RawData(data)])
    {
      decoded := decoder.DecodeFromIpc(data);
      if decoded.Produced? {
        HandleText(data, decoded.result.text);
      }
    }

    /** The part of `handleRawData` after a truthy decoder result. */
    method HandleText(data: Binary.IpcData, text: string)
      requires Valid() && Created()
      modifies this
      ensures Valid() && created == old(created) && decoder == old(decoder) && inputEncoder == old(inputEncoder) && cols == old(cols) && rows == old(rows) && mode == old(mode) && platform == old(platform)
      ensures pty == old(pty) && screen == old(screen) + [Process(text)]
      ensures !old(waiting) ==>
        && state == old(state) && messages == old(messages) && currentResponse == old(currentResponse)
        && !waiting && events == old(events) + [RawData(data)]
      ensures old(waiting) && !DetectPrompt(text) ==>
        && state == old(state) && messages == old(messages) && currentResponse == old(currentResponse) + text
        && waiting && events == old(events) + [Stream(text), RawData(data)]
      ensures old(waiting) && DetectPrompt(text) ==>
        && state == Ready && messages == AfterResponse(old(messages), old(currentResponse) + text)
        && currentResponse == [] && !waiting
        && events == old(events) + ResponseEvents(old(currentResponse) + text) + [Stream(text), RawData(data)]
    {
      screen := screen + [Process(text)];
      if !waiting {
        events := events + [RawData(data)];
        return;
      }
      CollectReply(text);
      events := events + [Stream(text), RawData(data)];
    }

    /** The awaited reply grows by the chunk; a prompt in the chunk ends it. */
    method CollectReply(text: string)
      requires Valid() && Created() && waiting
      modifies this
      ensures Valid() && created == old(created) && decoder == old(decoder) && inputEncoder == old(inputEncoder) && cols == old(cols) && rows == old(rows) && mode == old(mode) && platform == old(platform)
      ensures pty == old(pty) && screen == old(screen)
      ensures !DetectPrompt(text) ==>
        && state == old(state) && messages == old(messages) && currentResponse == old(currentResponse) + text
        && waiting && events == old(events)
      ensures DetectPrompt(text) ==>
        && state == Ready && messages == AfterResponse(old(messages), old(currentResponse) + text)
        && currentResponse == [] && !waiting
        && events == old(events) + ResponseEvents(old(currentResponse) + text)
    {
      currentResponse := currentResponse + text;
      if DetectPrompt(text) {
        ProcessResponse();
      }
    }

    /** `processResponse`: the cleaned reply joins the history when non-empty; the service is READY again. */
    method ProcessResponse()
      requires Valid() && Created()
      modifies this
      ensures Valid()
      ensures messages == AfterResponse(old(messages), old(currentResponse))
      ensures events == old(events) + ResponseEvents(old(currentResponse))
      ensures currentResponse == [] && !waiting && state == Ready
      ensures cols == old(cols) && rows == old(rows) && mode == old(mode) && platform == old(platform) && created == old(created) && decoder == old(decoder) && inputEncoder == old(inputEncoder)
      ensures pty == old(pty) && screen == old(screen)
    {
      var reply: seq<Message> := [];
      var replyEvents: seq<ServiceEvent> := [];
      if Trim(currentResponse) != [] {
        var clean := CleanResponse(currentResponse);
        if clean != [] {
          reply, replyEvents := [Message(Assistant, clean)], [MessageEvent(Message(Assistant, clean))];
        }
      }
      messages, currentResponse, waiting, state := messages + reply, [], false, Ready;
      events := events + replyEvents + [StateChange(Ready)];
    }

    /** `handleExit`: TERMINATED, except that a reply pending in print mode is processed, which leaves READY. */
    method HandleExit(code: int)
      requires Valid()
      modifies this
      ensures Valid()
      ensures var pending := old(mode) == "print" && old(waiting);
        && state == (if pending then Ready else Terminated)
        && messages == (if pending then AfterResponse(old(messages), old(currentResponse)) else old(messages))
        && currentResponse == (if pending then [] else old(currentResponse))
        && waiting == (old(waiting) && !pending)
        && events == old(events) + [StateChange(Terminated), ExitEvent(code)]
                     + (if pending then ResponseEvents(old(currentResponse)) else [])
      ensures cols == old(cols) && rows == old(rows) && mode == old(mode) && platform == old(platform) && created == old(created) && decoder == old(decoder) && inputEncoder == old(inputEncoder)
      ensures pty == old(pty) && screen == old(screen)
    {
      state, events := Terminated, events + [StateChange(Terminated), ExitEvent(code)];
      if mode == "print" && waiting {
        ProcessResponse();
      }
    }

    /** `handleError`: always ERROR. */
    method HandleError(error: string)
      requires Valid()
      modifies this
      ensures Valid()
      ensures state == Error && events == old(events) + [StateChange(Error), ErrorEvent(error)]
      ensures messages == old(messages) && currentResponse == old(currentResponse) && waiting == old(waiting)
      ensures cols == old(cols) && rows == old(rows) && mode == old(mode) && platform == old(platform) && created == old(created) && decoder == old(decoder) && inputEncoder == old(inputEncoder)
      ensures pty == old(pty) && screen == old(screen)
    {
      state, events := Error, events + [StateChange(Error), ErrorEvent(error)];
    }

    /** `stop`: the program is killed if it was started; always TERMINATED. */
    method Stop()
      requires Valid()
      modifies this
      ensures Valid()
      ensures state == Terminated && events == old(events) + [StateChange(Terminated), Stopped]
      ensures pty == old(pty) + (if created then [Kill] else [])
      ensures messages == old(messages) && currentResponse == old(currentResponse) && waiting == old(waiting)
      ensures cols == old(cols) && rows == old(rows) && mode == old(mode) && platform == old(platform) && created == old(created) && decoder == old(decoder) && inputEncoder == old(inputEncoder) && screen == old(screen)
    {
      if created {
        pty := pty + [Kill];
      }
      state, events := Terminated, events + [StateChange(Terminated), Stopped];
    }

    /**
     * `sendKey`: the encoder's value for the key is written as it is (an
     * undefined arrow key included) while the program runs; `running` is the
     * PTY manager's answer to `isRunning`.
     */
    method SendKey(key: string, running: bool) returns (outcome: Outcome)
      requires Valid()
      modifies this
      ensures Valid()
      ensures !(Created() && running) ==> outcome == Rejected(NotRunningError) && unchanged(this)
      ensures Created() && running ==>
        && outcome == Resolved && pty == old(pty) + [WriteKey(inputEncoder.EncodeKey(key))]
        && state == old(state) && messages == old(messages) && currentResponse == old(currentResponse)
        && waiting == old(waiting) && screen == old(screen) && events == old(events)
        && cols == old(cols) && rows == old(rows) && mode == old(mode) && platform == old(platform)
        && created == old(created) && decoder == old(decoder) && inputEncoder == old(inputEncoder)
    {
      if !Created() || !running {
        return Rejected(NotRunningError);
      }
      var encoded := inputEncoder.Encode(Encoding.KeyRequest(key));
      pty := pty + [WriteKey(encoded)];
      outcome := Resolved;
    }

    /** `resize`: the new size is recorded and passed on to the components that exist. */
    method Resize(newCols: int, newRows: int)
      requires Valid()
      modifies this
      ensures Valid()
      ensures cols == newCols && rows == newRows && mode == old(mode) && platform == old(platform)
      ensures pty == old(pty) + (if created then [PtyResize(newCols, newRows)] else [])
      ensures screen == old(screen) + (if created then [ScreenResize(newCols, newRows)] else [])
      ensures events == old(events) + [ResizeEvent(newCols, newRows)]
      ensures state == old(state) && messages == old(messages) && currentResponse == old(currentResponse)
      ensures waiting == old(waiting) && created == old(created) && decoder == old(decoder) && inputEncoder == old(inputEncoder)
    {
      cols, rows := newCols, newRows;
      if created {
        pty, screen := pty + [PtyResize(newCols, newRows)], screen + [ScreenResize(newCols, newRows)];
      }
      events := events + [ResizeEvent(newCols, newRows)];
    }

    /** `clearBuffer`: the PTY's buffer and the screen are reset and the pending reply is dropped. */
    method ClearBuffer()
      requires Valid()
      modifies this
      ensures Valid()
      ensures pty == old(pty) + (if created then [ClearPtyBuffer] else [])
      ensures screen == old(screen) + (if created then [ScreenReset] else [])
      ensures currentResponse == []
      ensures state == old(state) && messages == old(messages) && waiting == old(waiting) && events == old(events)
      ensures cols == old(cols) && rows == old(rows) && mode == old(mode) && platform == old(platform) && created == old(created) && decoder == old(decoder) && inputEncoder == old(inputEncoder)
    {
      if created {
        pty, screen := pty + [ClearPtyBuffer], screen + [ScreenReset];
      }
      currentResponse := [];
    }
  }

  /** `ClaudePrintService`: the service it extends, always in print mode. */
  class ClaudePrintService {
    const service: ClaudeService

    constructor(cols: Option<int>, rows: Option<int>, platform: Option<string>, hostPlatform: string)
      ensures fresh(service) && service.Valid()
      ensures service.mode == "print" && service.state == Idle
      ensures service.cols == (if cols.Some? then cols.value else 120)
      ensures service.rows == (if rows.Some? then rows.value else 40)
      ensures service.platform == (if platform.Some? then platform.value else hostPlatform)
      ensures service.messages == [] && service.pty == [] && service.events == []
    {
      service := new ClaudeService(cols, rows, Some("print"), platform, hostPlatform);
    }

    /**
     * `sendMessage` as written: `initialize` first, so only a service that is
     * still IDLE gets as far as sending; the inherited send then fails on the
     * missing `encodeNewline`, so after the spawn nothing is written and the
     * call rejects with the service in ERROR.
     */
    method SendMessageAsWritten(message: string, utf8: Binary.Utf8, base64: Binary.Base64, spawnError: Option<string>)
      returns (outcome: Outcome)
      requires service.Valid()
      modifies service
      ensures service.Valid()
      ensures old(service.state) != Idle ==> outcome == Rejected(NotIdleError) && unchanged(service)
      ensures old(service.state) == Idle && spawnError.Some? ==>
        outcome == Rejected(spawnError.value) && service.state == Error && service.messages == old(service.messages)
      ensures old(service.state) == Idle ==>
        service.pty == old(service.pty) + [Spawn(ClaudeCommand(service.platform), ClaudeArgs(service.mode))]
      ensures old(service.state) == Idle && spawnError.None? ==>
        && outcome == Rejected(MissingNewlineError) && service.state == Error && service.waiting
        && service.messages == old(service.messages) + [Message(User, message)]
      ensures service.cols == old(service.cols) && service.rows == old(service.rows) && service.mode == old(service.mode)
      ensures service.platform == old(service.platform)
    {
      outcome := service.Initialize(utf8, base64, spawnError);
      if outcome.Rejected? {
        return;
      }
      outcome := service.SendMessageAsWritten(message);
    }

    /**
     * `sendMessage` with the corrected inherited send: `initialize` first,
     * then the message and its line ending are written; the wait for the
     * program's exit is not modelled.
     */
    method SendMessage(message: string, utf8: Binary.Utf8, base64: Binary.Base64, spawnError: Option<string>)
      returns (outcome: Outcome)
      requires service.Valid()
      modifies service
      ensures service.Valid()
      ensures old(service.state) != Idle ==> outcome == Rejected(NotIdleError) && unchanged(service)
      ensures old(service.state) == Idle && spawnError.Some? ==>
        outcome == Rejected(spawnError.value) && service.state == Error && service.messages == old(service.messages)
      ensures old(service.state) == Idle && spawnError.None? ==>
        && outcome == Resolved && service.state == Processing && service.waiting
        && service.messages == old(service.messages) + [Message(User, message)]
        && service.pty == old(service.pty) + [Spawn(ClaudeCommand(service.platform), ClaudeArgs(service.mode))]
                          + MessageWrites(service.inputEncoder.EncodeText(message), service.platform, service.mode)
      ensures service.state != Idle
      ensures service.cols == old(service.cols) && service.rows == old(service.rows) && service.mode == old(service.mode)
      ensures service.platform == old(service.platform)
    {
      outcome := service.Initialize(utf8, base64, spawnError);
      if outcome.Rejected? {
        return;
      }
      outcome := service.SendMessage(message);
    }
  }
}
