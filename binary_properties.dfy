/** What `BinaryDecoder` guarantees about the text it produces and the bytes it keeps. */
module BinaryProperties {
  import opened Js
  import opened Binary

  // ---------------------------------------------------------------------------
  // Splitting the input into chunks
  // ---------------------------------------------------------------------------

  /** The scan of non-empty bytes, one turn unfolded. */
  lemma ScanUnfold(utf8: Utf8, s: seq<byte>, at: int)
    requires s != []
    ensures var turn := First(utf8, s);
      && (turn.Cut? ==> Scan(utf8, s, at) == Scanned(NoOutput, Some(s)))
      && (!turn.Cut? ==> Scan(utf8, s, at) == Then(Output(turn, at), Scan(utf8, s[Used(turn)..], at + Used(turn))))
  {
  }

  /** The text a turn appends, wherever it sits. */
  function TurnText(turn: Turn): string {
    match turn
    case ControlByte(x) => [ByteChar(x)]
    case AsciiByte(x) => [ByteChar(x)]
    case Character(d, _) => d
    case _ => ""
  }

  /** What decoding `s` yields when positions are forgotten: its text and the bytes it keeps. */
  datatype Decoding = Decoding(text: string, kept: Option<seq<byte>>)

  function Decode(utf8: Utf8, s: seq<byte>): Decoding
    decreases |s|
  {
    if s == [] then Decoding("", None)
    else
      var turn := First(utf8, s);
      if turn.Cut? then Decoding("", Some(s))
      else
        var rest := Decode(utf8, s[Used(turn)..]);
        Decoding(TurnText(turn) + rest.text, rest.kept)
  }

  /** `Scan` yields the text and the kept bytes of `Decode`, wherever in the buffer the bytes sit. */
  lemma {:induction false} ScanDecodes(utf8: Utf8, s: seq<byte>, at: int)
    ensures Scan(utf8, s, at).result.text == Decode(utf8, s).text
    ensures Scan(utf8, s, at).incomplete == Decode(utf8, s).kept
    decreases |s|
  {
    if s != [] {
      if First(utf8, s).Cut? {
        ScanUnfold(utf8, s, at);
      } else {
        ScanDecodes(utf8, s[Used(First(utf8, s))..], at + Used(First(utf8, s)));
        ScanText(utf8, s, at);
        DecodeUnfold(utf8, s);
      }
    }
  }

  /** The text and the kept bytes of a scan whose first turn moves on: that turn's text, then the rest's. */
  lemma ScanText(utf8: Utf8, s: seq<byte>, at: int)
    requires s != [] && !First(utf8, s).Cut?
    ensures Scan(utf8, s, at).result.text
      == TurnText(First(utf8, s)) + Scan(utf8, s[Used(First(utf8, s))..], at + Used(First(utf8, s))).result.text
    ensures Scan(utf8, s, at).incomplete == Scan(utf8, s[Used(First(utf8, s))..], at + Used(First(utf8, s))).incomplete
  {
    ScanUnfold(utf8, s, at);
    assert Output(First(utf8, s), at).text == TurnText(First(utf8, s));
  }

  /** A turn that fits in `a` does the same when more bytes follow. */
  lemma FirstOfLonger(utf8: Utf8, a: seq<byte>, b: seq<byte>)
    requires a != [] && !First(utf8, a).Cut?
    ensures First(utf8, a + b) == First(utf8, a)
  {
    assert (a + b)[0] == a[0];
    var n := LeadLength(a[0]);
    if a[0] >= 0x80 && 0 < n <= |a| {
      assert (a + b)[..n] == a[..n];
    }
  }

  /** Decoding `a`, then `b` after what `a` kept. */
  function DecodeTwo(utf8: Utf8, a: seq<byte>, b: seq<byte>): Decoding {
    var first := Decode(utf8, a);
    var second := Decode(utf8, Joined(first.kept, b));
    Decoding(first.text + second.text, second.kept)
  }

  lemma {:induction false} DecodeSplit(utf8: Utf8, a: seq<byte>, b: seq<byte>)
    ensures Decode(utf8, a + b) == DecodeTwo(utf8, a, b)
    decreases |a|
  {
    if a == [] {
      assert a + b == b;
    } else if First(utf8, a).Cut? {
      assert Joined(Decode(utf8, a).kept, b) == a + b;
      assert "" + Decode(utf8, a + b).text == Decode(utf8, a + b).text;
    } else {
      FirstOfLonger(utf8, a, b);
      assert (a + b)[Used(First(utf8, a))..] == a[Used(First(utf8, a))..] + b;
      DecodeSplit(utf8, a[Used(First(utf8, a))..], b);
      DecodeUnfold(utf8, a);
      DecodeUnfold(utf8, a + b);
      DecodeTwoUnfold(utf8, a, b);
    }
  }

  /** Decoding bytes whose first turn moves on: that turn's text, then the rest's. */
  lemma DecodeUnfold(utf8: Utf8, s: seq<byte>)
    requires s != [] && !First(utf8, s).Cut?
    ensures Decode(utf8, s).text == TurnText(First(utf8, s)) + Decode(utf8, s[Used(First(utf8, s))..]).text
    ensures Decode(utf8, s).kept == Decode(utf8, s[Used(First(utf8, s))..]).kept
  {
  }

  /** Two-chunk decoding when the first chunk's first turn moves on. */
  lemma DecodeTwoUnfold(utf8: Utf8, a: seq<byte>, b: seq<byte>)
    requires a != [] && !First(utf8, a).Cut?
    ensures DecodeTwo(utf8, a, b).text == TurnText(First(utf8, a)) + DecodeTwo(utf8, a[Used(First(utf8, a))..], b).text
    ensures DecodeTwo(utf8, a, b).kept == DecodeTwo(utf8, a[Used(First(utf8, a))..], b).kept
  {
    DecodeUnfold(utf8, a);
    var t := TurnText(First(utf8, a));
    var rest := Decode(utf8, a[Used(First(utf8, a))..]);
    var second := Decode(utf8, Joined(rest.kept, b));
    assert (t + rest.text) + second.text == t + (rest.text + second.text);
  }

  /**
   * Decoding a buffer in two chunks gives the text of decoding it at once,
   * and keeps the same bytes at the end: the bytes kept from the first chunk
   * are exactly those the whole scan meets at that point.
   */
  lemma ChunkSplit(utf8: Utf8, a: seq<byte>, b: seq<byte>, at: int, at2: int)
    ensures var first := Scan(utf8, a, at);
      var second := Scan(utf8, Joined(first.incomplete, b), at2);
      && Scan(utf8, a + b, at).result.text == first.result.text + second.result.text
      && Scan(utf8, a + b, at).incomplete == second.incomplete
  {
    var first := Scan(utf8, a, at);
    ScanDecodes(utf8, a, at);
    ScanDecodes(utf8, a + b, at);
    ScanDecodes(utf8, Joined(first.incomplete, b), at2);
    DecodeSplit(utf8, a, b);
  }

  /** The same for a decoder: two `processBuffer` calls on a fresh decoder give the text of one. */
  lemma TwoChunks(utf8: Utf8, a: seq<byte>, b: seq<byte>)
    ensures var first := Scan(utf8, Joined(None, a), 0);
      var second := Scan(utf8, Joined(first.incomplete, b), 0);
      && first.result.text + second.result.text == Scan(utf8, a + b, 0).result.text
      && second.incomplete == Scan(utf8, a + b, 0).incomplete
  {
    ChunkSplit(utf8, a, b, 0, 0);
  }

  /**
   * The bytes kept for the next chunk start with a lead byte announcing more
   * bytes than are left: a non-empty suffix of the input of at most 3 bytes.
   */
  lemma {:induction false} KeptTail(utf8: Utf8, s: seq<byte>, at: int)
    ensures var kept := Scan(utf8, s, at).incomplete;
      kept.Some? ==>
        && 1 <= |kept.value| <= 3 && |kept.value| <= |s| && kept.value == s[|s| - |kept.value|..]
        && 0xC0 <= kept.value[0] < 0xF8
        && |kept.value| < LeadLength(kept.value[0])
  {
    ScanDecodes(utf8, s, at);
    DecodeKeepsTail(utf8, s);
  }

  lemma {:induction false} DecodeKeepsTail(utf8: Utf8, s: seq<byte>)
    ensures var kept := Decode(utf8, s).kept;
      kept.Some? ==>
        && 1 <= |kept.value| <= 3 && |kept.value| <= |s| && kept.value == s[|s| - |kept.value|..]
        && 0xC0 <= kept.value[0] < 0xF8
        && |kept.value| < LeadLength(kept.value[0])
    decreases |s|
  {
    if s != [] {
      var turn := First(utf8, s);
      if !turn.Cut? {
        var n := Used(turn);
        DecodeKeepsTail(utf8, s[n..]);
        var kept := Decode(utf8, s[n..]).kept;
        if kept.Some? {
          assert s[n..][|s[n..]| - |kept.value|..] == s[|s| - |kept.value|..];
        }
      }
    }
  }

  // ---------------------------------------------------------------------------
  // ASCII and control bytes
  // ---------------------------------------------------------------------------

  predicate Ascii(s: seq<byte>) {
    forall k :: 0 <= k < |s| ==> s[k] < 0x80
  }

  function AsciiText(s: seq<byte>): (t: string)
    requires Ascii(s)
    ensures |t| == |s|
  {
    seq(|s|, k requires 0 <= k < |s| => (s[k] as int) as char)
  }

  /** ASCII bytes become one character each, with nothing recorded as binary or as an error and nothing kept. */
  lemma {:induction false} AsciiScan(utf8: Utf8, s: seq<byte>, at: int)
    requires Ascii(s)
    ensures var r := Scan(utf8, s, at);
      r.result.text == AsciiText(s) && r.result.binary == [] && r.result.errors == [] && r.incomplete == None
    decreases |s|
  {
    if s != [] {
      AsciiStep(utf8, s, at);
      AsciiTail(s);
      AsciiScan(utf8, s[1..], at + 1);
    }
  }

  /** An ASCII first byte is one character of text and moves on by one byte. */
  lemma AsciiStep(utf8: Utf8, s: seq<byte>, at: int)
    requires s != [] && s[0] < 0x80
    ensures var r, rest := Scan(utf8, s, at), Scan(utf8, s[1..], at + 1);
      && r.result.text == [(s[0] as int) as char] + rest.result.text
      && r.result.binary == rest.result.binary && r.result.errors == rest.result.errors
      && r.incomplete == rest.incomplete
  {
    ScanUnfold(utf8, s, at);
  }

  lemma AsciiTail(s: seq<byte>)
    requires s != [] && Ascii(s)
    ensures Ascii(s[1..]) && AsciiText(s) == [(s[0] as int) as char] + AsciiText(s[1..])
  {
    assert Ascii(s[1..]) by {
      forall k | 0 <= k < |s[1..]| ensures s[1..][k] == s[k + 1] { }
    }
    assert AsciiText(s) == [(s[0] as int) as char] + AsciiText(s[1..]);
  }

  /** `e` records a control byte of `s`, whose first byte sits at position `at`. */
  predicate ControlAt(s: seq<byte>, at: int, e: ControlChar) {
    && at <= e.position < at + |s|
    && s[e.position - at] == e.value
    && IsControl(e.value)
    && e.ch as int == e.value as int
  }

  /** Every entry of `cs` records a control byte of `s` at its position. */
  predicate ControlsAt(s: seq<byte>, at: int, cs: seq<ControlChar>) {
    forall k :: 0 <= k < |cs| ==> ControlAt(s, at, cs[k])
  }

  /** The control entry a turn appends records the byte at its position. */
  lemma TurnControl(utf8: Utf8, s: seq<byte>, at: int)
    requires s != [] && !First(utf8, s).Cut?
    ensures ControlsAt(s, at, Output(First(utf8, s), at).control)
  {
  }

  /** Entries recorded for the bytes after the first `n` are recorded for the whole. */
  lemma ControlsShift(s: seq<byte>, at: int, n: int, here: seq<ControlChar>, rest: seq<ControlChar>)
    requires 0 <= n <= |s|
    requires ControlsAt(s, at, here) && ControlsAt(s[n..], at + n, rest)
    ensures ControlsAt(s, at, here + rest)
  {
    forall k | 0 <= k < |here + rest| ensures ControlAt(s, at, (here + rest)[k]) {
      if k >= |here| {
        var e := rest[k - |here|];
        assert (here + rest)[k] == e;
        assert ControlAt(s[n..], at + n, e);
        assert s[n..][e.position - (at + n)] == s[e.position - at];
      } else {
        assert (here + rest)[k] == here[k];
      }
    }
  }

  /** Every entry of `control` is a control byte of the input, found at its recorded position. */
  lemma {:induction false} ControlsRecorded(utf8: Utf8, s: seq<byte>, at: int)
    ensures ControlsAt(s, at, Scan(utf8, s, at).result.control)
    decreases |s|
  {
    if s != [] {
      if First(utf8, s).Cut? {
        ScanUnfold(utf8, s, at);
      } else {
        ControlsRecorded(utf8, s[Used(First(utf8, s))..], at + Used(First(utf8, s)));
        TurnControl(utf8, s, at);
        ScanControl(utf8, s, at);
        ControlsShift(s, at, Used(First(utf8, s)), Output(First(utf8, s), at).control,
          Scan(utf8, s[Used(First(utf8, s))..], at + Used(First(utf8, s))).result.control);
      }
    }
  }

  /** The control entries of a scan: the first turn's, then the rest's. */
  lemma ScanControl(utf8: Utf8, s: seq<byte>, at: int)
    requires s != [] && !First(utf8, s).Cut?
    ensures Scan(utf8, s, at).result.control
      == Output(First(utf8, s), at).control + Scan(utf8, s[Used(First(utf8, s))..], at + Used(First(utf8, s))).result.control
  {
    ScanUnfold(utf8, s, at);
  }

  /** `decodeString` on a decoder with nothing kept gives back an ASCII string unchanged. */
  lemma DecodeAsciiString(utf8: Utf8, s: string)
    requires forall k :: 0 <= k < |s| ==> s[k] as int < 0x80
    ensures Scan(utf8, Joined(None, BinaryBytes(s)), 0).result.text == s
    ensures Scan(utf8, Joined(None, BinaryBytes(s)), 0).incomplete == None
  {
    var bytes := BinaryBytes(s);
    AsciiBytes(s);
    assert Joined(None, bytes) == bytes;
    AsciiScan(utf8, bytes, 0);
  }

  /** The low bytes of an ASCII string are ASCII and read back as the string. */
  lemma AsciiBytes(s: string)
    requires forall k :: 0 <= k < |s| ==> s[k] as int < 0x80
    ensures Ascii(BinaryBytes(s)) && AsciiText(BinaryBytes(s)) == s
  {
    var bytes := BinaryBytes(s);
    assert Ascii(bytes);
    assert AsciiText(bytes) == s;
  }

  // ---------------------------------------------------------------------------
  // isBase64
  // ---------------------------------------------------------------------------

  /** `s` is `k` characters of the base64 alphabet followed by at most two `=`. */
  predicate SplitsAsBase64(s: string, k: int) {
    0 <= k <= |s| && (forall j :: 0 <= j < k ==> IsBase64Char(s[j])) && (s[k..] == "" || s[k..] == "=" || s[k..] == "==")
  }

  /** The left-to-right match accepts exactly the strings of the pattern's shape. */
  lemma {:induction false} MatchesBase64Iff(s: string)
    ensures MatchesBase64(s) <==> exists k :: SplitsAsBase64(s, k)
    decreases |s|
  {
    if s == [] {
      assert SplitsAsBase64(s, 0);
    } else if IsBase64Char(s[0]) {
      MatchesBase64Iff(s[1..]);
      if MatchesBase64(s) {
        var k :| SplitsAsBase64(s[1..], k);
        assert s[k + 1..] == s[1..][k..];
        assert SplitsAsBase64(s, k + 1);
      }
      if k :| SplitsAsBase64(s, k) {
        assert k >= 1 by {
          assert s[0] != '=';
          assert s[0..] == s;
        }
        assert s[1..][k - 1..] == s[k..];
        assert SplitsAsBase64(s[1..], k - 1);
      }
    } else {
      if MatchesBase64(s) {
        assert SplitsAsBase64(s, 0);
      }
      if k :| SplitsAsBase64(s, k) {
        assert k == 0;
      }
    }
  }

  /** The strings `decodeFromIPC` takes for base64, among them the empty string and plain words of four letters. */
  lemma Base64Examples()
    ensures IsBase64("") && IsBase64("abcd") && IsBase64("ab==") && IsBase64("abc=")
    ensures !IsBase64("abc") && !IsBase64("a=bc") && !IsBase64("a===")
  {
    assert MatchesBase64("=") && MatchesBase64("==");
    assert MatchesBase64("abcd") by {
      assert "abcd"[1..] == "bcd" && "bcd"[1..] == "cd" && "cd"[1..] == "d" && "d"[1..] == "";
    }
    assert MatchesBase64("ab==") by {
      assert "ab=="[1..] == "b==" && "b=="[1..] == "==";
    }
    assert MatchesBase64("abc=") by {
      assert "abc="[1..] == "bc=" && "bc="[1..] == "c=" && "c="[1..] == "=";
    }
    assert !MatchesBase64("a=bc") by {
      assert "a=bc"[1..] == "=bc";
    }
  }

  // ---------------------------------------------------------------------------
  // escapeForDisplay
  // ---------------------------------------------------------------------------

  lemma {:induction false} EscapeAppend(a: string, b: string)
    ensures EscapeForDisplay(a + b) == EscapeForDisplay(a) + EscapeForDisplay(b)
    decreases |a|
  {
    if a == [] {
      assert a + b == b;
    } else {
      assert (a + b)[0] == a[0] && (a + b)[1..] == a[1..] + b;
      EscapeAppend(a[1..], b);
    }
  }

  /** Each escape is a backslash and one letter, or `\x` and two hex digits. */
  lemma ControlEscapeShape(c: char)
    requires IsControlChar(c)
    ensures var e := ControlEscape(c);
      (|e| == 2 || |e| == 4) && e[0] == '\\' && forall k :: 0 <= k < |e| ==> !IsControlChar(e[k])
  {
  }

  /** The displayed text never contains a control character. */
  lemma {:induction false} EscapedHasNoControls(s: string)
    ensures forall k :: 0 <= k < |EscapeForDisplay(s)| ==> !IsControlChar(EscapeForDisplay(s)[k])
    decreases |s|
  {
    if s != [] {
      EscapedHasNoControls(s[1..]);
      if IsControlChar(s[0]) {
        ControlEscapeShape(s[0]);
      }
      var head := if IsControlChar(s[0]) then ControlEscape(s[0]) else [s[0]];
      var tail := EscapeForDisplay(s[1..]);
      forall k | 0 <= k < |head + tail| ensures !IsControlChar((head + tail)[k]) {
        if k >= |head| {
          assert (head + tail)[k] == tail[k - |head|];
        }
      }
    }
  }

  /** Text without control characters is displayed as it is. */
  lemma {:induction false} EscapeKeepsPlainText(s: string)
    requires forall k :: 0 <= k < |s| ==> !IsControlChar(s[k])
    ensures EscapeForDisplay(s) == s
    decreases |s|
  {
    if s != [] {
      EscapeKeepsPlainText(s[1..]);
    }
  }

  /** A newline and a backslash followed by `n` display alike, so the display cannot be read back. */
  lemma EscapeIsNotInjective()
    ensures EscapeForDisplay("\n") == EscapeForDisplay("\\n")
  {
    assert "\\n"[1..] == "n";
  }
}
