/**
 * The sending end of the terminal: keys, text, pastes and mouse events
 * turned into the bytes a terminal program reads. `InputEncoder` holds the
 * modes the program has asked for (application cursor keys, mouse
 * tracking, bracketed paste) and the platform, which decides the newline.
 */
module Encoding {
  import opened Js

  const Esc: char := '\U{1B}'

  /** `KEY_CODES`. */
  const KeyCodes: map<string, string> := map[
    "NULL" := "\U{0}", "SOH" := "\U{1}", "STX" := "\U{2}", "ETX" := "\U{3}",
    "EOT" := "\U{4}", "ENQ" := "\U{5}", "ACK" := "\U{6}", "BEL" := "\U{7}",
    "BS" := "\U{8}", "TAB" := "\U{9}", "LF" := "\U{A}", "VT" := "\U{B}",
    "FF" := "\U{C}", "CR" := "\U{D}", "SO" := "\U{E}", "SI" := "\U{F}",
    "DLE" := "\U{10}", "DC1" := "\U{11}", "DC2" := "\U{12}", "DC3" := "\U{13}",
    "DC4" := "\U{14}", "NAK" := "\U{15}", "SYN" := "\U{16}", "ETB" := "\U{17}",
    "CAN" := "\U{18}", "EM" := "\U{19}", "SUB" := "\U{1A}", "ESC" := "\U{1B}",
    "FS" := "\U{1C}", "GS" := "\U{1D}", "RS" := "\U{1E}", "US" := "\U{1F}",
    "DEL" := "\U{7F}"]

  /** `ARROW_KEYS`, with the application-mode forms under `APP_`. */
  const ArrowKeys: map<string, string> := map[
    "UP" := "\U{1B}[A", "DOWN" := "\U{1B}[B", "RIGHT" := "\U{1B}[C", "LEFT" := "\U{1B}[D",
    "APP_UP" := "\U{1B}OA", "APP_DOWN" := "\U{1B}OB", "APP_RIGHT" := "\U{1B}OC", "APP_LEFT" := "\U{1B}OD"]

  /** `FUNCTION_KEYS`. */
  const FunctionKeys: map<string, string> := map[
    "F1" := "\U{1B}OP", "F2" := "\U{1B}OQ", "F3" := "\U{1B}OR", "F4" := "\U{1B}OS",
    "F5" := "\U{1B}[15~", "F6" := "\U{1B}[17~", "F7" := "\U{1B}[18~", "F8" := "\U{1B}[19~",
    "F9" := "\U{1B}[20~", "F10" := "\U{1B}[21~", "F11" := "\U{1B}[23~", "F12" := "\U{1B}[24~"]

  /** `EDIT_KEYS`. */
  const EditKeys: map<string, string> := map[
    "INSERT" := "\U{1B}[2~", "DELETE" := "\U{1B}[3~", "HOME" := "\U{1B}[1~", "END" := "\U{1B}[4~",
    "PAGE_UP" := "\U{1B}[5~", "PAGE_DOWN" := "\U{1B}[6~", "ALT_HOME" := "\U{1B}[H", "ALT_END" := "\U{1B}[F"]

  /**
   * `encodeKey` finds the key, consulting the tables in its order, in a table
   * whose entry it sends as it is (in application mode the arrow table is
   * looked up under `APP_` instead).
   */
  predicate FoundInTable(key: string, applicationMode: bool) {
    || key in KeyCodes
    || (key in ArrowKeys && !applicationMode)
    || (key !in ArrowKeys && (key in FunctionKeys || key in EditKeys))
  }

  /** `table[key]`: the entry, or `undefined`. */
  function Lookup(table: map<string, string>, key: string): JsString {
    if key in table then Str(table[key]) else Undefined
  }

  predicate StartsWith(s: string, prefix: string) {
    |prefix| <= |s| && s[..|prefix|] == prefix
  }

  // ---------------------------------------------------------------------------
  // withModifiers
  // ---------------------------------------------------------------------------

  /** `1 + shift + 2 alt + 4 ctrl`, the xterm modifier parameter. */
  function Modifier(shift: bool, alt: bool, ctrl: bool): int {
    1 + (if shift then 1 else 0) + (if alt then 2 else 0) + (if ctrl then 4 else 0)
  }

  predicate IsFinalLetter(c: char) {
    'A' <= c <= 'Z' || 'a' <= c <= 'z' || c == '~'
  }

  /** The index of the first match of `/[A-Za-z~]/`, if any. */
  function FirstLetter(s: string): (r: Option<nat>)
    ensures r.Some? ==> r.value < |s| && IsFinalLetter(s[r.value]) && forall j :: 0 <= j < r.value ==> !IsFinalLetter(s[j])
    ensures r.None? ==> forall j :: 0 <= j < |s| ==> !IsFinalLetter(s[j])
  {
    if s == [] then None
    else if IsFinalLetter(s[0]) then Some(0)
    else
      var r := FirstLetter(s[1..]);
      if r.Some? then Some(r.value + 1) else None
  }

  /**
   * `withModifiers`: a CSI key sequence gets the modifier inserted before
   * its first letter or `~`; what follows that letter is dropped, and a
   * sequence with no letter ends in the text `undefined`.
   */
  function WithModifiers(base: string, shift: bool, alt: bool, ctrl: bool): (r: string)
    ensures Modifier(shift, alt, ctrl) == 1 || !StartsWith(base, [Esc, '[']) ==> r == base
    ensures StartsWith(base, [Esc, '[']) ==> StartsWith(r, [Esc, '['])
  {
    var modifier := Modifier(shift, alt, ctrl);
    if modifier == 1 then base
    else if StartsWith(base, [Esc, '[']) then
      var rest := base[2..];
      var letter := FirstLetter(rest);
      var prefix := if letter.Some? then rest[..letter.value] else rest;
      [Esc, '['] + prefix + IntToString(modifier) + (if letter.Some? then [rest[letter.value]] else "undefined")
    else base
  }

  // ---------------------------------------------------------------------------
  // Text, paste, control keys
  // ---------------------------------------------------------------------------

  /** `encodeNewline(platform)`. */
  function Newline(platform: string): string {
    if platform == "win32" then "\r\n" else "\n"
  }

  /** `encodePaste`: the text between the bracketed-paste markers. */
  function BracketedPaste(text: string): string {
    "\U{1B}[200~" + text + "\U{1B}[201~"
  }

  /** `toUpperCase` on ASCII letters; other characters are left alone. */
  function UpperAscii(c: char): char {
    if 'a' <= c <= 'z' then (c as int - 32) as char else c
  }

  /** `encodeCtrl`: the first character, upper-cased, with 64 taken off its code when in `@`..`_`; else `null`. */
  function EncodeCtrl(s: string): (r: JsString)
    ensures r.Str? || r.Null?
    ensures r.Str? ==> s != [] && |r.s| == 1 && r.s[0] as int + 64 == UpperAscii(s[0]) as int && IsSpecialSequence(r.s)
  {
    if s == [] then Null
    else
      var code := UpperAscii(s[0]) as int;
      if 64 <= code <= 95 then Str([FromCharCode(code - 64)]) else Null
  }

  /** `encodeAlt`: ESC, then the text. */
  function EncodeAlt(s: string): (r: string)
    ensures |r| == |s| + 1 && IsSpecialSequence(r) && r[1..] == s
  {
    [Esc] + s
  }

  /** `isSpecialSequence`. */
  predicate IsSpecialSequence(input: string) {
    |input| > 0 && (input[0] == Esc || input[0] as int < 32 || input[0] as int == 127)
  }

  // ---------------------------------------------------------------------------
  // Mouse
  // ---------------------------------------------------------------------------

  function Clamp(v: int, lo: int, hi: int): int {
    if v < lo then lo else if v > hi then hi else v
  }

  /** `encodeMouse`, the X10 form: three bytes offset by 32, coordinates 1-based and clamped to 1..223. */
  function EncodeX10Mouse(button: int, x: int, y: int, pressed: bool): (r: string)
    ensures |r| == 6 && r[..3] == "\U{1B}[M" && IsSpecialSequence(r)
  {
    var code := if pressed then button else button + 3;
    var cx := Clamp(x + 1, 1, 223);
    var cy := Clamp(y + 1, 1, 223);
    "\U{1B}[M" + [FromCharCode(32 + code), FromCharCode(32 + cx), FromCharCode(32 + cy)]
  }

  /** `encodeSGRMouse`: `ESC[<b;x;y` with 1-based coordinates, then `M` when pressed and `m` when released. */
  function EncodeSgrMouse(button: int, x: int, y: int, pressed: bool): (r: string)
    ensures |r| > 3 && r[..3] == "\U{1B}[<" && r[|r| - 1] == (if pressed then 'M' else 'm')
  {
    "\U{1B}[<" + IntToString(button) + ";" + IntToString(x + 1) + ";" + IntToString(y + 1) + (if pressed then "M" else "m")
  }

  /** A mouse event; a missing `pressed` counts as pressed, a missing `sgr` as false. */
  datatype MouseEvent = MouseEvent(button: int, x: int, y: int, pressed: Option<bool>, sgr: Option<bool>)

  /** The argument of `encode` with its `type`; any other type is returned unchanged. */
  datatype Request = TextRequest(text: string) | KeyRequest(key: string) | PasteRequest(paste: string)
                   | MouseRequest(event: MouseEvent) | OtherRequest(kind: string, input: string)

  class InputEncoder {
    var platform: string
    var applicationMode: bool
    var mouseTracking: bool
    var bracketedPaste: bool

    /** `options.platform || os.platform()`; the host platform is a parameter. */
    constructor(platform: Option<string>, hostPlatform: string, applicationMode: bool, mouseTracking: bool, bracketedPaste: bool)
      ensures this.platform == (if platform.Some? && platform.value != "" then platform.value else hostPlatform)
      ensures this.applicationMode == applicationMode && this.mouseTracking == mouseTracking
      ensures this.bracketedPaste == bracketedPaste
    {
      this.platform := if platform.Some? && platform.value != "" then platform.value else hostPlatform;
      this.applicationMode := applicationMode;
      this.mouseTracking := mouseTracking;
      this.bracketedPaste := bracketedPaste;
    }

    /** `encodeText`: every `\n` replaced by the platform's newline. */
    function EncodeText(text: string): (r: string)
      reads this
      ensures '\n' !in text ==> r == text
      ensures platform == "win32" && '\r' !in text ==> Without(r, '\r') == text
    {
      NewlinesReplaced(text, platform);
      ReplaceAll(text, '\n', Newline(platform))
    }

    /** `encodeKey`: the tables in order, then `Ctrl+` and `Alt+`; any other key is sent as it is. */
    function EncodeKey(key: string): (r: JsString)
      reads this
      ensures FoundInTable(key, applicationMode) ==> r.Str? && IsSpecialSequence(r.s)
    {
      TablesAreSpecial(key);
      if key in KeyCodes then Str(KeyCodes[key])
      else if key in ArrowKeys then (if applicationMode then Lookup(ArrowKeys, "APP_" + key) else Str(ArrowKeys[key]))
      else if key in FunctionKeys then Str(FunctionKeys[key])
      else if key in EditKeys then Str(EditKeys[key])
      else if StartsWith(key, "Ctrl+") then EncodeCtrl(key[5..])
      else if StartsWith(key, "Alt+") then Str(EncodeAlt(key[4..]))
      else Str(key)
    }

    /** `encodePaste`: bracketed when the program asked for it, plain text otherwise. */
    function EncodePaste(text: string): (r: string)
      reads this
      ensures bracketedPaste ==> |r| == |text| + 12 && r[..6] == "\U{1B}[200~" && r[6..|r| - 6] == text && r[|r| - 6..] == "\U{1B}[201~"
      ensures !bracketedPaste && '\n' !in text ==> r == text
    {
      if bracketedPaste then BracketedPaste(text) else EncodeText(text)
    }

    /** `encodeMouse`: nothing unless mouse tracking is on. */
    function EncodeMouse(event: MouseEvent): (r: string)
      reads this
      ensures !mouseTracking <==> r == ""
      ensures mouseTracking ==> IsSpecialSequence(r)
    {
      if !mouseTracking then ""
      else
        var pressed := event.pressed != Some(false);
        if event.sgr == Some(true) then EncodeSgrMouse(event.button, event.x, event.y, pressed)
        else EncodeX10Mouse(event.button, event.x, event.y, pressed)
    }

    /** `encode`: dispatch on the request's type. */
    function Encode(request: Request): (r: JsString)
      reads this
      ensures !request.KeyRequest? ==> r.Str?
      ensures request.OtherRequest? ==> r == Str(request.input)
      ensures request.MouseRequest? ==> (r == Str("") <==> !mouseTracking)
    {
      match request
      case TextRequest(text) => Str(EncodeText(text))
      case KeyRequest(key) => EncodeKey(key)
      case PasteRequest(text) => Str(EncodePaste(text))
      case MouseRequest(event) => Str(EncodeMouse(event))
      case OtherRequest(_, input) => Str(input)
    }

    method SetApplicationMode(enabled: bool)
      modifies this
      ensures applicationMode == enabled
      ensures platform == old(platform) && mouseTracking == old(mouseTracking) && bracketedPaste == old(bracketedPaste)
    {
      applicationMode := enabled;
    }

    method SetMouseTracking(enabled: bool)
      modifies this
      ensures mouseTracking == enabled
      ensures platform == old(platform) && applicationMode == old(applicationMode) && bracketedPaste == old(bracketedPaste)
    {
      mouseTracking := enabled;
    }

    method SetBracketedPaste(enabled: bool)
      modifies this
      ensures bracketedPaste == enabled
      ensures platform == old(platform) && applicationMode == old(applicationMode) && mouseTracking == old(mouseTracking)
    {
      bracketedPaste := enabled;
    }
  }

  // ---------------------------------------------------------------------------
  // Properties
  // ---------------------------------------------------------------------------

  /** The modifier parameter spells out the three flags in its bits, so it names the combination. */
  lemma ModifierBits(shift: bool, alt: bool, ctrl: bool)
    ensures var m := Modifier(shift, alt, ctrl) - 1;
      && 0 <= m < 8
      && shift == (m % 2 == 1) && alt == ((m / 2) % 2 == 1) && ctrl == (m / 4 == 1)
  {
  }

  /**
   * With a modifier, a CSI key of the form `ESC[` prefix letter gets the
   * modifier between prefix and letter: `ESC[A` with shift becomes `ESC[2A`.
   */
  lemma ModifiedCsiKey(prefix: string, letter: char, shift: bool, alt: bool, ctrl: bool)
    requires forall j :: 0 <= j < |prefix| ==> !IsFinalLetter(prefix[j])
    requires IsFinalLetter(letter)
    requires Modifier(shift, alt, ctrl) != 1
    ensures WithModifiers([Esc, '['] + prefix + [letter], shift, alt, ctrl)
            == [Esc, '['] + prefix + IntToString(Modifier(shift, alt, ctrl)) + [letter]
  {
    var base := [Esc, '['] + prefix + [letter];
    assert base[..2] == [Esc, '['];
    assert base[2..] == prefix + [letter];
    FirstLetterAfter(prefix, letter);
    assert (prefix + [letter])[..|prefix|] == prefix;
  }

  lemma {:induction false} FirstLetterAfter(prefix: string, letter: char)
    requires forall j :: 0 <= j < |prefix| ==> !IsFinalLetter(prefix[j])
    requires IsFinalLetter(letter)
    ensures FirstLetter(prefix + [letter]) == Some(|prefix|)
    decreases |prefix|
  {
    if prefix == [] {
      assert [] + [letter] == [letter];
    } else {
      assert (prefix + [letter])[1..] == prefix[1..] + [letter];
      FirstLetterAfter(prefix[1..], letter);
    }
  }

  /** Without a modifier, or for a key that is not a CSI sequence, the key is unchanged. */
  lemma UnmodifiedKey(base: string, shift: bool, alt: bool, ctrl: bool)
    requires Modifier(shift, alt, ctrl) == 1 || !StartsWith(base, [Esc, '['])
    ensures WithModifiers(base, shift, alt, ctrl) == base
  {
  }

  /** A CSI base with no letter gets the text `undefined` in place of one. */
  lemma ModifiedKeyWithoutLetter()
    ensures WithModifiers("\U{1B}[12", true, false, false) == "\U{1B}[122undefined"
  {
    var rest := "\U{1B}[12"[2..];
    assert rest == "12";
    assert FirstLetter("2") == None;
    assert FirstLetter(rest) == None;
    assert IntToString(2) == "2" by {
      assert NatToString(2) == [DigitChar(2)];
    }
  }

  /** `"".replace` without the replaced character in the text is the identity. */
  lemma {:induction false} ReplaceAbsent(s: string, c: char, r: string)
    requires c !in s
    ensures ReplaceAll(s, c, r) == s
    decreases |s|
  {
    if s != [] {
      ReplaceAbsent(s[1..], c, r);
    }
  }

  lemma {:induction false} ReplaceBySelf(s: string, c: char)
    ensures ReplaceAll(s, c, [c]) == s
    decreases |s|
  {
    if s != [] {
      ReplaceBySelf(s[1..], c);
    }
  }

  /** What replacing the newlines with the platform's line ending does to text without them, and on Windows. */
  lemma NewlinesReplaced(text: string, platform: string)
    ensures '\n' !in text ==> ReplaceAll(text, '\n', Newline(platform)) == text
    ensures platform == "win32" && '\r' !in text ==> Without(ReplaceAll(text, '\n', Newline(platform)), '\r') == text
  {
    if '\n' !in text {
      ReplaceAbsent(text, '\n', Newline(platform));
    }
    if platform == "win32" && '\r' !in text {
      WindowsNewlinesRoundTrip(text);
    }
  }

  /** Off Windows `encodeText` sends the text unchanged. */
  lemma EncodeTextOffWindows(e: InputEncoder, text: string)
    requires e.platform != "win32"
    ensures e.EncodeText(text) == text
  {
    ReplaceBySelf(text, '\n');
  }

  /** `s` with every `c` removed. */
  function Without(s: string, c: char): (r: string)
    ensures c !in r
  {
    if s == [] then "" else (if s[0] == c then "" else [s[0]]) + Without(s[1..], c)
  }

  /** On Windows each `\n` becomes `\r\n`: removing the `\r`s gives back a text that had none. */
  lemma WindowsNewlinesRoundTrip(text: string)
    requires '\r' !in text
    ensures Without(ReplaceAll(text, '\n', "\r\n"), '\r') == text
    ensures '\n' in text ==> '\r' in ReplaceAll(text, '\n', "\r\n")
  {
    CarriageReturnsRemoved(text);
    NewlineGivesCarriageReturn(text);
  }

  lemma {:induction false} CarriageReturnsRemoved(text: string)
    requires '\r' !in text
    ensures Without(ReplaceAll(text, '\n', "\r\n"), '\r') == text
    decreases |text|
  {
    if text != [] {
      var head := if text[0] == '\n' then "\r\n" else [text[0]];
      var rest := ReplaceAll(text[1..], '\n', "\r\n");
      assert ReplaceAll(text, '\n', "\r\n") == head + rest;
      CarriageReturnsRemoved(text[1..]);
      WithoutAppend(head, rest, '\r');
      HeadWithout(text[0], head);
      assert text == [text[0]] + text[1..];
    }
  }

  lemma HeadWithout(c: char, head: string)
    requires c != '\r' && head == if c == '\n' then "\r\n" else [c]
    ensures Without(head, '\r') == [c]
  {
    if c == '\n' {
      assert Without(head, '\r') == "" + Without("\n", '\r');
      assert Without("\n", '\r') == "\n" + Without("", '\r');
    } else {
      assert Without(head, '\r') == [c] + Without("", '\r');
    }
  }

  lemma {:induction false} NewlineGivesCarriageReturn(text: string)
    ensures '\n' in text ==> '\r' in ReplaceAll(text, '\n', "\r\n")
    decreases |text|
  {
    if '\n' in text {
      var head := if text[0] == '\n' then "\r\n" else [text[0]];
      var rest := ReplaceAll(text[1..], '\n', "\r\n");
      assert ReplaceAll(text, '\n', "\r\n") == head + rest;
      if text[0] == '\n' {
        assert (head + rest)[0] == '\r';
      } else {
        assert '\n' in text[1..] by { assert text == [text[0]] + text[1..]; }
        NewlineGivesCarriageReturn(text[1..]);
        var j :| 0 <= j < |rest| && rest[j] == '\r';
        assert (head + rest)[|head| + j] == '\r';
      }
    }
  }

  lemma {:induction false} WithoutAppend(a: string, b: string, c: char)
    ensures Without(a + b, c) == Without(a, c) + Without(b, c)
    decreases |a|
  {
    if a == [] {
      assert a + b == b;
    } else {
      assert (a + b)[0] == a[0] && (a + b)[1..] == a[1..] + b;
      WithoutAppend(a[1..], b, c);
    }
  }

  /** The pasted text sits between the markers, and the whole is an escape sequence. */
  lemma BracketedPasteFraming(text: string)
    ensures var p := BracketedPaste(text);
      |p| == |text| + 12 && p[6..|p| - 6] == text && IsSpecialSequence(p)
  {
  }

  /** `Ctrl+` maps `@`, the letters of either case and `[ \ ] ^ _` onto the control codes 0 to 31, and adding 64 undoes it. */
  lemma CtrlKeys(c: char)
    ensures EncodeCtrl([c]).Str? <==> (64 <= c as int <= 95 || 'a' <= c <= 'z')
    ensures EncodeCtrl([c]).Str? ==>
      && |EncodeCtrl([c]).s| == 1
      && EncodeCtrl([c]).s[0] as int + 64 == UpperAscii(c) as int
      && IsSpecialSequence(EncodeCtrl([c]).s)
  {
  }

  /** A letter and its capital give the same control code. */
  lemma CtrlIgnoresCase(c: char)
    requires 'a' <= c <= 'z'
    ensures EncodeCtrl([c]) == EncodeCtrl([(c as int - 32) as char])
  {
  }

  /** Every key of the tables is sent as an escape sequence or a control character. */
  lemma KeyCodesAreSpecial(key: string)
    requires key in KeyCodes
    ensures IsSpecialSequence(KeyCodes[key])
  {
    assert KeyCodes[key] in {"\U{0}", "\U{1}", "\U{2}", "\U{3}", "\U{4}", "\U{5}", "\U{6}", "\U{7}", "\U{8}", "\U{9}", "\U{A}", "\U{B}", "\U{C}", "\U{D}", "\U{E}", "\U{F}", "\U{10}", "\U{11}", "\U{12}", "\U{13}", "\U{14}", "\U{15}", "\U{16}", "\U{17}", "\U{18}", "\U{19}", "\U{1A}", "\U{1B}", "\U{1C}", "\U{1D}", "\U{1E}", "\U{1F}", "\U{7F}"};
  }

  /** Every entry of the four tables is a special sequence. */
  lemma TablesAreSpecial(key: string)
    ensures key in KeyCodes ==> IsSpecialSequence(KeyCodes[key])
    ensures key in ArrowKeys ==> IsSpecialSequence(ArrowKeys[key])
    ensures key in FunctionKeys ==> IsSpecialSequence(FunctionKeys[key])
    ensures key in EditKeys ==> IsSpecialSequence(EditKeys[key])
  {
    if key in KeyCodes {
      KeyCodesAreSpecial(key);
    }
    if key in ArrowKeys {
      ArrowKeysAreSpecial(key);
    }
    if key in FunctionKeys {
      FunctionKeysAreSpecial(key);
    }
    if key in EditKeys {
      EditKeysAreSpecial(key);
    }
  }

  lemma ArrowKeysAreSpecial(key: string)
    requires key in ArrowKeys
    ensures IsSpecialSequence(ArrowKeys[key])
  {
  }

  lemma FunctionKeysAreSpecial(key: string)
    requires key in FunctionKeys
    ensures IsSpecialSequence(FunctionKeys[key])
  {
  }

  lemma EditKeysAreSpecial(key: string)
    requires key in EditKeys
    ensures IsSpecialSequence(EditKeys[key])
  {
  }

  /** No direction is also the name of a control code. */
  lemma DirectionsAreNotKeyCodes(key: string)
    requires key in {"UP", "DOWN", "RIGHT", "LEFT"}
    ensures key !in KeyCodes
  {
  }

  /** The arrows: `ESC[` in normal mode and `ESC O` in application mode, then the direction's letter. */
  lemma ArrowKeyModes(e: InputEncoder, key: string, letter: char)
    requires (key, letter) in {("UP", 'A'), ("DOWN", 'B'), ("RIGHT", 'C'), ("LEFT", 'D')}
    ensures e.EncodeKey(key) == Str([Esc, if e.applicationMode then 'O' else '[', letter])
  {
    DirectionsAreNotKeyCodes(key);
    if key == "UP" {
      assert "APP_" + key == "APP_UP";
    } else if key == "DOWN" {
      assert "APP_" + key == "APP_DOWN";
    } else if key == "RIGHT" {
      assert "APP_" + key == "APP_RIGHT";
    } else {
      assert "APP_" + key == "APP_LEFT";
    }
  }

  /** Looking up `APP_UP` itself in application mode reaches for `APP_APP_UP`, which is no key. */
  lemma ApplicationArrowNameIsUndefined(e: InputEncoder)
    requires e.applicationMode
    ensures e.EncodeKey("APP_UP") == Undefined
  {
    assert "APP_UP" !in KeyCodes;
    assert "APP_APP_UP" !in ArrowKeys;
  }

  /** A key in no table and with neither prefix is sent as it is. */
  lemma PlainKey(e: InputEncoder, key: string)
    requires key !in KeyCodes && key !in ArrowKeys && key !in FunctionKeys && key !in EditKeys
    requires !StartsWith(key, "Ctrl+") && !StartsWith(key, "Alt+")
    ensures e.EncodeKey(key) == Str(key)
  {
  }

  /** Table names are upper case, so a key whose second character is a lower-case letter is in no table. */
  lemma NotInTables(key: string)
    requires |key| >= 2 && 'a' <= key[1] <= 'z'
    ensures key !in KeyCodes && key !in ArrowKeys && key !in FunctionKeys && key !in EditKeys
  {
    NotInKeyCodes(key);
    NotInArrowKeys(key);
    NotInFunctionKeys(key);
    NotInEditKeys(key);
  }

  lemma NotInKeyCodes(key: string)
    requires |key| >= 2 && 'a' <= key[1] <= 'z'
    ensures key !in KeyCodes
  {
  }

  lemma NotInArrowKeys(key: string)
    requires |key| >= 2 && 'a' <= key[1] <= 'z'
    ensures key !in ArrowKeys
  {
  }

  lemma NotInFunctionKeys(key: string)
    requires |key| >= 2 && 'a' <= key[1] <= 'z'
    ensures key !in FunctionKeys
  {
  }

  lemma NotInEditKeys(key: string)
    requires |key| >= 2 && 'a' <= key[1] <= 'z'
    ensures key !in EditKeys
  {
  }

  /** `Ctrl+` then any text is the control code of that text's first character. */
  lemma CtrlPrefixedKey(e: InputEncoder, s: string)
    ensures e.EncodeKey("Ctrl+" + s) == EncodeCtrl(s)
  {
    var key := "Ctrl+" + s;
    assert key[1] == 't';
    NotInTables(key);
    assert key[..5] == "Ctrl+" && key[5..] == s;
  }

  /** `Alt+` then any text is ESC followed by that text, so dropping the ESC gives the text back. */
  lemma AltPrefixedKey(e: InputEncoder, s: string)
    ensures e.EncodeKey("Alt+" + s) == Str([Esc] + s)
    ensures |e.EncodeKey("Alt+" + s).s| == |s| + 1 && e.EncodeKey("Alt+" + s).s[1..] == s
  {
    var key := "Alt+" + s;
    assert key[1] == 'l';
    NotInTables(key);
    assert !StartsWith(key, "Ctrl+") by {
      if |key| >= 5 {
        assert key[..5][0] == 'A';
      }
    }
    assert key[..4] == "Alt+" && key[4..] == s;
  }

  /** `encode` by request type: text and pastes are encoded, keys looked up, mice gated by tracking, other types passed through. */
  lemma EncodeRequests(e: InputEncoder, k: string, s: string, event: MouseEvent)
    ensures e.Encode(OtherRequest(k, s)) == Str(s)
    ensures e.Encode(KeyRequest(s)) == e.EncodeKey(s)
    ensures e.Encode(PasteRequest(s)) == Str(if e.bracketedPaste then "\U{1B}[200~" + s + "\U{1B}[201~" else e.EncodeText(s))
    ensures e.platform != "win32" ==> e.Encode(TextRequest(s)) == Str(s) && (!e.bracketedPaste ==> e.Encode(PasteRequest(s)) == Str(s))
    ensures !e.mouseTracking ==> e.Encode(MouseRequest(event)) == Str("")
    ensures e.mouseTracking ==> e.Encode(MouseRequest(event)).Str? && IsSpecialSequence(e.Encode(MouseRequest(event)).s)
  {
    PasteModes(e, s);
    MouseNeedsTracking(e, event);
    if e.platform != "win32" {
      EncodeTextOffWindows(e, s);
    }
  }

  /** The X10 coordinate a byte carries, 0-based. */
  function X10Coordinate(c: char): int {
    c as int - 33
  }

  /**
   * The X10 form is five characters after `ESC[M`'s first two; its coordinates
   * decode back to the clamped position, so exactly for 0..222.
   */
  lemma X10MouseDecodes(button: int, x: int, y: int, pressed: bool)
    ensures var m := EncodeX10Mouse(button, x, y, pressed);
      && |m| == 6 && m[..3] == "\U{1B}[M"
      && X10Coordinate(m[4]) == Clamp(x, 0, 222) && X10Coordinate(m[5]) == Clamp(y, 0, 222)
      && (0 <= button && button + 3 < 0xD800 - 32 ==> m[3] as int - 32 == (if pressed then button else button + 3))
  {
  }

  /** The SGR form parses back, between its separators, to the button and the 1-based coordinates. */
  lemma SgrMouseDecodes(button: int, x: int, y: int, pressed: bool)
    ensures var m := EncodeSgrMouse(button, x, y, pressed);
      && m[..3] == "\U{1B}[<" && m[|m| - 1] == (if pressed then 'M' else 'm')
      && Split(m[3..|m| - 1], ';') == [IntToString(button), IntToString(x + 1), IntToString(y + 1)]
  {
    var m := EncodeSgrMouse(button, x, y, pressed);
    var b, xs, ys := IntToString(button), IntToString(x + 1), IntToString(y + 1);
    var body := b + ";" + xs + ";" + ys;
    assert m == "\U{1B}[<" + body + (if pressed then "M" else "m");
    assert m[3..|m| - 1] == body;
    NumberHasNoSemicolon(button);
    NumberHasNoSemicolon(x + 1);
    NumberHasNoSemicolon(y + 1);
    SplitThree(b, xs, ys);
  }

  /** Each field of the SGR report reads back as the number written. */
  lemma SgrFieldsParse(button: int, x: int, y: int)
    ensures ParseInt(IntToString(button)) == Num(button)
    ensures ParseInt(IntToString(x + 1)) == Num(x + 1) && ParseInt(IntToString(y + 1)) == Num(y + 1)
  {
    ParseIntOfIntToString(button);
    ParseIntOfIntToString(x + 1);
    ParseIntOfIntToString(y + 1);
  }

  lemma NumberHasNoSemicolon(n: int)
    ensures ';' !in IntToString(n)
  {
  }

  /** Three pieces without `;`, joined by it, split back into the three. */
  lemma SplitThree(a: string, b: string, c: string)
    requires ';' !in a && ';' !in b && ';' !in c
    ensures Split(a + ";" + b + ";" + c, ';') == [a, b, c]
  {
    assert a + ";" + b + ";" + c == a + [';'] + (b + [';'] + c);
    SplitAfterPiece(a, ';', b + [';'] + c);
    SplitAfterPiece(b, ';', c);
    SplitWithoutSeparator(c, ';');
  }

  /** Mouse events are dropped unless the program turned mouse tracking on. */
  lemma MouseNeedsTracking(e: InputEncoder, event: MouseEvent)
    ensures !e.mouseTracking ==> e.EncodeMouse(event) == ""
    ensures e.mouseTracking ==> IsSpecialSequence(e.EncodeMouse(event))
  {
  }

  /** A paste is bracketed exactly when the mode is on. */
  lemma PasteModes(e: InputEncoder, text: string)
    ensures e.bracketedPaste ==> e.EncodePaste(text) == BracketedPaste(text)
    ensures !e.bracketedPaste ==> e.EncodePaste(text) == e.EncodeText(text)
  {
  }
}
