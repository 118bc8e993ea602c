/**
 * The receiving end of the terminal: `BinaryDecoder` turns chunks of bytes
 * into text, recording control bytes, bytes that start no UTF-8 sequence
 * and sequences that fail to decode, and keeping a UTF-8 sequence cut off at
 * the end of a chunk for the next one. `ElectronTTYReceiver` routes IPC
 * chunks to it.
 *
 * Node's `Buffer` conversions are not modelled: decoding one complete UTF-8
 * sequence and decoding base64 are functions the decoder is given.
 */
module Binary {
  import opened Js

  newtype byte = x: int | 0 <= x < 256

  /** `bytes.toString('utf8')` on one sequence; `None` when it throws. */
  type Utf8 = seq<byte> -> Option<string>

  /** `Buffer.from(s, 'base64')`; `None` when it throws. */
  type Base64 = string -> Option<seq<byte>>

  datatype ControlChar = ControlChar(position: int, value: byte, ch: char)

  /** An entry of `result.binary`: a byte that starts no sequence, or a sequence that failed to decode. */
  datatype BinaryEntry = BinaryByte(position: int, value: byte) | BinaryRun(position: int, bytes: seq<byte>)

  /** An entry of `result.errors`; the only kind is `invalid_utf8`. */
  datatype DecodeError = InvalidUtf8(position: int, bytes: seq<byte>)

  /** The object `processBuffer` returns. */
  datatype DecodeResult = DecodeResult(
    text: string,
    binary: seq<BinaryEntry>,
    control: seq<ControlChar>,
    errors: seq<DecodeError>)

  const NoOutput := DecodeResult("", [], [], [])

  function Combine(r: DecodeResult, s: DecodeResult): DecodeResult {
    DecodeResult(r.text + s.text, r.binary + s.binary, r.control + s.control, r.errors + s.errors)
  }

  /** A scan's result and the bytes kept as `incompleteSequence`, if any. */
  datatype Scanned = Scanned(result: DecodeResult, incomplete: Option<seq<byte>>)

  function Then(r: DecodeResult, s: Scanned): Scanned {
    Scanned(Combine(r, s.result), s.incomplete)
  }

  // ---------------------------------------------------------------------------
  // Bytes
  // ---------------------------------------------------------------------------

  predicate IsControl(x: byte) {
    x < 0x20 || x == 0x7F
  }

  /** `String.fromCharCode(byte)`: the character whose code is the byte. */
  function ByteChar(x: byte): char {
    (x as int) as char
  }

  /**
   * `getUTF8SequenceLength`: the length a lead byte announces, read off its high bits; 0 for none.
   * On a byte, `x & 0x80`, `x & 0xE0`, `x & 0xF0` and `x & 0xF8` clear its 7, 5, 4 and 3 lowest
   * bits, which is `x - x % 128`, `x - x % 32`, `x - x % 16` and `x - x % 8`.
   */
  function SequenceLength(first: byte): (n: nat)
    ensures n <= 4
  {
    var x := first as int;
    if x - x % 0x80 == 0 then 1
    else if x - x % 0x20 == 0xC0 then 2
    else if x - x % 0x10 == 0xE0 then 3
    else if x - x % 0x08 == 0xF0 then 4
    else 0
  }

  /** The lengths of `getUTF8SequenceLength` by byte range. */
  function LeadLength(x: byte): (n: nat)
    ensures n <= 4
  {
    if x < 0x80 then 1
    else if 0xC0 <= x < 0xE0 then 2
    else if 0xE0 <= x < 0xF0 then 3
    else if 0xF0 <= x < 0xF8 then 4
    else 0
  }

  /** The bit tests of `getUTF8SequenceLength` select exactly these byte ranges. */
  lemma SequenceLengthByRange(x: byte)
    ensures SequenceLength(x) == LeadLength(x)
  {
  }


  /** `if (decoded)`: an empty string counts as a failure too. */
  predicate Truthy(d: Option<string>) {
    d.Some? && d.value != ""
  }

  /** What one turn of the loop meets at the front of the bytes left. */
  datatype Turn =
    | ControlByte(value: byte)
    | AsciiByte(value: byte)
    | Character(text: string, size: nat)
    | BadSequence(bytes: seq<byte>)
    | NoLead(value: byte)
    | Cut

  /** The bytes a turn that does not stop consumes. */
  function Used(turn: Turn): nat {
    if turn.Character? then turn.size else 1
  }

  /** What a turn at position `at` appends to the result. */
  function Output(turn: Turn, at: int): DecodeResult {
    match turn
    case ControlByte(x) => DecodeResult([ByteChar(x)], [], [ControlChar(at, x, ByteChar(x))], [])
    case AsciiByte(x) => DecodeResult([ByteChar(x)], [], [], [])
    case Character(d, _) => DecodeResult(d, [], [], [])
    case BadSequence(bytes) => DecodeResult("", [BinaryRun(at, bytes)], [], [InvalidUtf8(at, bytes)])
    case NoLead(x) => DecodeResult("", [BinaryByte(at, x)], [], [])
    case Cut => NoOutput
  }

  /** The branches of one turn of `processBuffer`'s loop, on the bytes `s` left. */
  function First(utf8: Utf8, s: seq<byte>): (turn: Turn)
    requires s != []
    ensures !turn.Cut? ==> 1 <= Used(turn) <= |s|
  {
    var x := s[0];
    if IsControl(x) then ControlByte(x)
    else if x < 0x80 then AsciiByte(x)
    else
      var n := LeadLength(x);
      if n > 0 then
        if n <= |s| then
          var d := utf8(s[..n]);
          if Truthy(d) then Character(d.value, n) else BadSequence(s[..n])
        else Cut
      else NoLead(x)
  }

  /**
   * The `while` loop of `processBuffer` over the bytes `s`, the first of
   * which sits at position `at` of the buffer.
   */
  function Scan(utf8: Utf8, s: seq<byte>, at: int): (r: Scanned)
    ensures r.incomplete.Some? ==> var k := r.incomplete.value; k != [] && |k| <= |s| && k == s[|s| - |k|..]
    decreases |s|
  {
    if s == [] then Scanned(NoOutput, None)
    else
      var turn := First(utf8, s);
      if turn.Cut? then Scanned(NoOutput, Some(s))
      else Then(Output(turn, at), Scan(utf8, s[Used(turn)..], at + Used(turn)))
  }

  /** The scan from index `i` of `bytes`, one turn unfolded. */
  lemma ScanAt(utf8: Utf8, bytes: seq<byte>, i: int)
    requires 0 <= i < |bytes|
    ensures var turn := First(utf8, bytes[i..]);
      && (turn.Cut? ==> Scan(utf8, bytes[i..], i) == Scanned(NoOutput, Some(bytes[i..])))
      && (!turn.Cut? ==> Scan(utf8, bytes[i..], i) == Then(Output(turn, i), Scan(utf8, bytes[i + Used(turn)..], i + Used(turn))))
  {
    var turn := First(utf8, bytes[i..]);
    if !turn.Cut? {
      assert bytes[i..][Used(turn)..] == bytes[i + Used(turn)..];
    }
  }

  /**
   * The `while` loop of `processBuffer` from index `i` of the whole buffer, as
   * the loop itself walks it.
   */
  function ScanFrom(utf8: Utf8, bytes: seq<byte>, i: nat): Scanned
    decreases |bytes| - i
  {
    if i >= |bytes| then Scanned(NoOutput, None)
    else
      var turn := First(utf8, bytes[i..]);
      if turn.Cut? then Scanned(NoOutput, Some(bytes[i..]))
      else Then(Output(turn, i), ScanFrom(utf8, bytes, i + Used(turn)))
  }

  /** Walking the buffer by index is scanning what is left of it. */
  lemma {:induction false} ScanFromIsScan(utf8: Utf8, bytes: seq<byte>, i: nat)
    requires i <= |bytes|
    ensures ScanFrom(utf8, bytes, i) == Scan(utf8, bytes[i..], i)
    decreases |bytes| - i
  {
    if i == |bytes| {
      assert bytes[i..] == [];
    } else {
      ScanAt(utf8, bytes, i);
      if !First(utf8, bytes[i..]).Cut? {
        ScanFromIsScan(utf8, bytes, i + Used(First(utf8, bytes[i..])));
      }
    }
  }

  /** The index walk from the start is the scan of the whole buffer. */
  lemma ScanFromStart(utf8: Utf8, bytes: seq<byte>)
    ensures ScanFrom(utf8, bytes, 0) == Scan(utf8, bytes, 0)
  {
    ScanFromIsScan(utf8, bytes, 0);
    assert bytes[0..] == bytes;
  }

  lemma CombineNothing(r: DecodeResult)
    ensures Combine(r, NoOutput) == r && Combine(NoOutput, r) == r
  {
  }

  lemma ThenNothing(r: DecodeResult, kept: Option<seq<byte>>)
    ensures Then(r, Scanned(NoOutput, kept)) == Scanned(r, kept)
  {
    CombineNothing(r);
  }

  lemma ThenAssociative(r: DecodeResult, p: DecodeResult, s: Scanned)
    ensures Then(Combine(r, p), s) == Then(r, Then(p, s))
  {
  }

  /** `Buffer.concat([incompleteSequence, buffer])` when there is a kept sequence. */
  function Joined(kept: Option<seq<byte>>, data: seq<byte>): seq<byte> {
    if kept.Some? then kept.value + data else data
  }

  /** `Buffer.from(str, 'binary')`: each character's code unit, low byte only. */
  function BinaryBytes(s: string): (r: seq<byte>)
    ensures |r| == |s|
  {
    seq(|s|, k requires 0 <= k < |s| => ((s[k] as int) % 256) as byte)
  }

  // ---------------------------------------------------------------------------
  // isBase64
  // ---------------------------------------------------------------------------

  predicate IsBase64Char(c: char) {
    'A' <= c <= 'Z' || 'a' <= c <= 'z' || '0' <= c <= '9' || c == '+' || c == '/'
  }

  /** `/^[A-Za-z0-9+/]*={0,2}$/`, matched from the left. */
  predicate MatchesBase64(s: string) {
    if s == [] then true
    else if IsBase64Char(s[0]) then MatchesBase64(s[1..])
    else s == "=" || s == "=="
  }

  /** `isBase64`. */
  predicate IsBase64(s: string)
    ensures IsBase64(s) ==> |s| % 4 == 0 && forall k :: 0 <= k < |s| ==> IsBase64Char(s[k]) || (k >= |s| - 2 && s[k] == '=')
  {
    if MatchesBase64(s) then MatchesBase64Chars(s); |s| % 4 == 0 else false
  }

  /** What the pattern lets through: alphabet characters, then at most two `=`. */
  lemma {:induction false} MatchesBase64Chars(s: string)
    requires MatchesBase64(s)
    ensures forall k :: 0 <= k < |s| ==> IsBase64Char(s[k]) || (k >= |s| - 2 && s[k] == '=')
    decreases |s|
  {
    if s != [] && IsBase64Char(s[0]) {
      MatchesBase64Chars(s[1..]);
      assert forall k :: 1 <= k < |s| ==> s[k] == s[1..][k - 1];
    }
  }

  // ---------------------------------------------------------------------------
  // escapeForDisplay
  // ---------------------------------------------------------------------------

  predicate IsControlChar(c: char) {
    c as int < 0x20 || c as int == 0x7F
  }

  function HexDigit(d: int): char
    requires 0 <= d < 16
  {
    if d < 10 then ('0' as int + d) as char else ('a' as int + d - 10) as char
  }

  /** `escapeMap[char] || '\\x' + hex`, for a control character. */
  function ControlEscape(c: char): string
    requires IsControlChar(c)
  {
    var n := c as int;
    if n == 0x00 then "\\0"
    else if n == 0x07 then "\\a"
    else if n == 0x08 then "\\b"
    else if n == 0x09 then "\\t"
    else if n == 0x0A then "\\n"
    else if n == 0x0B then "\\v"
    else if n == 0x0C then "\\f"
    else if n == 0x0D then "\\r"
    else if n == 0x1B then "\\e"
    else if n == 0x7F then "\\x7F"
    else "\\x" + [HexDigit(n / 16), HexDigit(n % 16)]
  }

  /** `escapeForDisplay`: every control character replaced by its escape, the rest kept. */
  function EscapeForDisplay(s: string): string {
    if s == [] then ""
    else (if IsControlChar(s[0]) then ControlEscape(s[0]) else [s[0]]) + EscapeForDisplay(s[1..])
  }

  // ---------------------------------------------------------------------------
  // The classes
  // ---------------------------------------------------------------------------

  /** What `decodeFromIPC` can be given: a `Uint8Array` (a Node `Buffer` is one), a string, or anything else. */
  datatype IpcData = Bytes(bytes: seq<byte>) | StringData(s: string) | OtherData

  /** The value a decoding call returns, or the error it throws. */
  datatype Outcome = Produced(result: DecodeResult) | NullResult | UndefinedResult | Unsupported

  /** Events emitted: `decoded` with its result, `error` for a failed base64 decode. */
  datatype DecoderEvent = Decoded(result: DecodeResult) | Base64Error

  /** What one `decodeFromIPC` call returns, the bytes it keeps afterwards and the events it emits. */
  datatype IpcStep = IpcStep(outcome: Outcome, kept: Option<seq<byte>>, events: seq<DecoderEvent>)

  /** The `decodeFromIPC` dispatch on the kept bytes `kept`, stated as a value. */
  function FromIpc(utf8: Utf8, base64: Base64, kept: Option<seq<byte>>, data: IpcData): (r: IpcStep)
    ensures r.outcome.Produced? ==> r.events == [Decoded(r.outcome.result)]
    ensures !r.outcome.Produced? ==> r.kept == kept
    ensures r.outcome == Unsupported <==> data.OtherData?
  {
    match data
    case Bytes(bytes) =>
      var s := Scan(utf8, Joined(kept, bytes), 0);
      IpcStep(Produced(s.result), s.incomplete, [Decoded(s.result)])
    case StringData(str) =>
      if IsBase64(str) && base64(str).None? then IpcStep(NullResult, kept, [Base64Error])
      else
        var bytes := if IsBase64(str) then base64(str).value else BinaryBytes(str);
        var s := Scan(utf8, Joined(kept, bytes), 0);
        IpcStep(Produced(s.result), s.incomplete, [Decoded(s.result)])
    case OtherData => IpcStep(Unsupported, kept, [])
  }

  class BinaryDecoder {
    const utf8: Utf8
    const base64: Base64
    var mode: string
    var bufferSize: int
    var incompleteSequence: Option<seq<byte>>
    var buffer: seq<byte>
    var emitted: seq<DecoderEvent>

    /** `options.mode || 'utf8'` and `options.bufferSize || 65536`. */
    constructor(utf8: Utf8, base64: Base64, mode: Option<string>, bufferSize: Option<JsNum>)
      ensures this.utf8 == utf8 && this.base64 == base64
      ensures this.mode == (if mode.Some? && mode.value != "" then mode.value else "utf8")
      ensures this.bufferSize == OrDefault(bufferSize, 65536)
      ensures incompleteSequence == None && buffer == [] && emitted == []
    {
      this.utf8 := utf8;
      this.base64 := base64;
      this.mode := if mode.Some? && mode.value != "" then mode.value else "utf8";
      this.bufferSize := OrDefault(bufferSize, 65536);
      incompleteSequence := None;
      buffer := [];
      emitted := [];
    }

    /** `processBuffer`: the buffer scanned after any kept sequence, the new cut-off sequence kept. */
    method ProcessBuffer(data: seq<byte>) returns (result: DecodeResult)
      modifies this
      ensures var s := Scan(utf8, Joined(old(incompleteSequence), data), 0);
        result == s.result && incompleteSequence == s.incomplete
      ensures emitted == old(emitted) + [Decoded(result)]
      ensures mode == old(mode) && bufferSize == old(bufferSize) && buffer == old(buffer)
    {
      var bytes := data;
      if incompleteSequence.Some? {
        bytes := incompleteSequence.value + bytes;
        incompleteSequence := None;
      }
      var kept;
      result, kept := ScanAll(bytes);
      incompleteSequence := kept;
      emitted := emitted + [Decoded(result)];
    }

    /** The `while` loop of `processBuffer`: the result and the bytes it keeps. */
    method ScanAll(bytes: seq<byte>) returns (result: DecodeResult, kept: Option<seq<byte>>)
      ensures Scanned(result, kept) == Scan(utf8, bytes, 0)
    {
      result, kept := NoOutput, None;
      var i := 0;
      ScanFromStart(utf8, bytes);
      ghost var total := ScanFrom(utf8, bytes, 0);
      CombineNothing(NoOutput);
      while i < |bytes|
        invariant 0 <= i <= |bytes|
        invariant Then(result, ScanFrom(utf8, bytes, i)) == total
      {
        var piece, next, cut := ScanByte(bytes, i);
        if cut {
          ThenNothing(result, Some(bytes[i..]));
          kept := Some(bytes[i..]);
          return;
        }
        ThenAssociative(result, piece, ScanFrom(utf8, bytes, next));
        result := Combine(result, piece);
        i := next;
      }
      ThenNothing(result, None);
    }

    /**
     * One turn of `processBuffer`'s loop at index `i`: what it appends to the
     * result and where it goes on, or that it stops to keep the rest.
     */
    method ScanByte(bytes: seq<byte>, i: int) returns (piece: DecodeResult, next: int, cut: bool)
      requires 0 <= i < |bytes|
      ensures !cut ==> i < next <= |bytes|
      ensures cut ==> ScanFrom(utf8, bytes, i) == Scanned(NoOutput, Some(bytes[i..]))
      ensures !cut ==> ScanFrom(utf8, bytes, i) == Then(piece, ScanFrom(utf8, bytes, next))
    {
      var x := bytes[i];
      piece, next, cut := NoOutput, i + 1, false;
      if IsControl(x) {
        var c := ByteChar(x);
        piece := piece.(text := [c], control := [ControlChar(i, x, c)]);
      } else if x < 0x80 {
        piece := piece.(text := [ByteChar(x)]);
      } else {
        var n := SequenceLength(x);
        SequenceLengthByRange(x);
        if n > 0 {
          if i + n <= |bytes| {
            var sequence := bytes[i..i + n];
            assert bytes[i..][..n] == sequence;
            var decoded := utf8(sequence);
            if Truthy(decoded) {
              piece := piece.(text := decoded.value);
              next := i + n;
            } else {
              piece := piece.(binary := [BinaryRun(i, sequence)], errors := [InvalidUtf8(i, sequence)]);
            }
          } else {
            cut := true;
          }
        } else {
          piece := piece.(binary := [BinaryByte(i, x)]);
        }
      }
    }

    /** `decodeUint8Array` and `decodeBuffer`. */
    method DecodeBytes(data: seq<byte>) returns (result: DecodeResult)
      modifies this
      ensures var s := Scan(utf8, Joined(old(incompleteSequence), data), 0);
        result == s.result && incompleteSequence == s.incomplete
      ensures emitted == old(emitted) + [Decoded(result)]
      ensures mode == old(mode) && bufferSize == old(bufferSize) && buffer == old(buffer)
    {
      result := ProcessBuffer(data);
    }

    /** `decodeString`: each character's low byte, scanned. */
    method DecodeString(s: string) returns (result: DecodeResult)
      modifies this
      ensures var r := Scan(utf8, Joined(old(incompleteSequence), BinaryBytes(s)), 0);
        result == r.result && incompleteSequence == r.incomplete
      ensures emitted == old(emitted) + [Decoded(result)]
      ensures mode == old(mode) && bufferSize == old(bufferSize) && buffer == old(buffer)
    {
      result := ProcessBuffer(BinaryBytes(s));
    }

    /** `decodeBase64`: a failed decode emits `error` and returns `null`, leaving the kept sequence. */
    method DecodeBase64(s: string) returns (outcome: Outcome)
      modifies this
      ensures base64(s).None? ==>
        outcome == NullResult && incompleteSequence == old(incompleteSequence) && emitted == old(emitted) + [Base64Error]
      ensures base64(s).Some? ==>
        var r := Scan(utf8, Joined(old(incompleteSequence), base64(s).value), 0);
        outcome == Produced(r.result) && incompleteSequence == r.incomplete && emitted == old(emitted) + [Decoded(r.result)]
      ensures mode == old(mode) && bufferSize == old(bufferSize) && buffer == old(buffer)
    {
      var bytes := base64(s);
      if bytes.None? {
        emitted := emitted + [Base64Error];
        return NullResult;
      }
      var result := ProcessBuffer(bytes.value);
      outcome := Produced(result);
    }

    /** `decodeFromIPC`: bytes first, then base64-looking strings, then other strings; anything else throws. */
    method DecodeFromIpc(data: IpcData) returns (outcome: Outcome)
      modifies this
      ensures data.OtherData? ==> outcome == Unsupported && incompleteSequence == old(incompleteSequence) && emitted == old(emitted)
      ensures data.Bytes? ==>
        var r := Scan(utf8, Joined(old(incompleteSequence), data.bytes), 0);
        outcome == Produced(r.result) && incompleteSequence == r.incomplete && emitted == old(emitted) + [Decoded(r.result)]
      ensures data.StringData? && !IsBase64(data.s) ==>
        var r := Scan(utf8, Joined(old(incompleteSequence), BinaryBytes(data.s)), 0);
        outcome == Produced(r.result) && incompleteSequence == r.incomplete && emitted == old(emitted) + [Decoded(r.result)]
      ensures data.StringData? && IsBase64(data.s) && base64(data.s).None? ==>
        outcome == NullResult && incompleteSequence == old(incompleteSequence) && emitted == old(emitted) + [Base64Error]
      ensures data.StringData? && IsBase64(data.s) && base64(data.s).Some? ==>
        var r := Scan(utf8, Joined(old(incompleteSequence), base64(data.s).value), 0);
        outcome == Produced(r.result) && incompleteSequence == r.incomplete && emitted == old(emitted) + [Decoded(r.result)]
      ensures var st := FromIpc(utf8, base64, old(incompleteSequence), data);
        outcome == st.outcome && incompleteSequence == st.kept && emitted == old(emitted) + st.events
      ensures mode == old(mode) && bufferSize == old(bufferSize) && buffer == old(buffer)
    {
      match data {
        case Bytes(bytes) =>
          var result := DecodeBytes(bytes);
          outcome := Produced(result);
        case StringData(s) =>
          if IsBase64(s) {
            outcome := DecodeBase64(s);
          } else {
            var result := DecodeString(s);
            outcome := Produced(result);
          }
        case OtherData =>
          outcome := Unsupported;
      }
    }

    /** `reset`: the kept sequence and the buffer are dropped. */
    method Reset()
      modifies this
      ensures incompleteSequence == None && buffer == []
      ensures mode == old(mode) && bufferSize == old(bufferSize) && emitted == old(emitted)
    {
      incompleteSequence := None;
      buffer := [];
    }
  }

  /** The chunks `ElectronTTYReceiver.receiveChunk` is sent, by their `type`. */
  datatype Chunk = BinaryChunk(data: seq<byte>) | TextChunk(text: string) | Base64Chunk(encoded: string) | OtherChunk(kind: string)

  class ElectronTTYReceiver {
    const decoder: BinaryDecoder
    var chunks: seq<Chunk>

    constructor(utf8: Utf8, base64: Base64)
      ensures fresh(decoder) && decoder.utf8 == utf8 && decoder.base64 == base64
      ensures decoder.incompleteSequence == None && decoder.mode == "utf8" && decoder.bufferSize == 65536
      ensures decoder.buffer == [] && decoder.emitted == []
      ensures chunks == []
    {
      decoder := new BinaryDecoder(utf8, base64, None, None);
      chunks := [];
    }

    /** `receiveChunk`: each type goes to its decoder; any other type gives `undefined`. */
    method ReceiveChunk(chunk: Chunk) returns (outcome: Outcome)
      modifies decoder
      ensures chunk.OtherChunk? ==>
        outcome == UndefinedResult && decoder.incompleteSequence == old(decoder.incompleteSequence) && decoder.emitted == old(decoder.emitted)
      ensures chunk.BinaryChunk? ==>
        var r := Scan(decoder.utf8, Joined(old(decoder.incompleteSequence), chunk.data), 0);
        outcome == Produced(r.result) && decoder.incompleteSequence == r.incomplete
        && decoder.emitted == old(decoder.emitted) + [Decoded(r.result)]
      ensures chunk.TextChunk? ==>
        var r := Scan(decoder.utf8, Joined(old(decoder.incompleteSequence), BinaryBytes(chunk.text)), 0);
        outcome == Produced(r.result) && decoder.incompleteSequence == r.incomplete
        && decoder.emitted == old(decoder.emitted) + [Decoded(r.result)]
      ensures chunk.Base64Chunk? && decoder.base64(chunk.encoded).None? ==>
        outcome == NullResult && decoder.incompleteSequence == old(decoder.incompleteSequence)
        && decoder.emitted == old(decoder.emitted) + [Base64Error]
      ensures chunk.Base64Chunk? && decoder.base64(chunk.encoded).Some? ==>
        var r := Scan(decoder.utf8, Joined(old(decoder.incompleteSequence), decoder.base64(chunk.encoded).value), 0);
        outcome == Produced(r.result) && decoder.incompleteSequence == r.incomplete
        && decoder.emitted == old(decoder.emitted) + [Decoded(r.result)]
      ensures decoder.mode == old(decoder.mode) && decoder.bufferSize == old(decoder.bufferSize) && decoder.buffer == old(decoder.buffer)
      ensures chunks == old(chunks)
    {
      match chunk {
        case BinaryChunk(data) =>
          var result := decoder.DecodeBytes(data);
          outcome := Produced(result);
        case TextChunk(text) =>
          var result := decoder.DecodeString(text);
          outcome := Produced(result);
        case Base64Chunk(encoded) =>
          outcome := decoder.DecodeBase64(encoded);
        case OtherChunk(_) =>
          outcome := UndefinedResult;
      }
    }

    /** `end`: the decoder is reset and the chunk list emptied. */
    method End()
      modifies this, decoder
      ensures decoder.incompleteSequence == None && decoder.buffer == [] && chunks == []
      ensures decoder.mode == old(decoder.mode) && decoder.bufferSize == old(decoder.bufferSize)
      ensures decoder.emitted == old(decoder.emitted)
    {
      decoder.Reset();
      chunks := [];
    }
  }
}
