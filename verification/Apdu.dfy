/** Command APDUs: the Rust parser, and the Python builder and parser. */
module Apdu {
  import opened Wrappers
  import opened ByteStrings

  datatype Apdu = Apdu(cla: Byte, ins: Byte, p1: Byte, p2: Byte, data: Bytes, le: Option<nat>)

  datatype ApduError = TooShort(got: nat) | InvalidLength | InvalidExtendedFormat

  datatype Response = Response(data: Bytes, sw1: Byte, sw2: Byte)

  function Chained(cmd: Apdu): bool { Bit10(cmd.cla) }

  // ---------------------------------------------------------------- the Rust parser

  /** A command with the header of `raw`. */
  function WithHeader(raw: Bytes, data: Bytes, le: Option<nat>): Apdu
    requires |raw| >= 4
  {
    Apdu(raw[0], raw[1], raw[2], raw[3], data, le)
  }

  /** A one-byte Le: zero stands for 256. */
  function ShortLe(b: Byte): nat { if b == 0 then 256 else b }

  /** A two-byte Le: zero stands for 65536. */
  function ExtendedLe(hi: Byte, lo: Byte): nat { if ReadU16(hi, lo) == 0 then 65536 else ReadU16(hi, lo) }

  function ParseApdu(raw: Bytes): Result<Apdu, ApduError> {
    if |raw| < 4 then Err(TooShort(|raw|))
    else if |raw| == 4 then Ok(WithHeader(raw, [], None))
    else
      var remaining := raw[4..];
      if remaining[0] == 0x00 && |remaining| > 2 then
        var ext := remaining[1..];
        var lc := ReadU16(ext[0], ext[1]);
        if |ext| == 2 || |ext| == 2 + lc || |ext| == 2 + lc + 2 then ParseExtended(raw, ext)
        else if ParseShort(raw, ext).Ok? then ParseShort(raw, ext)
        else ParseShort(raw, remaining)
      else ParseShort(raw, remaining)
  }

  function ParseShort(raw: Bytes, remaining: Bytes): Result<Apdu, ApduError>
    requires |raw| >= 4
  {
    if remaining == [] then Ok(WithHeader(raw, [], None))
    else if |remaining| == 1 then Ok(WithHeader(raw, [], Some(ShortLe(remaining[0]))))
    else
      var lc: nat := remaining[0];
      if |remaining| == 1 + lc then Ok(WithHeader(raw, remaining[1..1 + lc], None))
      else if |remaining| == 1 + lc + 1 then
        Ok(WithHeader(raw, remaining[1..1 + lc], Some(ShortLe(remaining[1 + lc]))))
      else Err(InvalidLength)
  }

  function ParseExtended(raw: Bytes, remaining: Bytes): Result<Apdu, ApduError>
    requires |raw| >= 4
  {
    if |remaining| < 2 then Err(InvalidExtendedFormat)
    else if |remaining| == 2 then Ok(WithHeader(raw, [], Some(ExtendedLe(remaining[0], remaining[1]))))
    else
      var lc := ReadU16(remaining[0], remaining[1]);
      if |remaining| < 2 + lc then Err(InvalidLength)
      else if |remaining| == 2 + lc then Ok(WithHeader(raw, remaining[2..2 + lc], None))
      else if |remaining| == 2 + lc + 2 then
        Ok(WithHeader(raw, remaining[2..2 + lc], Some(ExtendedLe(remaining[2 + lc], remaining[2 + lc + 1]))))
      else Err(InvalidExtendedFormat)
  }

  /** A short body: nothing, an Le, or an Lc with that many bytes and perhaps an Le; a zero Le is 256. */
  predicate IsShort(body: Bytes, data: Bytes, le: Option<nat>) {
    || (body == [] && data == [] && le == None)
    || (|body| == 1 && data == [] && le == Some(if body[0] == 0 then 256 else body[0]))
    || (|body| >= 2 && |data| < 256 && body == [|data|] + data && le == None)
    || (|body| >= 2 && |data| < 256 && le.Some? && 1 <= le.value <= 256 && body == [|data|] + data + [le.value % 256])
  }

  lemma ShortReads(raw: Bytes, body: Bytes, data: Bytes, le: Option<nat>)
    requires |raw| >= 4
    ensures ParseShort(raw, body) == Ok(WithHeader(raw, data, le)) <==> IsShort(body, data, le)
  {
    if |body| >= 2 {
      var lc: nat := body[0];
      if |body| == 1 + lc { assert body == [lc] + body[1..1 + lc]; }
      if |body| == 2 + lc { assert body == [lc] + body[1..1 + lc] + [body[1 + lc]]; }
      if |data| < 256 && body == [|data|] + data { assert body[1..1 + lc] == data; }
      if |data| < 256 && le.Some? && 1 <= le.value <= 256 && body == [|data|] + data + [le.value % 256] {
        assert body[1..1 + lc] == data && body[1 + lc] == le.value % 256;
      }
    }
  }

  /** The lengths fit the extended format, after its leading zero. */
  predicate ExtendedShape(ext: Bytes) {
    |ext| == 2 || (|ext| >= 2 && (|ext| == 2 + ReadU16(ext[0], ext[1]) || |ext| == 4 + ReadU16(ext[0], ext[1])))
  }

  /** A zero before a short body is dropped, if the extended format does not fit; without it, or if
      that is no short body either, the whole is taken as a short body. */
  lemma ZeroBeforeShort(raw: Bytes, data: Bytes, le: Option<nat>)
    requires |raw| >= 5 && !(raw[4] == 0x00 && |raw| > 6 && ExtendedShape(raw[5..]))
    ensures var zero := raw[4] == 0x00 && |raw| > 6 && ParseShort(raw, raw[5..]).Ok?;
      ParseApdu(raw) == Ok(WithHeader(raw, data, le)) <==> IsShort(if zero then raw[5..] else raw[4..], data, le)
  {
    hide ParseShort, ParseExtended, IsShort;
    assert raw[4..][1..] == raw[5..];
    ShortReads(raw, raw[5..], data, le);
    ShortReads(raw, raw[4..], data, le);
  }

  /** No parsed command asks for zero bytes, or has more data than a 16-bit length can say. */
  lemma ParsedBounds(raw: Bytes)
    requires ParseApdu(raw).Ok?
    ensures ParseApdu(raw).value.le.Some? ==> 1 <= ParseApdu(raw).value.le.value <= 65536
    ensures |ParseApdu(raw).value.data| <= 65535
  {}

  // ---------------------------------------------------------------- the Python builder

  predicate NeedsExtended(c: Apdu, extended: bool) {
    extended || |c.data| > 255 || (c.le.Some? && c.le.value > 256)
  }

  function ExtendedBody(data: Bytes, le: Option<nat>): Bytes {
    (if data != [] then [0x00] + U16(|data|) + data else [0x00])
    + (if le.Some? then U16(if le.value == 65536 then 0 else le.value) else [])
  }

  function ShortBody(data: Bytes, le: Option<nat>): Bytes
    requires |data| <= 255 && (le.Some? ==> le.value <= 256)
  {
    (if data != [] then [|data|] + data else []) + (if le.Some? then [le.value % 256] else [])
  }

  function Built(c: Apdu, extended: bool): Bytes {
    [c.cla, c.ins, c.p1, c.p2]
    + if NeedsExtended(c, extended) then ExtendedBody(c.data, c.le) else ShortBody(c.data, c.le)
  }

  method BuildCommand(cla: Byte, ins: Byte, p1: Byte, p2: Byte, data: Bytes, le: Option<nat>, extended: bool)
    returns (result: Bytes)
    ensures result == Built(Apdu(cla, ins, p1, p2, data, le), extended)
  {
    result := [cla, ins, p1, p2];
    var le' := le;
    var needExtended := extended || |data| > 255 || (le.Some? && le.value != 0 && le.value > 256);
    if needExtended {
      if data != [] {
        var lc := |data|;
        result := result + [0x00, lc / 256 % 256, lc % 256];
        result := result + data;
      } else {
        result := result + [0x00];
      }
      if le'.Some? {
        if le'.value == 65536 { le' := Some(0); }
        result := result + [le'.value / 256 % 256, le'.value % 256];
      }
      assert result == [cla, ins, p1, p2] + ExtendedBody(data, le);
    } else {
      if data != [] {
        var lc := |data|;
        result := result + [lc];
        result := result + data;
      }
      if le'.Some? {
        if le'.value == 256 { le' := Some(0); }
        result := result + [le'.value];
      }
      assert result == [cla, ins, p1, p2] + ShortBody(data, le);
    }
  }

  // ---------------------------------------------------------------- the Python parser

  datatype Parsed = Malformed | Parsed(command: Apdu, extended: bool, chained: bool)

  /** Data and Le in short format; bytes behind Le are ignored. */
  function LenientShort(remaining: Bytes): Option<(Bytes, Option<nat>)>
    requires remaining != []
  {
    var lc: nat := remaining[0];
    if |remaining| == 1 then Some(([], Some(ShortLe(lc))))
    else if |remaining| >= 1 + lc then
      Some((remaining[1..1 + lc], if |remaining| >= 1 + lc + 1 then Some(ShortLe(remaining[1 + lc])) else None))
    else None
  }

  function PythonParse(raw: Bytes): Parsed {
    if |raw| < 4 then Malformed
    else
      var remaining := raw[4..];
      var chained := Bit10(raw[0]);
      if remaining == [] then Parsed(WithHeader(raw, [], None), false, chained)
      else if |remaining| == 1 then Parsed(WithHeader(raw, [], Some(ShortLe(remaining[0]))), false, chained)
      else if remaining[0] == 0x00 && |remaining| >= 3 && PythonExtended(remaining) then
        var lc := ReadU16(remaining[1], remaining[2]);
        if |remaining| == 3 then
          Parsed(WithHeader(raw, [], Some(ExtendedLe(remaining[1], remaining[2]))), true, chained)
        else if |remaining| == 3 + lc then Parsed(WithHeader(raw, remaining[3..3 + lc], None), true, chained)
        else
          Parsed(WithHeader(raw, remaining[3..3 + lc], Some(ExtendedLe(remaining[3 + lc], remaining[3 + lc + 1]))),
                 true, chained)
      else
        match LenientShort(remaining)
        case None => Malformed
        case Some((data, le)) => Parsed(WithHeader(raw, data, le), false, chained)
  }

  predicate PythonExtended(remaining: Bytes)
    requires |remaining| >= 3
  {
    var lc := ReadU16(remaining[1], remaining[2]);
    |remaining| == 3 || |remaining| == 3 + lc || |remaining| == 3 + lc + 2
  }

  method ParseCommand(raw: Bytes) returns (r: Parsed)
    ensures r == PythonParse(raw)
  {
    if |raw| < 4 { return Malformed; }
    var chained := Bit10(raw[0]);
    var data: Bytes := [];
    var le: Option<nat> := None;
    var extended := false;
    var remaining := raw[4..];
    if |remaining| == 0 {
    } else if |remaining| == 1 {
      le := Some(ShortLe(remaining[0]));
    } else {
      if remaining[0] == 0x00 && |remaining| >= 3 {
        extended := true;
        var lc := ReadU16(remaining[1], remaining[2]);
        if |remaining| == 3 {
          le := Some(ExtendedLe(remaining[1], remaining[2]));
          data := [];
        } else if |remaining| == 3 + lc {
          data := remaining[3..3 + lc];
        } else if |remaining| == 3 + lc + 2 {
          data := remaining[3..3 + lc];
          var leBytes := remaining[3 + lc..];
          le := Some(ExtendedLe(leBytes[0], leBytes[1]));
        } else {
          extended := false;
        }
      }
      if !extended {
        var short := LenientShort(remaining);
        if short.None? { return Malformed; }
        data, le := short.value.0, short.value.1;
      }
    }
    r := Parsed(WithHeader(raw, data, le), extended, chained);
  }

  // ---------------------------------------------------------------- round trips

  /** The commands that can be written: a 16-bit data length, Le from 1 to 65536, and not the
      extended format with nothing in it, which reads as Le = 256. */
  predicate Writable(c: Apdu, extended: bool) {
    && |c.data| <= 65535
    && (c.le.Some? ==> 1 <= c.le.value <= 65536)
    && !(extended && c.data == [] && c.le.None?)
  }

  lemma BuiltParts(c: Apdu, extended: bool)
    ensures var raw := Built(c, extended);
            && |raw| >= 4 && WithHeader(raw, c.data, c.le) == c
            && raw[4..] == if NeedsExtended(c, extended) then ExtendedBody(c.data, c.le) else ShortBody(c.data, c.le)
  {}

  /** The extended body by position. */
  lemma ExtendedBodyParts(data: Bytes, le: Option<nat>)
    requires data != []
    ensures var body := ExtendedBody(data, le);
            && body[0] == 0 && body[1..3] == U16(|data|) && body[3..3 + |data|] == data
            && |body| == 3 + |data| + (if le.Some? then 2 else 0)
            && (le.Some? ==> body[3 + |data|..] == U16(if le.value == 65536 then 0 else le.value))
  {}

  lemma ShortBuilt(c: Apdu)
    requires !NeedsExtended(c, false)
    ensures ParseApdu(Built(c, false)) == Ok(c) <==> c.le != Some(0)
    ensures PythonParse(Built(c, false)) == Parsed(c, false, Chained(c)) <==> c.le != Some(0)
  {
    var raw, body := Built(c, false), ShortBody(c.data, c.le);
    BuiltParts(c, false);
    if c.data != [] {
      assert body[0] == |c.data| && body[1..1 + |c.data|] == c.data;
    }
  }

  lemma ExtendedDataBuilt(c: Apdu, extended: bool)
    requires NeedsExtended(c, extended) && c.data != []
    ensures ParseApdu(Built(c, extended)) == Ok(c) <==> Writable(c, extended)
  {
    hide U16, ReadU16, Built, ExtendedBody, LenientShort;
    var raw, body := Built(c, extended), ExtendedBody(c.data, c.le);
    BuiltParts(c, extended);
    ExtendedBodyParts(c.data, c.le);
    U16Reads(|c.data|);
    if c.le.Some? { U16Reads(if c.le.value == 65536 then 0 else c.le.value); }
    var ext := body[1..];
    assert ext[0] == body[1..3][0] && ext[1] == body[1..3][1];
    if |c.data| <= 65535 {
      assert ext[2..2 + |c.data|] == body[3..3 + |c.data|];
      if c.le.Some? {
        assert ext[2 + |c.data|] == body[3 + |c.data|..][0] && ext[3 + |c.data|] == body[3 + |c.data|..][1];
      }
    } else if ParseApdu(raw).Ok? {
      ParsedBounds(raw);
    }
  }

  lemma ExtendedDataBuiltPython(c: Apdu, extended: bool)
    requires NeedsExtended(c, extended) && c.data != []
    ensures PythonParse(Built(c, extended)) == Parsed(c, true, Chained(c)) <==> Writable(c, extended)
  {
    hide U16, ReadU16, Built, ExtendedBody, LenientShort;
    var raw, body := Built(c, extended), ExtendedBody(c.data, c.le);
    BuiltParts(c, extended);
    ExtendedBodyParts(c.data, c.le);
    U16Reads(|c.data|);
    if c.le.Some? { U16Reads(if c.le.value == 65536 then 0 else c.le.value); }
    assert body[1] == body[1..3][0] && body[2] == body[1..3][1];
    if |c.data| <= 65535 && c.le.Some? {
      assert body[3 + |c.data|] == body[3 + |c.data|..][0] && body[4 + |c.data|] == body[3 + |c.data|..][1];
    }
  }

  /** Without data, and with neither data nor Le, where a single zero byte is written. */
  lemma ExtendedBareBuilt(c: Apdu, extended: bool)
    requires NeedsExtended(c, extended) && c.data == []
    ensures ParseApdu(Built(c, extended)) == Ok(c) <==> Writable(c, extended)
    ensures PythonParse(Built(c, extended)) == Parsed(c, true, Chained(c)) <==> Writable(c, extended)
    ensures c.le.None? ==> ParseApdu(Built(c, extended)) == Ok(c.(le := Some(256)))
  {
    hide U16, ReadU16, Built;
    BuiltParts(c, extended);
    var body := ExtendedBody(c.data, c.le);
    if c.le.Some? {
      var word := U16(if c.le.value == 65536 then 0 else c.le.value);
      U16Reads(if c.le.value == 65536 then 0 else c.le.value);
      assert body == [0x00] + word;
      assert body[1..][0] == word[0] && body[1..][1] == word[1];
    } else {
      assert body == [0x00];
    }
  }

  /** The Rust parser returns the fields given to the builder exactly for writable commands:
      the choice between extended and short format never misreads one. */
  lemma RustReadsBuilt(c: Apdu, extended: bool)
    ensures ParseApdu(Built(c, extended)) == Ok(c) <==> Writable(c, extended)
  {
    hide ParseApdu, Built;
    if !NeedsExtended(c, extended) {
      ShortBuilt(c);
    } else if c.data != [] {
      ExtendedDataBuilt(c, extended);
    } else {
      ExtendedBareBuilt(c, extended);
    }
  }

  /** The Python parser inverts the builder on the same commands, and reports its format. */
  lemma PythonReadsBuilt(c: Apdu, extended: bool)
    ensures PythonParse(Built(c, extended)) == Parsed(c, NeedsExtended(c, extended), Chained(c))
       <==> Writable(c, extended)
  {
    hide PythonParse, Built;
    if !NeedsExtended(c, extended) {
      ShortBuilt(c);
    } else if c.data != [] {
      ExtendedDataBuiltPython(c, extended);
    } else {
      ExtendedBareBuilt(c, extended);
    }
  }
}
