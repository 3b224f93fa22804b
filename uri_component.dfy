/** The global functions encodeURIComponent and decodeURIComponent of ECMAScript
    (ECMA-262, sections 19.2.6.5 and 19.2.6.4, with the Encode and Decode abstract
    operations of section 19.2.6.1): every character outside the unreserved set
    becomes the percent-escaped UTF-8 encoding of its code point; decoding reverses
    that and rejects malformed escapes with a URIError.

    A Dafny `char` is a Unicode scalar value, so the lone surrogates on which
    encodeURIComponent throws cannot occur here and encoding is total. */
module UriComponent {
  import opened Common

  /** The characters encodeURIComponent leaves alone: letters, digits and -_.!~*'() */
  predicate Unreserved(c: char) {
    ('A' <= c <= 'Z') || ('a' <= c <= 'z') || ('0' <= c <= '9')
    || c == '-' || c == '_' || c == '.' || c == '!' || c == '~' || c == '*'
    || c == '\'' || c == '(' || c == ')'
  }

  predicate IsHex(c: char) {
    ('0' <= c <= '9') || ('A' <= c <= 'F') || ('a' <= c <= 'f')
  }

  function HexVal(c: char): (v: nat)
    requires IsHex(c)
    ensures v < 16
  {
    if '0' <= c <= '9' then c as int - '0' as int
    else if 'A' <= c <= 'F' then c as int - 'A' as int + 10
    else c as int - 'a' as int + 10
  }

  /** Upper-case hexadecimal digit, as the Encode operation writes it. */
  function HexDigit(d: nat): (c: char)
    requires d < 16
    ensures IsHex(c) && HexVal(c) == d && Unreserved(c)
  {
    if d < 10 then ('0' as int + d) as char else ('A' as int + d - 10) as char
  }

  /** `%XY` for one octet. */
  function Escape(b: nat): (r: string)
    requires b < 256
    ensures |r| == 3 && r[0] == '%'
  {
    ['%', HexDigit(b / 16), HexDigit(b % 16)]
  }

  predicate IsScalar(cp: int) {
    (0 <= cp < 0xD800) || (0xE000 <= cp < 0x11_0000)
  }

  /** UTF-8 encoding of a code point (RFC 3629). */
  function Utf8(cp: int): (bytes: seq<nat>)
    requires IsScalar(cp)
    ensures 1 <= |bytes| <= 4
    ensures forall k :: 0 <= k < |bytes| ==> bytes[k] < 256
  {
    if cp < 0x80 then [cp]
    else if cp < 0x800 then [0xC0 + cp / 64, 0x80 + cp % 64]
    else if cp < 0x1_0000 then [0xE0 + cp / 4096, 0x80 + (cp / 64) % 64, 0x80 + cp % 64]
    else [0xF0 + cp / 262144, 0x80 + (cp / 4096) % 64, 0x80 + (cp / 64) % 64, 0x80 + cp % 64]
  }

  function EscapeAll(bytes: seq<nat>): (r: string)
    requires forall k :: 0 <= k < |bytes| ==> bytes[k] < 256
    ensures |r| == 3 * |bytes|
  {
    if bytes == [] then [] else Escape(bytes[0]) + EscapeAll(bytes[1..])
  }

  function EncodeChar(c: char): string {
    if Unreserved(c) then [c] else EscapeAll(Utf8(c as int))
  }

  /** `encodeURIComponent(s)` */
  function Encode(s: string): (r: string)
    ensures |r| >= |s|
    ensures (forall k :: 0 <= k < |s| ==> Unreserved(s[k])) ==> r == s
  {
    if s == [] then [] else EncodeChar(s[0]) + Encode(s[1..])
  }

  // ---- decoding ----

  /** The octet written as `%XY` at position `i`, if there is one. */
  function ReadByte(s: string, i: nat): (r: Option<nat>)
    ensures r.Some? ==> r.value < 256
  {
    if i + 3 <= |s| && s[i] == '%' && IsHex(s[i + 1]) && IsHex(s[i + 2])
    then Some(HexVal(s[i + 1]) * 16 + HexVal(s[i + 2]))
    else None
  }

  predicate IsContinuation(b: nat) { 0x80 <= b < 0xC0 }

  /** A continuation octet at escape position `j` (counted in escapes), or None. */
  function ReadContinuation(s: string, j: nat): Option<nat> {
    var b := ReadByte(s, 3 * j);
    if b.Some? && IsContinuation(b.value) then b else None
  }

  /** Decodes the escaped UTF-8 sequence at the start of `s` into one character and
      the number of input characters it used. Overlong forms, surrogates and values
      past U+10FFFF are rejected, as the Decode operation requires. */
  function ReadEscapedChar(s: string): (r: Option<(char, nat)>)
    ensures r.Some? ==> 3 <= r.value.1 <= |s|
  {
    var b0 := ReadByte(s, 0);
    if b0.None? then None
    else
      var b := b0.value;
      if b < 0x80 then Some((b as char, 3))
      else if 0xC0 <= b < 0xE0 then
        var b1 := ReadContinuation(s, 1);
        if b1.None? then None
        else
          var cp := (b - 0xC0) * 64 + (b1.value - 0x80);
          if cp < 0x80 then None else Some((cp as char, 6))
      else if 0xE0 <= b < 0xF0 then
        var b1 := ReadContinuation(s, 1);
        var b2 := ReadContinuation(s, 2);
        if b1.None? || b2.None? then None
        else
          var cp := (b - 0xE0) * 4096 + (b1.value - 0x80) * 64 + (b2.value - 0x80);
          if cp < 0x800 || (0xD800 <= cp < 0xE000) then None else Some((cp as char, 9))
      else if 0xF0 <= b < 0xF8 then
        var b1 := ReadContinuation(s, 1);
        var b2 := ReadContinuation(s, 2);
        var b3 := ReadContinuation(s, 3);
        if b1.None? || b2.None? || b3.None? then None
        else
          var cp := (b - 0xF0) * 262144 + (b1.value - 0x80) * 4096
                    + (b2.value - 0x80) * 64 + (b3.value - 0x80);
          if cp < 0x1_0000 || cp >= 0x11_0000 then None else Some((cp as char, 12))
      else None
  }

  function Prepend(c: char, rest: Option<string>): Option<string> {
    if rest.Some? then Some([c] + rest.value) else None
  }

  /** `decodeURIComponent(s)`; None stands for the URIError it throws. */
  function Decode(s: string): (r: Option<string>)
    ensures r.Some? ==> |r.value| <= |s|
    ensures (forall k :: 0 <= k < |s| ==> s[k] != '%') ==> r == Some(s)
    decreases |s|
  {
    if s == [] then Some([])
    else if s[0] != '%' then
      assert forall k :: 0 <= k < |s[1..]| ==> s[1..][k] == s[k + 1];
      assert [s[0]] + s[1..] == s;
      Prepend(s[0], Decode(s[1..]))
    else
      var e := ReadEscapedChar(s);
      if e.None? then None else Prepend(e.value.0, Decode(s[e.value.1..]))
  }

  // ---- properties ----

  /** The encoded form is made of unreserved characters and `%` only, so it can
      stand as a query-parameter value: it holds no `&`, `=`, `#`, `?` or space. */
  lemma {:induction false} EncodeIsUrlSafe(s: string)
    ensures forall k :: 0 <= k < |Encode(s)| ==> Unreserved(Encode(s)[k]) || Encode(s)[k] == '%'
  {
    if s != [] {
      EncodeIsUrlSafe(s[1..]);
      var c := s[0];
      if !Unreserved(c) { EscapeAllIsUrlSafe(Utf8(c as int)); }
      assert Encode(s) == EncodeChar(c) + Encode(s[1..]);
    }
  }

  lemma {:induction false} EscapeAllIsUrlSafe(bytes: seq<nat>)
    requires forall k :: 0 <= k < |bytes| ==> bytes[k] < 256
    ensures forall k :: 0 <= k < |EscapeAll(bytes)| ==> Unreserved(EscapeAll(bytes)[k]) || EscapeAll(bytes)[k] == '%'
  {
    if bytes != [] {
      EscapeAllIsUrlSafe(bytes[1..]);
    }
  }

  lemma ReadByteOfEscape(b: nat, rest: string)
    requires b < 256
    ensures ReadByte(Escape(b) + rest, 0) == Some(b)
  {
    var s := Escape(b) + rest;
    assert s[0] == '%' && s[1] == HexDigit(b / 16) && s[2] == HexDigit(b % 16);
  }

  /** Reading the escape at position `j` of an escaped octet sequence. */
  lemma {:induction false} ReadByteInEscapes(bytes: seq<nat>, rest: string, j: nat)
    requires forall k :: 0 <= k < |bytes| ==> bytes[k] < 256
    requires j < |bytes|
    ensures ReadByte(EscapeAll(bytes) + rest, 3 * j) == Some(bytes[j])
  {
    if j == 0 {
      assert EscapeAll(bytes) + rest == Escape(bytes[0]) + (EscapeAll(bytes[1..]) + rest);
      ReadByteOfEscape(bytes[0], EscapeAll(bytes[1..]) + rest);
    } else {
      var tail := EscapeAll(bytes[1..]) + rest;
      assert EscapeAll(bytes) + rest == Escape(bytes[0]) + tail;
      ReadByteInEscapes(bytes[1..], rest, j - 1);
      ReadByteShift(Escape(bytes[0]), tail, 3 * (j - 1));
    }
  }

  /** Reading past a three-character prefix. */
  lemma ReadByteShift(pre: string, s: string, i: nat)
    requires |pre| == 3
    ensures ReadByte(pre + s, i + 3) == ReadByte(s, i)
  {
    if i + 3 <= |s| {
      assert (pre + s)[i + 3] == s[i] && (pre + s)[i + 4] == s[i + 1] && (pre + s)[i + 5] == s[i + 2];
    }
  }

  lemma Utf8Decodes(c: char, rest: string)
    ensures ReadEscapedChar(EscapeAll(Utf8(c as int)) + rest) == Some((c, 3 * |Utf8(c as int)|))
  {
    var cp := c as int;
    if cp < 0x80 {
      ReadByteInEscapes(Utf8(cp), rest, 0);
    } else if cp < 0x800 {
      Utf8Decodes2(c, rest);
    } else if cp < 0x1_0000 {
      Utf8Decodes3(c, rest);
    } else {
      Utf8Decodes4(c, rest);
    }
  }

  lemma Utf8Decodes2(c: char, rest: string)
    requires 0x80 <= c as int < 0x800
    ensures ReadEscapedChar(EscapeAll(Utf8(c as int)) + rest) == Some((c, 6))
  {
    var cp := c as int;
    var bytes := Utf8(cp);
    assert bytes == [0xC0 + cp / 64, 0x80 + cp % 64];
    ReadByteInEscapes(bytes, rest, 0);
    ReadByteInEscapes(bytes, rest, 1);
    Decodes2(c, EscapeAll(bytes) + rest);
  }

  lemma Utf8Decodes3(c: char, rest: string)
    requires 0x800 <= c as int < 0x1_0000
    ensures ReadEscapedChar(EscapeAll(Utf8(c as int)) + rest) == Some((c, 9))
  {
    var cp := c as int;
    var bytes := Utf8(cp);
    assert bytes == [0xE0 + cp / 4096, 0x80 + (cp / 64) % 64, 0x80 + cp % 64];
    ReadByteInEscapes(bytes, rest, 0);
    ReadByteInEscapes(bytes, rest, 1);
    ReadByteInEscapes(bytes, rest, 2);
    Decodes3(c, EscapeAll(bytes) + rest);
  }

  lemma Utf8Decodes4(c: char, rest: string)
    requires 0x1_0000 <= c as int
    ensures ReadEscapedChar(EscapeAll(Utf8(c as int)) + rest) == Some((c, 12))
  {
    var cp := c as int;
    var bytes := Utf8(cp);
    assert bytes == [0xF0 + cp / 262144, 0x80 + (cp / 4096) % 64, 0x80 + (cp / 64) % 64, 0x80 + cp % 64];
    ReadByteInEscapes(bytes, rest, 0);
    ReadByteInEscapes(bytes, rest, 1);
    ReadByteInEscapes(bytes, rest, 2);
    ReadByteInEscapes(bytes, rest, 3);
    Decodes4(c, EscapeAll(bytes) + rest);
  }

  lemma Decodes2(c: char, s: string)
    requires 0x80 <= c as int < 0x800
    requires ReadByte(s, 0) == Some(0xC0 + (c as int) / 64)
    requires ReadByte(s, 3) == Some(0x80 + (c as int) % 64)
    ensures ReadEscapedChar(s) == Some((c, 6))
  {
    var cp := c as int;
    assert ReadContinuation(s, 1) == Some(0x80 + cp % 64);
  }

  lemma Decodes3(c: char, s: string)
    requires 0x800 <= c as int < 0x1_0000
    requires ReadByte(s, 0) == Some(0xE0 + (c as int) / 4096)
    requires ReadByte(s, 3) == Some(0x80 + ((c as int) / 64) % 64)
    requires ReadByte(s, 6) == Some(0x80 + (c as int) % 64)
    ensures ReadEscapedChar(s) == Some((c, 9))
  {
    var cp := c as int;
    assert ReadContinuation(s, 1) == Some(0x80 + (cp / 64) % 64);
    assert ReadContinuation(s, 2) == Some(0x80 + cp % 64);
    Split3(cp);
  }

  lemma Decodes4(c: char, s: string)
    requires 0x1_0000 <= c as int
    requires ReadByte(s, 0) == Some(0xF0 + (c as int) / 262144)
    requires ReadByte(s, 3) == Some(0x80 + ((c as int) / 4096) % 64)
    requires ReadByte(s, 6) == Some(0x80 + ((c as int) / 64) % 64)
    requires ReadByte(s, 9) == Some(0x80 + (c as int) % 64)
    ensures ReadEscapedChar(s) == Some((c, 12))
  {
    var cp := c as int;
    Split4(cp);
    assert ReadContinuation(s, 1) == Some(0x80 + (cp / 4096) % 64);
    assert ReadContinuation(s, 2) == Some(0x80 + (cp / 64) % 64);
    assert ReadContinuation(s, 3) == Some(0x80 + cp % 64);
  }

  lemma Split3(cp: nat)
    requires cp < 0x1_0000
    ensures (cp / 4096) * 4096 + ((cp / 64) % 64) * 64 + cp % 64 == cp
  {
  }

  lemma Split4(cp: nat)
    requires cp < 0x11_0000
    ensures (cp / 262144) * 262144 + ((cp / 4096) % 64) * 4096 + ((cp / 64) % 64) * 64 + cp % 64 == cp
    ensures cp / 262144 < 8
  {
    DivTwice(cp, 64);
    DivTwice(cp, 4096);
  }

  /** Division by `m` then 64 is division by `64 * m`. */
  lemma DivTwice(x: nat, m: nat)
    requires m == 64 || m == 4096
    ensures x / m / 64 == x / (64 * m)
  {
  }

  lemma DecodeEncodedChar(c: char, rest: string)
    ensures Decode(EncodeChar(c) + rest) == Prepend(c, Decode(rest))
  {
    var s := EncodeChar(c) + rest;
    if Unreserved(c) {
      assert s[0] == c && s[1..] == rest;
    } else {
      var bytes := Utf8(c as int);
      Utf8Decodes(c, rest);
      ReadByteInEscapes(bytes, rest, 0);
      assert s[0] == '%';
      assert s[3 * |bytes|..] == rest;
    }
  }

  /** decodeURIComponent(encodeURIComponent(s)) == s: the endpoint's query value
      names exactly the location it was built from. */
  lemma {:induction false} DecodeEncode(s: string)
    ensures Decode(Encode(s)) == Some(s)
  {
    if s != [] {
      DecodeEncode(s[1..]);
      DecodeEncodedChar(s[0], Encode(s[1..]));
      assert [s[0]] + s[1..] == s;
    }
  }

  /** A `%` that does not start a well-formed escape makes decoding fail. */
  lemma BareEscapeFails(rest: string)
    requires |rest| < 2 || !IsHex(rest[0]) || !IsHex(rest[1])
    ensures Decode("%" + rest) == None
  {
    assert ReadByte("%" + rest, 0) == None;
  }
}
