/**
 * The byte encodings behind the From header of the report mail:
 * `Buffer.from(text)` encodes a string as UTF-8 (RFC 3629, section 3) and
 * `.toString('base64')` writes the bytes in the Base64 alphabet of RFC 4648,
 * section 4, padded with `=`. Each encoder comes with its decoder and the
 * round trip between the two.
 */
module Encoding {
  import opened Wrappers

  type byte = b: int | 0 <= b < 256

  // ---------------------------------------------------------------------------
  // UTF-8 (RFC 3629, section 3)

  predicate IsContinuation(b: byte) { 0x80 <= b < 0xC0 }

  /**
   * The UTF-8 bytes of one Unicode scalar value: one to four bytes by its
   * size, the value's bits read six at a time from the right into the
   * continuation bytes and the rest into the lead byte.
   */
  function EncodeScalar(c: char): (bs: seq<byte>)
    ensures 1 <= |bs| <= 4
    ensures |bs| == (if c < '\U{0080}' then 1 else if c < '\U{0800}' then 2 else if c < '\U{10000}' then 3 else 4)
    ensures forall k :: 1 <= k < |bs| ==> IsContinuation(bs[k])
  {
    var v := c as int;
    var v1, r0 := v / 64, v % 64;
    var v2, r1 := v1 / 64, v1 % 64;
    var v3, r2 := v2 / 64, v2 % 64;
    if v < 0x80 then [v]
    else if v < 0x800 then [0xC0 + v1, 0x80 + r0]
    else if v < 0x10000 then [0xE0 + v2, 0x80 + r1, 0x80 + r0]
    else [0xF0 + v3, 0x80 + r2, 0x80 + r1, 0x80 + r0]
  }

  /**
   * The scalar value that `bs` starts with and the number of bytes it takes,
   * or `None` when the bytes are not well-formed UTF-8 there (a stray
   * continuation byte, a truncated sequence, an overlong form, a surrogate or
   * a value beyond U+10FFFF).
   */
  function DecodeScalar(bs: seq<byte>): (r: Option<(char, nat)>)
    ensures r.Some? ==> 1 <= r.value.1 <= |bs| && r.value.1 <= 4
  {
    if bs == [] then None
    else
      var b0 := bs[0];
      if b0 < 0x80 then Some((b0 as char, 1))
      else if 0xC0 <= b0 < 0xE0 && |bs| >= 2 && IsContinuation(bs[1]) then
        var v := (b0 as int - 0xC0) * 64 + (bs[1] as int - 0x80);
        if v < 0x80 then None else Some((v as char, 2))
      else if 0xE0 <= b0 < 0xF0 && |bs| >= 3 && IsContinuation(bs[1]) && IsContinuation(bs[2]) then
        var v := ((b0 as int - 0xE0) * 64 + (bs[1] as int - 0x80)) * 64 + (bs[2] as int - 0x80);
        if v < 0x800 || (0xD800 <= v < 0xE000) then None else Some((v as char, 3))
      else if 0xF0 <= b0 < 0xF8 && |bs| >= 4 && IsContinuation(bs[1]) && IsContinuation(bs[2]) && IsContinuation(bs[3]) then
        var v := (((b0 as int - 0xF0) * 64 + (bs[1] as int - 0x80)) * 64 + (bs[2] as int - 0x80)) * 64 + (bs[3] as int - 0x80);
        if v < 0x10000 || v > 0x10FFFF then None else Some((v as char, 4))
      else None
  }

  /** The encoded scalar is read back first, whatever follows it. */
  lemma DecodeEncodeScalar(c: char, rest: seq<byte>)
    ensures DecodeScalar(EncodeScalar(c) + rest) == Some((c, |EncodeScalar(c)|))
  {
    var bs := EncodeScalar(c) + rest;
    var v := c as int;
    var v1, r0 := v / 64, v % 64;
    var v2, r1 := v1 / 64, v1 % 64;
    var v3, r2 := v2 / 64, v2 % 64;
    assert v == v1 * 64 + r0 && v1 == v2 * 64 + r1 && v2 == v3 * 64 + r2;
    if v < 0x80 {
    } else if v < 0x800 {
      assert bs[0] == 0xC0 + v1 && bs[1] == 0x80 + r0;
    } else if v < 0x10000 {
      assert bs[0] == 0xE0 + v2 && bs[1] == 0x80 + r1 && bs[2] == 0x80 + r0;
    } else {
      assert bs[0] == 0xF0 + v3 && bs[1] == 0x80 + r2 && bs[2] == 0x80 + r1 && bs[3] == 0x80 + r0;
    }
  }

  /** `Buffer.from(s)`: the UTF-8 bytes of a string. */
  function Utf8Encode(s: string): (bs: seq<byte>)
    ensures |s| <= |bs| <= 4 * |s|
  {
    if s == [] then [] else EncodeScalar(s[0]) + Utf8Encode(s[1..])
  }

  /** The string whose UTF-8 bytes are `bs`, or `None` when they are not well-formed. */
  function Utf8Decode(bs: seq<byte>): Option<string>
    decreases |bs|
  {
    if bs == [] then Some([])
    else match DecodeScalar(bs)
      case None => None
      case Some((c, n)) =>
        match Utf8Decode(bs[n..])
        case None => None
        case Some(s) => Some([c] + s)
  }

  /** Decoding undoes encoding: the UTF-8 form of a string determines it. */
  lemma {:induction false} Utf8RoundTrip(s: string)
    ensures Utf8Decode(Utf8Encode(s)) == Some(s)
  {
    if s != [] {
      var head := EncodeScalar(s[0]);
      var bs := Utf8Encode(s);
      DecodeEncodeScalar(s[0], Utf8Encode(s[1..]));
      assert bs[|head|..] == Utf8Encode(s[1..]);
      Utf8RoundTrip(s[1..]);
      assert [s[0]] + s[1..] == s;
    }
  }

  /** Text in ASCII is its own UTF-8 form, one byte per character. */
  lemma {:induction false} Utf8Ascii(s: string)
    requires forall k :: 0 <= k < |s| ==> s[k] < '\U{0080}'
    ensures |Utf8Encode(s)| == |s|
    ensures forall k :: 0 <= k < |s| ==> Utf8Encode(s)[k] == s[k] as int
  {
    if s != [] {
      Utf8Ascii(s[1..]);
    }
  }

  // ---------------------------------------------------------------------------
  // Base64 (RFC 4648, section 4)

  /** The character of a 6-bit value in the Base64 alphabet (table 1 of RFC 4648). */
  function Base64Char(x: int): (c: char)
    requires 0 <= x < 64
  {
    if x < 26 then ('A' as int + x) as char
    else if x < 52 then ('a' as int + x - 26) as char
    else if x < 62 then ('0' as int + x - 52) as char
    else if x == 62 then '+'
    else '/'
  }

  /** The 6-bit value of an alphabet character; `None` for every other character, `=` included. */
  function Base64Value(c: char): (r: Option<int>)
    ensures r.Some? ==> 0 <= r.value < 64 && Base64Char(r.value) == c
  {
    if 'A' <= c <= 'Z' then Some(c as int - 'A' as int)
    else if 'a' <= c <= 'z' then Some(c as int - 'a' as int + 26)
    else if '0' <= c <= '9' then Some(c as int - '0' as int + 52)
    else if c == '+' then Some(62)
    else if c == '/' then Some(63)
    else None
  }

  /** The alphabet characters and their values correspond one to one. */
  lemma Base64ValueChar(x: int)
    requires 0 <= x < 64
    ensures Base64Value(Base64Char(x)) == Some(x)
  {
  }

  /** The four 6-bit values of three bytes: their 24 bits, six at a time, most significant first. */
  function Sextets(b0: byte, b1: byte, b2: byte): (r: (int, int, int, int))
    ensures 0 <= r.0 < 64 && 0 <= r.1 < 64 && 0 <= r.2 < 64 && 0 <= r.3 < 64
  {
    (b0 / 4, b0 % 4 * 16 + b1 / 16, b1 % 16 * 4 + b2 / 64, b2 % 64)
  }

  /** The three bytes of four 6-bit values: the inverse regrouping of 24 bits. */
  function Octets(x0: int, x1: int, x2: int, x3: int): (r: (byte, byte, byte))
    requires 0 <= x0 < 64 && 0 <= x1 < 64 && 0 <= x2 < 64 && 0 <= x3 < 64
  {
    (x0 * 4 + x1 / 16, x1 % 16 * 16 + x2 / 4, x2 % 4 * 64 + x3)
  }

  lemma OctetsSextets(b0: byte, b1: byte, b2: byte)
    ensures var x := Sextets(b0, b1, b2); Octets(x.0, x.1, x.2, x.3) == (b0, b1, b2)
  {
    assert b0 == b0 / 4 * 4 + b0 % 4;
    assert b1 == b1 / 16 * 16 + b1 % 16;
    assert b2 == b2 / 64 * 64 + b2 % 64;
  }

  /** The characters of the first `n` (2, 3 or 4) sextets of three bytes, padded with `=` to four. */
  function EncodeGroup(b0: byte, b1: byte, b2: byte, n: nat): (s: string)
    requires 2 <= n <= 4
    ensures |s| == 4
  {
    var x := Sextets(b0, b1, b2);
    [Base64Char(x.0), Base64Char(x.1), if n >= 3 then Base64Char(x.2) else '=', if n == 4 then Base64Char(x.3) else '=']
  }

  /**
   * `bytes.toString('base64')`: whole groups of three bytes become four
   * characters; a last group of two bytes becomes three characters and `=`,
   * a last single byte two characters and `==` (the missing bits are zero).
   */
  function Base64Encode(bs: seq<byte>): string
  {
    if |bs| >= 3 then EncodeGroup(bs[0], bs[1], bs[2], 4) + Base64Encode(bs[3..])
    else if |bs| == 2 then EncodeGroup(bs[0], bs[1], 0, 3)
    else if |bs| == 1 then EncodeGroup(bs[0], 0, 0, 2)
    else []
  }

  /** Four characters for every three bytes or part of three. */
  lemma {:induction false} Base64Length(bs: seq<byte>)
    ensures |Base64Encode(bs)| == 4 * ((|bs| + 2) / 3)
  {
    if |bs| >= 3 {
      Base64Length(bs[3..]);
      assert (|bs| + 2) / 3 == (|bs[3..]| + 2) / 3 + 1;
    }
  }

  /** Every character of the encoding is in the alphabet or is the pad `=`. */
  lemma {:induction false} Base64Alphabet(bs: seq<byte>)
    ensures forall k :: 0 <= k < |Base64Encode(bs)| ==> Base64Value(Base64Encode(bs)[k]).Some? || Base64Encode(bs)[k] == '='
  {
    if |bs| >= 3 {
      Base64Alphabet(bs[3..]);
      var x := Sextets(bs[0], bs[1], bs[2]);
      Base64ValueChar(x.0);
      Base64ValueChar(x.1);
      Base64ValueChar(x.2);
      Base64ValueChar(x.3);
    } else if |bs| == 2 {
      var x := Sextets(bs[0], bs[1], 0);
      Base64ValueChar(x.0);
      Base64ValueChar(x.1);
      Base64ValueChar(x.2);
    } else if |bs| == 1 {
      var x := Sextets(bs[0], 0, 0);
      Base64ValueChar(x.0);
      Base64ValueChar(x.1);
    }
  }

  /** The bytes of four characters, or `None` when one is not in the alphabet. */
  function DecodeQuad(c0: char, c1: char, c2: char, c3: char): Option<(byte, byte, byte)>
  {
    match (Base64Value(c0), Base64Value(c1), Base64Value(c2), Base64Value(c3))
    case (Some(x0), Some(x1), Some(x2), Some(x3)) => Some(Octets(x0, x1, x2, x3))
    case _ => None
  }

  /**
   * Base64 text back to bytes: blocks of four characters, `=` padding only at
   * the end of the last block. `None` for text of another length, characters
   * outside the alphabet or misplaced padding.
   */
  function Base64Decode(s: string): Option<seq<byte>>
    decreases |s|
  {
    if s == [] then Some([])
    else if |s| < 4 then None
    else if |s| == 4 && s[2] == '=' && s[3] == '=' then
      match DecodeQuad(s[0], s[1], 'A', 'A')
      case None => None
      case Some(b) => Some([b.0])
    else if |s| == 4 && s[3] == '=' then
      match DecodeQuad(s[0], s[1], s[2], 'A')
      case None => None
      case Some(b) => Some([b.0, b.1])
    else
      match DecodeQuad(s[0], s[1], s[2], s[3])
      case None => None
      case Some(b) =>
        match Base64Decode(s[4..])
        case None => None
        case Some(rest) => Some([b.0, b.1, b.2] + rest)
  }

  /** A group's characters decode to its bytes; padded positions stand for zero bits. */
  lemma DecodeGroup(b0: byte, b1: byte, b2: byte)
    ensures var x := Sextets(b0, b1, b2);
      DecodeQuad(Base64Char(x.0), Base64Char(x.1), Base64Char(x.2), Base64Char(x.3)) == Some((b0, b1, b2))
  {
    var x := Sextets(b0, b1, b2);
    Base64ValueChar(x.0);
    Base64ValueChar(x.1);
    Base64ValueChar(x.2);
    Base64ValueChar(x.3);
    OctetsSextets(b0, b1, b2);
  }

  /** A whole group in front of decodable text decodes to its three bytes in front of the rest. */
  lemma DecodeWholeGroup(b0: byte, b1: byte, b2: byte, rest: string, tail: seq<byte>)
    requires Base64Decode(rest) == Some(tail)
    ensures Base64Decode(EncodeGroup(b0, b1, b2, 4) + rest) == Some([b0, b1, b2] + tail)
  {
    var s := EncodeGroup(b0, b1, b2, 4) + rest;
    var x := Sextets(b0, b1, b2);
    DecodeGroup(b0, b1, b2);
    Base64ValueChar(x.3);
    assert s[3] == Base64Char(x.3) && s[3] != '=';
    assert s[4..] == rest;
  }

  /** Two final bytes: three characters and one `=`. */
  lemma DecodeTwoBytes(b0: byte, b1: byte)
    ensures Base64Decode(EncodeGroup(b0, b1, 0, 3)) == Some([b0, b1])
  {
    var x := Sextets(b0, b1, 0);
    var s := EncodeGroup(b0, b1, 0, 3);
    assert x.3 == 0 && Base64Char(0) == 'A';
    DecodeGroup(b0, b1, 0);
    Base64ValueChar(x.2);
    assert s == [Base64Char(x.0), Base64Char(x.1), Base64Char(x.2), '='];
    assert s[2] != '=';
  }

  /** One final byte: two characters and `==`. */
  lemma DecodeOneByte(b0: byte)
    ensures Base64Decode(EncodeGroup(b0, 0, 0, 2)) == Some([b0])
  {
    var x := Sextets(b0, 0, 0);
    assert x.2 == 0 && x.3 == 0 && Base64Char(0) == 'A';
    DecodeGroup(b0, 0, 0);
    assert EncodeGroup(b0, 0, 0, 2) == [Base64Char(x.0), Base64Char(x.1), '=', '='];
  }

  lemma SplitThree<T>(s: seq<T>)
    requires |s| >= 3
    ensures [s[0], s[1], s[2]] + s[3..] == s
  {
  }

  /** Three or more bytes: the first group, then the rest as it decodes. */
  lemma RoundTripStep(bs: seq<byte>)
    requires |bs| >= 3 && Base64Decode(Base64Encode(bs[3..])) == Some(bs[3..])
    ensures Base64Decode(Base64Encode(bs)) == Some(bs)
  {
    var rest := Base64Encode(bs[3..]);
    var s := Base64Encode(bs);
    assert s == EncodeGroup(bs[0], bs[1], bs[2], 4) + rest;
    DecodeWholeGroup(bs[0], bs[1], bs[2], rest, bs[3..]);
    SplitThree(bs);
  }

  /** At most two bytes: one padded group, or nothing. */
  lemma RoundTripShort(bs: seq<byte>)
    requires |bs| < 3
    ensures Base64Decode(Base64Encode(bs)) == Some(bs)
  {
    if |bs| == 2 {
      DecodeTwoBytes(bs[0], bs[1]);
      assert [bs[0], bs[1]] == bs;
    } else if |bs| == 1 {
      DecodeOneByte(bs[0]);
      assert [bs[0]] == bs;
    }
  }

  /** Decoding undoes encoding: Base64 loses nothing, whatever the length. */
  lemma {:induction false} Base64RoundTrip(bs: seq<byte>)
    ensures Base64Decode(Base64Encode(bs)) == Some(bs)
  {
    if |bs| >= 3 {
      Base64RoundTrip(bs[3..]);
      RoundTripStep(bs);
    } else {
      RoundTripShort(bs);
    }
  }

  lemma SameFour(s: string, t: string)
    requires |s| == 4 == |t| && s[0] == t[0] && s[1] == t[1] && s[2] == t[2] && s[3] == t[3]
    ensures s == t
  {
  }

  /** Test vectors of RFC 4648, section 10: "f" is "Zg==", "fo" is "Zm8=", "foo" is "Zm9v". */
  lemma VectorF()
    ensures Base64Encode([102]) == "Zg=="
  {
    var s := Base64Encode([102]);
    assert s == EncodeGroup(102, 0, 0, 2);
    assert s[0] == 'Z' && s[1] == 'g' && s[2] == '=' && s[3] == '=';
    SameFour(s, "Zg==");
  }

  lemma VectorFo()
    ensures Base64Encode([102, 111]) == "Zm8="
  {
    var s := Base64Encode([102, 111]);
    assert s == EncodeGroup(102, 111, 0, 3);
    assert s[0] == 'Z' && s[1] == 'm' && s[2] == '8' && s[3] == '=';
    SameFour(s, "Zm8=");
  }

  lemma VectorFoo()
    ensures Base64Encode([102, 111, 111]) == "Zm9v"
  {
    var s := Base64Encode([102, 111, 111]);
    assert s == EncodeGroup(102, 111, 111, 4) + Base64Encode([]);
    assert s[0] == 'Z' && s[1] == 'm' && s[2] == '9' && s[3] == 'v';
    SameFour(s, "Zm9v");
  }

  lemma FoobarBytes()
    ensures Utf8Encode("foobar") == [102, 111, 111, 98, 97, 114]
  {
    Utf8Ascii("foobar");
  }

  lemma VectorBar()
    ensures Base64Encode([98, 97, 114]) == "YmFy"
  {
    var t := Base64Encode([98, 97, 114]);
    assert t == EncodeGroup(98, 97, 114, 4) + Base64Encode([]);
    assert t[0] == 'Y' && t[1] == 'm' && t[2] == 'F' && t[3] == 'y';
    SameFour(t, "YmFy");
  }

  /** The last vector of RFC 4648, section 10: the UTF-8 text "foobar" is "Zm9vYmFy". */
  lemma VectorFoobar()
    ensures Base64Encode(Utf8Encode("foobar")) == "Zm9v" + "YmFy"
  {
    FoobarBytes();
    var bs: seq<byte> := [102, 111, 111, 98, 97, 114];
    assert bs[3..] == [98, 97, 114];
    assert Base64Encode(bs) == EncodeGroup(102, 111, 111, 4) + Base64Encode([98, 97, 114]);
    VectorFoo();
    VectorBar();
  }
}
