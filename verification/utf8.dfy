/** Strict UTF-8, as Python's `bytes.decode('utf-8')` applies it: the
    shortest form only, no surrogates, nothing above U+10FFFF. Decoding
    fails at the first ill-formed sequence, and the failure carries that
    sequence's offset, as UnicodeDecodeError's `start` does. */
module Utf8 {
  import opened Wrappers

  newtype Byte = x: int | 0 <= x < 256

  /** A continuation byte, 10xxxxxx. */
  predicate IsCont(b: Byte) {
    0x80 <= b < 0xC0
  }

  /** The bytes UTF-8 gives one scalar value. */
  function EncodeChar(c: char): (bs: seq<Byte>)
    ensures 1 <= |bs| <= 4
  {
    var cp := c as int;
    if cp < 0x80 then [cp as Byte]
    else if cp < 0x800 then [(0xC0 + cp / 64) as Byte, (0x80 + cp % 64) as Byte]
    else if cp < 0x10000 then
      [(0xE0 + cp / 4096) as Byte, (0x80 + (cp / 64) % 64) as Byte, (0x80 + cp % 64) as Byte]
    else
      [(0xF0 + cp / 262144) as Byte, (0x80 + (cp / 4096) % 64) as Byte,
       (0x80 + (cp / 64) % 64) as Byte, (0x80 + cp % 64) as Byte]
  }

  /** The bytes UTF-8 gives a string. */
  function Encode(s: string): seq<Byte>
    decreases |s|
  {
    if |s| == 0 then [] else EncodeChar(s[0]) + Encode(s[1..])
  }

  /** Reads one well-formed sequence from the front of `bs`: the scalar
      value and how many bytes it took. The second byte's range is narrowed
      after E0, ED, F0 and F4, which rules out overlong forms, surrogates
      and values above U+10FFFF. */
  function ReadChar(bs: seq<Byte>): (r: Option<(char, nat)>)
    requires |bs| > 0
    ensures r.Some? ==> 1 <= r.value.1 <= |bs|
  {
    var b0 := bs[0] as int;
    if b0 < 0x80 then Some((b0 as char, 1))
    else if 0xC2 <= b0 <= 0xDF then
      if |bs| >= 2 && IsCont(bs[1]) then
        Some((((b0 - 0xC0) * 64 + (bs[1] as int - 0x80)) as char, 2))
      else None
    else if 0xE0 <= b0 <= 0xEF then
      var lo := if b0 == 0xE0 then 0xA0 else 0x80;
      var hi := if b0 == 0xED then 0x9F else 0xBF;
      if |bs| >= 3 && lo <= bs[1] as int <= hi && IsCont(bs[2]) then
        Some((((b0 - 0xE0) * 4096 + (bs[1] as int - 0x80) * 64 + (bs[2] as int - 0x80)) as char, 3))
      else None
    else if 0xF0 <= b0 <= 0xF4 then
      var lo := if b0 == 0xF0 then 0x90 else 0x80;
      var hi := if b0 == 0xF4 then 0x8F else 0xBF;
      if |bs| >= 4 && lo <= bs[1] as int <= hi && IsCont(bs[2]) && IsCont(bs[3]) then
        Some((((b0 - 0xF0) * 262144 + (bs[1] as int - 0x80) * 4096 + (bs[2] as int - 0x80) * 64
               + (bs[3] as int - 0x80)) as char, 4))
      else None
    else None
  }

  /** Decodes `bs`, which starts at offset `start` of the whole input. */
  function DecodeFrom(bs: seq<Byte>, start: nat): (r: Result<string, nat>)
    ensures r.Failure? ==> start <= r.error < start + |bs|
    decreases |bs|
  {
    if |bs| == 0 then Success("")
    else
      match ReadChar(bs)
      case None => Failure(start)
      case Some((c, n)) =>
        var rest :- DecodeFrom(bs[n..], start + n);
        Success([c] + rest)
  }

  /** `bytes.decode('utf-8')`: the text, or the offset of the first
      ill-formed sequence. */
  function Decode(bs: seq<Byte>): (r: Result<string, nat>)
    ensures r.Failure? ==> r.error < |bs|
  {
    DecodeFrom(bs, 0)
  }

  lemma ReadOneByte(c: char, rest: seq<Byte>)
    requires c as int < 0x80
    ensures ReadChar(EncodeChar(c) + rest) == Some((c, 1))
  {
  }

  lemma ReadTwoBytes(c: char, rest: seq<Byte>)
    requires 0x80 <= c as int < 0x800
    ensures ReadChar(EncodeChar(c) + rest) == Some((c, 2))
  {
    var cp := c as int;
    var bs := EncodeChar(c) + rest;
    assert bs[0] as int == 0xC0 + cp / 64 && bs[1] as int == 0x80 + cp % 64;
    assert (cp / 64) * 64 + cp % 64 == cp;
  }

  lemma ReadThreeBytes(c: char, rest: seq<Byte>)
    requires 0x800 <= c as int < 0x10000
    ensures ReadChar(EncodeChar(c) + rest) == Some((c, 3))
  {
    var cp := c as int;
    var bs := EncodeChar(c) + rest;
    assert bs[0] as int == 0xE0 + cp / 4096;
    assert bs[1] as int == 0x80 + (cp / 64) % 64 && bs[2] as int == 0x80 + cp % 64;
    assert (cp / 64) % 64 == cp / 64 - (cp / 4096) * 64;
    assert (cp / 4096) * 4096 + ((cp / 64) % 64) * 64 + cp % 64 == cp;
  }

  lemma ReadFourBytes(c: char, rest: seq<Byte>)
    requires 0x10000 <= c as int
    ensures ReadChar(EncodeChar(c) + rest) == Some((c, 4))
  {
    var cp := c as int;
    var bs := EncodeChar(c) + rest;
    assert cp < 0x110000;
    assert bs[0] as int == 0xF0 + cp / 262144;
    assert bs[1] as int == 0x80 + (cp / 4096) % 64;
    assert bs[2] as int == 0x80 + (cp / 64) % 64 && bs[3] as int == 0x80 + cp % 64;
    assert (cp / 4096) % 64 == cp / 4096 - (cp / 262144) * 64;
    assert (cp / 64) % 64 == cp / 64 - (cp / 4096) * 64;
    assert (cp / 262144) * 262144 + ((cp / 4096) % 64) * 4096 + ((cp / 64) % 64) * 64 + cp % 64 == cp;
  }

  /** The encoding of a scalar value reads back as that value, whatever
      follows it. */
  lemma ReadEncodedChar(c: char, rest: seq<Byte>)
    ensures ReadChar(EncodeChar(c) + rest) == Some((c, |EncodeChar(c)|))
  {
    var cp := c as int;
    if cp < 0x80 {
      ReadOneByte(c, rest);
    } else if cp < 0x800 {
      ReadTwoBytes(c, rest);
    } else if cp < 0x10000 {
      ReadThreeBytes(c, rest);
    } else {
      ReadFourBytes(c, rest);
    }
  }

  /** Every string survives encoding and strict decoding. */
  lemma {:induction false} DecodeEncode(s: string, start: nat)
    ensures DecodeFrom(Encode(s), start) == Success(s)
    decreases |s|
  {
    if |s| > 0 {
      var e := EncodeChar(s[0]);
      ReadEncodedChar(s[0], Encode(s[1..]));
      assert Encode(s) == e + Encode(s[1..]);
      assert (e + Encode(s[1..]))[|e|..] == Encode(s[1..]);
      DecodeEncode(s[1..], start + |e|);
      assert [s[0]] + s[1..] == s;
    }
  }

  lemma ReadTwoBytesBack(bs: seq<Byte>)
    requires |bs| > 0 && ReadChar(bs).Some? && ReadChar(bs).value.1 == 2
    ensures EncodeChar(ReadChar(bs).value.0) == bs[..2]
  {
    var b0 := bs[0] as int;
    var b1 := bs[1] as int;
    var cp := (b0 - 0xC0) * 64 + (b1 - 0x80);
    assert ReadChar(bs).value.0 as int == cp;
    assert cp / 64 == b0 - 0xC0 && cp % 64 == b1 - 0x80;
  }

  lemma ReadThreeBytesBack(bs: seq<Byte>)
    requires |bs| > 0 && ReadChar(bs).Some? && ReadChar(bs).value.1 == 3
    ensures EncodeChar(ReadChar(bs).value.0) == bs[..3]
  {
    var b0 := bs[0] as int;
    var b1 := bs[1] as int;
    var b2 := bs[2] as int;
    var cp := (b0 - 0xE0) * 4096 + (b1 - 0x80) * 64 + (b2 - 0x80);
    assert ReadChar(bs).value.0 as int == cp;
    assert cp / 64 == (b0 - 0xE0) * 64 + (b1 - 0x80) && cp % 64 == b2 - 0x80;
    assert cp / 4096 == b0 - 0xE0;
    assert (cp / 64) % 64 == b1 - 0x80;
  }

  lemma ReadFourBytesBack(bs: seq<Byte>)
    requires |bs| > 0 && ReadChar(bs).Some? && ReadChar(bs).value.1 == 4
    ensures EncodeChar(ReadChar(bs).value.0) == bs[..4]
  {
    var b0 := bs[0] as int;
    var b1 := bs[1] as int;
    var b2 := bs[2] as int;
    var b3 := bs[3] as int;
    var cp := (b0 - 0xF0) * 262144 + (b1 - 0x80) * 4096 + (b2 - 0x80) * 64 + (b3 - 0x80);
    assert ReadChar(bs).value.0 as int == cp;
    assert cp / 64 == (b0 - 0xF0) * 4096 + (b1 - 0x80) * 64 + (b2 - 0x80) && cp % 64 == b3 - 0x80;
    assert cp / 4096 == (b0 - 0xF0) * 64 + (b1 - 0x80);
    assert cp / 262144 == b0 - 0xF0;
    assert (cp / 64) % 64 == b2 - 0x80;
    assert (cp / 4096) % 64 == b1 - 0x80;
  }

  /** A well-formed sequence is exactly the encoding of the value read from
      it: the decoder accepts no second spelling of any character. */
  lemma ReadCharIsEncoding(bs: seq<Byte>)
    requires |bs| > 0 && ReadChar(bs).Some?
    ensures EncodeChar(ReadChar(bs).value.0) == bs[..ReadChar(bs).value.1]
  {
    var n := ReadChar(bs).value.1;
    if n == 1 {
    } else if n == 2 {
      ReadTwoBytesBack(bs);
    } else if n == 3 {
      ReadThreeBytesBack(bs);
    } else {
      ReadFourBytesBack(bs);
    }
  }

  /** Whatever decodes, encodes back to the same bytes. */
  lemma {:induction false} EncodeDecoded(bs: seq<Byte>, start: nat)
    requires DecodeFrom(bs, start).Success?
    ensures Encode(DecodeFrom(bs, start).value) == bs
    decreases |bs|
  {
    if |bs| > 0 {
      var c := ReadChar(bs).value.0;
      var n := ReadChar(bs).value.1;
      var rest := DecodeFrom(bs[n..], start + n).value;
      var s := DecodeFrom(bs, start).value;
      assert s == [c] + rest;
      calc {
        Encode(s);
        == { assert s[0] == c && s[1..] == rest; }
        EncodeChar(c) + Encode(rest);
        == { ReadCharIsEncoding(bs); EncodeDecoded(bs[n..], start + n); }
        bs[..n] + bs[n..];
        == bs;
      }
    }
  }
}
