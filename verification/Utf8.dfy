/** UTF-8 as defined by section 3 of RFC 3629: the encoder, the strict decoder, and
    the facts the byte-indexed loops of this repository rely on. */
module Utf8 {
  import opened Wrappers

  type Byte = n: int | 0 <= n < 256

  function EncodeChar(c: char): (b: seq<Byte>)
    ensures 1 <= |b| <= 4
    ensures c as int < 0x80 ==> b == [c as int]
    ensures c as int >= 0x80 ==> forall i :: 0 <= i < |b| ==> b[i] >= 0x80
  {
    var n := c as int;
    if n < 0x80 then [n]
    else if n < 0x800 then [0xC0 + n / 64, 0x80 + n % 64]
    else if n < 0x1_0000 then [0xE0 + n / 4096, 0x80 + n / 64 % 64, 0x80 + n % 64]
    else [0xF0 + n / 262144, 0x80 + n / 4096 % 64, 0x80 + n / 64 % 64, 0x80 + n % 64]
  }

  function Encode(s: string): seq<Byte> {
    if s == [] then [] else EncodeChar(s[0]) + Encode(s[1..])
  }

  predicate Continuation(b: Byte) { 0x80 <= b < 0xC0 }

  /** The payload bits of a byte whose tag bits are `tag`. */
  function Bits(b: Byte, tag: int): int { b as int - tag }

  /** A Unicode scalar value, that is, a value a `char` can hold. */
  predicate IsScalar(n: int) { 0 <= n < 0xD800 || 0xE000 <= n < 0x11_0000 }

  /** The character at the front of `b` and its length in bytes. Overlong forms,
      surrogates and values past U+10FFFF are refused. */
  function DecodeFirst(b: seq<Byte>): (r: Option<(char, nat)>)
    ensures r.Some? ==> 1 <= r.value.1 <= |b|
  {
    if b == [] then None
    else if b[0] < 0x80 then Some((b[0] as char, 1))
    else if 0xC0 <= b[0] < 0xE0 then
      if |b| < 2 || !Continuation(b[1]) then None else
      var n: int := Bits(b[0], 0xC0) * 64 + Bits(b[1], 0x80);
      if n < 0x80 then None else Some((n as char, 2))
    else if 0xE0 <= b[0] < 0xF0 then
      if |b| < 3 || !Continuation(b[1]) || !Continuation(b[2]) then None else
      var n: int := Bits(b[0], 0xE0) * 4096 + Bits(b[1], 0x80) * 64 + Bits(b[2], 0x80);
      if n < 0x800 || !IsScalar(n) then None else Some((n as char, 3))
    else if 0xF0 <= b[0] < 0xF8 then
      if |b| < 4 || !Continuation(b[1]) || !Continuation(b[2]) || !Continuation(b[3]) then None else
      var n: int := Bits(b[0], 0xF0) * 262144 + Bits(b[1], 0x80) * 4096 + Bits(b[2], 0x80) * 64 + Bits(b[3], 0x80);
      if n < 0x1_0000 || !IsScalar(n) then None else Some((n as char, 4))
    else None
  }

  lemma SplitBits(high: int, low: int)
    requires 0 <= low < 64
    ensures (high * 64 + low) / 64 == high && (high * 64 + low) % 64 == low
  {
  }

  lemma EncodeTwo(x: int, y: int)
    requires 0 <= x < 32 && 0 <= y < 64 && x * 64 + y >= 0x80
    ensures EncodeChar((x * 64 + y) as char) == [0xC0 + x, 0x80 + y]
  {
    SplitBits(x, y);
  }

  lemma EncodeThree(x: int, y: int, z: int)
    requires 0 <= x < 16 && 0 <= y < 64 && 0 <= z < 64
    requires x * 4096 + y * 64 + z >= 0x800 && IsScalar(x * 4096 + y * 64 + z)
    ensures EncodeChar((x * 4096 + y * 64 + z) as char) == [0xE0 + x, 0x80 + y, 0x80 + z]
  {
    var n := x * 4096 + y * 64 + z;
    assert n == (x * 64 + y) * 64 + z;
    SplitBits(x * 64 + y, z);
    SplitBits(x, y);
    QuotientOfQuotient(n);
  }

  lemma EncodeFour(x: int, y: int, z: int, w: int)
    requires 0 <= x < 8 && 0 <= y < 64 && 0 <= z < 64 && 0 <= w < 64
    requires x * 262144 + y * 4096 + z * 64 + w >= 0x1_0000 && IsScalar(x * 262144 + y * 4096 + z * 64 + w)
    ensures EncodeChar((x * 262144 + y * 4096 + z * 64 + w) as char) == [0xF0 + x, 0x80 + y, 0x80 + z, 0x80 + w]
  {
    var n := x * 262144 + y * 4096 + z * 64 + w;
    var high := (x * 64 + y) * 64 + z;
    assert n == high * 64 + w;
    SplitBits(high, w);
    SplitBits(x * 64 + y, z);
    SplitBits(x, y);
    QuotientOfQuotient(n);
  }

  lemma EncodeDecodedFirst(b: seq<Byte>)
    requires DecodeFirst(b).Some?
    ensures var (c, n) := DecodeFirst(b).value; b[..n] == EncodeChar(c)
  {
    hide EncodeChar;
    if b[0] >= 0xF0 {
      EncodeFour(Bits(b[0], 0xF0), Bits(b[1], 0x80), Bits(b[2], 0x80), Bits(b[3], 0x80));
    } else if b[0] >= 0xE0 {
      EncodeThree(Bits(b[0], 0xE0), Bits(b[1], 0x80), Bits(b[2], 0x80));
    } else if b[0] >= 0x80 {
      EncodeTwo(Bits(b[0], 0xC0), Bits(b[1], 0x80));
    } else {
      EncodeOne(b[0]);
    }
  }

  lemma EncodeOne(n: Byte)
    requires n < 0x80
    ensures EncodeChar(n as char) == [n]
  {
  }

  lemma QuotientOfQuotient(n: int)
    ensures n / 64 / 64 == n / 4096 && n / 4096 / 64 == n / 262144
  {
  }

  /** `str::from_utf8`: the text the bytes encode, or nothing. */
  function Decode(b: seq<Byte>): Option<string> {
    if b == [] then Some([])
    else match DecodeFirst(b)
      case None => None
      case Some(first) =>
        match Decode(b[first.1..])
        case None => None
        case Some(rest) => Some([first.0] + rest)
  }

  lemma EncodeCons(c: char, rest: string)
    ensures Encode([c] + rest) == EncodeChar(c) + Encode(rest)
  {
    assert ([c] + rest)[1..] == rest;
  }

  /** Only encodings decode: the decoder is strict. */
  lemma {:induction false} EncodeDecoded(b: seq<Byte>)
    requires Decode(b).Some?
    ensures Encode(Decode(b).value) == b
  {
    hide DecodeFirst, EncodeChar;
    if b != [] {
      var first := DecodeFirst(b).value;
      EncodeDecodedFirst(b);
      EncodeDecoded(b[first.1..]);
      EncodeCons(first.0, Decode(b[first.1..]).value);
      assert b == b[..first.1] + b[first.1..];
    }
  }

  lemma DecodeTwo(x: int, y: int, rest: seq<Byte>)
    requires 0 <= x < 32 && 0 <= y < 64 && x * 64 + y >= 0x80
    ensures DecodeFirst([0xC0 + x, 0x80 + y] + rest) == Some(((x * 64 + y) as char, 2))
  {
    var b: seq<Byte> := [0xC0 + x, 0x80 + y] + rest;
    assert b[0] == 0xC0 + x && b[1] == 0x80 + y;
  }

  lemma DecodeThree(x: int, y: int, z: int, rest: seq<Byte>)
    requires 0 <= x < 16 && 0 <= y < 64 && 0 <= z < 64
    requires x * 4096 + y * 64 + z >= 0x800 && IsScalar(x * 4096 + y * 64 + z)
    ensures DecodeFirst([0xE0 + x, 0x80 + y, 0x80 + z] + rest) == Some(((x * 4096 + y * 64 + z) as char, 3))
  {
    var b: seq<Byte> := [0xE0 + x, 0x80 + y, 0x80 + z] + rest;
    assert b[0] == 0xE0 + x && b[1] == 0x80 + y && b[2] == 0x80 + z;
  }

  lemma DecodeFour(x: int, y: int, z: int, w: int, rest: seq<Byte>)
    requires 0 <= x < 8 && 0 <= y < 64 && 0 <= z < 64 && 0 <= w < 64
    requires x * 262144 + y * 4096 + z * 64 + w >= 0x1_0000 && IsScalar(x * 262144 + y * 4096 + z * 64 + w)
    ensures DecodeFirst([0xF0 + x, 0x80 + y, 0x80 + z, 0x80 + w] + rest) ==
            Some(((x * 262144 + y * 4096 + z * 64 + w) as char, 4))
  {
    var b: seq<Byte> := [0xF0 + x, 0x80 + y, 0x80 + z, 0x80 + w] + rest;
    assert b[0] == 0xF0 + x && b[1] == 0x80 + y && b[2] == 0x80 + z && b[3] == 0x80 + w;
  }

  /** The digits of a number to the base 64. */
  lemma Base64(n: int)
    ensures n == n / 64 * 64 + n % 64
    ensures n == n / 4096 * 4096 + n / 64 % 64 * 64 + n % 64
    ensures n == n / 262144 * 262144 + n / 4096 % 64 * 4096 + n / 64 % 64 * 64 + n % 64
  {
    QuotientOfQuotient(n);
  }

  lemma DecodeFirstEncoded(c: char, rest: seq<Byte>)
    ensures DecodeFirst(EncodeChar(c) + rest) == Some((c, |EncodeChar(c)|))
  {
    hide DecodeFirst;
    var n := c as int;
    Base64(n);
    if n < 0x80 {
      DecodeOne(n, rest);
    } else if n < 0x800 {
      DecodeTwo(n / 64, n % 64, rest);
    } else if n < 0x1_0000 {
      DecodeThree(n / 4096, n / 64 % 64, n % 64, rest);
    } else {
      DecodeFour(n / 262144, n / 4096 % 64, n / 64 % 64, n % 64, rest);
    }
  }

  lemma DecodeOne(n: Byte, rest: seq<Byte>)
    requires n < 0x80
    ensures DecodeFirst([n] + rest) == Some((n as char, 1))
  {
  }

  /** Every text survives the round trip. */
  lemma {:induction false} DecodeEncoded(s: string)
    ensures Decode(Encode(s)) == Some(s)
  {
    if s != [] {
      DecodeEncoded(s[1..]);
      DecodeCons(s[0], Encode(s[1..]));
      assert s == [s[0]] + s[1..];
    }
  }

  lemma DecodeCons(c: char, rest: seq<Byte>)
    ensures Decode(EncodeChar(c) + rest) ==
            match Decode(rest) case None => None case Some(t) => Some([c] + t)
  {
    DecodeFirstEncoded(c, rest);
    var b, n := EncodeChar(c) + rest, |EncodeChar(c)|;
    assert b[n..] == rest;
    assert DecodeFirst(b) == Some((c, n));
  }

  lemma {:induction false} EncodeAppend(s: string, t: string)
    ensures Encode(s + t) == Encode(s) + Encode(t)
  {
    if s == [] {
      assert s + t == t;
    } else {
      assert (s + t)[0] == s[0] && (s + t)[1..] == s[1..] + t;
      EncodeAppend(s[1..], t);
    }
  }

  predicate Ascii(s: string) { forall i :: 0 <= i < |s| ==> s[i] as int < 0x80 }

  lemma {:induction false} EncodeAscii(s: string)
    requires Ascii(s)
    ensures |Encode(s)| == |s|
    ensures forall i :: 0 <= i < |s| ==> Encode(s)[i] == s[i] as int
  {
    if s != [] {
      EncodeAscii(s[1..]);
      forall i | 0 <= i < |s|
        ensures Encode(s)[i] == s[i] as int
      {
        if i > 0 { assert s[i] == s[1..][i - 1]; }
      }
    }
  }

  /** The length Rust reports for a string: bytes, not characters. */
  function ByteLength(s: string): nat { |Encode(s)| }
}
