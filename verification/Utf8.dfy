// UTF-8 (section 3 of RFC 3629): the encoding that Buffer.from(value, 'utf8') applies, and a decoder that undoes it.

module Utf8 {
  import opened Options

  newtype byte = x: int | 0 <= x < 256

  function EncodeChar(c: char): (bytes: seq<byte>)
    ensures 1 <= |bytes| <= 4
  {
    var n := c as int;
    if n < 0x80 then [n as byte]
    else if n < 0x800 then [(0xC0 + n / 64) as byte, Tail(n)]
    else if n < 0x10000 then [(0xE0 + n / 4096) as byte, Tail(n / 64), Tail(n)]
    else [(0xF0 + n / 262144) as byte, Tail(n / 4096), Tail(n / 64), Tail(n)]
  }

  /** A continuation byte carries six bits. */
  function Tail(n: nat): byte {
    (0x80 + n % 64) as byte
  }

  function Encode(s: string): seq<byte> {
    if s == [] then [] else EncodeChar(s[0]) + Encode(s[1..])
  }

  /** The character at the front of `bytes` and how many bytes it took. */
  function DecodeChar(bytes: seq<byte>): (r: Option<(char, nat)>)
    ensures r.Some? ==> 1 <= r.value.1 <= |bytes|
  {
    if bytes == [] then None
    else
      var lead := bytes[0] as int;
      if lead < 0x80 then Scalar(lead, 0, 1)
      else if 0xC0 <= lead < 0xE0 && Continues(bytes, 2) then Scalar((lead - 0xC0) * 64 + Bits(bytes[1]), 0x80, 2)
      else if 0xE0 <= lead < 0xF0 && Continues(bytes, 3) then
        Scalar((lead - 0xE0) * 4096 + Bits(bytes[1]) * 64 + Bits(bytes[2]), 0x800, 3)
      else if 0xF0 <= lead < 0xF8 && Continues(bytes, 4) then
        Scalar((lead - 0xF0) * 262144 + Bits(bytes[1]) * 4096 + Bits(bytes[2]) * 64 + Bits(bytes[3]), 0x10000, 4)
      else None
  }

  function Bits(b: byte): nat {
    b as int % 64
  }

  /** The bytes after the first, up to `length`, are continuation bytes. */
  predicate Continues(bytes: seq<byte>, length: nat) {
    length <= |bytes| && forall i | 1 <= i < length :: 0x80 <= bytes[i] < 0xC0
  }

  /** A code point that is not a surrogate, and does not fit in fewer bytes. */
  function Scalar(n: nat, least: nat, length: nat): Option<(char, nat)> {
    if least <= n && (n < 0xD800 || 0xE000 <= n < 0x110000) then Some((n as char, length)) else None
  }

  function Decode(bytes: seq<byte>): Option<string> {
    if bytes == [] then Some([])
    else
      match DecodeChar(bytes)
      case None => None
      case Some((c, n)) =>
        match Decode(bytes[n..])
        case None => None
        case Some(s) => Some([c] + s)
  }

  lemma TailBits(n: nat)
    ensures Bits(Tail(n)) == n % 64
  {
  }

  /** Groups of six bits put back together give the number. */
  lemma Groups(n: nat)
    ensures n == n / 64 * 64 + n % 64
    ensures n == n / 4096 * 4096 + n / 64 % 64 * 64 + n % 64
    ensures n == n / 262144 * 262144 + n / 4096 % 64 * 4096 + n / 64 % 64 * 64 + n % 64
  {
    assert n / 4096 == n / 64 / 64;
    assert n / 262144 == n / 4096 / 64;
  }

  lemma CharRoundTrip(c: char, rest: seq<byte>)
    ensures DecodeChar(EncodeChar(c) + rest) == Some((c, |EncodeChar(c)|))
  {
    var n := c as int;
    var bytes := EncodeChar(c) + rest;
    assert forall i | 0 <= i < |EncodeChar(c)| :: bytes[i] == EncodeChar(c)[i];
    if n >= 0x10000 {
      FourBytes(c, bytes);
    } else if n >= 0x800 {
      ThreeBytes(c, bytes);
    } else if n >= 0x80 {
      TwoBytes(c, bytes);
    }
  }

  lemma TwoBytes(c: char, bytes: seq<byte>)
    requires 0x80 <= c as int < 0x800 && |bytes| >= 2
    requires bytes[0] == (0xC0 + c as int / 64) as byte && bytes[1] == Tail(c as int)
    ensures DecodeChar(bytes) == Some((c, 2))
  {
    var n := c as int;
    Groups(n);
    TailBits(n);
    hide Tail, Bits;
  }

  lemma ThreeBytes(c: char, bytes: seq<byte>)
    requires 0x800 <= c as int < 0x10000 && |bytes| >= 3
    requires bytes[0] == (0xE0 + c as int / 4096) as byte
    requires bytes[1] == Tail(c as int / 64) && bytes[2] == Tail(c as int)
    ensures DecodeChar(bytes) == Some((c, 3))
  {
    var n := c as int;
    Groups(n);
    TailBits(n);
    TailBits(n / 64);
    hide Tail, Bits;
  }

  lemma FourBytes(c: char, bytes: seq<byte>)
    requires 0x10000 <= c as int && |bytes| >= 4
    requires bytes[0] == (0xF0 + c as int / 262144) as byte
    requires bytes[1] == Tail(c as int / 4096) && bytes[2] == Tail(c as int / 64) && bytes[3] == Tail(c as int)
    ensures DecodeChar(bytes) == Some((c, 4))
  {
    var n := c as int;
    Groups(n);
    TailBits(n);
    TailBits(n / 64);
    TailBits(n / 4096);
    hide Tail, Bits;
  }

  lemma TwoBack(a: nat, b: nat)
    requires a < 0x20 && b < 64
    ensures (a * 64 + b) / 64 == a && (a * 64 + b) % 64 == b
  {
  }

  lemma ThreeBack(a: nat, b: nat, c: nat)
    requires b < 64 && c < 64
    ensures var n := a * 4096 + b * 64 + c; n / 4096 == a && n / 64 % 64 == b && n % 64 == c
  {
    var n := a * 4096 + b * 64 + c;
    assert n == (a * 64 + b) * 64 + c;
    assert n / 64 == a * 64 + b;
  }

  lemma FourBack(a: nat, b: nat, c: nat, d: nat)
    requires b < 64 && c < 64 && d < 64
    ensures var n := a * 262144 + b * 4096 + c * 64 + d;
      n / 262144 == a && n / 4096 % 64 == b && n / 64 % 64 == c && n % 64 == d
  {
    var n := a * 262144 + b * 4096 + c * 64 + d;
    assert n == (a * 4096 + b * 64 + c) * 64 + d;
    assert n / 64 == a * 4096 + b * 64 + c;
    ThreeBack(a, b, c);
    assert n / 4096 == n / 64 / 64 && n / 262144 == n / 64 / 4096;
  }

  /** Only the encoding of a character is read as that character: no other bytes, and no longer form. */
  lemma DecodedChar(bytes: seq<byte>)
    requires DecodeChar(bytes).Some?
    ensures bytes[..DecodeChar(bytes).value.1] == EncodeChar(DecodeChar(bytes).value.0)
  {
    var lead := bytes[0] as int;
    if 0xC0 <= lead < 0xE0 {
      DecodedTwo(bytes);
    } else if 0xE0 <= lead < 0xF0 {
      DecodedThree(bytes);
    } else if 0xF0 <= lead {
      DecodedFour(bytes);
    }
  }

  /** A continuation byte is the one that carries its bits. */
  lemma TailOfBits(n: nat, b: byte)
    requires 0x80 <= b < 0xC0 && n % 64 == Bits(b)
    ensures Tail(n) == b
  {
  }

  lemma DecodedTwo(bytes: seq<byte>)
    requires DecodeChar(bytes).Some? && 0xC0 <= bytes[0] < 0xE0
    ensures bytes[..DecodeChar(bytes).value.1] == EncodeChar(DecodeChar(bytes).value.0)
  {
    var n := DecodeChar(bytes).value.0 as int;
    TwoBack(bytes[0] as int - 0xC0, Bits(bytes[1]));
    TailOfBits(n, bytes[1]);
    hide Tail, Bits;
  }

  lemma DecodedThree(bytes: seq<byte>)
    requires DecodeChar(bytes).Some? && 0xE0 <= bytes[0] < 0xF0
    ensures bytes[..DecodeChar(bytes).value.1] == EncodeChar(DecodeChar(bytes).value.0)
  {
    var n := DecodeChar(bytes).value.0 as int;
    ThreeBack(bytes[0] as int - 0xE0, Bits(bytes[1]), Bits(bytes[2]));
    TailOfBits(n / 64, bytes[1]);
    TailOfBits(n, bytes[2]);
    hide Tail, Bits;
  }

  lemma DecodedFour(bytes: seq<byte>)
    requires DecodeChar(bytes).Some? && 0xF0 <= bytes[0]
    ensures bytes[..DecodeChar(bytes).value.1] == EncodeChar(DecodeChar(bytes).value.0)
  {
    var n := DecodeChar(bytes).value.0 as int;
    FourBack(bytes[0] as int - 0xF0, Bits(bytes[1]), Bits(bytes[2]), Bits(bytes[3]));
    TailOfBits(n / 4096, bytes[1]);
    TailOfBits(n / 64, bytes[2]);
    TailOfBits(n, bytes[3]);
    hide Tail, Bits;
  }

  /** What can be read is an encoding, and of one text only. */
  lemma {:induction false} DecodedIsEncoded(bytes: seq<byte>)
    requires Decode(bytes).Some?
    ensures Encode(Decode(bytes).value) == bytes
    decreases |bytes|
  {
    hide DecodeChar, EncodeChar;
    if bytes != [] {
      var (c, n) := DecodeChar(bytes).value;
      DecodedChar(bytes);
      DecodedIsEncoded(bytes[n..]);
      EncodeFirst(c, Decode(bytes[n..]).value);
      assert bytes == bytes[..n] + bytes[n..];
      hide Encode;
    }
  }

  lemma EncodeFirst(c: char, s: string)
    ensures Encode([c] + s) == EncodeChar(c) + Encode(s)
  {
    assert ([c] + s)[1..] == s;
  }

  /** Encoding loses nothing: the text can be read back from its bytes. */
  lemma {:induction false} RoundTrip(s: string)
    ensures Decode(Encode(s)) == Some(s)
  {
    if s != [] {
      CharRoundTrip(s[0], Encode(s[1..]));
      RoundTrip(s[1..]);
      hide DecodeChar;
      hide EncodeChar;
      assert Encode(s)[|EncodeChar(s[0])|..] == Encode(s[1..]);
      assert s == [s[0]] + s[1..];
    }
  }

  /** Writing two texts one after the other writes their concatenation. */
  lemma {:induction false} EncodeConcat(s: string, t: string)
    ensures Encode(s + t) == Encode(s) + Encode(t)
  {
    hide EncodeChar;
    if s == [] {
      assert s + t == t;
    } else {
      assert (s + t)[1..] == s[1..] + t;
      EncodeConcat(s[1..], t);
    }
  }
}
