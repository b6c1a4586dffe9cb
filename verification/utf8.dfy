/** UTF-8 as the host language encodes and strictly decodes it (RFC 3629). */
module Utf8 {
  import opened Wrappers

  type byte = b: int | 0 <= b < 256

  function EncodeChar(c: char): (b: seq<byte>)
    ensures 1 <= |b| <= 4
  {
    var n := c as int;
    if n < 0x80 then [n]
    else if n < 0x800 then [0xC0 + n / 64, 0x80 + n % 64]
    else if n < 0x10000 then [0xE0 + n / 4096, 0x80 + n / 64 % 64, 0x80 + n % 64]
    else [0xF0 + n / 262144, 0x80 + n / 4096 % 64, 0x80 + n / 64 % 64, 0x80 + n % 64]
  }

  function Encode(s: string): seq<byte> {
    if s == "" then [] else EncodeChar(s[0]) + Encode(s[1..])
  }

  predicate Tail(b: byte) {
    0x80 <= b < 0xC0
  }

  /** A code point that is neither a surrogate nor beyond the last one. */
  predicate Scalar(n: int) {
    0 <= n < 0xD800 || 0xE000 <= n < 0x110000
  }

  function Two(a: int, b: int): int {
    (a - 0xC0) * 64 + (b - 0x80)
  }

  function Three(a: int, b: int, c: int): int {
    (a - 0xE0) * 4096 + (b - 0x80) * 64 + (c - 0x80)
  }

  function Four(a: int, b: int, c: int, d: int): int {
    (a - 0xF0) * 262144 + (b - 0x80) * 4096 + (c - 0x80) * 64 + (d - 0x80)
  }

  /**
    The character at the head of `b` and the number of its bytes; None for a stray, overlong,
    surrogate or out-of-range sequence.
   */
  function First(b: seq<byte>): (r: Option<(char, nat)>)
    requires b != []
    ensures r.Some? ==> 1 <= r.value.1 <= |b|
  {
    if b[0] < 0x80 then Some((b[0] as char, 1))
    else if 0xC2 <= b[0] < 0xE0 && |b| >= 2 && Tail(b[1]) then
      Some((Two(b[0], b[1]) as char, 2))
    else if 0xE0 <= b[0] < 0xF0 && |b| >= 3 && Tail(b[1]) && Tail(b[2]) then
      var n := Three(b[0], b[1], b[2]);
      if n >= 0x800 && Scalar(n) then Some((n as char, 3)) else None
    else if 0xF0 <= b[0] < 0xF5 && |b| >= 4 && Tail(b[1]) && Tail(b[2]) && Tail(b[3]) then
      var n := Four(b[0], b[1], b[2], b[3]);
      if n >= 0x10000 && Scalar(n) then Some((n as char, 4)) else None
    else None
  }

  /** `b.decode("utf-8")`, None where it raises. */
  function Decode(b: seq<byte>): Option<string>
    decreases |b|
  {
    if b == [] then Some("")
    else
      match First(b)
      case None => None
      case Some((c, n)) =>
        match Decode(b[n..])
        case None => None
        case Some(s) => Some([c] + s)
  }

  lemma FirstOfEncoded(c: char, rest: seq<byte>)
    ensures First(EncodeChar(c) + rest) == Some((c, |EncodeChar(c)|))
  {
    var n := c as int;
    var e := EncodeChar(c);
    var b := e + rest;
    assert Scalar(n);
    if n < 0x80 {
      assert b[0] == n;
    } else if n < 0x800 {
      assert b[0] == e[0] == 0xC0 + n / 64 && b[1] == e[1] == 0x80 + n % 64;
      assert Two(b[0], b[1]) == n;
    } else if n < 0x10000 {
      Base64(n);
      assert b[0] == e[0] && b[1] == e[1] && b[2] == e[2];
      assert Three(b[0], b[1], b[2]) == n;
    } else {
      Base64(n);
      assert b[0] == e[0] && b[1] == e[1] && b[2] == e[2] && b[3] == e[3];
      assert Four(b[0], b[1], b[2], b[3]) == n;
    }
  }

  lemma Base64(n: nat)
    ensures n == n / 4096 * 4096 + n / 64 % 64 * 64 + n % 64
    ensures n / 4096 == n / 262144 * 64 + n / 4096 % 64
  {
  }

  lemma EncodedFirst(b: seq<byte>)
    requires b != [] && First(b).Some?
    ensures EncodeChar(First(b).value.0) == b[..First(b).value.1]
  {
    hide EncodeChar, Two, Three, Four, Scalar, Tail;
    if b[0] < 0x80 {
      EncodedOne(b[0]);
    } else if b[0] < 0xE0 {
      EncodedTwo(b[0], b[1]);
    } else if b[0] < 0xF0 {
      EncodedThree(b[0], b[1], b[2]);
    } else {
      EncodedFour(b[0], b[1], b[2], b[3]);
    }
  }

  lemma EncodedOne(a: byte)
    requires a < 0x80
    ensures EncodeChar(a as char) == [a]
  {
  }

  lemma EncodedTwo(a: byte, b: byte)
    requires 0xC2 <= a < 0xE0 && Tail(b)
    ensures EncodeChar(Two(a, b) as char) == [a, b]
  {
    assert Two(a, b) / 64 == a - 0xC0;
  }

  lemma EncodedThree(a: byte, b: byte, c: byte)
    requires 0xE0 <= a < 0xF0 && Tail(b) && Tail(c) && Three(a, b, c) >= 0x800 && Scalar(Three(a, b, c))
    ensures EncodeChar(Three(a, b, c) as char) == [a, b, c]
  {
    ThreeDigits(a - 0xE0, b - 0x80, c - 0x80);
  }

  lemma EncodedFour(a: byte, b: byte, c: byte, d: byte)
    requires 0xF0 <= a < 0xF5 && Tail(b) && Tail(c) && Tail(d)
    requires Four(a, b, c, d) >= 0x10000 && Scalar(Four(a, b, c, d))
    ensures EncodeChar(Four(a, b, c, d) as char) == [a, b, c, d]
  {
    FourDigits(a - 0xF0, b - 0x80, c - 0x80, d - 0x80);
  }

  lemma ThreeDigits(x: int, y: int, z: int)
    requires 0 <= x && 0 <= y < 64 && 0 <= z < 64
    ensures var n := x * 4096 + y * 64 + z; n / 4096 == x && n / 64 % 64 == y && n % 64 == z
  {
    var n := x * 4096 + y * 64 + z;
    assert n / 64 == x * 64 + y;
  }

  lemma FourDigits(w: int, x: int, y: int, z: int)
    requires 0 <= w && 0 <= x < 64 && 0 <= y < 64 && 0 <= z < 64
    ensures var n := w * 262144 + x * 4096 + y * 64 + z;
      n / 262144 == w && n / 4096 % 64 == x && n / 64 % 64 == y && n % 64 == z
  {
    ThreeDigits(w * 64 + x, y, z);
  }

  /** What is encoded decodes to itself. */
  lemma {:induction false} DecodeEncode(s: string)
    ensures Decode(Encode(s)) == Some(s)
  {
    if s != "" {
      FirstOfEncoded(s[0], Encode(s[1..]));
      assert Encode(s)[|EncodeChar(s[0])|..] == Encode(s[1..]);
      DecodeEncode(s[1..]);
      assert [s[0]] + s[1..] == s;
    }
  }

  lemma DecodeStep(b: seq<byte>)
    requires b != [] && Decode(b).Some?
    ensures First(b).Some? && Decode(b[First(b).value.1..]).Some?
    ensures Decode(b).value == [First(b).value.0] + Decode(b[First(b).value.1..]).value
  {
  }

  lemma NothingDecodes()
    ensures Decode([]) == Some("") && Encode("") == []
  {
  }

  lemma EncodeCons(c: char, s: string)
    ensures Encode([c] + s) == EncodeChar(c) + Encode(s)
  {
    assert ([c] + s)[1..] == s;
  }

  /** Strict decoding loses nothing: there is one encoding of each text. */
  lemma {:induction false} EncodeDecode(b: seq<byte>)
    requires Decode(b).Some?
    ensures Encode(Decode(b).value) == b
    decreases |b|
  {
    hide *;
    if b == [] {
      NothingDecodes();
    } else {
      DecodeStep(b);
      var c, n := First(b).value.0, First(b).value.1;
      EncodedFirst(b);
      EncodeDecode(b[n..]);
      EncodeCons(c, Decode(b[n..]).value);
      assert b[..n] + b[n..] == b;
    }
  }

  lemma {:induction false} EncodeAppend(a: string, b: string)
    ensures Encode(a + b) == Encode(a) + Encode(b)
  {
    if a == "" {
      assert a + b == b;
    } else {
      assert (a + b)[1..] == a[1..] + b;
      EncodeAppend(a[1..], b);
    }
  }

  lemma {:induction false} EncodeAscii(s: string)
    requires forall i :: 0 <= i < |s| ==> s[i] < 128 as char
    ensures |Encode(s)| == |s|
  {
    if s != "" {
      EncodeAscii(s[1..]);
    }
  }
}
