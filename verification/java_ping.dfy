/** The Java server-list ping: variable-length integers, strings and the packets made of them. */
module JavaPing {
  import opened Wrappers
  import opened Utf8

  // ---------------------------------------------------------------------------
  // Variable-length integers
  // ---------------------------------------------------------------------------

  /** The unsigned LEB128 form of `v` (section 7.6 of DWARF 5). */
  function Leb(v: nat): (b: seq<byte>)
    ensures b != []
  {
    if v < 128 then [v] else [128 + v % 128] + Leb(v / 128)
  }

  function Power128(k: nat): (p: nat)
    ensures p > 0
  {
    if k == 0 then 1 else 128 * Power128(k - 1)
  }

  /** What reading at most `most` groups of seven bits yields, with the bytes used; None where the stream ends. */
  function Groups(b: seq<byte>, most: nat): (r: Option<(nat, nat)>)
    ensures r.Some? ==> r.value.1 <= |b|
  {
    if most == 0 then Some((0, 0))
    else if b == [] then None
    else if b[0] < 128 then Some((b[0] as int, 1))
    else
      match Groups(b[1..], most - 1)
      case None => None
      case Some((v, n)) => Some((b[0] as int - 128 + 128 * v, n + 1))
  }

  /** `read_varint`: five groups at most. */
  function ReadVarInt(b: seq<byte>): Option<(nat, nat)> {
    Groups(b, 5)
  }

  /** `write_varint` for the values it terminates on. */
  method WriteVarInt(v: nat) returns (out: seq<byte>)
    ensures out == Leb(v)
  {
    out := [];
    var val := v;
    while true
      invariant Leb(v) == out + Leb(val)
      decreases val
    {
      var low: byte := val % 128;
      val := val / 128;
      if val != 0 {
        ghost var before := out;
        out := out + [low + 128];
        assert before + ([low + 128] + Leb(val)) == out + Leb(val);
      } else {
        out := out + [low];
        break;
      }
    }
  }

  /** The value the writer's loop holds after `k` shifts; shifting a negative number rounds down. */
  function Shifted(v: int, k: nat): int {
    if k == 0 then v else Shifted(v, k - 1) / 128
  }

  /** Shifting by seven bits `k` times is dividing by 128 to the `k`, rounding down. */
  lemma {:induction false} ShiftedIs(v: int, k: nat)
    ensures Shifted(v, k) == v / Power128(k)
  {
    if k > 0 {
      ShiftedIs(v, k - 1);
      DividedTwice(v, Power128(k - 1));
    }
  }

  lemma DividedTwice(v: int, p: nat)
    requires p > 0
    ensures v / p / 128 == v / (128 * p)
  {
    var q, r := v / p, v % p;
    var high, mid := q / 128, q % 128;
    assert v == q * p + r;
    assert q == high * 128 + mid;
    Regrouped(q, high, mid, p);
    LowPart(mid, r, p);
    QuotientIs(v, high, 128 * p, mid * p + r);
  }

  lemma Regrouped(q: int, high: int, mid: int, p: nat)
    requires q == high * 128 + mid
    ensures q * p == high * (128 * p) + mid * p
  {
    assert (high * 128 + mid) * p == high * 128 * p + mid * p;
    assert high * 128 * p == high * (128 * p);
  }

  lemma LowPart(mid: nat, r: nat, p: nat)
    requires mid < 128 && r < p
    ensures mid * p + r < 128 * p
  {
    Scale(mid, 127, p);
  }

  lemma QuotientIs(v: int, q: int, m: nat, r: nat)
    requires m > 0 && r < m && v == q * m + r
    ensures v / m == q
  {
    var d := v / m - q;
    assert v == v / m * m + v % m;
    assert d * m == r - v % m by {
      assert (v / m - q) * m == v / m * m - q * m;
    }
    NoMultipleBetween(d, m);
  }

  lemma {:induction false} ShiftsDown(v: nat, k: nat)
    ensures Shifted(v, k) >= 0 && (v < Power128(k) ==> Shifted(v, k) == 0)
    ensures Shifted(v, k) * Power128(k) <= v
  {
    if k > 0 {
      ShiftsDown(v, k - 1);
      OneShift(v, Shifted(v, k - 1), Power128(k - 1));
    }
  }

  lemma OneShift(v: nat, s: nat, p: nat)
    requires s * p <= v && p > 0
    ensures s / 128 * (128 * p) <= v
    ensures v < 128 * p ==> s / 128 == 0
  {
    var q := s / 128;
    Scale(q * 128, s, p);
    assert q * (128 * p) == q * 128 * p;
    if v < 128 * p {
      BelowAfterScale(s, p);
    }
  }

  lemma Scale(a: nat, b: nat, p: nat)
    requires a <= b
    ensures a * p <= b * p
  {
  }

  lemma BelowAfterScale(s: nat, p: nat)
    requires p > 0 && s * p < 128 * p
    ensures s < 128
  {
    if s >= 128 {
      Scale(128, s, p);
    }
  }

  lemma {:induction false} NegativeStays(v: int, k: nat)
    requires v < 0
    ensures Shifted(v, k) < 0
  {
    if k > 0 {
      NegativeStays(v, k - 1);
    }
  }

  lemma {:induction false} BelowPower(v: nat)
    ensures v < Power128(v + 1)
  {
    if v > 0 {
      BelowPower(v - 1);
    }
  }

  /** The writer stops exactly for the non-negative values. */
  lemma WriterStopsIff(v: int)
    ensures (exists k :: Shifted(v, k) == 0) <==> v >= 0
  {
    if v >= 0 {
      BelowPower(v);
      ShiftsDown(v, v + 1);
    } else {
      forall k ensures Shifted(v, k) != 0 {
        NegativeStays(v, k);
      }
    }
  }

  /** Below 128 to the `k`, and only there, `k` bytes are enough. */
  lemma {:induction false} LebLength(v: nat, k: nat)
    requires k > 0
    ensures |Leb(v)| <= k <==> v < Power128(k)
  {
    if v >= 128 {
      if k > 1 {
        LebLength(v / 128, k - 1);
        assert v / 128 < Power128(k - 1) <==> v < 128 * Power128(k - 1);
      }
    } else {
      assert Power128(k - 1) >= 1;
    }
  }

  lemma OneByte(b: seq<byte>, most: nat)
    requires b != [] && most > 0
    ensures b[0] < 128 ==> Groups(b, most) == Some((b[0] as int, 1))
    ensures b[0] >= 128 && Groups(b[1..], most - 1).Some? ==>
      Groups(b, most) == Some((b[0] as int - 128 + 128 * Groups(b[1..], most - 1).value.0,
                               Groups(b[1..], most - 1).value.1 + 1))
    ensures b[0] >= 128 && Groups(b[1..], most - 1).None? ==> Groups(b, most) == None
  {
  }

  lemma LebParts(v: nat, rest: seq<byte>)
    ensures v < 128 ==> (Leb(v) + rest)[0] == v && |Leb(v)| == 1
    ensures v >= 128 ==>
      (Leb(v) + rest)[0] == 128 + v % 128 && (Leb(v) + rest)[1..] == Leb(v / 128) + rest
      && |Leb(v)| == 1 + |Leb(v / 128)|
  {
    if v >= 128 {
      var low: byte := 128 + v % 128;
      assert Leb(v) == [low] + Leb(v / 128);
      hide Leb;
      HeadAndTail(low, Leb(v / 128), rest);
    }
  }

  lemma HeadAndTail(low: byte, tail: seq<byte>, rest: seq<byte>)
    ensures ([low] + tail + rest)[0] == low && ([low] + tail + rest)[1..] == tail + rest
  {
  }

  /** Reading back gives the value below the reader's limit and leaves what follows. */
  lemma {:induction false} GroupsOfLeb(v: nat, rest: seq<byte>, most: nat)
    ensures Groups(Leb(v) + rest, most) == Some((v % Power128(most), if |Leb(v)| < most then |Leb(v)| else most))
  {
    hide *;
    if most == 0 {
      NoGroups(Leb(v) + rest);
    } else {
      LebParts(v, rest);
      OneByte(Leb(v) + rest, most);
      PowerStep(most);
      var p := Power128(most - 1);
      if v < 128 {
        SmallRemainder(v, 128 * p);
      } else {
        GroupsOfLeb(v / 128, rest, most - 1);
        LowGroup(v, p);
      }
    }
  }

  lemma NoGroups(b: seq<byte>)
    ensures Groups(b, 0) == Some((0, 0)) && Power128(0) == 1
  {
  }

  lemma PowerStep(k: nat)
    requires k > 0
    ensures Power128(k) == 128 * Power128(k - 1) && Power128(k - 1) >= 1
  {
  }

  lemma SmallRemainder(v: nat, m: nat)
    requires v < m
    ensures v % m == v
  {
  }

  lemma LowGroup(v: nat, p: nat)
    requires p > 0
    ensures v % 128 + 128 * (v / 128 % p) == v % (128 * p)
  {
    var q, r := v / 128 / p, v / 128 % p;
    assert v / 128 == q * p + r;
    assert v == 128 * (q * p + r) + v % 128;
    assert 128 * (q * p) == q * (128 * p);
    var low := v % 128 + 128 * r;
    assert low < 128 * p by {
      assert r <= p - 1;
    }
    RemainderIs(v, q, 128 * p, low);
  }

  lemma RemainderIs(v: nat, q: nat, m: nat, r: nat)
    requires m > 0 && r < m && v == q * m + r
    ensures v % m == r
  {
    var d := v / m - q;
    assert v == v / m * m + v % m;
    assert d * m == r - v % m by {
      assert (v / m - q) * m == v / m * m - q * m;
    }
    NoMultipleBetween(d, m);
  }

  lemma NoMultipleBetween(d: int, m: nat)
    requires -(m as int) < d * m < m
    ensures d == 0
  {
    assert (-d) * m == -(d * m);
    assert d >= 1 ==> d * m >= m;
    assert d <= -1 ==> (-d) * m >= m;
  }

  /** The reader returns the written value exactly below 2 to the 35, using the bytes written and no other. */
  lemma VarIntRoundTrip(v: nat, rest: seq<byte>)
    ensures ReadVarInt(Leb(v) + rest) == Some((v % 0x8_0000_0000, if |Leb(v)| < 5 then |Leb(v)| else 5))
    ensures ReadVarInt(Leb(v) + rest) == Some((v, |Leb(v)|)) <==> v < 0x8_0000_0000
  {
    GroupsOfLeb(v, rest, 5);
    LebLength(v, 5);
    assert Power128(5) == 0x8_0000_0000 by {
      assert Power128(2) == 16384;
      assert Power128(3) == 128 * Power128(2);
      assert Power128(4) == 128 * Power128(3);
    }
  }

  // ---------------------------------------------------------------------------
  // The stream
  // ---------------------------------------------------------------------------

  /** The bytes of a connection that are still to come; reading past them raises. */
  class StreamReader {
    var rest: seq<byte>

    constructor (bytes: seq<byte>)
      ensures rest == bytes
    {
      rest := bytes;
    }

    method ReadExactly(n: nat) returns (r: Option<seq<byte>>)
      modifies this
      ensures n <= |old(rest)| ==> r == Some(old(rest)[..n]) && rest == old(rest)[n..]
      ensures n > |old(rest)| ==> r == None
    {
      if n <= |rest| {
        r := Some(rest[..n]);
        rest := rest[n..];
      } else {
        r := None;
      }
    }

    method ReadVarIntHere() returns (r: Option<nat>)
      modifies this
      ensures match ReadVarInt(old(rest))
              case None => r == None
              case Some((v, n)) => r == Some(v) && rest == old(rest)[n..]
    {
      hide Resumed, Groups, Power128;
      var val: nat := 0;
      var weight: nat := 1;
      ResumedAtStart(rest);
      for i := 0 to 5
        invariant Resumed(old(rest), rest, i, val, weight)
      {
        ResumedStep(old(rest), rest, i, val, weight);
        var b := ReadExactly(1);
        if b == None {
          return None;
        }
        var group := b.value[0];
        val := val + weight * (group % 128);
        if group < 128 {
          return Some(val);
        }
        weight := weight * 128;
      }
      ResumedAtEnd(old(rest), rest, val, weight);
      r := Some(val);
    }
  }

  lemma ResumedAtStart(start: seq<byte>)
    ensures Resumed(start, start, 0, 0, 1)
  {
  }

  lemma ResumedAtEnd(start: seq<byte>, rest: seq<byte>, val: nat, weight: nat)
    requires Resumed(start, rest, 5, val, weight)
    ensures Groups(start, 5) == Some((val, 5)) && |start| >= 5 && rest == start[5..]
  {
  }

  lemma ResumedStep(start: seq<byte>, rest: seq<byte>, i: nat, val: nat, weight: nat)
    requires i < 5 && Resumed(start, rest, i, val, weight)
    ensures rest == [] ==> Groups(start, 5) == None
    ensures rest != [] && rest[0] < 128 ==>
      (Groups(start, 5) == Some((val + weight * (rest[0] % 128), i + 1)) && i + 1 <= |start| && rest[1..] == start[i + 1..])
    ensures rest != [] && rest[0] >= 128 ==> Resumed(start, rest[1..], i + 1, val + weight * (rest[0] % 128), weight * 128)
  {
    hide *;
    if rest == [] {
      NoByte(start, rest, i, val, weight);
    } else if rest[0] < 128 {
      SmallRemainder(rest[0], 128);
      LastStep(start, rest, i, val, weight);
    } else {
      ContinuedStep(start, rest, i, val, weight, rest[0] % 128);
    }
  }

  lemma NoByte(start: seq<byte>, rest: seq<byte>, i: nat, val: nat, weight: nat)
    requires i < 5 && Resumed(start, rest, i, val, weight) && rest == []
    ensures Groups(start, 5) == None
  {
    assert Groups(rest, 5 - i) == None;
  }

  lemma LastStep(start: seq<byte>, rest: seq<byte>, i: nat, val: nat, weight: nat)
    requires i < 5 && Resumed(start, rest, i, val, weight) && rest != [] && rest[0] < 128
    ensures Groups(start, 5) == Some((val + weight * rest[0], i + 1))
    ensures i + 1 <= |start| && rest[1..] == start[i + 1..]
  {
    assert start[i..][1..] == start[i + 1..];
    OneByte(rest, 5 - i);
    hide Groups;
  }

  lemma ContinuedStep(start: seq<byte>, rest: seq<byte>, i: nat, val: nat, weight: nat, low: nat)
    requires i < 5 && Resumed(start, rest, i, val, weight) && rest != [] && rest[0] >= 128 && low == rest[0] - 128
    ensures Resumed(start, rest[1..], i + 1, val + weight * low, weight * 128)
  {
    assert start[i..][1..] == start[i + 1..];
    OneByte(rest, 5 - i);
    hide Groups;
    var next := Groups(rest[1..], 4 - i);
    if next.Some? {
      Distributed(weight, low, next.value.0);
    }
  }

  lemma Distributed(weight: nat, low: nat, v: nat)
    ensures weight * (low + 128 * v) == weight * low + weight * 128 * v
  {
  }

  /** After `i` continued groups the reader holds `val`, and what it will return follows from the rest. */
  ghost predicate Resumed(start: seq<byte>, rest: seq<byte>, i: nat, val: nat, weight: nat) {
    i <= 5 && i + |rest| == |start| && start[i..] == rest
    && match Groups(rest, 5 - i)
       case None => Groups(start, 5) == None
       case Some((v, n)) => Groups(start, 5) == Some((val + weight * v, i + n))
  }

  // ---------------------------------------------------------------------------
  // Packets
  // ---------------------------------------------------------------------------

  function WriteString(s: string): seq<byte> {
    Leb(|Encode(s)|) + Encode(s)
  }

  const STATUS: nat := 1
  const DEFAULT_PROTOCOL: nat := 765

  predicate IsPort(port: int) {
    0 <= port < 0x10000
  }

  function HandshakeBody(protocol: nat, host: string, port: nat): seq<byte>
    requires IsPort(port)
  {
    Leb(0) + Leb(protocol) + WriteString(host) + [port / 256, port % 256] + Leb(STATUS)
  }

  function Framed(body: seq<byte>): seq<byte> {
    Leb(|body|) + body
  }

  /** What `java_server_ping` sends: the handshake and the status request; None where packing the port raises. */
  function Request(protocol: Option<nat>, host: string, port: int): Option<seq<byte>> {
    if !IsPort(port) then None
    else Some(Framed(HandshakeBody(protocol.GetOr(DEFAULT_PROTOCOL), host, port)) + Framed(Leb(0)))
  }

  /** A number at the head of a stream, with what follows it. */
  function NumberAt(b: seq<byte>): Option<(nat, seq<byte>)> {
    match ReadVarInt(b)
    case None => None
    case Some((v, n)) => Some((v, b[n..]))
  }

  /** A length-prefixed string at the head of a stream. */
  function StringAt(b: seq<byte>): Option<(string, seq<byte>)> {
    match NumberAt(b)
    case None => None
    case Some((n, rest)) =>
      if n > |rest| then None
      else
        match Decode(rest[..n])
        case None => None
        case Some(s) => Some((s, rest[n..]))
  }

  datatype Handshake = Handshake(protocol: nat, host: string, port: nat, next: nat)

  /** The handshake as a server takes it off the stream. */
  function HandshakeAt(b: seq<byte>): Option<(Handshake, seq<byte>)> {
    match NumberAt(b)
    case None => None
    case Some((length, body)) =>
      match NumberAt(body)
      case None => None
      case Some((id, b1)) =>
        match NumberAt(b1)
        case None => None
        case Some((protocol, b2)) =>
          match StringAt(b2)
          case None => None
          case Some((host, b3)) =>
            if |b3| < 2 then None
            else
              match NumberAt(b3[2..])
              case None => None
              case Some((next, b4)) =>
                if id == 0 && length + |b4| == |body|
                then Some((Handshake(protocol, host, b3[0] as int * 256 + b3[1], next), b4)) else None
  }

  const LIMIT: nat := 0x8_0000_0000

  lemma NumberWritten(v: nat, rest: seq<byte>)
    requires v < LIMIT
    ensures NumberAt(Leb(v) + rest) == Some((v, rest))
  {
    VarIntRoundTrip(v, rest);
    assert (Leb(v) + rest)[|Leb(v)|..] == rest;
  }

  lemma StringWritten(s: string, rest: seq<byte>)
    requires |Encode(s)| < LIMIT
    ensures StringAt(WriteString(s) + rest) == Some((s, rest))
  {
    var e := Encode(s);
    assert WriteString(s) + rest == Leb(|e|) + (e + rest);
    NumberWritten(|e|, e + rest);
    assert (e + rest)[..|e|] == e && (e + rest)[|e|..] == rest;
    DecodeEncode(s);
  }

  /** The handshake packet cut into the pieces its reader takes off. */
  lemma HandshakeTaken(length: nat, protocol: nat, host: string, port: nat, rest: seq<byte>)
    requires IsPort(port) && length < LIMIT && protocol < LIMIT && |Encode(host)| < LIMIT
    ensures var b3 := [port / 256, port % 256] + (Leb(STATUS) + rest);
      var body := Leb(0) + (Leb(protocol) + (WriteString(host) + b3));
      length + |rest| == |body| ==>
        HandshakeAt(Leb(length) + body) == Some((Handshake(protocol, host, port, STATUS), rest))
  {
    hide Leb, NumberAt, StringAt, WriteString, Encode;
    var b3 := [port / 256, port % 256] + (Leb(STATUS) + rest);
    var b2 := WriteString(host) + b3;
    var b1 := Leb(protocol) + b2;
    NumberWritten(length, Leb(0) + b1);
    NumberWritten(0, b1);
    NumberWritten(protocol, b2);
    StringWritten(host, b3);
    assert b3[2..] == Leb(STATUS) + rest;
    NumberWritten(STATUS, rest);
  }

  lemma BodyPieces(protocol: nat, host: string, port: nat, rest: seq<byte>)
    requires IsPort(port)
    ensures HandshakeBody(protocol, host, port) + rest
         == Leb(0) + (Leb(protocol) + (WriteString(host) + ([port / 256, port % 256] + (Leb(STATUS) + rest))))
  {
    hide Leb, WriteString;
  }

  /** A server reads the handshake's fields off the request and is left with the status request. */
  lemma HandshakeRead(protocol: Option<nat>, host: string, port: nat)
    requires IsPort(port) && protocol.GetOr(DEFAULT_PROTOCOL) < LIMIT
    requires |HandshakeBody(protocol.GetOr(DEFAULT_PROTOCOL), host, port)| < LIMIT
    ensures HandshakeAt(Request(protocol, host, port).value)
         == Some((Handshake(protocol.GetOr(DEFAULT_PROTOCOL), host, port, STATUS), [1, 0]))
  {
    hide *;
    var v := protocol.GetOr(DEFAULT_PROTOCOL);
    HostFits(v, host, port);
    BodyPieces(v, host, port, [1, 0]);
    RequestIs(protocol, host, port);
    HandshakeTaken(|HandshakeBody(v, host, port)|, v, host, port, [1, 0]);
  }

  lemma RequestIs(protocol: Option<nat>, host: string, port: nat)
    requires IsPort(port)
    ensures var body := HandshakeBody(protocol.GetOr(DEFAULT_PROTOCOL), host, port);
      Request(protocol, host, port) == Some(Leb(|body|) + (body + [1, 0]))
  {
    assert Framed(Leb(0)) == [1, 0];
    hide Leb, HandshakeBody;
    var body := HandshakeBody(protocol.GetOr(DEFAULT_PROTOCOL), host, port);
    assert (Leb(|body|) + body) + [1, 0] == Leb(|body|) + (body + [1, 0]);
  }

  lemma HostFits(protocol: nat, host: string, port: nat)
    requires IsPort(port)
    ensures |Encode(host)| <= |HandshakeBody(protocol, host, port)|
  {
  }

  /** The text that the client takes from a response: the declared packet length is read and not used. */
  function ResponseAt(b: seq<byte>): Option<string> {
    match NumberAt(b)
    case None => None
    case Some((_, body)) =>
      match NumberAt(body)
      case None => None
      case Some((id, b1)) =>
        if id != 0 then None
        else match StringAt(b1) { case None => None case Some((text, _)) => Some(text) }
  }

  /** The reading part of `java_server_ping`; None where it raises. */
  method ReadResponse(reader: StreamReader) returns (text: Option<string>)
    modifies reader
    ensures text == ResponseAt(old(reader.rest))
  {
    hide ReadVarInt, Decode;
    text := None;
    var length := reader.ReadVarIntHere();
    if length == None { return; }
    var id := reader.ReadVarIntHere();
    if id == None || id.value != 0 { return; }
    var jsonLength := reader.ReadVarIntHere();
    if jsonLength == None { return; }
    var data := reader.ReadExactly(jsonLength.value);
    if data == None { return; }
    text := Decode(data.value);
  }

  /** Whatever length a response declares, its text is read exactly, and nothing behind it matters. */
  lemma ResponseRead(declared: nat, text: string, rest: seq<byte>)
    requires declared < LIMIT && |Encode(text)| < LIMIT
    ensures ResponseAt(Leb(declared) + (Leb(0) + (WriteString(text) + rest))) == Some(text)
  {
    NumberWritten(declared, Leb(0) + (WriteString(text) + rest));
    NumberWritten(0, WriteString(text) + rest);
    StringWritten(text, rest);
  }
}