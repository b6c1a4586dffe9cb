/** The RCON client (Source RCON Protocol, section "Basic Packet Structure") over a byte stream. */
module RconProtocol {
  import opened Wrappers
  import opened Utf8

  // ---------------------------------------------------------------------------
  // Packets on the wire
  // ---------------------------------------------------------------------------

  predicate Int32(n: int) {
    -0x8000_0000 <= n < 0x8000_0000
  }

  /** A signed 32-bit little-endian number. */
  function Pack(n: int): (b: seq<byte>)
    requires Int32(n)
    ensures |b| == 4
  {
    var m := if n < 0 then n + 0x1_0000_0000 else n;
    [m % 256, m / 256 % 256, m / 65536 % 256, m / 16777216]
  }

  function Unpack(b: seq<byte>): (n: int)
    requires |b| == 4
    ensures Int32(n)
  {
    var m: int := b[0] + 256 * b[1] as int + 65536 * b[2] as int + 16777216 * b[3] as int;
    if m >= 0x8000_0000 then m - 0x1_0000_0000 else m
  }

  lemma UnpackPack(n: int)
    requires Int32(n)
    ensures Unpack(Pack(n)) == n
  {
    var m := if n < 0 then n + 0x1_0000_0000 else n;
    assert m / 65536 == m / 256 / 256 && m / 16777216 == m / 65536 / 256;
    assert m == m % 256 + 256 * (m / 256);
    assert m / 256 == m / 256 % 256 + 256 * (m / 65536);
    assert m / 65536 == m / 65536 % 256 + 256 * (m / 16777216);
  }

  /** A packet; its payload is the bytes of the text. */
  datatype Packet = Packet(id: int, kind: int, payload: seq<byte>)

  predicate Packable(p: Packet) {
    Int32(p.id) && Int32(p.kind) && Int32(10 + |p.payload|)
  }

  function Wire(p: Packet): (b: seq<byte>)
    requires Packable(p)
    ensures |b| == 14 + |p.payload|
  {
    Pack(10 + |p.payload|) + Pack(p.id) + Pack(p.kind) + p.payload + [0, 0]
  }

  /** A packet on the wire: the number of bytes behind it, its id, its kind, the payload, and two zero bytes. */
  lemma WireLayout(p: Packet)
    requires Packable(p)
    ensures var b := Wire(p);
      && Unpack(b[..4]) == |b| - 4 && Unpack(b[4..8]) == p.id && Unpack(b[8..12]) == p.kind
      && b[12..|b| - 2] == p.payload && b[|b| - 2..] == [0, 0]
  {
    var b := Wire(p);
    UnpackPack(10 + |p.payload|);
    UnpackPack(p.id);
    UnpackPack(p.kind);
    hide Pack, Unpack;
    assert b[..4] == Pack(10 + |p.payload|) && b[4..8] == Pack(p.id) && b[8..12] == Pack(p.kind);
  }

  /** Packing raises exactly for numbers or lengths beyond 32 bits with sign. */
  lemma PackableIff(p: Packet)
    ensures Packable(p) <==>
      -0x8000_0000 <= p.id < 0x8000_0000 && -0x8000_0000 <= p.kind < 0x8000_0000 && |p.payload| < 0x8000_0000 - 10
  {
  }

  datatype Problem =
    | Closed          // RconError: the connection is closed
    | BadLength       // RconError: the length is out of range
    | ShortStruct     // struct.error: too few bytes to unpack

  /** The bytes `_read_exact` returns: as many as asked for, or all there are. */
  function UpTo(stream: seq<byte>, n: nat): seq<byte> {
    if n <= |stream| then stream[..n] else stream
  }

  function Behind(stream: seq<byte>, n: nat): seq<byte> {
    if n <= |stream| then stream[n..] else []
  }

  /** The packet in a received body; the slice tolerates a body that is too short. */
  function Body(data: seq<byte>): Result<Packet, Problem> {
    if |data| < 8 then Failure(ShortStruct)
    else Success(Packet(Unpack(data[..4]), Unpack(data[4..8]), if |data| >= 10 then data[8..|data| - 2] else []))
  }

  /** `_recv` on a stream that is closed behind its last byte, with the bytes left over. */
  function Receive(stream: seq<byte>): (Result<Packet, Problem>, seq<byte>) {
    var head, rest := UpTo(stream, 4), Behind(stream, 4);
    if head == [] then (Failure(Closed), rest)
    else if |head| < 4 then (Failure(ShortStruct), rest)
    else
      var length := Unpack(head);
      if length < 10 || length > 4096 then (Failure(BadLength), rest)
      else (Body(UpTo(rest, length)), Behind(rest, length))
  }

  class RconClient {
    var incoming: seq<byte>   // what the peer has sent and the client has not read
    var outgoing: seq<byte>   // what the client has sent
    var reqId: int

    constructor (incoming: seq<byte>)
      ensures this.incoming == incoming && outgoing == [] && reqId == 1
    {
      this.incoming := incoming;
      outgoing := [];
      reqId := 1;
    }

    /** `sock.recv`: a non-empty piece of what is there, cut anywhere; empty once the stream is closed. */
    method RecvSome(size: nat) returns (chunk: seq<byte>)
      requires size > 0
      modifies this`incoming
      ensures chunk + incoming == old(incoming) && |chunk| <= size
      ensures chunk == [] <==> old(incoming) == []
    {
      if incoming == [] {
        return [];
      }
      var k: nat :| 1 <= k <= |incoming| && k <= size;
      chunk := incoming[..k];
      incoming := incoming[k..];
    }

    /** `_read_exact`. */
    method ReadExact(size: nat) returns (data: seq<byte>)
      modifies this`incoming
      ensures data == UpTo(old(incoming), size) && incoming == Behind(old(incoming), size)
    {
      data := [];
      while |data| < size
        invariant data + incoming == old(incoming) && |data| <= size
        decreases size - |data|
      {
        var chunk := RecvSome(size - |data|);
        if chunk == [] {
          break;
        }
        data := data + chunk;
      }
    }

    /** `_send`; false where packing raises. */
    method Send(kind: int, payload: seq<byte>) returns (ok: bool)
      modifies this`outgoing
      ensures ok <==> Packable(Packet(reqId, kind, payload))
      ensures outgoing == if ok then old(outgoing) + Wire(Packet(reqId, kind, payload)) else old(outgoing)
    {
      var p := Packet(reqId, kind, payload);
      ok := Packable(p);
      if ok {
        outgoing := outgoing + Wire(p);
      }
    }

    /** `_recv`: however the stream is cut into chunks, the result is the same. */
    method Recv() returns (r: Result<Packet, Problem>)
      modifies this`incoming
      ensures (r, incoming) == Receive(old(incoming))
    {
      var head := ReadExact(4);
      if head == [] {
        return Failure(Closed);
      }
      if |head| < 4 {
        return Failure(ShortStruct);
      }
      var length := Unpack(head);
      if length < 10 || length > 4096 {
        return Failure(BadLength);
      }
      var data := ReadExact(length);
      r := Body(data);
    }

    /** `command`: the payloads of every packet up to the end of the stream; None where it raises. */
    method Command(text: seq<byte>) returns (r: Option<seq<byte>>)
      modifies this
      ensures !Packable(Packet(old(reqId), 2, text)) ==> r == None && outgoing == old(outgoing)
      ensures Packable(Packet(old(reqId), 2, text)) ==>
        outgoing == old(outgoing) + Wire(Packet(old(reqId), 2, text)) && r == Answer(old(incoming))
      ensures reqId == if r.Some? then old(reqId) + 1 else old(reqId)
    {
      hide Receive, Wire;
      var sent := Send(2, text);
      if !sent {
        return None;
      }
      var first := Recv();
      if first.Failure? {
        return None;
      }
      var payload := first.value.payload;
      while true
        invariant Answer(old(incoming)) == match Collected(incoming) case None => None case Some(more) => Some(payload + more)
        invariant reqId == old(reqId) && outgoing == old(outgoing) + Wire(Packet(old(reqId), 2, text))
        decreases |incoming|
      {
        ReceiveShortens(incoming);
        var extra := Recv();
        if extra.Failure? {
          if extra.error.ShortStruct? {
            return None;
          }
          break;
        }
        ghost var before := payload;
        payload := payload + extra.value.payload;
        assert forall more: seq<byte> :: before + (extra.value.payload + more) == payload + more;
      }
      assert payload + [] == payload;
      reqId := reqId + 1;
      r := Some(payload);
    }
  }

  lemma ReceiveShortens(stream: seq<byte>)
    ensures Receive(stream).0.Success? ==> |Receive(stream).1| < |stream|
  {
  }

  /** The payloads of the packets in a stream until it ends or a length is refused; None where it raises. */
  function Collected(stream: seq<byte>): Option<seq<byte>>
    decreases |stream|
  {
    var (p, rest) := Receive(stream);
    match p
    case Failure(ShortStruct) => None
    case Failure(_) => Some([])
    case Success(packet) =>
      ReceiveShortens(stream);
      match Collected(rest)
      case None => None
      case Some(more) => Some(packet.payload + more)
  }

  /** What a command returns for the stream it reads. */
  function Answer(stream: seq<byte>): Option<seq<byte>> {
    var (p, rest) := Receive(stream);
    match p
    case Failure(_) => None
    case Success(packet) =>
      match Collected(rest)
      case None => None
      case Some(more) => Some(packet.payload + more)
  }

  // ---------------------------------------------------------------------------
  // Framing
  // ---------------------------------------------------------------------------

  const MAX_PAYLOAD: nat := 4086

  /** The parts of the wire form. */
  lemma WireParts(p: Packet)
    requires Packable(p)
    ensures var w := Wire(p);
      w[..4] == Pack(10 + |p.payload|) && w[4..8] == Pack(p.id) && w[8..12] == Pack(p.kind)
      && w[12..12 + |p.payload|] == p.payload
  {
  }

  lemma ReceiveWire(p: Packet, rest: seq<byte>)
    requires Packable(p) && |p.payload| <= MAX_PAYLOAD
    ensures Receive(Wire(p) + rest) == (Success(p), rest)
  {
    var w := Wire(p);
    var stream := w + rest;
    var n := 10 + |p.payload|;
    WireParts(p);
    UnpackPack(n);
    UnpackPack(p.id);
    UnpackPack(p.kind);
    hide Wire, Pack, Unpack;
    assert UpTo(stream, 4) == w[..4];
    var body := w[4..];
    assert Behind(stream, 4) == body + rest;
    assert UpTo(body + rest, n) == body && Behind(body + rest, n) == rest;
    assert body[..4] == w[4..8] && body[4..8] == w[8..12] && body[8..|body| - 2] == w[12..12 + |p.payload|];
  }

  /** A longer payload is sent, and the receiver refuses its length. */
  lemma ReceiveTooLong(p: Packet, rest: seq<byte>)
    requires Packable(p) && |p.payload| > MAX_PAYLOAD
    ensures Receive(Wire(p) + rest).0 == Failure(BadLength)
  {
    var w := Wire(p);
    WireParts(p);
    UnpackPack(10 + |p.payload|);
    hide Wire, Pack, Unpack;
    assert UpTo(w + rest, 4) == w[..4];
  }

  predicate AllPackable(ps: seq<Packet>) {
    forall i :: 0 <= i < |ps| ==> Packable(ps[i]) && |ps[i].payload| <= MAX_PAYLOAD
  }

  function Stream(ps: seq<Packet>): seq<byte>
    requires AllPackable(ps)
  {
    if ps == [] then [] else Wire(ps[0]) + Stream(ps[1..])
  }

  /** The packets of a stream until one cannot be received. */
  function ReceiveAll(stream: seq<byte>): seq<Packet>
    decreases |stream|
  {
    var (p, rest) := Receive(stream);
    match p
    case Failure(_) => []
    case Success(packet) =>
      ReceiveShortens(stream);
      [packet] + ReceiveAll(rest)
  }

  /** Every sequence of sent packets is received as the same sequence. */
  lemma {:induction false} PacketsRoundTrip(ps: seq<Packet>)
    requires AllPackable(ps)
    ensures ReceiveAll(Stream(ps)) == ps
  {
    if ps != [] {
      ReceiveWire(ps[0], Stream(ps[1..]));
      PacketsRoundTrip(ps[1..]);
    }
  }

  function Payloads(ps: seq<Packet>): seq<byte> {
    if ps == [] then [] else ps[0].payload + Payloads(ps[1..])
  }

  lemma {:induction false} CollectedStream(ps: seq<Packet>)
    requires AllPackable(ps)
    ensures Collected(Stream(ps)) == Some(Payloads(ps))
  {
    if ps != [] {
      ReceiveWire(ps[0], Stream(ps[1..]));
      CollectedStream(ps[1..]);
    }
  }

  /** A response split over several packets comes back whole and in order. */
  lemma AnswerIsWhole(ps: seq<Packet>)
    requires AllPackable(ps) && ps != []
    ensures Answer(Stream(ps)) == Some(Payloads(ps))
  {
    ReceiveWire(ps[0], Stream(ps[1..]));
    CollectedStream(ps[1..]);
  }

  /**
    A stream that ends inside a packet: nothing is received before its first twelve bytes, and from
    there on a packet is received with its payload cut, without an error.
   */
  lemma ReceiveTruncated(p: Packet, k: nat)
    requires Packable(p) && |p.payload| <= MAX_PAYLOAD && k < |Wire(p)|
    ensures Receive(Wire(p)[..k]).0 ==
      if k == 0 then Failure(Closed)
      else if k < 12 then Failure(ShortStruct)
      else Success(Packet(p.id, p.kind, p.payload[..if k >= 14 then k - 14 else 0]))
  {
    var w := Wire(p);
    var stream := w[..k];
    var n := 10 + |p.payload|;
    WireParts(p);
    UnpackPack(n);
    UnpackPack(p.id);
    UnpackPack(p.kind);
    hide Wire, Pack, Unpack;
    if k >= 4 {
      assert UpTo(stream, 4) == w[..4];
      assert UpTo(Behind(stream, 4), n) == w[4..k];
      if k >= 12 {
        CutBody(p, w, k);
      }
    }
  }

  lemma CutBody(p: Packet, w: seq<byte>, k: nat)
    requires 12 <= k < |w| == 14 + |p.payload| && w[12..12 + |p.payload|] == p.payload
    ensures var data := w[4..k];
      |data| >= 8 && data[..4] == w[4..8] && data[4..8] == w[8..12]
      && (if |data| >= 10 then data[8..|data| - 2] else []) == p.payload[..if k >= 14 then k - 14 else 0]
  {
    var data := w[4..k];
    assert data[..4] == w[4..8];
    assert forall i :: 4 <= i < 8 ==> data[i] == w[i + 4];
    assert data[4..8] == w[8..12];
    if k >= 14 {
      assert forall i :: 8 <= i < |data| ==> data[i] == w[i + 4];
      assert data[8..|data| - 2] == w[12..k - 2];
      assert w[12..k - 2] == w[12..12 + |p.payload|][..k - 14];
    } else {
      assert p.payload[..0] == [];
    }
  }

  /** A cut stream still gives the whole packet exactly when the payload is empty and only padding is missing. */
  lemma TruncatedIntactIff(p: Packet, k: nat)
    requires Packable(p) && |p.payload| <= MAX_PAYLOAD && k < |Wire(p)|
    ensures Receive(Wire(p)[..k]).0 == Success(p) <==> p.payload == [] && k >= 12
  {
    ReceiveTruncated(p, k);
    hide Receive, Wire;
  }
}
