/** The RakNet unconnected pong: parsing its text and rewriting the ports it advertises. */
module BedrockPong {
  import opened Wrappers
  import opened Text
  import opened Utf8

  // ---------------------------------------------------------------------------
  // The text
  // ---------------------------------------------------------------------------

  /** The parsed pong; a field the text is too short for is None, an unreadable one `Some(None)`. */
  datatype Pong =
    | Raw(payload: string)
    | Fields(edition: Option<string>, motd: Option<string>, protocol: Option<int>, version: Option<string>,
             online: Option<int>, max: Option<int>, serverId: Option<Option<int>>, motd2: Option<Option<string>>,
             gamemode: Option<Option<string>>, portV4: Option<Option<int>>, portV6: Option<Option<int>>)

  function OrNone(s: string): Option<string> {
    if s == "" then None else Some(s)
  }

  /** `parse_bedrock_pong_payload` on the split text. */
  function ParseParts(payload: string, parts: seq<string>): Pong {
    if |parts| < 6 then Raw(payload)
    else
      Fields(OrNone(parts[0]), OrNone(parts[1]), ParseInt(parts[2]), OrNone(parts[3]), ParseInt(parts[4]), ParseInt(parts[5]),
             if |parts| > 6 then Some(ParseInt(parts[6])) else None,
             if |parts| > 7 then Some(OrNone(parts[7])) else None,
             if |parts| > 8 then Some(OrNone(parts[8])) else None,
             if |parts| > 10 then Some(ParseInt(parts[10])) else None,
             if |parts| > 11 then Some(ParseInt(parts[11])) else None)
  }

  function Parse(payload: string): Pong {
    ParseParts(payload, Split(payload, ';'))
  }

  /** A text without semicolons that is not empty. */
  predicate Plain(s: string) {
    s != "" && ';' !in s
  }

  /**
    The twelve parts that a Bedrock server announces are parsed to themselves: edition, message,
    protocol, version, players online, most players, server id, second message, game mode, a number
    that is not kept, and the two ports.
   */
  lemma ParsePrinted(edition: string, motd: string, protocol: int, version: string, online: int, max: int, serverId: int,
                     motd2: string, gamemode: string, mode: int, portV4: int, portV6: int)
    requires Plain(edition) && Plain(motd) && Plain(version) && Plain(motd2) && Plain(gamemode)
    ensures var parts := [edition, motd, Shown(protocol), version, Shown(online), Shown(max), Shown(serverId), motd2, gamemode,
                          Shown(mode), Shown(portV4), Shown(portV6)];
      Parse(Join(parts, ';'))
        == Fields(Some(edition), Some(motd), Some(protocol), Some(version), Some(online), Some(max), Some(Some(serverId)),
                  Some(Some(motd2)), Some(Some(gamemode)), Some(Some(portV4)), Some(Some(portV6)))
  {
    var parts := [edition, motd, Shown(protocol), version, Shown(online), Shown(max), Shown(serverId), motd2, gamemode,
                  Shown(mode), Shown(portV4), Shown(portV6)];
    PrintedParts(protocol, online, max);
    PrintedParts(serverId, portV4, portV6);
    PrintedParts(mode, mode, mode);
    hide Split, Join, Shown, ParseInt;
    SplitJoin(parts, ';');
  }

  lemma PrintedParts(a: int, b: int, c: int)
    ensures ';' !in Shown(a) && ';' !in Shown(b) && ';' !in Shown(c)
    ensures ParseInt(Shown(a)) == Some(a) && ParseInt(Shown(b)) == Some(b) && ParseInt(Shown(c)) == Some(c)
  {
    hide Shown, ParseInt;
    forall n | n == a || n == b || n == c ensures ';' !in Shown(n) && ParseInt(Shown(n)) == Some(n) {
      ShownHasNoSemicolon(n);
      ParseShown(n);
    }
  }

  /** The further fields are there exactly as far as the text goes; the tenth part is passed over. */
  lemma ParsedLength(payload: string)
    requires Parse(payload).Fields?
    ensures var n, p := |Split(payload, ';')|, Parse(payload);
      (p.serverId.Some? <==> n > 6) && (p.motd2.Some? <==> n > 7) && (p.gamemode.Some? <==> n > 8)
      && (p.portV4.Some? <==> n > 10) && (p.portV6.Some? <==> n > 11)
    ensures var parts, p := Split(payload, ';'), Parse(payload);
      (p.edition.None? <==> parts[0] == "") && (p.motd.None? <==> parts[1] == "") && (p.version.None? <==> parts[3] == "")
  {
  }

  /** A text of fewer than six parts is not parsed. */
  lemma TooShortIsRaw(payload: string)
    ensures Parse(payload).Raw? <==> |Split(payload, ';')| < 6
    ensures Parse(payload).Raw? ==> Parse(payload) == Raw(payload)
  {
  }

  // ---------------------------------------------------------------------------
  // The packet
  // ---------------------------------------------------------------------------

  const PONG_ID: byte := 0x1C
  const HEADER: nat := 33    // id, time, guid and magic

  /** A 16-bit big-endian number. */
  function Word(high: byte, low: byte): nat {
    high as int * 256 + low
  }

  /** Where the text ends, or None when the packet is not a pong or too short for its length field. */
  function TextEnd(data: seq<byte>): (end: Option<nat>)
    ensures end.Some? ==> HEADER + 2 <= end.value <= |data|
  {
    if data == [] || data[0] != PONG_ID || |data| < HEADER + 2 then None
    else
      var end := HEADER + 2 + Word(data[HEADER], data[HEADER + 1]);
      if end > |data| then None else Some(end)
  }

  function TextOf(data: seq<byte>): Option<string> {
    match TextEnd(data)
    case None => None
    case Some(end) => Decode(data[HEADER + 2..end])
  }

  /** The packets whose ports are rewritten. */
  predicate Rewritable(data: seq<byte>) {
    TextOf(data).Some?
    && var parts := Split(TextOf(data).value, ';');
       |parts| >= 11 && (parts[0] == "MCPE" || parts[0] == "MCEE")
  }

  function WithPort(parts: seq<string>, port: int): (out: seq<string>)
    requires |parts| >= 11
    ensures |out| == |parts|
  {
    if |parts| >= 12 then parts[10 := Shown(port)][11 := Shown(port)] else parts[10 := Shown(port)]
  }

  function NewText(data: seq<byte>, port: int): string
    requires Rewritable(data)
  {
    Join(WithPort(Split(TextOf(data).value, ';'), port), ';')
  }

  /** `rewrite_bedrock_pong_ports`; None where packing the new length raises. */
  function Rewrite(data: seq<byte>, port: int): Option<seq<byte>> {
    if !Rewritable(data) then Some(data)
    else
      var text := Encode(NewText(data, port));
      if |text| > 0xFFFF then None
      else Some(data[..HEADER] + [|text| / 256, |text| % 256] + text + data[TextEnd(data).value..])
  }

  // ---------------------------------------------------------------------------
  // Rewriting changes the ports alone
  // ---------------------------------------------------------------------------

  lemma ShownHasNoSemicolon(n: int)
    ensures ';' !in Shown(n)
  {
    var d := Decimal(if n < 0 then -n else n);
    assert ';' !in d;
  }

  lemma NewTextParts(data: seq<byte>, port: int)
    requires Rewritable(data)
    ensures Split(NewText(data, port), ';') == WithPort(Split(TextOf(data).value, ';'), port)
  {
    hide Split, Join, Shown, TextOf;
    var parts := Split(TextOf(data).value, ';');
    PartsFree(TextOf(data).value);
    ShownHasNoSemicolon(port);
    var out := WithPort(parts, port);
    forall p | p in out ensures ';' !in p {
      var i :| 0 <= i < |out| && out[i] == p;
      assert p == Shown(port) || p == parts[i];
    }
    SplitJoin(out, ';');
  }

  lemma PartsFree(s: string)
    ensures forall i :: 0 <= i < |Split(s, ';')| ==> ';' !in Split(s, ';')[i]
  {
  }

  /**
    What is rewritten: a pong whose text is readable, has at least eleven parts and starts with one
    of the two editions.  Everything else is passed on as it came.
   */
  lemma RewriteCases(data: seq<byte>, port: int)
    ensures TextOf(data).None? ==> Rewrite(data, port) == Some(data)
    ensures TextOf(data).Some? ==>
      var parts := Split(TextOf(data).value, ';');
      && (|parts| < 11 ==> Rewrite(data, port) == Some(data))
      && (parts[0] != "MCPE" && parts[0] != "MCEE" ==> Rewrite(data, port) == Some(data))
      && (|parts| >= 11 && parts[0] in {"MCPE", "MCEE"} && |Encode(NewText(data, port))| <= 0xFFFF ==>
            Rewrite(data, port).Some?
            && Rewrite(data, port).value == data[..33]
                 + [|Encode(NewText(data, port))| / 256, |Encode(NewText(data, port))| % 256]
                 + Encode(NewText(data, port)) + data[TextEnd(data).value..])
  {
    hide Split, Encode, NewText, Decode;
  }

  /** Where a packet has no text: it is not a pong, shorter than its header, or than its length field says. */
  lemma NoTextIff(data: seq<byte>)
    ensures TextEnd(data).None? <==>
      |data| < 35 || data[0] != 0x1C || |data| < 35 + 256 * data[33] as int + data[34] as int
    ensures TextEnd(data).Some? ==> TextEnd(data).value == 35 + 256 * data[33] as int + data[34] as int
  {
  }

  /** Parsing the rewritten text gives the old fields with the advertised port in place of the ports it had. */
  lemma ParseRewritten(data: seq<byte>, port: int)
    requires Rewritable(data)
    ensures var before, after := Parse(TextOf(data).value), Parse(NewText(data, port));
      before.Fields? && after == before.(portV4 := Some(Some(port)),
                                         portV6 := if before.portV6.Some? then Some(Some(port)) else None)
  {
    NewTextParts(data, port);
    ParseShown(port);
    hide Split, Join, Shown, TextOf, ParseInt, NewText;
  }

  lemma PackedWord(n: nat)
    requires n <= 0xFFFF
    ensures 0 <= n / 256 < 256 && 0 <= n % 256 < 256 && Word(n / 256, n % 256) == n
  {
  }

  /** The header and everything behind the text stay, the length field is exact, and the text is the new one. */
  lemma RewriteKeeps(data: seq<byte>, port: int)
    requires Rewritable(data) && Rewrite(data, port).Some?
    ensures var out, text := Rewrite(data, port).value, Encode(NewText(data, port));
      |out| == HEADER + 2 + |text| + (|data| - TextEnd(data).value)
      && out[..HEADER] == data[..HEADER]
      && Word(out[HEADER], out[HEADER + 1]) == |text|
      && TextEnd(out) == Some(HEADER + 2 + |text|)
      && out[HEADER + 2 + |text|..] == data[TextEnd(data).value..]
      && TextOf(out) == Some(NewText(data, port))
  {
    var text := Encode(NewText(data, port));
    var out := Rewrite(data, port).value;
    DecodeEncode(NewText(data, port));
    PackedWord(|text|);
    var end := TextEnd(data).value;
    hide Rewritable, TextOf, Split, Join, Encode, Decode, Word, NewText;
    assert out[..HEADER] == data[..HEADER];
    assert out[0] == data[..HEADER][0] == PONG_ID;
    assert out[HEADER] == |text| / 256 && out[HEADER + 1] == |text| % 256;
    assert out[HEADER + 2..HEADER + 2 + |text|] == text;
    assert out[HEADER + 2 + |text|..] == data[end..];
    TextAt(out, |text|);
  }

  lemma TextAt(data: seq<byte>, n: nat)
    requires |data| >= HEADER + 2 + n && data[0] == PONG_ID && Word(data[HEADER], data[HEADER + 1]) == n
    ensures TextEnd(data) == Some(HEADER + 2 + n) && TextOf(data) == Decode(data[HEADER + 2..HEADER + 2 + n])
  {
  }

  /** A second rewrite undoes the first one's ports. */
  lemma RewriteTwice(data: seq<byte>, first: int, second: int)
    requires Rewrite(data, first).Some?
    ensures Rewrite(Rewrite(data, first).value, second) == Rewrite(data, second)
  {
    if Rewritable(data) {
      var out := Rewrite(data, first).value;
      RewriteKeeps(data, first);
      NewTextParts(data, first);
      var parts := Split(TextOf(data).value, ';');
      hide Split, Join, Shown, Encode, TextOf, NewText, TextEnd;
      assert Rewritable(out) by {
        hide Rewrite;
      }
      assert WithPort(WithPort(parts, first), second) == WithPort(parts, second);
      assert NewText(out, second) == NewText(data, second) by {
        SameNewText(data, out, parts, WithPort(parts, first), second);
      }
    }
  }

  lemma SameNewText(a: seq<byte>, b: seq<byte>, pa: seq<string>, pb: seq<string>, port: int)
    requires Rewritable(a) && Rewritable(b)
    requires pa == Split(TextOf(a).value, ';') && pb == Split(TextOf(b).value, ';')
    requires WithPort(pa, port) == WithPort(pb, port)
    ensures NewText(a, port) == NewText(b, port)
  {
  }

  // ---------------------------------------------------------------------------
  // When the new length fits
  // ---------------------------------------------------------------------------

  /** The bytes of the parts and the separators between them. */
  function PartsSize(parts: seq<string>): nat {
    if parts == [] then 0
    else |Encode(parts[0])| + PartsSize(parts[1..]) + if |parts| == 1 then 0 else 1
  }

  lemma {:induction false} JoinedSize(parts: seq<string>)
    ensures |Encode(Join(parts, ';'))| == PartsSize(parts)
  {
    if |parts| == 1 {
      assert parts[1..] == [];
    } else if parts != [] {
      JoinedSize(parts[1..]);
      EncodeAppend(parts[0] + ";", Join(parts[1..], ';'));
      EncodeAppend(parts[0], ";");
      assert |Encode(";")| == 1 by {
        EncodeAscii(";");
      }
    }
  }

  lemma {:induction false} ReplacedSize(parts: seq<string>, i: nat, p: string)
    requires i < |parts|
    ensures PartsSize(parts[i := p]) == PartsSize(parts) - |Encode(parts[i])| + |Encode(p)|
  {
    if i == 0 {
      assert parts[0 := p][1..] == parts[1..];
    } else {
      assert parts[i := p][1..] == parts[1..][i - 1 := p];
      ReplacedSize(parts[1..], i - 1, p);
    }
  }

  lemma ShownSize(port: int)
    requires 0 <= port < 100000
    ensures |Encode(Shown(port))| <= 5
  {
    var d := Decimal(port);
    assert Power10(5) == 100000 by {
      assert Power10(3) == 1000;
    }
    DecimalLength(port, 5);
    assert forall i :: 0 <= i < |d| ==> d[i] < 128 as char by {
      assert forall i :: 0 <= i < |d| ==> d[i] in d;
    }
    EncodeAscii(d);
  }

  /** A text of at most 65525 bytes leaves room for two ports of five digits, so packing never raises. */
  lemma RewriteFits(data: seq<byte>, port: int)
    requires 0 <= port < 100000 && (TextEnd(data).Some? ==> TextEnd(data).value - (HEADER + 2) <= 65525)
    ensures Rewrite(data, port).Some?
  {
    if Rewritable(data) {
      var text := TextOf(data).value;
      EncodeDecode(data[HEADER + 2..TextEnd(data).value]);
      assert |Encode(text)| == TextEnd(data).value - (HEADER + 2);
      hide Split, Join, Shown, Encode, TextEnd, Decode, PartsSize;
      var parts := Split(text, ';');
      JoinSplit(text, ';');
      JoinedSize(parts);
      JoinedSize(WithPort(parts, port));
      ShownSize(port);
      ReplacedSize(parts, 10, Shown(port));
      if |parts| >= 12 {
        ReplacedSize(parts[10 := Shown(port)], 11, Shown(port));
      }
    }
  }
}
