/** The property files as objects, and whole records written to them and read back. */
module PropertyRecords {
  import opened Wrappers
  import opened Text
  import opened ServerProperties
  import opened PropertyLaws

  // ---------------------------------------------------------------------------
  // The file
  // ---------------------------------------------------------------------------

  type Field = (string, Option<Value>)

  /** The line of each field that has a value. */
  function RecordLines(fields: seq<Field>): seq<string> {
    if fields == [] then []
    else
      var last := fields[|fields| - 1];
      RecordLines(fields[..|fields| - 1])
      + match last.1 { case None => [] case Some(v) => [Setting(last.0, Show(v))] }
  }

  class PropertiesFile {
    var content: Option<string>  // None when there is no file
    var backup: Option<string>   // the `.properties.bak` beside it

    constructor (content: Option<string>)
      ensures this.content == content && backup == None
    {
      this.content := content;
      backup := None;
    }

    /** `read_properties`. */
    method Read() returns (props: Properties)
      ensures props == ReadText(content)
    {
      hide Strip, LeftStrip, RightStrip, Coerce, Lines, Universal, IsSpace;
      props := map[];
      if content == None {
        return;
      }
      var lines := Lines(Universal(content.value));
      for i := 0 to |lines|
        invariant props == ReadOn(map[], lines[..i])
      {
        assert lines[..i + 1][..i] == lines[..i];
        var line := lines[i];
        if Skipped(line) {
          continue;
        }
        var at := Find(line, '=');
        if at < |line| {
          var key, val := Strip(line[..at]), Strip(line[at + 1..]);
          props := props[key := Coerce(val)];
        }
      }
      assert lines[..|lines|] == lines;
    }

    /** `set_bedrock_server_property` and `set_java_server_property`. */
    method Set(key: string, value: Value)
      modifies this
      ensures content == Some(SetText(old(content), key, Show(value)))
      ensures backup == Some(old(content).GetOr(""))
    {
      hide Strip, LeftStrip, RightStrip, Lines, Universal, IsSpace, Render, Setting, Show;
      if content == None {
        content := Some("");
      }
      var lines := Lines(Universal(content.value));
      var newLines: seq<string> := [];
      var seen := false;
      for i := 0 to |lines|
        invariant content == Some(old(content).GetOr("")) && lines == Lines(Universal(content.value))
        invariant newLines == Replaced(lines[..i], key, Show(value))
        invariant seen == Seen(lines[..i], key)
      {
        assert lines[..i + 1] == lines[..i] + [lines[i]];
        SeenSnoc(lines[..i], lines[i], key);
        ReplacedSnoc(lines[..i], lines[i], key, Show(value));
        var line := lines[i];
        if Skipped(line) {
          newLines := newLines + [line];
          continue;
        }
        if KeyOf(line) == key {
          newLines := newLines + [Setting(key, Show(value))];
          seen := true;
        } else {
          newLines := newLines + [line];
        }
      }
      assert lines[..|lines|] == lines;
      if !seen {
        newLines := newLines + [Setting(key, Show(value))];
      } else {
        assert newLines + [] == newLines;
      }
      backup := content;
      content := Some(Render(newLines));
    }

    /** The end of both record writers. */
    method Write(fields: seq<Field>)
      modifies this
      ensures content == Some(Render(RecordLines(fields)))
      ensures backup == if old(content).Some? then old(content) else old(backup)
    {
      var lines: seq<string> := [];
      for i := 0 to |fields|
        invariant lines == RecordLines(fields[..i])
        invariant content == old(content) && backup == old(backup)
      {
        assert fields[..i + 1][..i] == fields[..i];
        match fields[i].1 {
          case None =>
          case Some(v) => lines := lines + [Setting(fields[i].0, Show(v))];
        }
      }
      assert fields[..|fields|] == fields;
      if content.Some? {
        backup := content;
      }
      content := Some(Render(lines));
    }
  }

  // ---------------------------------------------------------------------------
  // Laws of the setter
  // ---------------------------------------------------------------------------

  /** The text that reading keeps as it is: trimmed, and neither a boolean nor a number to the reader. */
  predicate KeptWords(s: string) {
    Trimmed(s) && Lower(s) != "true" && Lower(s) != "false" && (s == "" || !AllDigits(s))
  }

  lemma NumberSurvives(n: int)
    ensures Coerce(Strip(Shown(n))) == Number(n) <==> n >= 0
  {
    var s := Shown(n);
    ShownTrimmed(n);
    StripTrimmed(s);
    hide Strip, Trimmed, Decimal;
    if n >= 0 {
      assert s[0] in s;
      assert IsDigit(s[0]);
      assert Lower(s)[0] == s[0];
      DenotedDecimal(n);
    } else {
      assert s[0] in s && !IsDigit(s[0]);
    }
  }

  lemma WordsSurvive(s: string)
    ensures Coerce(Strip(s)) == Words(s) <==> KeptWords(s)
  {
    hide IsSpace, Strip, Lower;
    var a, b := StripParts(s);
    if Trimmed(s) {
      StripTrimmed(s);
    }
  }

  lemma LowerStays(s: string)
    requires forall i :: 0 <= i < |s| ==> 'a' <= s[i] <= 'z'
    ensures Lower(s) == s
  {
    hide Lower;
  }

  lemma FlagText(on: bool)
    ensures Trimmed(Show(Flag(on))) && Lower(Show(Flag(on))) == Show(Flag(on))
  {
    LowerStays(Show(Flag(on)));
    hide Lower;
  }

  lemma FlagSurvives(on: bool)
    ensures Coerce(Strip(Show(Flag(on)))) == Flag(on)
  {
    hide Strip, Trimmed, Lower, IsSpace;
    FlagText(on);
    StripTrimmed(Show(Flag(on)));
    assert !on ==> |Show(Flag(on))| == 5;
  }

  /** Exactly these values are read as they were set. */
  lemma ValueSurvives(v: Value)
    ensures Coerce(Strip(Show(v))) == v <==> v.Flag? || (v.Number? && v.n >= 0) || (v.Words? && KeptWords(v.text))
  {
    hide Strip, Shown, KeptWords, Coerce;
    match v
    case Flag(on) =>
      FlagSurvives(on);
    case Number(n) =>
      NumberSurvives(n);
    case Words(s) =>
      WordsSurvive(s);
  }

  /** Set one after the other, two properties of different keys are read the same in either order. */
  lemma SettersCommute(content: Option<string>, k1: string, v1: string, k2: string, v2: string)
    requires PlainKey(k1) && PlainKey(k2) && k1 != k2 && NoBreak(RightStrip(v1)) && NoBreak(RightStrip(v2))
    ensures ReadText(Some(SetText(Some(SetText(content, k1, v1)), k2, v2)))
         == ReadText(Some(SetText(Some(SetText(content, k2, v2)), k1, v1)))
  {
    hide *;
    SetThenRead(content, k1, v1);
    SetThenRead(content, k2, v2);
    SetThenRead(Some(SetText(content, k1, v1)), k2, v2);
    SetThenRead(Some(SetText(content, k2, v2)), k1, v1);
    var m, c1, c2 := ReadText(content), Coerce(Strip(v1)), Coerce(Strip(v2));
    assert m[k1 := c1][k2 := c2] == m[k2 := c2][k1 := c1];
  }

  lemma SetLinesUnbroken(lines: seq<string>, key: string, shown: string)
    requires Unbroken(lines) && PlainKey(key) && NoBreak(shown)
    ensures Unbroken(SetLines(lines, key, shown))
  {
    SettingUnbroken(key, shown);
    hide PlainKey, Matches, NoBreak, Setting;
  }

  /**
    Without a line break in the value, the lines of the file are kept one by one and in order:
    only those that set the key change, and one is added at the end when there was none.
   */
  lemma LinesAfterSet(content: Option<string>, key: string, shown: string)
    requires PlainKey(key) && NoBreak(shown)
    ensures var before := Lines(Universal(content.GetOr("")));
      var after := Lines(Universal(SetText(content, key, shown)));
      |after| == |before| + (if Seen(before, key) then 0 else 1)
      && (forall i :: 0 <= i < |before| ==>
            after[i] == if Matches(before[i], key) then Setting(key, shown) else before[i])
      && (!Seen(before, key) ==> after[|before|] == Setting(key, shown))
  {
    hide *;
    SetLinesAre(content, key, shown);
    SetLinesEach(Lines(Universal(content.GetOr(""))), key, shown);
  }

  lemma SetLinesEach(lines: seq<string>, key: string, shown: string)
    ensures var after := SetLines(lines, key, shown);
      |after| == |lines| + (if Seen(lines, key) then 0 else 1)
      && (forall i :: 0 <= i < |lines| ==> after[i] == if Matches(lines[i], key) then Setting(key, shown) else lines[i])
      && (!Seen(lines, key) ==> after[|lines|] == Setting(key, shown))
  {
    hide Matches, Setting;
  }

  lemma SetLinesAre(content: Option<string>, key: string, shown: string)
    requires PlainKey(key) && NoBreak(shown)
    ensures var before := Lines(Universal(content.GetOr("")));
      Lines(Universal(SetText(content, key, shown))) == SetLines(before, key, shown)
  {
    hide PlainKey, Matches, NoBreak, Lines, Universal, Render, Setting, SetLines;
    var before := Lines(Universal(content.GetOr("")));
    LinesUnbroken(Universal(content.GetOr("")));
    SetTextLines(before, key, shown);
    SetLinesUnbroken(before, key, shown);
    ChunksOfLines(SetLines(before, key, shown));
  }

  /** The second of two settings of a key is all that is left of them, down to the characters of the file. */
  lemma LastSettingWins(content: Option<string>, key: string, first: string, second: string)
    requires PlainKey(key) && NoBreak(first)
    ensures SetText(Some(SetText(content, key, first)), key, second) == SetText(content, key, second)
  {
    hide PlainKey, NoBreak, Lines, Universal, Render, Setting, SetLines;
    var lines := Lines(Universal(content.GetOr("")));
    SetLinesAre(content, key, first);
    SetLinesTwice(lines, key, first, second);
  }

  lemma SeenAfterSet(lines: seq<string>, key: string, shown: string)
    requires PlainKey(key)
    ensures var once := SetLines(lines, key, shown);
      Seen(once, key) && |once| >= |lines|
      && (forall i :: 0 <= i < |lines| ==>
            (Matches(once[i], key) <==> Matches(lines[i], key)) && (!Matches(lines[i], key) ==> once[i] == lines[i]))
      && (forall i :: |lines| <= i < |once| ==> Matches(once[i], key))
  {
    SettingRead(map[], key, shown);
    hide PlainKey, Matches, Setting, SetLines, Replaced, Put;
    SetLinesEach(lines, key, shown);
    var once := SetLines(lines, key, shown);
    if Seen(lines, key) {
      var i :| 0 <= i < |lines| && Matches(lines[i], key);
      assert Matches(once[i], key);
    } else {
      assert Matches(once[|lines|], key);
    }
  }

  lemma SetLinesTwice(lines: seq<string>, key: string, first: string, second: string)
    requires PlainKey(key)
    ensures SetLines(SetLines(lines, key, first), key, second) == SetLines(lines, key, second)
  {
    hide *;
    var once := SetLines(lines, key, first);
    SeenAfterSet(lines, key, first);
    SetLinesEach(lines, key, first);
    SetLinesEach(once, key, second);
    SetLinesEach(lines, key, second);
  }

  // ---------------------------------------------------------------------------
  // Whole records
  // ---------------------------------------------------------------------------

  /** What reading the written fields should give: the fields that have a value, coerced. */
  ghost predicate HoldsFields(props: Properties, fields: seq<Field>) {
    (forall i :: 0 <= i < |fields| ==>
      match fields[i].1
      case None => fields[i].0 !in props
      case Some(v) => fields[i].0 in props && props[fields[i].0] == Coerce(Strip(Show(v))))
    && forall k :: k in props ==> exists i :: 0 <= i < |fields| && fields[i].0 == k
  }

  ghost predicate DistinctKeys(fields: seq<Field>) {
    forall i, j :: 0 <= i < j < |fields| ==> fields[i].0 != fields[j].0
  }

  ghost predicate WritableFields(fields: seq<Field>) {
    forall i :: 0 <= i < |fields| ==>
      PlainKey(fields[i].0) && (fields[i].1.Some? ==> NoBreak(RightStrip(Show(fields[i].1.value))))
  }

  lemma {:induction false} FieldLinesRead(fields: seq<Field>)
    requires DistinctKeys(fields) && WritableFields(fields)
    ensures HoldsFields(ReadOn(map[], Chunks(RecordLines(fields))), fields)
  {
    hide PlainKey, Strip, Coerce, NoBreak, Put, Lines, Show, RightStrip;
    if fields != [] {
      var init, last := fields[..|fields| - 1], fields[|fields| - 1];
      assert fields == init + [last];
      FieldLinesRead(init);
      var before := ReadOn(map[], Chunks(RecordLines(init)));
      match last.1 {
        case None =>
          assert RecordLines(fields) == RecordLines(init);
          FieldAdded(before, init, last);
        case Some(v) =>
          ChunkAdded(RecordLines(init), Setting(last.0, Show(v)));
          WrittenRead(before, last.0, Show(v));
          FieldAdded(before, init, last);
      }
    }
  }

  lemma FieldAdded(props: Properties, fields: seq<Field>, last: Field)
    requires HoldsFields(props, fields) && DistinctKeys(fields + [last])
    ensures HoldsFields(match last.1 case None => props case Some(v) => props[last.0 := Coerce(Strip(Show(v)))],
                        fields + [last])
  {
    hide Strip, Coerce, Show;
    var all := fields + [last];
    assert forall i :: 0 <= i < |fields| ==> all[i] == fields[i] && all[i].0 != all[|fields|].0;
    assert all[|fields|] == last;
    var after := match last.1 case None => props case Some(v) => props[last.0 := Coerce(Strip(Show(v)))];
    forall k | k in after ensures exists i :: 0 <= i < |all| && all[i].0 == k {
      if k in props {
        var i :| 0 <= i < |fields| && fields[i].0 == k;
        assert all[i].0 == k;
      }
    }
  }

  /** A record without any value is written as one blank line. */
  lemma NothingReadBack()
    ensures ReadText(Some(Render([]))) == map[]
  {
    UniversalLines(Render([]));
    OneLine("");
    assert "" + "\n" == Render([]);
    StripBlank("");
    ReadBlank(map[], [""]);
  }

  /** Reading a written record gives its fields, each key once, and nothing else. */
  lemma RecordReadBack(fields: seq<Field>)
    requires DistinctKeys(fields) && WritableFields(fields)
    ensures HoldsFields(ReadText(Some(Render(RecordLines(fields)))), fields)
  {
    hide WritableFields, DistinctKeys, HoldsFields, Lines, Universal, Render;
    FieldLinesRead(fields);
    if RecordLines(fields) == [] {
      NothingReadBack();
    } else {
      UniversalLines(Render(RecordLines(fields)));
      LinesRender(RecordLines(fields));
    }
  }

  // ---------------------------------------------------------------------------
  // The two record types
  // ---------------------------------------------------------------------------

  datatype BedrockProperties = BedrockProperties(
    serverName: string, gamemode: Option<string>, difficulty: Option<string>, maxPlayers: Option<int>,
    allowCheats: Option<bool>, onlineMode: Option<bool>, levelName: Option<string>, levelSeed: Option<string>,
    enableLanVisibility: bool, serverPort: int)

  datatype JavaProperties = JavaProperties(
    serverPort: int, maxPlayers: int, gamemode: string, difficulty: string, onlineMode: bool, levelName: string,
    levelSeed: string, motd: string, enableRcon: bool, rconPort: int, rconPassword: string, spawnProtection: int,
    viewDistance: int, simulationDistance: int, enableCommandBlock: bool, allowFlight: bool, whiteList: bool,
    enforceWhitelist: bool, maxTickTime: int, networkCompressionThreshold: int, preventProxyConnections: bool)

  function WordsOf(s: Option<string>): Option<Value> {
    match s case None => None case Some(text) => Some(Words(text))
  }

  function NumberOf(n: Option<int>): Option<Value> {
    match n case None => None case Some(value) => Some(Number(value))
  }

  function FlagOf(b: Option<bool>): Option<Value> {
    match b case None => None case Some(on) => Some(Flag(on))
  }

  /** The fields of `write_server_properties`, in the order written. */
  function BedrockFields(p: BedrockProperties): seq<Field> {
    [("server-name", Some(Words(p.serverName))),
     ("gamemode", WordsOf(p.gamemode)),
     ("difficulty", WordsOf(p.difficulty)),
     ("max-players", NumberOf(p.maxPlayers)),
     ("allow-cheats", FlagOf(p.allowCheats)),
     ("online-mode", FlagOf(p.onlineMode)),
     ("level-name", WordsOf(p.levelName)),
     ("level-seed", WordsOf(p.levelSeed)),
     ("server-port", Some(Number(p.serverPort))),
     ("server-portv6", Some(Number(p.serverPort + 1))),
     ("enable-lan-visibility", Some(Flag(p.enableLanVisibility)))]
  }

  /** The fields of `write_java_server_properties`, in the order written. */
  function JavaFields(p: JavaProperties): seq<Field> {
    JavaGameFields(p) + JavaAccessFields(p) + JavaLimitFields(p)
  }

  function JavaGameFields(p: JavaProperties): seq<Field> {
    [("server-port", Some(Number(p.serverPort))),
     ("max-players", Some(Number(p.maxPlayers))),
     ("gamemode", Some(Words(p.gamemode))),
     ("difficulty", Some(Words(p.difficulty))),
     ("online-mode", Some(Flag(p.onlineMode))),
     ("level-name", Some(Words(p.levelName))),
     ("level-seed", Some(Words(p.levelSeed)))]
  }

  function JavaAccessFields(p: JavaProperties): seq<Field> {
    [("motd", Some(Words(p.motd))),
     ("enable-rcon", Some(Flag(p.enableRcon))),
     ("rcon.port", Some(Number(p.rconPort))),
     ("rcon.password", Some(Words(p.rconPassword))),
     ("spawn-protection", Some(Number(p.spawnProtection))),
     ("view-distance", Some(Number(p.viewDistance))),
     ("simulation-distance", Some(Number(p.simulationDistance)))]
  }

  function JavaLimitFields(p: JavaProperties): seq<Field> {
    [("enable-command-block", Some(Flag(p.enableCommandBlock))),
     ("allow-flight", Some(Flag(p.allowFlight))),
     ("white-list", Some(Flag(p.whiteList))),
     ("enforce-whitelist", Some(Flag(p.enforceWhitelist))),
     ("max-tick-time", Some(Number(p.maxTickTime))),
     ("network-compression-threshold", Some(Number(p.networkCompressionThreshold))),
     ("prevent-proxy-connections", Some(Flag(p.preventProxyConnections)))]
  }

  predicate IsKeyCharacter(c: char) {
    'a' <= c <= 'z' || c == '-' || c == '.' || c == '6'
  }

  predicate Letters(key: string) {
    forall i :: 0 <= i < |key| ==> IsKeyCharacter(key[i])
  }

  lemma LettersArePlain(key: string)
    requires Letters(key)
    ensures PlainKey(key)
  {
  }

  lemma ValueWritable(v: Value)
    requires v.Words? ==> NoBreak(RightStrip(v.text))
    ensures NoBreak(RightStrip(Show(v)))
  {
    match v
    case Flag(on) =>
    case Number(n) =>
      NumberUnbroken(n);
    case Words(text) =>
  }

  lemma NumberUnbroken(n: int)
    ensures NoBreak(Shown(n))
  {
    var s := Shown(n);
    var d := Decimal(if n < 0 then -n else n);
    assert forall i :: 0 <= i < |d| ==> IsDigit(d[i]) by {
      assert forall i :: 0 <= i < |d| ==> d[i] in d;
    }
    assert forall i :: 0 <= i < |s| ==> s[i] == '-' || IsDigit(s[i]);
  }

  ghost predicate PlainKeys(fields: seq<Field>) {
    forall i :: 0 <= i < |fields| ==> PlainKey(fields[i].0)
  }

  ghost predicate WritableValues(fields: seq<Field>) {
    forall i :: 0 <= i < |fields| && fields[i].1.Some? && fields[i].1.value.Words? ==>
      NoBreak(RightStrip(fields[i].1.value.text))
  }

  lemma FieldsWritable(fields: seq<Field>)
    requires PlainKeys(fields) && WritableValues(fields)
    ensures WritableFields(fields)
  {
    hide PlainKey, NoBreak, RightStrip, Show;
    forall i | 0 <= i < |fields| && fields[i].1.Some? ensures NoBreak(RightStrip(Show(fields[i].1.value))) {
      ValueWritable(fields[i].1.value);
    }
  }

  lemma BedrockKeys(p: BedrockProperties)
    ensures PlainKeys(BedrockFields(p)) && DistinctKeys(BedrockFields(p))
  {
    BedrockDistinct(p);
    BedrockLetters(p);
    hide PlainKey, Letters, BedrockFields, DistinctKeys;
    forall i | 0 <= i < |BedrockFields(p)| ensures PlainKey(BedrockFields(p)[i].0) {
      LettersArePlain(BedrockFields(p)[i].0);
    }
  }

  lemma BedrockDistinct(p: BedrockProperties)
    ensures DistinctKeys(BedrockFields(p))
  {
  }

  lemma BedrockLetters(p: BedrockProperties)
    ensures forall i :: 0 <= i < |BedrockFields(p)| ==> Letters(BedrockFields(p)[i].0)
  {
  }

  lemma GroupsPlain(p: JavaProperties)
    ensures PlainKeys(JavaGameFields(p)) && PlainKeys(JavaAccessFields(p)) && PlainKeys(JavaLimitFields(p))
  {
    GamePlain(p);
    AccessPlain(p);
    LimitPlain(p);
  }

  lemma GamePlain(p: JavaProperties)
    ensures PlainKeys(JavaGameFields(p))
  {
    GameLetters(p);
    hide PlainKey, Letters, JavaGameFields;
    forall i | 0 <= i < |JavaGameFields(p)| ensures PlainKey(JavaGameFields(p)[i].0) {
      LettersArePlain(JavaGameFields(p)[i].0);
    }
  }

  lemma GameLetters(p: JavaProperties)
    ensures forall i :: 0 <= i < |JavaGameFields(p)| ==> Letters(JavaGameFields(p)[i].0)
  {
  }

  lemma AccessPlain(p: JavaProperties)
    ensures PlainKeys(JavaAccessFields(p))
  {
    AccessLetters(p);
    hide PlainKey, Letters, JavaAccessFields;
    forall i | 0 <= i < |JavaAccessFields(p)| ensures PlainKey(JavaAccessFields(p)[i].0) {
      LettersArePlain(JavaAccessFields(p)[i].0);
    }
  }

  lemma AccessLetters(p: JavaProperties)
    ensures forall i :: 0 <= i < |JavaAccessFields(p)| ==> Letters(JavaAccessFields(p)[i].0)
  {
  }

  lemma LimitPlain(p: JavaProperties)
    ensures PlainKeys(JavaLimitFields(p))
  {
    LimitLetters(p);
    hide PlainKey, Letters, JavaLimitFields;
    forall i | 0 <= i < |JavaLimitFields(p)| ensures PlainKey(JavaLimitFields(p)[i].0) {
      LettersArePlain(JavaLimitFields(p)[i].0);
    }
  }

  lemma LimitLetters(p: JavaProperties)
    ensures forall i :: 0 <= i < |JavaLimitFields(p)| ==> Letters(JavaLimitFields(p)[i].0)
  {
    LongLetters();
    assert Letters("enable-command-block") && Letters("allow-flight") && Letters("white-list");
    assert Letters("enforce-whitelist") && Letters("max-tick-time");
    hide Letters;
  }

  lemma LongLetters()
    ensures Letters("network-compression-threshold") && Letters("prevent-proxy-connections")
  {
  }

  /** Length and one letter tell the Java keys apart. */
  function Signature(key: string): int {
    if key == "" then 0
    else 1000 * |key| + (if |key| == 10 then key[6] else key[0]) as int
  }

  lemma JavaKeys(p: JavaProperties)
    ensures PlainKeys(JavaFields(p)) && DistinctKeys(JavaFields(p))
  {
    GroupsPlain(p);
    GameSignatures(p);
    AccessSignatures(p);
    LimitSignatures(p);
    hide Signature, PlainKey, JavaGameFields, JavaAccessFields, JavaLimitFields;
    var a, b, c := JavaGameFields(p), JavaAccessFields(p), JavaLimitFields(p);
    var fields := JavaFields(p);
    assert forall i :: 0 <= i < 7 ==> fields[i] == a[i] && fields[7 + i] == b[i] && fields[14 + i] == c[i];
    assert forall i :: 0 <= i < |fields| ==>
      fields[i] == if i < 7 then a[i] else if i < 14 then b[i - 7] else c[i - 14];
    forall i, j | 0 <= i < j < |fields| ensures fields[i].0 != fields[j].0 {
      assert Signature(fields[i].0) == (GAME_SIGNATURES + ACCESS_SIGNATURES + LIMIT_SIGNATURES)[i];
      assert Signature(fields[j].0) == (GAME_SIGNATURES + ACCESS_SIGNATURES + LIMIT_SIGNATURES)[j];
    }
  }

  const GAME_SIGNATURES: seq<int> := [11115, 11109, 8103, 10117, 11111, 10110, 10115]
  const ACCESS_SIGNATURES: seq<int> := [4109, 11101, 9114, 13114, 16115, 13118, 19115]
  const LIMIT_SIGNATURES: seq<int> := [20101, 12097, 10108, 17101, 13109, 29110, 25112]

  lemma GameSignatures(p: JavaProperties)
    ensures |JavaGameFields(p)| == 7
    ensures forall i :: 0 <= i < 7 ==> Signature(JavaGameFields(p)[i].0) == GAME_SIGNATURES[i]
  {
  }

  lemma AccessSignatures(p: JavaProperties)
    ensures |JavaAccessFields(p)| == 7
    ensures forall i :: 0 <= i < 7 ==> Signature(JavaAccessFields(p)[i].0) == ACCESS_SIGNATURES[i]
  {
  }

  lemma LimitSignatures(p: JavaProperties)
    ensures |JavaLimitFields(p)| == 7
    ensures forall i :: 0 <= i < 7 ==> Signature(JavaLimitFields(p)[i].0) == LIMIT_SIGNATURES[i]
  {
  }

  /** Every field with a value that reading keeps comes back as that value. */
  ghost predicate GivesBack(props: Properties, fields: seq<Field>) {
    forall i :: 0 <= i < |fields| ==>
      match fields[i].1
      case None => fields[i].0 !in props
      case Some(Flag(on)) => fields[i].0 in props && props[fields[i].0] == Flag(on)
      case Some(Number(n)) => n >= 0 ==> fields[i].0 in props && props[fields[i].0] == Number(n)
      case Some(Words(s)) => KeptWords(s) ==> fields[i].0 in props && props[fields[i].0] == Words(s)
  }

  lemma HeldIsGivenBack(props: Properties, fields: seq<Field>)
    requires HoldsFields(props, fields)
    ensures GivesBack(props, fields)
  {
    hide Coerce, Strip, Show, KeptWords;
    forall i | 0 <= i < |fields| && fields[i].1.Some?
      ensures (fields[i].1.value.Words? && !KeptWords(fields[i].1.value.text))
              || (fields[i].1.value.Number? && fields[i].1.value.n < 0)
              || (fields[i].0 in props && props[fields[i].0] == fields[i].1.value)
    {
      ValueSurvives(fields[i].1.value);
    }
  }

  /** `key` is read as the stripped and coerced text, which is `s` itself where it survives; None is not read. */
  ghost predicate ReadsWords(props: Properties, key: string, s: Option<string>) {
    if s.None? then key !in props
    else key in props && props[key] == Coerce(Strip(s.value)) && (KeptWords(s.value) ==> props[key] == Words(s.value))
  }

  ghost predicate ReadsNumber(props: Properties, key: string, n: Option<int>) {
    if n.None? then key !in props
    else key in props && props[key] == Coerce(Strip(Shown(n.value))) && (n.value >= 0 ==> props[key] == Number(n.value))
  }

  ghost predicate ReadsFlag(props: Properties, key: string, b: Option<bool>) {
    if b.None? then key !in props else key in props && props[key] == Flag(b.value)
  }

  ghost predicate FieldRead(props: Properties, field: Field) {
    match field.1
    case None => field.0 !in props
    case Some(Flag(on)) => ReadsFlag(props, field.0, Some(on))
    case Some(Number(n)) => ReadsNumber(props, field.0, Some(n))
    case Some(Words(s)) => ReadsWords(props, field.0, Some(s))
  }

  lemma FieldsRead(props: Properties, fields: seq<Field>)
    requires HoldsFields(props, fields) && GivesBack(props, fields)
    ensures forall i :: 0 <= i < |fields| ==> FieldRead(props, fields[i])
    ensures forall k :: k in props ==> exists i :: 0 <= i < |fields| && fields[i].0 == k
  {
    hide Coerce, Strip, Shown, KeptWords;
    forall i | 0 <= i < |fields| ensures FieldRead(props, fields[i]) {
      match fields[i].1
      case None =>
      case Some(v) =>
        assert Show(v) ==
               match v case Flag(on) => (if on then "true" else "false") case Number(n) => Shown(n) case Words(s) => s;
    }
  }

  /** Every key of a Bedrock file is read as its own field of the record, and there is no other key. */
  ghost predicate BedrockRead(props: Properties, p: BedrockProperties) {
    props.Keys <= BEDROCK_KEYS
    && ReadsWords(props, "server-name", Some(p.serverName))
    && ReadsWords(props, "gamemode", p.gamemode)
    && ReadsWords(props, "difficulty", p.difficulty)
    && ReadsNumber(props, "max-players", p.maxPlayers)
    && ReadsFlag(props, "allow-cheats", p.allowCheats)
    && ReadsFlag(props, "online-mode", p.onlineMode)
    && ReadsWords(props, "level-name", p.levelName)
    && ReadsWords(props, "level-seed", p.levelSeed)
    && ReadsNumber(props, "server-port", Some(p.serverPort))
    && ReadsNumber(props, "server-portv6", Some(p.serverPort + 1))
    && ReadsFlag(props, "enable-lan-visibility", Some(p.enableLanVisibility))
  }

  const BEDROCK_KEYS: set<string> :=
    {"server-name", "gamemode", "difficulty", "max-players", "allow-cheats", "online-mode", "level-name",
     "level-seed", "server-port", "server-portv6", "enable-lan-visibility"}

  lemma BedrockFieldsRead(props: Properties, p: BedrockProperties)
    requires forall i :: 0 <= i < |BedrockFields(p)| ==> FieldRead(props, BedrockFields(p)[i])
    requires forall k :: k in props ==> exists i :: 0 <= i < |BedrockFields(p)| && BedrockFields(p)[i].0 == k
    ensures BedrockRead(props, p)
  {
    hide ReadsWords, ReadsNumber, ReadsFlag;
    BedrockNone(props, p);
    assert FieldRead(props, BedrockFields(p)[0]);
    assert FieldRead(props, BedrockFields(p)[1]);
    assert FieldRead(props, BedrockFields(p)[2]);
    assert FieldRead(props, BedrockFields(p)[3]);
    assert FieldRead(props, BedrockFields(p)[4]);
    assert FieldRead(props, BedrockFields(p)[5]);
    assert FieldRead(props, BedrockFields(p)[6]);
    assert FieldRead(props, BedrockFields(p)[7]);
    assert FieldRead(props, BedrockFields(p)[8]);
    assert FieldRead(props, BedrockFields(p)[9]);
    assert FieldRead(props, BedrockFields(p)[10]);
  }

  lemma BedrockNone(props: Properties, p: BedrockProperties)
    ensures forall key :: key !in props ==>
      ReadsWords(props, key, None) && ReadsNumber(props, key, None) && ReadsFlag(props, key, None)
  {
  }

  /** The same for a Java file. */
  ghost predicate JavaRead(props: Properties, p: JavaProperties) {
    props.Keys <= JAVA_KEYS && JavaGameRead(props, p) && JavaAccessRead(props, p) && JavaLimitRead(props, p)
  }

  const JAVA_KEYS: set<string> :=
    {"server-port", "max-players", "gamemode", "difficulty", "online-mode", "level-name", "level-seed", "motd",
     "enable-rcon", "rcon.port", "rcon.password", "spawn-protection", "view-distance", "simulation-distance",
     "enable-command-block", "allow-flight", "white-list", "enforce-whitelist", "max-tick-time",
     "network-compression-threshold", "prevent-proxy-connections"}

  ghost predicate JavaGameRead(props: Properties, p: JavaProperties) {
    && ReadsNumber(props, "server-port", Some(p.serverPort))
    && ReadsNumber(props, "max-players", Some(p.maxPlayers))
    && ReadsWords(props, "gamemode", Some(p.gamemode))
    && ReadsWords(props, "difficulty", Some(p.difficulty))
    && ReadsFlag(props, "online-mode", Some(p.onlineMode))
    && ReadsWords(props, "level-name", Some(p.levelName))
    && ReadsWords(props, "level-seed", Some(p.levelSeed))
  }

  lemma JavaGameFieldsRead(props: Properties, p: JavaProperties)
    requires forall i :: 0 <= i < 7 ==> FieldRead(props, JavaGameFields(p)[i])
    ensures JavaGameRead(props, p)
    ensures forall i :: 0 <= i < 7 ==> JavaGameFields(p)[i].0 in JAVA_KEYS
  {
    hide ReadsWords, ReadsNumber, ReadsFlag;
    assert FieldRead(props, JavaGameFields(p)[0]);
    assert FieldRead(props, JavaGameFields(p)[1]);
    assert FieldRead(props, JavaGameFields(p)[2]);
    assert FieldRead(props, JavaGameFields(p)[3]);
    assert FieldRead(props, JavaGameFields(p)[4]);
    assert FieldRead(props, JavaGameFields(p)[5]);
    assert FieldRead(props, JavaGameFields(p)[6]);
  }

  ghost predicate JavaAccessRead(props: Properties, p: JavaProperties) {
    && ReadsWords(props, "motd", Some(p.motd))
    && ReadsFlag(props, "enable-rcon", Some(p.enableRcon))
    && ReadsNumber(props, "rcon.port", Some(p.rconPort))
    && ReadsWords(props, "rcon.password", Some(p.rconPassword))
    && ReadsNumber(props, "spawn-protection", Some(p.spawnProtection))
    && ReadsNumber(props, "view-distance", Some(p.viewDistance))
    && ReadsNumber(props, "simulation-distance", Some(p.simulationDistance))
  }

  lemma JavaAccessFieldsRead(props: Properties, p: JavaProperties)
    requires forall i :: 0 <= i < 7 ==> FieldRead(props, JavaAccessFields(p)[i])
    ensures JavaAccessRead(props, p)
    ensures forall i :: 0 <= i < 7 ==> JavaAccessFields(p)[i].0 in JAVA_KEYS
  {
    hide ReadsWords, ReadsNumber, ReadsFlag;
    assert FieldRead(props, JavaAccessFields(p)[0]);
    assert FieldRead(props, JavaAccessFields(p)[1]);
    assert FieldRead(props, JavaAccessFields(p)[2]);
    assert FieldRead(props, JavaAccessFields(p)[3]);
    assert FieldRead(props, JavaAccessFields(p)[4]);
    assert FieldRead(props, JavaAccessFields(p)[5]);
    assert FieldRead(props, JavaAccessFields(p)[6]);
  }

  ghost predicate JavaLimitRead(props: Properties, p: JavaProperties) {
    && ReadsFlag(props, "enable-command-block", Some(p.enableCommandBlock))
    && ReadsFlag(props, "allow-flight", Some(p.allowFlight))
    && ReadsFlag(props, "white-list", Some(p.whiteList))
    && ReadsFlag(props, "enforce-whitelist", Some(p.enforceWhitelist))
    && ReadsNumber(props, "max-tick-time", Some(p.maxTickTime))
    && ReadsNumber(props, "network-compression-threshold", Some(p.networkCompressionThreshold))
    && ReadsFlag(props, "prevent-proxy-connections", Some(p.preventProxyConnections))
  }

  lemma JavaLimitFieldsRead(props: Properties, p: JavaProperties)
    requires forall i :: 0 <= i < 7 ==> FieldRead(props, JavaLimitFields(p)[i])
    ensures JavaLimitRead(props, p)
    ensures forall i :: 0 <= i < 7 ==> JavaLimitFields(p)[i].0 in JAVA_KEYS
  {
    hide ReadsWords, ReadsNumber, ReadsFlag;
    assert FieldRead(props, JavaLimitFields(p)[0]);
    assert FieldRead(props, JavaLimitFields(p)[1]);
    assert FieldRead(props, JavaLimitFields(p)[2]);
    assert FieldRead(props, JavaLimitFields(p)[3]);
    assert FieldRead(props, JavaLimitFields(p)[4]);
    assert FieldRead(props, JavaLimitFields(p)[5]);
    assert FieldRead(props, JavaLimitFields(p)[6]);
  }

  lemma JavaFieldsRead(props: Properties, p: JavaProperties)
    requires forall i :: 0 <= i < |JavaFields(p)| ==> FieldRead(props, JavaFields(p)[i])
    requires forall k :: k in props ==> exists i :: 0 <= i < |JavaFields(p)| && JavaFields(p)[i].0 == k
    ensures JavaRead(props, p)
  {
    JavaParts(p);
    hide JavaGameFields, JavaAccessFields, JavaLimitFields, FieldRead, JavaFields, JavaGameRead, JavaAccessRead, JavaLimitRead;
    forall i | 0 <= i < 7
      ensures FieldRead(props, JavaGameFields(p)[i]) && FieldRead(props, JavaAccessFields(p)[i])
      ensures FieldRead(props, JavaLimitFields(p)[i])
    {
      assert FieldRead(props, JavaFields(p)[i]) && FieldRead(props, JavaFields(p)[7 + i]);
      assert FieldRead(props, JavaFields(p)[14 + i]);
    }
    JavaGameFieldsRead(props, p);
    JavaAccessFieldsRead(props, p);
    JavaLimitFieldsRead(props, p);
  }

  lemma JavaParts(p: JavaProperties)
    ensures |JavaFields(p)| == 21 && |JavaGameFields(p)| == |JavaAccessFields(p)| == |JavaLimitFields(p)| == 7
    ensures forall i :: 0 <= i < 7 ==>
      JavaFields(p)[i] == JavaGameFields(p)[i] && JavaFields(p)[7 + i] == JavaAccessFields(p)[i]
      && JavaFields(p)[14 + i] == JavaLimitFields(p)[i]
    ensures forall i :: 7 <= i < 14 ==> JavaFields(p)[i] == JavaAccessFields(p)[i - 7]
    ensures forall i :: 14 <= i < 21 ==> JavaFields(p)[i] == JavaLimitFields(p)[i - 14]
  {
    GameSignatures(p);
    AccessSignatures(p);
    LimitSignatures(p);
    hide JavaGameFields, JavaAccessFields, JavaLimitFields;
  }

  /** A written Bedrock record reads back, key by key, as its fields that have a value, and nothing else. */
  lemma BedrockReadBack(p: BedrockProperties)
    requires WritableValues(BedrockFields(p))
    ensures var props := ReadText(Some(Render(RecordLines(BedrockFields(p)))));
      HoldsFields(props, BedrockFields(p)) && GivesBack(props, BedrockFields(p)) && BedrockRead(props, p)
  {
    BedrockKeys(p);
    hide *;
    FieldsWritable(BedrockFields(p));
    RecordReadBack(BedrockFields(p));
    var props := ReadText(Some(Render(RecordLines(BedrockFields(p)))));
    HeldIsGivenBack(props, BedrockFields(p));
    FieldsRead(props, BedrockFields(p));
    BedrockFieldsRead(props, p);
  }

  /** A written Java record reads back, key by key, as its fields, and nothing else. */
  lemma JavaReadBack(p: JavaProperties)
    requires WritableValues(JavaFields(p))
    ensures var props := ReadText(Some(Render(RecordLines(JavaFields(p)))));
      HoldsFields(props, JavaFields(p)) && GivesBack(props, JavaFields(p)) && JavaRead(props, p)
  {
    JavaKeys(p);
    hide *;
    FieldsWritable(JavaFields(p));
    RecordReadBack(JavaFields(p));
    var props := ReadText(Some(Render(RecordLines(JavaFields(p)))));
    HeldIsGivenBack(props, JavaFields(p));
    FieldsRead(props, JavaFields(p));
    JavaFieldsRead(props, p);
  }
}
