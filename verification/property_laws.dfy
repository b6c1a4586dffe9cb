/** What setting, reading and writing properties mean for each other. */
module PropertyLaws {
  import opened Wrappers
  import opened Text
  import opened ServerProperties

  // ---------------------------------------------------------------------------
  // White space and line breaks
  // ---------------------------------------------------------------------------

  lemma StripSuffix(x: string, b: string)
    requires AllSpace(b)
    ensures Strip(x + b) == Strip(x)
  {
    hide IsSpace, Strip;
    var a, c := StripParts(x);
    assert x + b == a + Strip(x) + (c + b);
    StripUnique(a, Strip(x), c + b);
  }

  lemma StripShortens(x: string)
    ensures |Strip(x)| <= |x|
  {
  }

  lemma StripUnbroken(x: string)
    requires NoBreak(x)
    ensures NoBreak(Strip(x))
  {
    hide IsSpace, IsBreak, Strip;
    var a, b := StripParts(x);
    assert forall i :: 0 <= i < |Strip(x)| ==> Strip(x)[i] == x[|a| + i];
  }

  lemma StripBlank(x: string)
    requires AllSpace(x)
    ensures Strip(x) == ""
  {
    StripUnique(x, "", "");
    assert x + "" + "" == x;
  }

  lemma {:induction false} LinesBlank(s: string)
    requires AllSpace(s)
    ensures forall i :: 0 <= i < |Lines(s)| ==> Strip(Lines(s)[i]) == ""
    decreases |s|
  {
    hide IsSpace, IsBreak, Strip;
    if s != "" {
      var i := Break(s);
      StripBlank(s[..i]);
      if i < |s| {
        LinesBlank(s[After(s, i)..]);
      }
    }
  }

  /** Blank lines change nothing. */
  lemma {:induction false} ReadBlank(props: Properties, lines: seq<string>)
    requires forall i :: 0 <= i < |lines| ==> Strip(lines[i]) == ""
    ensures ReadOn(props, lines) == props
  {
    if lines != [] {
      ReadBlank(props, lines[..|lines| - 1]);
    }
  }

  // ---------------------------------------------------------------------------
  // What a line means to the reader
  // ---------------------------------------------------------------------------

  /** A comment says nothing, whatever is in it. */
  lemma CommentSaysNothing(props: Properties, lead: string, rest: string)
    requires AllSpace(lead)
    ensures Put(props, lead + "#" + rest) == props
  {
    var line := lead + "#" + rest;
    assert !IsSpace('#');
    hide IsSpace;
    assert line == lead + ("#" + rest);
    LeftStripUnique(lead, "#" + rest);
    assert ("#" + rest)[0] == '#';
    assert Skipped(line);
  }

  /** A line without an equals sign says nothing. */
  lemma NoEqualsSaysNothing(props: Properties, line: string)
    requires '=' !in line
    ensures Put(props, line) == props
  {
    FindNone(line, '=');
  }

  /** Any other line sets the text before its first equals sign to the text behind it, white space around them aside. */
  lemma EntrySets(props: Properties, a: string, key: string, b: string, c: string, value: string, d: string)
    requires AllSpace(a) && AllSpace(b) && AllSpace(c) && AllSpace(d)
    requires key != "" && Trimmed(key) && '=' !in key && key[0] != '#' && Trimmed(value)
    ensures Put(props, a + key + b + "=" + c + value + d) == props[key := Coerce(value)]
  {
    hide *;
    var front, back := a + key + b, c + value + d;
    var line := front + ['='] + back;
    NoEqualsInSpace(a, key, b);
    EntryIsKept(a, key, b, back);
    FindUnique(front, '=', back);
    StripUnique(a, key, b);
    StripUnique(c, value, d);
    CutAround(front, '=', back);
    PutFound(props, line, |front|);
    KeyIs(line, |front|);
    assert a + key + b + "=" + c + value + d == line;
  }

  lemma CutAround(front: string, c: char, back: string)
    ensures var line := front + [c] + back;
      |front| < |line| && line[..|front|] == front && line[|front| + 1..] == back
  {
  }

  lemma KeyIs(line: string, i: nat)
    requires i <= |line| && Find(line, '=') == i
    ensures KeyOf(line) == Strip(line[..i])
  {
  }

  lemma NoEqualsInSpace(a: string, key: string, b: string)
    requires AllSpace(a) && AllSpace(b) && '=' !in key
    ensures '=' !in a + key + b
  {
    assert !IsSpace('=');
    hide IsSpace;
    assert forall i :: 0 <= i < |a| ==> a[i] != '=';
    assert forall i :: 0 <= i < |b| ==> b[i] != '=';
  }

  lemma EntryIsKept(a: string, key: string, b: string, back: string)
    requires AllSpace(a) && key != "" && Trimmed(key) && key[0] != '#'
    ensures !Skipped(a + key + b + ['='] + back)
  {
    var line := a + key + b + ['='] + back;
    var rest := key + b + ['='] + back;
    hide IsSpace, Strip;
    assert line == a + rest && rest[0] == key[0];
    LeftStripUnique(a, rest);
    assert line[|a|] == key[0];
    StripKeepsMark(line, |a|);
  }

  /** A text with a character that is no white space does not strip to nothing. */
  lemma StripKeepsMark(s: string, i: nat)
    requires i < |s| && !IsSpace(s[i])
    ensures Strip(s) != ""
  {
    hide Strip, IsSpace;
    var a, b := StripParts(s);
    assert s == a + Strip(s) + b;
  }

  /** A line ends at its first break, and a carriage return with the line feed behind it is one break. */
  lemma LineEnds(line: string, c: char, rest: string)
    requires NoBreak(line) && IsBreak(c)
    ensures !(c == '\r' && rest != "" && rest[0] == '\n') ==> Lines(line + [c] + rest) == [line] + Lines(rest)
    ensures Lines(line + "\r\n" + rest) == [line] + Lines(rest)
  {
    var one, two := [c] + rest, "\r\n" + rest;
    assert line + [c] + rest == line + one && line + "\r\n" + rest == line + two;
    LinesStep(line, one);
    LinesStep(line, two);
    assert one[1..] == rest && two[2..] == rest;
    assert After(two, 0) == 2;
    assert !(c == '\r' && rest != "" && rest[0] == '\n') ==> After(one, 0) == 1;
  }

  // ---------------------------------------------------------------------------
  // The line that a setting becomes
  // ---------------------------------------------------------------------------

  lemma NotSkipped(line: string)
    requires line != "" && !IsSpace(line[0]) && line[0] != '#'
    ensures !Skipped(line)
  {
    hide IsSpace;
    assert Leading(line) == 0;
    assert LeftStrip(line) == line;
    assert Kept(line) > 0 by {
      assert !IsSpace(line[0]);
    }
  }

  lemma SettingParts(key: string, shown: string)
    requires PlainKey(key)
    ensures var line := Setting(key, shown);
      Find(line, '=') == |key| && KeyOf(line) == key && line[|key| + 1..] == shown
  {
    hide IsSpace, IsBreak, Strip, Trimmed;
    FindUnique(key, '=', shown);
    assert Setting(key, shown) == key + ['='] + shown;
    assert Setting(key, shown)[..|key|] == key;
    StripTrimmed(key);
  }

  lemma SettingStarts(key: string, shown: string)
    requires PlainKey(key)
    ensures !Skipped(Setting(key, shown))
  {
    var line := Setting(key, shown);
    assert line[0] == if key == "" then '=' else key[0];
    NotSkipped(line);
  }

  lemma PutFound(props: Properties, line: string, i: nat)
    requires !Skipped(line) && Find(line, '=') == i < |line|
    ensures Put(props, line) == props[KeyOf(line) := Coerce(Strip(line[i + 1..]))]
  {
    hide Skipped, KeyOf, Strip, Coerce;
  }

  lemma SettingRead(props: Properties, key: string, shown: string)
    requires PlainKey(key)
    ensures Matches(Setting(key, shown), key)
    ensures Put(props, Setting(key, shown)) == props[key := Coerce(Strip(shown))]
  {
    hide IsSpace, IsBreak, Strip, Trimmed, Skipped, KeyOf, PlainKey, Coerce, Put;
    SettingStarts(key, shown);
    SettingParts(key, shown);
    PutFound(props, Setting(key, shown), |key|);
  }

  /** Where the lines of a written setting start. */
  function Written(key: string, shown: string): seq<string> {
    Lines(Setting(key, shown) + "\n")
  }

  function Behind(shown: string): string
    requires Break(shown) < |shown|
  {
    var rest := shown[Break(shown)..] + "\n";
    rest[After(rest, 0)..]
  }

  lemma SettingSplits(key: string, shown: string, i: nat)
    requires i <= |shown|
    ensures Setting(key, shown) + "\n" == Setting(key, shown[..i]) + (shown[i..] + "\n")
  {
    assert shown == shown[..i] + shown[i..];
  }

  lemma WrittenWhole(key: string, shown: string)
    requires PlainKey(key) && NoBreak(shown)
    ensures Written(key, shown) == [Setting(key, shown)]
  {
    SettingUnbroken(key, shown);
    hide IsBreak, Trimmed, Lines, Setting, PlainKey, NoBreak;
    OneLine(Setting(key, shown));
  }

  lemma WrittenLines(key: string, shown: string)
    requires PlainKey(key) && Break(shown) < |shown|
    ensures Written(key, shown) == [Setting(key, shown[..Break(shown)])] + Lines(Behind(shown))
  {
    var i := Break(shown);
    hide IsBreak, Trimmed, Lines, Setting, PlainKey, NoBreak, After;
    SettingUnbroken(key, shown[..i]);
    SettingSplits(key, shown, i);
    var rest := shown[i..] + "\n";
    assert rest[0] == shown[i];
    LinesStep(Setting(key, shown[..i]), rest);
  }

  lemma SettingUnbroken(key: string, shown: string)
    requires PlainKey(key) && NoBreak(shown)
    ensures NoBreak(Setting(key, shown))
  {
    var line := Setting(key, shown);
    assert forall i :: 0 <= i < |line| ==>
      line[i] == if i < |key| then key[i] else if i == |key| then '=' else shown[i - |key| - 1];
  }

  /** With no line break before its trailing white space, a value is read as it was written. */
  lemma WrittenRead(props: Properties, key: string, shown: string)
    requires PlainKey(key) && NoBreak(RightStrip(shown))
    ensures ReadOn(props, Written(key, shown)) == props[key := Coerce(Strip(shown))]
  {
    hide IsSpace, IsBreak, PlainKey, Put, Lines, Strip, Setting;
    var i := Break(shown);
    var head := shown[..i];
    BreakInTail(shown);
    assert shown == head + shown[i..];
    StripSuffix(head, shown[i..]);
    SettingRead(props, key, head);
    assert ReadOn(props, []) == props;
    assert [Setting(key, head)][..0] == [];
    assert ReadOn(props, [Setting(key, head)]) == Put(props, Setting(key, head));
    if i == |shown| {
      assert head == shown;
      WrittenWhole(key, shown);
    } else {
      WrittenLines(key, shown);
      ReadAppend(props, [Setting(key, head)], Lines(Behind(shown)));
      BehindBlank(shown);
      LinesBlank(Behind(shown));
      ReadBlank(props[key := Coerce(Strip(head))], Lines(Behind(shown)));
    }
  }

  lemma BreakInTail(shown: string)
    requires NoBreak(RightStrip(shown))
    ensures Kept(shown) <= Break(shown)
  {
    var i := Break(shown);
    assert forall k :: 0 <= k < Kept(shown) ==> !IsBreak(shown[k]) by {
      assert forall k :: 0 <= k < Kept(shown) ==> RightStrip(shown)[k] == shown[k];
    }
  }

  lemma BehindBlank(shown: string)
    requires Kept(shown) <= Break(shown) < |shown|
    ensures AllSpace(Behind(shown))
  {
    hide *;
    var i := Break(shown);
    var rest := shown[i..] + "\n";
    TailBlank(shown, i);
    LineFeedBlank(shown[i..]);
    SpaceParts(rest, After(rest, 0));
    BehindIs(shown);
  }

  lemma TailBlank(s: string, i: nat)
    requires Kept(s) <= i <= |s|
    ensures AllSpace(s[i..])
  {
    hide IsSpace, Kept;
  }

  lemma LineFeedBlank(s: string)
    requires AllSpace(s)
    ensures AllSpace(s + "\n")
  {
    assert IsSpace('\n');
    hide IsSpace;
  }

  lemma BehindIs(shown: string)
    requires Break(shown) < |shown|
    ensures var rest := shown[Break(shown)..] + "\n";
      Behind(shown) == rest[After(rest, 0)..]
  {
  }

  // ---------------------------------------------------------------------------
  // A value with a line break inside
  // ---------------------------------------------------------------------------

  /** What `key` is read as after its line and whatever lines the value broke into. */
  function Landed(key: string, shown: string): (v: Value)
    requires PlainKey(key)
  {
    WrittenLands(map[], key, shown);
    ReadOn(map[], Written(key, shown))[key]
  }

  lemma {:induction false} SameKeyStays(a: Properties, b: Properties, key: string, lines: seq<string>)
    requires key in a && key in b && a[key] == b[key]
    ensures key in ReadOn(a, lines) && key in ReadOn(b, lines) && ReadOn(a, lines)[key] == ReadOn(b, lines)[key]
  {
    if lines != [] {
      hide Skipped, KeyOf, Coerce, Strip;
      SameKeyStays(a, b, key, lines[..|lines| - 1]);
    }
  }

  /** The lines of a setting decide its key alone, whatever was read before them. */
  lemma WrittenLands(props: Properties, key: string, shown: string)
    requires PlainKey(key)
    ensures key in ReadOn(map[], Written(key, shown)) && key in ReadOn(props, Written(key, shown))
    ensures ReadOn(props, Written(key, shown))[key] == ReadOn(map[], Written(key, shown))[key]
  {
    hide IsSpace, IsBreak, PlainKey, Put, Lines, Strip, Setting, Coerce, NoBreak;
    var i := Break(shown);
    var first := Setting(key, shown[..i]);
    SettingRead(props, key, shown[..i]);
    SettingRead(map[], key, shown[..i]);
    assert [first][..0] == [];
    assert ReadOn(props, []) == props && ReadOn(map[], []) == map[];
    assert ReadOn(props, [first]) == Put(props, first) && ReadOn(map[], [first]) == Put(map[], first);
    if i == |shown| {
      assert shown[..i] == shown;
      WrittenWhole(key, shown);
    } else {
      WrittenLines(key, shown);
      ReadAppend(props, [first], Lines(Behind(shown)));
      ReadAppend(map[], [first], Lines(Behind(shown)));
      SameKeyStays(Put(props, first), Put(map[], first), key, Lines(Behind(shown)));
    }
  }

  /** A text that is not made of letters and digits alone is never coerced. */
  lemma OddCharacterStays(s: string, i: nat)
    requires i < |s| && (s[i] == '=' || IsBreak(s[i]))
    ensures Coerce(s) == Words(s)
  {
    var c := Lower(s)[i];
    assert c == s[i] && !IsDigit(s[i]) && s[i] in s && !('a' <= c <= 'z');
    hide Lower, IsBreak;
    LettersOnly(Lower(s), i);
  }

  lemma LettersOnly(s: string, i: nat)
    requires i < |s| && !('a' <= s[i] <= 'z')
    ensures s != "true" && s != "false"
  {
    assert forall k :: 0 <= k < |"true"| ==> 'a' <= "true"[k] <= 'z';
    assert forall k :: 0 <= k < |"false"| ==> 'a' <= "false"[k] <= 'z';
  }

  ghost predicate UnbrokenValues(props: Properties) {
    forall k :: k in props && props[k].Words? ==> NoBreak(props[k].text)
  }

  lemma PutUnbroken(props: Properties, line: string)
    requires UnbrokenValues(props) && NoBreak(line)
    ensures UnbrokenValues(Put(props, line))
  {
    hide Skipped, KeyOf, Strip, IsBreak, Lower;
    var i := Find(line, '=');
    if i < |line| {
      StripUnbroken(line[i + 1..]);
    }
  }

  lemma {:induction false} ReadUnbroken(props: Properties, lines: seq<string>)
    requires Unbroken(lines) && UnbrokenValues(props)
    ensures UnbrokenValues(ReadOn(props, lines))
  {
    if lines != [] {
      hide UnbrokenValues, NoBreak, Put;
      ReadUnbroken(props, lines[..|lines| - 1]);
      PutUnbroken(ReadOn(props, lines[..|lines| - 1]), lines[|lines| - 1]);
    }
  }

  /** The lines of a one-line text inside white space: blank ones, and one that holds it. */
  lemma {:induction false} LinesPadded(a: string, s: string, b: string)
    requires AllSpace(a) && AllSpace(b) && Trimmed(s) && s != "" && NoBreak(s)
    ensures var lines := Lines(a + s + b);
      forall i :: 0 <= i < |lines| ==> Strip(lines[i]) in {"", s}
    decreases |a|
  {
    var i := Break(a);
    if i < |a| {
      BrokenBefore(a, s, b);
      StripBlank(a[..i]);
      LinesPadded(a[After(a, i)..], s, b);
    } else {
      assert a[..i] == a;
      UnbrokenBefore(a, s, b);
    }
  }

  lemma BrokenBefore(a: string, s: string, b: string)
    requires Break(a) < |a| && s != "" && !IsSpace(s[0])
    ensures Lines(a + s + b) == [a[..Break(a)]] + Lines(a[After(a, Break(a))..] + s + b)
  {
    var i := Break(a);
    BreakCut(a, s, b, i);
    hide *;
    var rest := a[i..] + s + b;
    assert a + s + b == a[..i] + rest;
    LinesStep(a[..i], rest);
  }

  /** A text cannot continue a line break that ends before it, unless it starts with a line feed. */
  lemma BreakCut(a: string, s: string, b: string, i: nat)
    requires i < |a| && s != "" && !IsSpace(s[0])
    ensures var rest := a[i..] + s + b;
      rest != "" && rest[0] == a[i] && rest[After(rest, 0)..] == a[After(a, i)..] + s + b
  {
    var rest := a[i..] + s + b;
    assert i + After(rest, 0) == After(a, i);
  }

  lemma UnbrokenBefore(a: string, s: string, b: string)
    requires AllSpace(a) && AllSpace(b) && Trimmed(s) && s != "" && NoBreak(a) && NoBreak(s)
    ensures var lines := Lines(a + s + b);
      forall i :: 0 <= i < |lines| ==> Strip(lines[i]) in {"", s}
  {
    hide *;
    var head, tail := SpaceAtBreak(b);
    UnbrokenParts(a, s, head);
    StripUnique(a, s, head);
    Regroup(a + s, head, tail);
    LineThenBlank(a + s + head, tail, s);
  }

  lemma Regroup(a: string, b: string, c: string)
    ensures a + (b + c) == a + b + c
  {
  }

  /** White space up to its first break, and the rest of it. */
  lemma SpaceAtBreak(b: string) returns (head: string, tail: string)
    requires AllSpace(b)
    ensures b == head + tail && AllSpace(head) && AllSpace(tail)
    ensures NoBreak(head) && (tail != "" ==> IsBreak(tail[0]))
  {
    hide *;
    var j := Break(b);
    head, tail := b[..j], b[j..];
    SpaceParts(b, j);
  }

  lemma SpaceParts(b: string, j: nat)
    requires AllSpace(b) && j <= |b|
    ensures AllSpace(b[..j]) && AllSpace(b[j..])
  {
    hide IsSpace;
  }

  /** One line, then white space that starts with a break. */
  lemma LineThenBlank(line: string, tail: string, s: string)
    requires NoBreak(line) && line != "" && Strip(line) == s
    requires AllSpace(tail) && (tail != "" ==> IsBreak(tail[0]))
    ensures var lines := Lines(line + tail);
      forall i :: 0 <= i < |lines| ==> Strip(lines[i]) in {"", s}
  {
    hide IsBreak, IsSpace, Strip, Lines, NoBreak;
    if tail == "" {
      WholeLine(line);
      assert line + tail == line;
    } else {
      LinesStep(line, tail);
      LinesBlank(tail[After(tail, 0)..]);
    }
  }

  lemma UnbrokenParts(a: string, s: string, b: string)
    requires NoBreak(a) && NoBreak(s) && NoBreak(b)
    ensures NoBreak(a + s + b)
  {
    var line := a + s + b;
    assert forall k :: 0 <= k < |line| ==>
      line[k] == if k < |a| then a[k] else if k < |a| + |s| then s[k - |a|] else b[k - |a| - |s|];
  }

  lemma WholeLine(line: string)
    requires NoBreak(line) && line != ""
    ensures Lines(line) == [line]
  {
    BreakAt(line, "");
    assert line + "" == line && line[..|line|] == line;
  }

  lemma EqualsInside(a: string, s: string, b: string)
    requires AllSpace(a) && AllSpace(b) && Find(a + s + b, '=') < |a + s + b|
    ensures var i := Find(a + s + b, '=');
      |a| <= i < |a| + |s| && s[i - |a|] == '=' && (a + s + b)[i + 1..] == s[i + 1 - |a|..] + b
  {
    var line := a + s + b;
    var i := Find(line, '=');
    assert !IsSpace('=');
    hide IsSpace;
    assert forall k :: 0 <= k < |line| ==>
      line[k] == if k < |a| then a[k] else if k < |a| + |s| then s[k - |a|] else b[k - |a| - |s|];
  }

  /** The value part of a line is shorter than the stripped line. */
  lemma ValuePartShorter(line: string) returns (j: nat)
    requires Find(line, '=') < |line|
    ensures |Strip(line[Find(line, '=') + 1..])| < |Strip(line)|
    ensures j < |Strip(line)| && Strip(line)[j] == '='
  {
    hide *;
    var i := Find(line, '=');
    var a, b := StripParts(line);
    var s := Strip(line);
    EqualsInside(a, s, b);
    j := i - |a|;
    StripSuffix(s[j + 1..], b);
    StripShortens(s[j + 1..]);
  }

  lemma PutNeverWhole(props: Properties, key: string, s: string, line: string)
    requires Strip(line) in {"", s} && key in props && props[key] != Coerce(s)
    ensures key in Put(props, line) && Put(props, line)[key] != Coerce(s)
  {
    hide Strip, Lower, KeyOf, LeftStrip;
    var i := Find(line, '=');
    if i < |line| && !Skipped(line) {
      var j := ValuePartShorter(line);
      OddCharacterStays(s, j);
    }
  }

  /** Neither a blank line nor one that strips to `s` can make `key` read as `s`. */
  lemma {:induction false} NeverWhole(props: Properties, key: string, s: string, lines: seq<string>)
    requires forall i :: 0 <= i < |lines| ==> Strip(lines[i]) in {"", s}
    requires key in props && props[key] != Coerce(s)
    ensures key in ReadOn(props, lines) && ReadOn(props, lines)[key] != Coerce(s)
  {
    if lines != [] {
      hide Strip, Coerce, Put;
      NeverWhole(props, key, s, lines[..|lines| - 1]);
      PutNeverWhole(ReadOn(props, lines[..|lines| - 1]), key, s, lines[|lines| - 1]);
    }
  }

  lemma LandedUnbroken(key: string, shown: string)
    requires PlainKey(key)
    ensures Landed(key, shown).Words? ==> NoBreak(Landed(key, shown).text)
  {
    hide PlainKey, Put, Lines, Setting, NoBreak, ReadOn;
    LinesUnbroken(Setting(key, shown) + "\n");
    ReadUnbroken(map[], Written(key, shown));
    WrittenLands(map[], key, shown);
  }

  /** With a line break before its trailing white space, a value is read as something else. */
  lemma WrittenMisread(key: string, shown: string)
    requires PlainKey(key) && !NoBreak(RightStrip(shown))
    ensures Landed(key, shown) != Coerce(Strip(shown))
  {
    if NoBreak(Strip(shown)) {
      MisreadBefore(key, shown);
    } else {
      hide IsBreak, Landed, PlainKey, Strip, Coerce;
      var i :| 0 <= i < |Strip(shown)| && IsBreak(Strip(shown)[i]);
      OddCharacterStays(Strip(shown), i);
      LandedUnbroken(key, shown);
    }
  }

  /** The break is in the leading white space: the first line leaves the key empty. */
  lemma MisreadBefore(key: string, shown: string)
    requires PlainKey(key) && !NoBreak(RightStrip(shown)) && NoBreak(Strip(shown))
    ensures Landed(key, shown) != Coerce(Strip(shown))
  {
    hide PlainKey, Put, Lines, Setting, IsBreak, Strip, Behind, NoBreak, Lower, After;
    var a, b := StripParts(shown);
    var s := Strip(shown);
    BreakInLead(a, s, b);
    BreakBefore(a, s, b);
    BehindParts(a, s, b, Break(a));
    assert AllSpace(b + "\n");
    var i := Break(shown);
    StripBlank(a[..i]);
    SettingRead(map[], key, a[..i]);
    var first := Setting(key, shown[..i]);
    assert [first][..0] == [] && ReadOn(map[], []) == map[];
    assert ReadOn(map[], [first]) == map[key := Coerce("")];
    WrittenLines(key, shown);
    ReadAppend(map[], [first], Lines(Behind(shown)));
    LinesPadded(a[After(a, i)..], s, b + "\n");
    assert Coerce("") != Coerce(s);
    NeverWhole(map[key := Coerce("")], key, s, Lines(Behind(shown)));
  }

  lemma BreakInLead(a: string, s: string, b: string)
    requires AllSpace(a) && AllSpace(b) && Trimmed(s) && NoBreak(s) && !NoBreak(RightStrip(a + s + b))
    ensures s != "" && Break(a) < |a|
  {
    hide *;
    BlankHasNoBreak(a, s, b);
    EndsTrimmed(a, s);
    RightStripUnique(a + s, b);
    UnbrokenBoth(a, s);
    NotUnbroken(a);
  }

  lemma UnbrokenBoth(a: string, s: string)
    ensures NoBreak(a) && NoBreak(s) ==> NoBreak(a + s)
  {
    hide IsBreak;
  }

  lemma BlankHasNoBreak(a: string, s: string, b: string)
    requires AllSpace(a) && AllSpace(b) && !NoBreak(RightStrip(a + s + b))
    ensures s != ""
  {
    hide IsSpace;
    RightStripUnique("", a + b);
    assert "" + (a + b) == a + "" + b;
  }

  lemma EndsTrimmed(a: string, s: string)
    requires s != "" && Trimmed(s)
    ensures !IsSpace((a + s)[|a + s| - 1])
  {
    assert (a + s)[|a + s| - 1] == s[|s| - 1];
  }

  lemma NotUnbroken(a: string)
    requires !NoBreak(a)
    ensures Break(a) < |a|
  {
    hide IsBreak;
    assert a[..|a|] == a;
  }

  lemma BreakBefore(a: string, s: string, b: string)
    requires Break(a) < |a|
    ensures Break(a + s + b) == Break(a) && (a + s + b)[..Break(a)] == a[..Break(a)]
  {
    hide IsBreak;
    var i := Break(a);
    assert a + s + b == a[..i] + (a[i..] + s + b);
    BreakAt(a[..i], a[i..] + s + b);
  }

  lemma BehindParts(a: string, s: string, b: string, i: nat)
    requires i < |a| && Break(a + s + b) == i && s != "" && !IsSpace(s[0])
    ensures Behind(a + s + b) == a[After(a, i)..] + s + (b + "\n")
  {
    BreakCut(a, s, b + "\n", i);
    hide IsSpace, After, Break, IsBreak;
    TailBehind(a, s, b, i);
  }

  lemma TailBehind(a: string, s: string, b: string, i: nat)
    requires i < |a|
    ensures (a + s + b)[i..] + "\n" == a[i..] + s + (b + "\n")
  {
  }

  // ---------------------------------------------------------------------------
  // Setting a property in a file
  // ---------------------------------------------------------------------------

  lemma KeptLine(props: Properties, line: string, key: string)
    requires NoBreak(line) && !Matches(line, key)
    ensures ReadOn(props, Lines(line + "\n")) == Put(props, line)
    ensures forall k :: k == key ==> (k in Put(props, line) <==> k in props)
                                      && (k in props ==> Put(props, line)[k] == props[k])
  {
    hide IsBreak, Skipped, KeyOf, Coerce, Strip, Lines;
    OneLine(line);
    assert [line][..0] == [];
    assert ReadOn(props, []) == props;
  }

  lemma SeenSnoc(lines: seq<string>, line: string, key: string)
    ensures Seen(lines + [line], key) <==> Seen(lines, key) || Matches(line, key)
  {
    var all := lines + [line];
    assert all[|lines|] == line;
    assert forall i :: 0 <= i < |lines| ==> all[i] == lines[i];
  }

  /** Reading the replaced lines: off `key` nothing changes, and a matching line sets it. */
  lemma {:induction false} ReplacedRead(lines: seq<string>, key: string, shown: string)
    requires Unbroken(lines) && PlainKey(key) && NoBreak(RightStrip(shown))
    ensures var before, after := ReadOn(map[], lines), ReadOn(map[], Chunks(Replaced(lines, key, shown)));
      after[key := Coerce(Strip(shown))] == before[key := Coerce(Strip(shown))]
      && (Seen(lines, key) ==> key in after && after[key] == Coerce(Strip(shown)))
  {
    hide PlainKey, Strip, Coerce, Matches, Put, Lines, IsBreak, IsSpace, Kept, Seen, NoBreak;
    if lines == [] {
      if Seen(lines, key) {
        SeenSome(lines, key);
      }
    } else {
      var init, line := lines[..|lines| - 1], lines[|lines| - 1];
      assert lines == init + [line];
      assert Unbroken(init);
      ReplacedRead(init, key, shown);
      SeenSnoc(init, line, key);
      ReplacedReadStep(init, line, key, shown);
    }
  }

  lemma ReplacedSnoc(init: seq<string>, line: string, key: string, shown: string)
    ensures Replaced(init + [line], key, shown) == Replaced(init, key, shown) + [ReplacedLine(line, key, shown)]
  {
    hide ReplacedLine;
  }

  lemma ReplacedReadStep(init: seq<string>, line: string, key: string, shown: string)
    requires NoBreak(line) && PlainKey(key) && NoBreak(RightStrip(shown))
    requires var v := Coerce(Strip(shown));
      ReadOn(map[], Chunks(Replaced(init, key, shown)))[key := v] == ReadOn(map[], init)[key := v]
    ensures var lines, v := init + [line], Coerce(Strip(shown));
      var before, after := ReadOn(map[], lines), ReadOn(map[], Chunks(Replaced(lines, key, shown)));
      after[key := v] == before[key := v]
      && (Matches(line, key) ==> key in after && after[key] == v)
      && (!Matches(line, key) && key in ReadOn(map[], Chunks(Replaced(init, key, shown))) ==>
            key in after && after[key] == ReadOn(map[], Chunks(Replaced(init, key, shown)))[key])
  {
    hide PlainKey, Strip, Coerce, Matches, Put, Lines, IsBreak, IsSpace, Kept, NoBreak;
    assert (init + [line])[..|init + [line]| - 1] == init;
    ReplacedSnoc(init, line, key, shown);
    var out := Replaced(init, key, shown);
    var after := ReadOn(map[], Chunks(out));
    if Matches(line, key) {
      ChunkAdded(out, Setting(key, shown));
      WrittenRead(after, key, shown);
      MatchingLine(ReadOn(map[], init), line, key, Coerce(Strip(shown)));
    } else {
      ChunkAdded(out, line);
      KeptLine(after, line, key);
      PutBoth(after, ReadOn(map[], init), line, key, Coerce(Strip(shown)));
    }
  }

  lemma ChunkAdded(lines: seq<string>, line: string)
    ensures ReadOn(map[], Chunks(lines + [line])) == ReadOn(ReadOn(map[], Chunks(lines)), Lines(line + "\n"))
  {
    hide ReadOn, Lines;
    var all := lines + [line];
    assert all[..|all| - 1] == lines;
    ReadAppend(map[], Chunks(lines), Lines(line + "\n"));
  }

  lemma MatchingLine(props: Properties, line: string, key: string, v: Value)
    requires Matches(line, key)
    ensures Put(props, line)[key := v] == props[key := v]
  {
    hide Skipped, KeyOf, Strip, Coerce;
  }

  lemma PutBoth(a: Properties, b: Properties, line: string, key: string, v: Value)
    requires a[key := v] == b[key := v] && !Matches(line, key)
    ensures Put(a, line)[key := v] == Put(b, line)[key := v]
  {
    hide Skipped, KeyOf, Strip, Coerce;
    assert forall k :: k != key ==> (k in a <==> k in b) && (k in a ==> a[k] == b[k]) by {
      assert forall k :: k != key ==> (k in a <==> k in a[key := v]) && (k in b <==> k in b[key := v]);
      assert forall k :: k != key && k in a ==> a[key := v][k] == a[k];
    }
  }

  /** Reading the replaced lines when the value breaks: the last written setting decides the key. */
  lemma {:induction false} ReplacedLands(lines: seq<string>, key: string, shown: string)
    requires Unbroken(lines) && PlainKey(key) && Seen(lines, key)
    ensures var after := ReadOn(map[], Chunks(Replaced(lines, key, shown)));
      key in after && after[key] == Landed(key, shown)
  {
    hide PlainKey, Strip, Coerce, Matches, Put, Lines, IsBreak, Seen, NoBreak;
    assert lines != [] by {
      SeenSome(lines, key);
    }
    var init, line := lines[..|lines| - 1], lines[|lines| - 1];
    assert lines == init + [line];
    SeenSnoc(init, line, key);
    ReplacedSnoc(init, line, key, shown);
    var out := Replaced(init, key, shown);
    var after := ReadOn(map[], Chunks(out));
    if Matches(line, key) {
      ChunkAdded(out, Setting(key, shown));
      WrittenLands(after, key, shown);
    } else {
      ReplacedLands(init, key, shown);
      ChunkAdded(out, line);
      KeptLine(after, line, key);
    }
  }

  lemma SeenSome(lines: seq<string>, key: string)
    requires Seen(lines, key)
    ensures lines != []
  {
  }

  lemma SetTextLines(lines: seq<string>, key: string, shown: string)
    ensures SetLines(lines, key, shown) != []
    ensures Lines(Universal(Render(SetLines(lines, key, shown)))) == Chunks(SetLines(lines, key, shown))
  {
    hide Matches, Lines, Universal, Chunks, Render;
    assert SetLines(lines, key, shown) != [] by {
      if Seen(lines, key) {
        SeenSome(lines, key);
      }
    }
    UniversalLines(Render(SetLines(lines, key, shown)));
    LinesRender(SetLines(lines, key, shown));
  }

  /**
    Reading a file after setting a property gives what it gave before with that property updated,
    exactly when the written value has no line break before its trailing white space.
   */
  lemma SetThenRead(content: Option<string>, key: string, shown: string)
    requires PlainKey(key)
    ensures ReadText(Some(SetText(content, key, shown))) == ReadText(content)[key := Coerce(Strip(shown))]
            <==> NoBreak(RightStrip(shown))
  {
    hide PlainKey, Strip, Coerce, Matches, Put, Lines, IsBreak, IsSpace, Kept, NoBreak, Universal, Render;
    var lines := Lines(Universal(content.GetOr("")));
    LinesUnbroken(Universal(content.GetOr("")));
    SetTextLines(lines, key, shown);
    ReadNothing(content);
    var before := ReadOn(map[], lines);
    var out := Replaced(lines, key, shown);
    if Seen(lines, key) {
      assert SetLines(lines, key, shown) == out;
    } else {
      ChunkAdded(out, Setting(key, shown));
    }
    if NoBreak(RightStrip(shown)) {
      ReplacedRead(lines, key, shown);
      if Seen(lines, key) {
        UpdateSame(ReadOn(map[], Chunks(out)), key, Coerce(Strip(shown)));
      } else {
        WrittenRead(ReadOn(map[], Chunks(out)), key, shown);
      }
    } else {
      WrittenMisread(key, shown);
      if Seen(lines, key) {
        ReplacedLands(lines, key, shown);
      } else {
        WrittenLands(ReadOn(map[], Chunks(out)), key, shown);
      }
    }
  }

  lemma UpdateSame(props: Properties, key: string, v: Value)
    requires key in props && props[key] == v
    ensures props[key := v] == props
  {
  }

  lemma ReadNothing(content: Option<string>)
    ensures ReadText(content) == ReadOn(map[], Lines(Universal(content.GetOr(""))))
  {
    if content == None {
      assert Universal("") == "" && Lines("") == [];
    }
  }
}
