/**
  The `server.properties` file: the reader, the in-place setter and the writer of whole records.
  The Bedrock and the Java module carry the same reader and setter; they are modelled once.
 */
module ServerProperties {
  import opened Wrappers
  import opened Text

  /** A value as the program holds it, and as the reader returns it. */
  datatype Value = Flag(on: bool) | Number(n: int) | Words(text: string)

  type Properties = map<string, Value>

  /** How a value is written after the equals sign. */
  function Show(v: Value): string {
    match v
    case Flag(on) => if on then "true" else "false"
    case Number(n) => Shown(n)
    case Words(text) => text
  }

  function Lower(s: string): (t: string)
    ensures |t| == |s|
    ensures forall i :: 0 <= i < |s| ==> t[i] == if 'A' <= s[i] <= 'Z' then (s[i] as int + 32) as char else s[i]
  {
    if s == "" then ""
    else [if 'A' <= s[0] <= 'Z' then (s[0] as int + 32) as char else s[0]] + Lower(s[1..])
  }

  /** The reader's type coercion of a stripped value. */
  function Coerce(val: string): Value {
    if Lower(val) == "true" then Flag(true)
    else if Lower(val) == "false" then Flag(false)
    else if val != "" && AllDigits(val) then Number(Denoted(val))
    else Words(val)
  }

  // ---------------------------------------------------------------------------
  // Lines
  // ---------------------------------------------------------------------------

  /** The characters at which `str.splitlines` breaks; all of them are white space. */
  predicate IsBreak(c: char) {
    var n := c as int;
    10 <= n <= 13 || 28 <= n <= 30 || n == 0x85 || n == 0x2028 || n == 0x2029
  }

  predicate NoBreak(s: string) {
    forall i :: 0 <= i < |s| ==> !IsBreak(s[i])
  }

  /** The position of the first line break, or the length. */
  function Break(s: string): (i: nat)
    ensures i <= |s| && NoBreak(s[..i]) && (i < |s| ==> IsBreak(s[i]))
  {
    if s == "" || IsBreak(s[0]) then 0 else 1 + Break(s[1..])
  }

  /** Where the next line starts: a carriage return and the line feed behind it are one break. */
  function After(s: string, i: nat): (j: nat)
    requires i < |s|
    ensures i < j <= |s|
  {
    if s[i] == '\r' && i + 1 < |s| && s[i + 1] == '\n' then i + 2 else i + 1
  }

  /** `text.splitlines()`. */
  function Lines(s: string): seq<string>
    decreases |s|
  {
    if s == "" then []
    else
      var i := Break(s);
      [s[..i]] + if i == |s| then [] else Lines(s[After(s, i)..])
  }

  predicate Unbroken(lines: seq<string>) {
    forall i :: 0 <= i < |lines| ==> NoBreak(lines[i])
  }

  lemma {:induction false} LinesUnbroken(s: string)
    ensures Unbroken(Lines(s))
    decreases |s|
  {
    var i := Break(s);
    if i < |s| {
      LinesUnbroken(s[After(s, i)..]);
    }
  }

  /** The newline translation of a file opened as text. */
  function Universal(s: string): string
    decreases |s|
  {
    if s == "" then ""
    else if s[0] == '\r' then "\n" + Universal(s[After(s, 0)..])
    else [s[0]] + Universal(s[1..])
  }

  lemma {:induction false} BreakAt(a: string, b: string)
    requires NoBreak(a) && (b != "" ==> IsBreak(b[0]))
    ensures Break(a + b) == |a|
  {
    if a == "" {
      assert a + b == b;
    } else {
      assert forall i :: 0 <= i < |a| - 1 ==> a[1..][i] == a[i + 1];
      assert (a + b)[1..] == a[1..] + b;
      BreakAt(a[1..], b);
    }
  }

  lemma {:induction false} UniversalLine(a: string, b: string)
    requires NoBreak(a)
    ensures Universal(a + b) == a + Universal(b)
  {
    if a == "" {
      assert a + b == b;
    } else {
      assert forall i :: 0 <= i < |a| - 1 ==> a[1..][i] == a[i + 1];
      assert (a + b)[1..] == a[1..] + b;
      assert !IsBreak(a[0]);
      UniversalLine(a[1..], b);
    }
  }

  /** The translation hides no line break from `splitlines` and adds none. */
  lemma {:induction false} UniversalLines(s: string)
    ensures Lines(Universal(s)) == Lines(s)
    decreases |s|
  {
    if s != "" {
      var i := Break(s);
      var a, b := s[..i], s[i..];
      assert s == a + b;
      UniversalLine(a, b);
      if b == "" {
        assert Universal(s) == a == s;
      } else {
        var rest := s[After(s, i)..];
        assert rest == b[After(b, 0)..];
        var u := Universal(b);
        assert IsBreak(u[0]);
        BreakAt(a, u);
        assert Universal(s)[..i] == a;
        assert u[1..] == Universal(rest);
        assert (a + u)[i..] == u;
        NoReturn(s);
        assert Universal(s)[After(Universal(s), i)..] == u[1..];
        UniversalLines(rest);
      }
    }
  }

  lemma {:induction false} NoReturn(s: string)
    ensures forall i :: 0 <= i < |Universal(s)| ==> Universal(s)[i] != '\r'
    decreases |s|
  {
    if s != "" {
      NoReturn(if s[0] == '\r' then s[After(s, 0)..] else s[1..]);
    }
  }

  lemma OneLine(l: string)
    requires NoBreak(l)
    ensures Lines(l + "\n") == [l]
  {
    BreakAt(l, "\n");
    assert (l + "\n")[..|l|] == l;
    assert (l + "\n")[|l| + 1..] == "";
  }

  /** The first line of a text that starts with `line` and a break. */
  lemma LinesStep(line: string, rest: string)
    requires NoBreak(line) && rest != "" && IsBreak(rest[0])
    ensures Lines(line + rest) == [line] + Lines(rest[After(rest, 0)..])
  {
    var s := line + rest;
    BreakAt(line, rest);
    assert s[..|line|] == line;
    assert s[After(s, |line|)..] == rest[After(rest, 0)..];
  }

  lemma LineBefore(line: string, rest: string, b: string)
    requires NoBreak(line) && rest != "" && IsBreak(rest[0]) && rest[|rest| - 1] == '\n'
    ensures Lines(line + rest + b) == [line] + Lines(rest[After(rest, 0)..] + b)
  {
    hide Lines;
    assert line + rest + b == line + (rest + b);
    LinesStep(line, rest + b);
    assert After(rest + b, 0) == After(rest, 0);
    assert (rest + b)[After(rest, 0)..] == rest[After(rest, 0)..] + b;
  }

  lemma BreakInText(a: string)
    requires a != "" && a[|a| - 1] == '\n'
    ensures Break(a) < |a|
  {
    assert Break(a) < |a| by {
      assert a[..|a|] == a;
    }
  }

  /** The first line of a text that ends in a line feed, with what follows it. */
  lemma FirstLine(a: string) returns (line: string, next: string)
    requires a != "" && a[|a| - 1] == '\n'
    ensures |next| < |a| && (next != "" ==> next[|next| - 1] == '\n')
    ensures Lines(a) == [line] + Lines(next)
    ensures forall b :: Lines(a + b) == [line] + Lines(next + b)
  {
    hide *;
    BreakInText(a);
    var i := Break(a);
    var rest := a[i..];
    line, next := a[..i], rest[After(rest, 0)..];
    assert line + rest == a;
    LinesStep(line, rest);
    forall b ensures Lines(a + b) == [line] + Lines(next + b) {
      LineBefore(line, rest, b);
    }
  }

  lemma LinesOfNothing()
    ensures Lines("") == []
  {
  }

  /** A text that ends in a line feed can be cut off before its lines are taken. */
  lemma {:induction false} LinesAppend(a: string, b: string)
    requires a != "" ==> a[|a| - 1] == '\n'
    ensures Lines(a + b) == Lines(a) + Lines(b)
    decreases |a|
  {
    hide *;
    if a == "" {
      assert a + b == b;
      LinesOfNothing();
      assert [] + Lines(b) == Lines(b);
    } else {
      var line, next := FirstLine(a);
      LinesAppend(next, b);
      assert [line] + (Lines(next) + Lines(b)) == ([line] + Lines(next)) + Lines(b);
    }
  }

  // ---------------------------------------------------------------------------
  // Reading
  // ---------------------------------------------------------------------------

  /** Blank lines and comments. */
  predicate Skipped(line: string) {
    Strip(line) == "" || (LeftStrip(line) != "" && LeftStrip(line)[0] == '#')
  }

  function KeyOf(line: string): string {
    Strip(line[..Find(line, '=')])
  }

  function Put(props: Properties, line: string): Properties {
    var i := Find(line, '=');
    if Skipped(line) || i == |line| then props
    else props[KeyOf(line) := Coerce(Strip(line[i + 1..]))]
  }

  function ReadOn(props: Properties, lines: seq<string>): Properties {
    if lines == [] then props
    else Put(ReadOn(props, lines[..|lines| - 1]), lines[|lines| - 1])
  }

  /** What the reader finds in a file, a missing one being empty. */
  function ReadText(content: Option<string>): Properties {
    match content
    case None => map[]
    case Some(text) => ReadOn(map[], Lines(Universal(text)))
  }

  // ---------------------------------------------------------------------------
  // Setting one property
  // ---------------------------------------------------------------------------

  predicate Matches(line: string, key: string) {
    !Skipped(line) && KeyOf(line) == key
  }

  function Setting(key: string, shown: string): string {
    key + "=" + shown
  }

  function ReplacedLine(line: string, key: string, shown: string): string {
    if Matches(line, key) then Setting(key, shown) else line
  }

  function Replaced(lines: seq<string>, key: string, shown: string): seq<string> {
    seq(|lines|, i requires 0 <= i < |lines| => ReplacedLine(lines[i], key, shown))
  }

  predicate Seen(lines: seq<string>, key: string) {
    exists i :: 0 <= i < |lines| && Matches(lines[i], key)
  }

  function SetLines(lines: seq<string>, key: string, shown: string): seq<string> {
    Replaced(lines, key, shown) + if Seen(lines, key) then [] else [Setting(key, shown)]
  }

  /** How both writers put lines into a file. */
  function Render(lines: seq<string>): string {
    Join(lines, '\n') + "\n"
  }

  function SetText(content: Option<string>, key: string, shown: string): string {
    Render(SetLines(Lines(Universal(content.GetOr(""))), key, shown))
  }

  // ---------------------------------------------------------------------------
  // Laws
  // ---------------------------------------------------------------------------

  /** The keys a line can hold: trimmed, no equals sign or line break, no leading hash. */
  predicate PlainKey(key: string) {
    Trimmed(key) && '=' !in key && NoBreak(key) && (key != "" ==> key[0] != '#')
  }

  lemma {:induction false} JoinSnoc(lines: seq<string>, l: string)
    requires lines != []
    ensures Join(lines + [l], '\n') == Join(lines, '\n') + "\n" + l
  {
    var all := lines + [l];
    assert all[0] == lines[0] && all[1..] == lines[1..] + [l];
    if |lines| == 1 {
      assert all[1..] == [l];
    } else {
      JoinSnoc(lines[1..], l);
    }
  }

  /** The lines of each of `lines`, one after the other. */
  function Chunks(lines: seq<string>): seq<string> {
    if lines == [] then []
    else Chunks(lines[..|lines| - 1]) + Lines(lines[|lines| - 1] + "\n")
  }

  lemma {:induction false} LinesRender(lines: seq<string>)
    requires lines != []
    ensures Lines(Render(lines)) == Chunks(lines)
  {
    var init, l := lines[..|lines| - 1], lines[|lines| - 1];
    assert lines == init + [l];
    if init == [] {
      assert Render(lines) == l + "\n";
      assert Chunks(init) == [];
    } else {
      LinesRender(init);
      JoinSnoc(init, l);
      assert Render(lines) == Render(init) + (l + "\n");
      LinesAppend(Render(init), l + "\n");
    }
  }

  lemma {:induction false} ChunksOfLines(lines: seq<string>)
    requires Unbroken(lines)
    ensures Chunks(lines) == lines
  {
    if lines != [] {
      ChunksOfLines(lines[..|lines| - 1]);
      OneLine(lines[|lines| - 1]);
      assert lines == lines[..|lines| - 1] + [lines[|lines| - 1]];
    }
  }

  lemma {:induction false} ReadAppend(props: Properties, a: seq<string>, b: seq<string>)
    ensures ReadOn(props, a + b) == ReadOn(ReadOn(props, a), b)
  {
    hide Put;
    if b == [] {
      assert a + b == a;
    } else {
      var all := a + b;
      assert all[..|all| - 1] == a + b[..|b| - 1];
      ReadAppend(props, a, b[..|b| - 1]);
    }
  }
}
