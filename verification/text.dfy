/** The parts of the host language's string library that the editors and codecs rely on. */
module Text {
  import opened Wrappers

  // ---------------------------------------------------------------------------
  // Stripping
  // ---------------------------------------------------------------------------

  /** The white space that `str.strip` removes. */
  predicate IsSpace(c: char) {
    var n := c as int;
    9 <= n <= 13 || 28 <= n <= 32 || n == 0x85 || n == 0xA0 || n == 0x1680 || 0x2000 <= n <= 0x200A
    || n == 0x2028 || n == 0x2029 || n == 0x202F || n == 0x205F || n == 0x3000
  }

  predicate AllSpace(s: string) {
    forall i :: 0 <= i < |s| ==> IsSpace(s[i])
  }

  predicate Trimmed(s: string) {
    s != "" ==> !IsSpace(s[0]) && !IsSpace(s[|s| - 1])
  }

  /** How many characters of white space lead `s`. */
  function Leading(s: string): (k: nat)
    ensures k <= |s| && (forall i :: 0 <= i < k ==> IsSpace(s[i])) && (k < |s| ==> !IsSpace(s[k]))
  {
    if s == "" || !IsSpace(s[0]) then 0 else 1 + Leading(s[1..])
  }

  /** How many characters of `s` its trailing white space leaves. */
  function Kept(s: string): (k: nat)
    ensures k <= |s| && (forall i :: k <= i < |s| ==> IsSpace(s[i])) && (0 < k ==> !IsSpace(s[k - 1]))
  {
    if s == "" || !IsSpace(s[|s| - 1]) then |s| else Kept(s[..|s| - 1])
  }

  function LeftStrip(s: string): string {
    s[Leading(s)..]
  }

  function RightStrip(s: string): string {
    s[..Kept(s)]
  }

  function Strip(s: string): string {
    RightStrip(LeftStrip(s))
  }

  lemma LeftStripUnique(a: string, r: string)
    requires AllSpace(a) && (r != "" ==> !IsSpace(r[0]))
    ensures Leading(a + r) == |a| && LeftStrip(a + r) == r
  {
    hide IsSpace;
    var s := a + r;
    var k := Leading(s);
    assert k < |s| ==> !IsSpace(s[k]);
    assert forall i :: 0 <= i < |a| ==> s[i] == a[i];
    assert |a| < |s| ==> s[|a|] == r[0];
  }

  lemma RightStripUnique(r: string, b: string)
    requires AllSpace(b) && (r != "" ==> !IsSpace(r[|r| - 1]))
    ensures Kept(r + b) == |r| && RightStrip(r + b) == r
  {
    hide IsSpace;
    var s := r + b;
    var k := Kept(s);
    assert 0 < k ==> !IsSpace(s[k - 1]);
    assert forall i :: |r| <= i < |s| ==> s[i] == b[i - |r|];
    assert 0 < |r| ==> s[|r| - 1] == r[|r| - 1];
  }

  /** Stripping leaves a trimmed text between two runs of white space. */
  lemma StripParts(s: string) returns (a: string, b: string)
    ensures AllSpace(a) && AllSpace(b) && s == a + Strip(s) + b && Trimmed(Strip(s))
  {
    var l := LeftStrip(s);
    a, b := s[..Leading(s)], l[Kept(l)..];
    LeftParts(s);
    RightParts(l);
    hide *;
    StripIsTrimmed(s);
    StripIs(s);
    assert a + (Strip(s) + b) == a + Strip(s) + b;
  }

  lemma LeftParts(s: string)
    ensures s == s[..Leading(s)] + LeftStrip(s) && AllSpace(s[..Leading(s)])
  {
    hide IsSpace, Leading;
    Halves(s, Leading(s));
  }

  lemma RightParts(s: string)
    ensures s == RightStrip(s) + s[Kept(s)..] && AllSpace(s[Kept(s)..])
  {
    hide IsSpace, Kept;
    Halves(s, Kept(s));
  }

  lemma Halves(s: string, i: nat)
    requires i <= |s|
    ensures s == s[..i] + s[i..]
  {
  }

  lemma StripIs(s: string)
    ensures Strip(s) == RightStrip(LeftStrip(s))
  {
  }

  lemma StripIsTrimmed(s: string)
    ensures Trimmed(Strip(s))
  {
    hide IsSpace;
    var l := LeftStrip(s);
    assert l != "" ==> !IsSpace(l[0]);
    assert Strip(s) != "" ==> Strip(s)[0] == l[0];
  }

  /** That text is the only one there is. */
  lemma StripUnique(a: string, r: string, b: string)
    requires AllSpace(a) && AllSpace(b) && Trimmed(r)
    ensures Strip(a + r + b) == r
  {
    if r == "" {
      assert a + r + b == (a + b) + "";
      LeftStripUnique(a + b, "");
    } else {
      assert a + r + b == a + (r + b);
      LeftStripUnique(a, r + b);
      RightStripUnique(r, b);
    }
  }

  lemma StripTrimmed(r: string)
    requires Trimmed(r)
    ensures Strip(r) == r
  {
    StripUnique("", r, "");
    assert "" + r + "" == r;
  }

  // ---------------------------------------------------------------------------
  // Splitting and joining
  // ---------------------------------------------------------------------------

  /** The first position of `c`, or the length. */
  function Find(s: string, c: char): (i: nat)
    ensures i <= |s| && (i < |s| ==> s[i] == c) && c !in s[..i]
  {
    if s == "" || s[0] == c then 0
    else
      assert s[..1 + Find(s[1..], c)] == [s[0]] + s[1..][..Find(s[1..], c)];
      1 + Find(s[1..], c)
  }

  lemma {:induction false} FindUnique(a: string, c: char, b: string)
    requires c !in a
    ensures Find(a + [c] + b, c) == |a|
  {
    if a != "" {
      assert a[0] in a;
      assert (a + [c] + b)[1..] == a[1..] + [c] + b;
      FindUnique(a[1..], c, b);
    }
  }

  lemma {:induction false} FindNone(s: string, c: char)
    requires c !in s
    ensures Find(s, c) == |s|
  {
    if s != "" {
      assert s[0] in s;
      FindNone(s[1..], c);
    }
  }

  /** `s.split(c)`. */
  function Split(s: string, c: char): (parts: seq<string>)
    ensures |parts| > 0 && forall p :: p in parts ==> c !in p
    decreases |s|
  {
    var i := Find(s, c);
    if i == |s| then
      assert s[..i] == s;
      [s]
    else [s[..i]] + Split(s[i + 1..], c)
  }

  /** `c.join(parts)`. */
  function Join(parts: seq<string>, c: char): string {
    if parts == [] then ""
    else if |parts| == 1 then parts[0]
    else parts[0] + [c] + Join(parts[1..], c)
  }

  lemma SplitLast(s: string, c: char)
    requires Find(s, c) == |s|
    ensures Split(s, c) == [s]
  {
  }

  lemma SplitMore(s: string, c: char)
    requires Find(s, c) < |s|
    ensures Split(s, c) == [s[..Find(s, c)]] + Split(s[Find(s, c) + 1..], c)
    ensures s == s[..Find(s, c)] + [c] + s[Find(s, c) + 1..]
  {
    hide Find;
    CutAt(s, Find(s, c));
  }

  lemma CutAt(s: string, i: nat)
    requires i < |s|
    ensures s == s[..i] + [s[i]] + s[i + 1..]
  {
  }

  lemma JoinOne(p: string, c: char)
    ensures Join([p], c) == p
  {
  }

  lemma JoinMore(p: string, rest: seq<string>, c: char)
    requires rest != []
    ensures Join([p] + rest, c) == p + [c] + Join(rest, c)
  {
    assert ([p] + rest)[1..] == rest;
  }

  lemma {:induction false} JoinSplit(s: string, c: char)
    ensures Join(Split(s, c), c) == s
    decreases |s|
  {
    hide *;
    var i := Find(s, c);
    if i < |s| {
      JoinSplit(s[i + 1..], c);
      SplitMore(s, c);
      JoinMore(s[..i], Split(s[i + 1..], c), c);
    } else {
      SplitLast(s, c);
      JoinOne(s, c);
    }
  }

  lemma {:induction false} SplitJoin(parts: seq<string>, c: char)
    requires |parts| > 0 && forall p :: p in parts ==> c !in p
    ensures Split(Join(parts, c), c) == parts
  {
    hide *;
    var p, rest := parts[0], parts[1..];
    assert parts == [p] + rest;
    assert p in parts;
    if rest == [] {
      assert parts == [p];
      JoinOne(p, c);
      FindNone(p, c);
      SplitLast(p, c);
    } else {
      SplitJoin(rest, c);
      JoinMore(p, rest, c);
      SplitFirst(p, c, Join(rest, c));
    }
  }

  lemma SplitFirst(p: string, c: char, rest: string)
    requires c !in p
    ensures Split(p + [c] + rest, c) == [p] + Split(rest, c)
  {
    hide *;
    var s := p + [c] + rest;
    FindUnique(p, c, rest);
    SplitMore(s, c);
    assert s[..|p|] == p && s[|p| + 1..] == rest;
  }

  // ---------------------------------------------------------------------------
  // Decimal numbers
  // ---------------------------------------------------------------------------

  predicate IsDigit(c: char) {
    '0' <= c <= '9'
  }

  predicate AllDigits(s: string) {
    forall c :: c in s ==> IsDigit(c)
  }

  /** `str(n)` of a non-negative number. */
  function Decimal(n: nat): (s: string)
    ensures s != "" && AllDigits(s) && (s[0] == '0' ==> n == 0)
  {
    if n < 10 then [('0' as int + n) as char]
    else Decimal(n / 10) + [('0' as int + n % 10) as char]
  }

  /** The number that digits denote. */
  function Denoted(s: string): nat
    requires AllDigits(s)
  {
    if s == "" then 0
    else
      assert s[|s| - 1] in s;
      10 * Denoted(s[..|s| - 1]) + (s[|s| - 1] as int - '0' as int)
  }

  lemma {:induction false} DenotedDecimal(n: nat)
    ensures Denoted(Decimal(n)) == n
  {
    if n < 10 {
      assert Decimal(n)[..0] == "";
    } else {
      DenotedDecimal(n / 10);
      assert Decimal(n)[..|Decimal(n)| - 1] == Decimal(n / 10);
    }
  }

  /** A number below ten to the `k` has at most `k` digits. */
  lemma {:induction false} DecimalLength(n: nat, k: nat)
    requires k > 0 && n < Power10(k)
    ensures |Decimal(n)| <= k
  {
    if n >= 10 {
      assert k > 1;
      DecimalLength(n / 10, k - 1);
    }
  }

  function Power10(k: nat): nat {
    if k == 0 then 1 else 10 * Power10(k - 1)
  }

  /** `str(n)`. */
  function Shown(n: int): string {
    if n < 0 then "-" + Decimal(-n) else Decimal(n)
  }

  /** The number in `int(s)` without its white space and sign: digits, single underscores between them. */
  function Unsigned(s: string): Option<nat> {
    var groups := Split(s, '_');
    if forall g :: g in groups ==> g != "" && AllDigits(g) then Some(Denoted(Flat(groups))) else None
  }

  function Flat(groups: seq<string>): (s: string)
    ensures (forall g :: g in groups ==> AllDigits(g)) ==> AllDigits(s)
  {
    if groups == [] then ""
    else
      assert groups[0] in groups;
      groups[0] + Flat(groups[1..])
  }

  /** `int(s)`, or None where it raises. */
  function ParseInt(s: string): Option<int> {
    var t := Strip(s);
    if t == "" then None
    else if t[0] == '-' then Negated(Unsigned(t[1..]))
    else if t[0] == '+' then Unsigned(t[1..])
    else Unsigned(t)
  }

  function Negated(n: Option<int>): Option<int> {
    match n
    case None => None
    case Some(value) => Some(-value)
  }

  lemma UnsignedDecimal(n: nat)
    ensures Unsigned(Decimal(n)) == Some(n)
  {
    var s := Decimal(n);
    assert '_' !in s;
    assert Join([s], '_') == s;
    SplitJoin([s], '_');
    assert Flat([s]) == s + Flat([]) == s;
    DenotedDecimal(n);
  }

  lemma ShownTrimmed(n: int)
    ensures Trimmed(Shown(n)) && Shown(n) != "" && Shown(n)[0] != '+' && (Shown(n)[0] == '-' <==> n < 0)
  {
    var d := Decimal(if n < 0 then -n else n);
    assert d[0] in d && d[|d| - 1] in d;
    assert IsDigit(d[0]) && IsDigit(d[|d| - 1]);
  }

  /** Printing a number and parsing it gives the number. */
  lemma ParseShown(n: int)
    ensures ParseInt(Shown(n)) == Some(n)
  {
    hide IsSpace, Trimmed, Strip, Decimal, Unsigned;
    ShownTrimmed(n);
    StripTrimmed(Shown(n));
    UnsignedDecimal(if n < 0 then -n else n);
    if n < 0 {
      assert Shown(n)[1..] == Decimal(-n);
    }
  }
}
