/**
  Which files a backup collects, how they are named in the archive, and what unpacking the
  archive recreates.  An archive is a list of named entries; its bytes are not modelled.
 */
module WorldArchive {
  import opened Wrappers
  import opened FileTree

  // ---------------------------------------------------------------------------
  // Where a server keeps its world
  // ---------------------------------------------------------------------------

  const JAVA_FILES: seq<string> :=
    ["server.properties", "eula.txt", "ops.json", "banned-players.json", "banned-ips.json", "whitelist.json"]

  const BEDROCK_FILES: seq<string> :=
    ["server.properties", "allowlist.json", "permissions.json", "valid_known_packs.json",
     "world_behavior_packs.json", "world_resource_packs.json"]

  function Join(p: Path, name: string): Path {
    if name == "" then p else p + [name]
  }

  function Candidates(dir: Path, name: string, java: bool): seq<Path> {
    (if name != "" then [dir + [name]] else []) +
    (if java then [dir + ["world"]] else [Join(dir + ["worlds"], name), dir + ["worlds"]])
  }

  function FirstExisting(fs: Tree, candidates: seq<Path>): (r: Option<Path>)
    ensures r.Some? ==> r.value in candidates && Exists(fs, r.value)
    ensures r.None? ==> forall p :: p in candidates ==> !Exists(fs, p)
  {
    if candidates == [] then None
    else if Exists(fs, candidates[0]) then Some(candidates[0])
    else FirstExisting(fs, candidates[1..])
  }

  /** The world of a server, if it has one. */
  function Resolve(fs: Tree, dir: Path, name: string, java: bool): Option<Path> {
    FirstExisting(fs, Candidates(dir, name, java))
  }

  /** Where a restore puts the world. */
  function ActiveWorld(fs: Tree, dir: Path, name: string, java: bool): Path {
    match Resolve(fs, dir, name, java)
    case Some(p) => p
    case None => dir + [if java then "world" else "worlds"]
  }

  function Prefix(java: bool): string {
    if java then "java" else "bedrock"
  }

  /** The archive directory a restore takes the world from. */
  function WorldRoot(java: bool): Path {
    if java then ["java", "world"] else ["bedrock", "worlds"]
  }

  function ConfigFiles(java: bool): seq<string> {
    if java then JAVA_FILES else BEDROCK_FILES
  }

  /** The archive name of the world found at `p`. */
  function WorldName(dir: Path, name: string, java: bool, p: Path): Path {
    if java || p == dir + ["worlds"] then WorldRoot(java) else Join(WorldRoot(java), name)
  }

  function PresentFiles(fs: Tree, dir: Path, prefix: string, names: seq<string>): (r: seq<(Path, Path)>)
    ensures forall f :: f in names && IsFile(fs, dir + [f]) ==> (dir + [f], [prefix, f]) in r
    ensures forall i :: i in r ==> exists f :: f in names && IsFile(fs, dir + [f]) && i == (dir + [f], [prefix, f])
  {
    if names == [] then []
    else
      var rest := PresentFiles(fs, dir, prefix, names[1..]);
      if IsFile(fs, dir + [names[0]]) then [(dir + [names[0]], [prefix, names[0]])] + rest else rest
  }

  /** Sources and archive names of a backup, `_included_backup_paths`. */
  function IncludedPaths(fs: Tree, dir: Path, name: string, java: bool): seq<(Path, Path)> {
    var configs := PresentFiles(fs, dir, Prefix(java), ConfigFiles(java));
    match Resolve(fs, dir, name, java)
    case Some(p) => [(p, WorldName(dir, name, java, p))] + configs
    case None => configs
  }

  // ---------------------------------------------------------------------------
  // Packing
  // ---------------------------------------------------------------------------

  datatype Member = Member(name: Path, entry: Entry)

  type Archive = seq<Member>

  /** A tree without its symbolic links. */
  function StripLinks(w: Tree): Tree {
    map q | q in w && !w[q].Link? :: w[q]
  }

  /** The members that packing `src` under the name `arc` produces. */
  predicate Packs(fs: Tree, src: Path, arc: Path, m: Member) {
    && arc <= m.name
    && src + m.name[|arc|..] in fs && fs[src + m.name[|arc|..]] == m.entry
    && !m.entry.Link?
  }

  /** The archive holds the members of every included path and no others. */
  ghost predicate IsArchiveOf(fs: Tree, includes: seq<(Path, Path)>, a: Archive) {
    forall m :: m in a <==> exists i :: i in includes && Packs(fs, i.0, i.1, m)
  }

  /** The proper descendants of a path, `src.rglob("*")`. */
  function Descendants(fs: Tree, src: Path): set<Path> {
    set p | p in fs && src <= p && p != src
  }

  function Renamed(src: Path, arc: Path, p: Path): Path
    requires src <= p
  {
    arc + p[|src|..]
  }

  lemma RenamedBack(src: Path, arc: Path, p: Path)
    requires src <= p
    ensures arc <= Renamed(src, arc, p) && src + Renamed(src, arc, p)[|arc|..] == p
  {
    assert Renamed(src, arc, p)[|arc|..] == p[|src|..];
  }

  /** Adds one file, or one folder with everything below it that is not a link. */
  method AddToTar(fs: Tree, src: Path, arc: Path) returns (a: Archive)
    requires Exists(fs, src) && (IsFile(fs, src) ==> Descendants(fs, src) == {})
    ensures forall m :: m in a <==> Packs(fs, src, arc, m)
  {
    if IsFile(fs, src) {
      a := [Member(arc, fs[src])];
      forall m ensures m in a <==> Packs(fs, src, arc, m) {
        SingleMember(fs, src, arc, m);
      }
      return;
    }
    a := [Member(arc, Folder)];
    var todo := Descendants(fs, src);
    while todo != {}
      invariant todo <= Descendants(fs, src)
      invariant forall m :: m in a <==>
                  m == Member(arc, Folder) ||
                  exists p :: p in Descendants(fs, src) && p !in todo && PackedAs(fs, src, arc, p, m)
      decreases todo
    {
      var child :| child in todo;
      todo := todo - {child};
      if fs[child].Link? {
        continue;
      }
      a := a + [Member(Renamed(src, arc, child), fs[child])];
    }
    forall m ensures m in a <==> Packs(fs, src, arc, m) {
      FolderMember(fs, src, arc, m);
    }
  }

  predicate PackedAs(fs: Tree, src: Path, arc: Path, p: Path, m: Member)
    requires p in fs && src <= p
  {
    !fs[p].Link? && m == Member(Renamed(src, arc, p), fs[p])
  }

  lemma SingleMember(fs: Tree, src: Path, arc: Path, m: Member)
    requires IsFile(fs, src) && Descendants(fs, src) == {}
    ensures Packs(fs, src, arc, m) <==> m == Member(arc, fs[src])
  {
    assert src + [] == src && arc + [] == arc;
    if Packs(fs, src, arc, m) {
      assert src + m.name[|arc|..] !in Descendants(fs, src);
      assert src + m.name[|arc|..] == src;
      SplitPath(arc, m.name);
    }
  }

  lemma FolderMember(fs: Tree, src: Path, arc: Path, m: Member)
    requires IsFolder(fs, src)
    ensures Packs(fs, src, arc, m) <==>
            m == Member(arc, Folder) || exists p :: p in Descendants(fs, src) && PackedAs(fs, src, arc, p, m)
  {
    assert src + [] == src && arc + [] == arc;
    if Packs(fs, src, arc, m) {
      SplitPath(arc, m.name);
      var p := src + m.name[|arc|..];
      assert p[|src|..] == m.name[|arc|..];
      assert p == src || PackedAs(fs, src, arc, p, m);
    }
    if p :| p in Descendants(fs, src) && PackedAs(fs, src, arc, p, m) {
      RenamedBack(src, arc, p);
    }
  }

  /** The tar loop of a backup job. */
  method BuildArchive(fs: Tree, includes: seq<(Path, Path)>) returns (a: Archive)
    requires WellFormed(fs)
    requires forall i :: i in includes ==> Exists(fs, i.0)
    ensures IsArchiveOf(fs, includes, a)
  {
    a := [];
    for i := 0 to |includes|
      invariant IsArchiveOf(fs, includes[..i], a)
    {
      if !fs[includes[i].0].Folder? {
        LeavesHaveNoChildren(fs, includes[i].0);
      }
      var added := AddToTar(fs, includes[i].0, includes[i].1);
      assert includes[..i + 1] == includes[..i] + [includes[i]];
      a := a + added;
    }
    assert includes[..|includes|] == includes;
  }

  lemma LeavesHaveNoChildren(fs: Tree, p: Path)
    requires WellFormed(fs) && p in fs && !fs[p].Folder?
    ensures Descendants(fs, p) == {}
  {
    if q :| q in Descendants(fs, p) {
      PrefixesAreFolders(fs, p, q);
    }
  }

  /** In a well-formed tree every proper prefix of an entry is a folder. */
  lemma {:induction false} PrefixesAreFolders(fs: Tree, p: Path, q: Path)
    requires WellFormed(fs) && q in fs && p <= q && p != q
    ensures IsFolder(fs, p)
    decreases |q|
  {
    if Parent(q) != p {
      assert p == q[..|p|] == Parent(q)[..|p|];
      PrefixesAreFolders(fs, p, Parent(q));
    }
  }

  // ---------------------------------------------------------------------------
  // Unpacking
  // ---------------------------------------------------------------------------

  /** What `_validate_archive_members` accepts. */
  ghost predicate SafeArchive(a: Archive) {
    && (forall m :: m in a ==> SafeMember(m))
    && exists m :: m in a && NamesWorld(m.name)
  }

  /** An absolute name starts with the component "/", as `Path.parts` spells it. */
  predicate SafeMember(m: Member) {
    && !(m.name != [] && m.name[0] == "/")
    && ".." !in m.name
    && !m.entry.Link?
  }

  /** The world test works on the name as text: for Java any sibling that starts with "world" passes. */
  predicate NamesWorld(name: Path) {
    || WorldRoot(false) <= name
    || (|name| >= 2 && name[0] == "java" && "world" <= name[1])
  }

  method ValidateArchiveMembers(a: Archive) returns (ok: bool)
    ensures ok <==> SafeArchive(a)
  {
    var hasWorld := false;
    for i := 0 to |a|
      invariant forall m :: m in a[..i] ==> SafeMember(m)
      invariant hasWorld <==> exists m :: m in a[..i] && NamesWorld(m.name)
    {
      assert a[..i + 1] == a[..i] + [a[i]];
      if !SafeMember(a[i]) {
        assert a[i] in a;
        return false;
      }
      hasWorld := hasWorld || NamesWorld(a[i].name);
    }
    assert a[..|a|] == a;
    return hasWorld;
  }

  /** The location `(target / name).resolve()`, with "/" and ".." interpreted. */
  function Destination(target: Path, name: Path): Path
    decreases |name|
  {
    if name == [] then target
    else
      var up := Destination(target, name[..|name| - 1]);
      var last := name[|name| - 1];
      if last == "/" then []
      else if last == ".." then (if up == [] then [] else Parent(up))
      else up + [last]
  }

  /** A safe name lands below the target, where its own components say. */
  lemma {:induction false} SafeDestination(target: Path, name: Path)
    requires forall i :: 0 <= i < |name| ==> name[i] != ".." && name[i] != "/"
    ensures Destination(target, name) == target + name
  {
    if name == [] {
      assert target + name == target;
    } else {
      var init, last := name[..|name| - 1], name[|name| - 1];
      SafeDestination(target, init);
      assert target + name == (target + init) + [last];
    }
  }

  /** A member cannot be unpacked over an entry of the other kind. */
  predicate Clashes(e: Tree, m: Member) {
    || (exists k :: 0 <= k < |m.name| && m.name[..k] in e && !e[m.name[..k]].Folder?)
    || (m.name in e && e[m.name].Folder? != m.entry.Folder?)
  }

  /** The folders above a name. */
  function Ancestors(name: Path): Tree {
    map q | q in Prefixes(name) && q != name :: Folder
  }

  /** Unpacks one member into the tree below the target; missing folders are created. */
  function Unpack(e: Tree, m: Member): Tree {
    (Ancestors(m.name) + e)[m.name := m.entry]
  }

  /** The tree below a fresh target after all members. */
  ghost function Unpacked(a: Archive): Tree {
    if a == [] then map[[] := Folder] else Unpack(Unpacked(a[..|a| - 1]), a[|a| - 1])
  }

  /** No member meets an entry of the other kind on the way. */
  ghost predicate UnpacksCleanly(a: Archive) {
    forall i :: 0 <= i < |a| ==> !Clashes(Unpacked(a[..i]), a[i])
  }

  /** Members of one name agree, and a member above another is a folder. */
  ghost predicate Consistent(a: Archive) {
    forall m, n :: m in a && n in a && m.name <= n.name ==>
      if m.name == n.name then m == n else m.entry.Folder?
  }

  ghost predicate Covers(a: Archive, q: Path) {
    q == [] || exists m :: m in a && q <= m.name
  }

  ghost predicate Named(a: Archive, q: Path) {
    exists m :: m in a && m.name == q
  }

  ghost predicate NoRoot(a: Archive) {
    forall m :: m in a ==> m.name != []
  }

  lemma UnpackAdds(e: Tree, m: Member, q: Path)
    ensures q in Unpack(e, m) <==> q in e || q <= m.name
    ensures q != m.name && q in e ==> Unpack(e, m)[q] == e[q]
    ensures q != m.name && q !in e && q <= m.name ==> Unpack(e, m)[q] == Folder
  {
    if q <= m.name && q != m.name {
      assert q == m.name[..|q|];
    }
  }

  /** Unpacking creates the members and the folders above them, nothing else. */
  lemma {:induction false} UnpackedAt(a: Archive, q: Path)
    requires NoRoot(a)
    ensures q in Unpacked(a) <==> Covers(a, q)
    ensures Covers(a, q) && !Named(a, q) ==> Unpacked(a)[q] == Folder
  {
    if a != [] {
      var init, m := a[..|a| - 1], a[|a| - 1];
      assert a == init + [m];
      UnpackedAt(init, q);
      UnpackAdds(Unpacked(init), m, q);
      assert Covers(a, q) <==> Covers(init, q) || q <= m.name;
      assert Named(a, q) <==> Named(init, q) || q == m.name;
    }
  }

  /** Every member of a consistent archive arrives with its own entry. */
  lemma {:induction false} UnpackedMember(a: Archive, n: Member)
    requires Consistent(a) && NoRoot(a) && n in a
    ensures n.name in Unpacked(a) && Unpacked(a)[n.name] == n.entry
  {
    var init, m := a[..|a| - 1], a[|a| - 1];
    assert a == init + [m];
    UnpackAdds(Unpacked(init), m, n.name);
    if n.name == m.name {
      assert n == m;
    } else {
      ConsistentPrefix(a);
      UnpackedMember(init, n);
    }
  }

  lemma ConsistentPrefix(a: Archive)
    requires a != [] && Consistent(a)
    ensures Consistent(a[..|a| - 1])
  {
    forall m | m in a[..|a| - 1] ensures m in a {
    }
  }

  lemma {:induction false} ConsistentTake(a: Archive, i: nat)
    requires i <= |a| && Consistent(a) && NoRoot(a)
    ensures Consistent(a[..i]) && NoRoot(a[..i])
  {
    forall m | m in a[..i] ensures m in a {
    }
  }

  /** So unpacking a consistent archive never runs into an entry of the other kind. */
  lemma UnpackedNeverClashes(a: Archive, i: nat)
    requires i < |a| && Consistent(a) && NoRoot(a)
    ensures !Clashes(Unpacked(a[..i]), a[i])
  {
    var m := a[i];
    forall k | 0 <= k < |m.name| && m.name[..k] in Unpacked(a[..i]) ensures Unpacked(a[..i])[m.name[..k]].Folder? {
      KindAt(a, i, m.name[..k], m);
    }
    if m.name in Unpacked(a[..i]) {
      KindAt(a, i, m.name, m);
    }
  }

  /** What the first i members left at a path at or above member m. */
  lemma KindAt(a: Archive, i: nat, q: Path, m: Member)
    requires i <= |a| && Consistent(a) && NoRoot(a) && m in a && q <= m.name
    requires q in Unpacked(a[..i])
    ensures Unpacked(a[..i])[q].Folder? <==> q != m.name || m.entry.Folder?
  {
    ConsistentTake(a, i);
    UnpackedAt(a[..i], q);
    if Named(a[..i], q) {
      var n :| n in a[..i] && n.name == q;
      UnpackedMember(a[..i], n);
      assert n in a;
    } else if q == m.name {
      var n :| n in a[..i] && q <= n.name;
      assert n in a && n.name != m.name;
    }
  }
}
