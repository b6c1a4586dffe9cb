/**
  Backup followed by a completed restore: which world the server finds afterwards, and which
  configuration files.
 */
module WorldRoundTrip {
  import opened Wrappers
  import opened Sets
  import opened FileTree
  import opened WorldArchive
  import opened WorldRestore

  /** The archive a backup job of this server builds. */
  ghost predicate IsBackup(fs: Tree, dir: Path, name: string, java: bool, a: Archive) {
    WellFormed(fs) && PlainName(name) && IsArchiveOf(fs, IncludedPaths(fs, dir, name, java), a)
  }

  // ---------------------------------------------------------------------------
  // The members of a backup
  // ---------------------------------------------------------------------------

  ghost predicate IsConfigMember(fs: Tree, dir: Path, java: bool, m: Member) {
    exists f :: f in ConfigFiles(java) && IsFile(fs, dir + [f]) && m == Member([Prefix(java), f], fs[dir + [f]])
  }

  ghost predicate IsWorldMember(fs: Tree, dir: Path, name: string, java: bool, m: Member) {
    var p := Resolve(fs, dir, name, java);
    p.Some? && Packs(fs, p.value, WorldName(dir, name, java, p.value), m)
  }

  lemma MemberCases(fs: Tree, dir: Path, name: string, java: bool, a: Archive, m: Member)
    requires IsBackup(fs, dir, name, java, a)
    ensures m in a <==> IsWorldMember(fs, dir, name, java, m) || IsConfigMember(fs, dir, java, m)
  {
    var includes := IncludedPaths(fs, dir, name, java);
    var configs := PresentFiles(fs, dir, Prefix(java), ConfigFiles(java));
    forall f | f in ConfigFiles(java) && IsFile(fs, dir + [f])
      ensures Packs(fs, dir + [f], [Prefix(java), f], m) <==> m == Member([Prefix(java), f], fs[dir + [f]])
    {
      LeavesHaveNoChildren(fs, dir + [f]);
      SingleMember(fs, dir + [f], [Prefix(java), f], m);
    }
    if IsConfigMember(fs, dir, java, m) {
      var f :| f in ConfigFiles(java) && IsFile(fs, dir + [f]) && m == Member([Prefix(java), f], fs[dir + [f]]);
      assert (dir + [f], [Prefix(java), f]) in configs;
    }
    if i :| i in includes && Packs(fs, i.0, i.1, m) {
      assert i in configs || IsWorldMember(fs, dir, name, java, m);
    }
  }

  /** The world's archive name lies beside those of the configuration files. */
  lemma WorldBesideConfigs(dir: Path, name: string, java: bool, p: Path, f: string)
    requires f in ConfigFiles(java)
    ensures Unrelated(WorldName(dir, name, java, p), [Prefix(java), f])
    ensures WorldRoot(java) <= WorldName(dir, name, java, p)
    ensures Unrelated(WorldRoot(java), [Prefix(java), f])
  {
    assert f != "world" && f != "worlds";
    ApartAt(WorldName(dir, name, java, p), [Prefix(java), f], 1);
    ApartAt(WorldRoot(java), [Prefix(java), f], 1);
  }

  lemma BackupConsistent(fs: Tree, dir: Path, name: string, java: bool, a: Archive)
    requires IsBackup(fs, dir, name, java, a)
    ensures Consistent(a) && NoRoot(a)
  {
    forall m | m in a ensures m.name != [] {
      MemberCases(fs, dir, name, java, a, m);
    }
    forall m, n | m in a && n in a && m.name <= n.name
      ensures if m.name == n.name then m == n else m.entry.Folder?
    {
      MemberCases(fs, dir, name, java, a, m);
      MemberCases(fs, dir, name, java, a, n);
      NestedMembers(fs, dir, name, java, m, n);
    }
  }

  lemma NestedMembers(fs: Tree, dir: Path, name: string, java: bool, m: Member, n: Member)
    requires WellFormed(fs) && m.name <= n.name
    requires IsWorldMember(fs, dir, name, java, m) || IsConfigMember(fs, dir, java, m)
    requires IsWorldMember(fs, dir, name, java, n) || IsConfigMember(fs, dir, java, n)
    ensures if m.name == n.name then m == n else m.entry.Folder?
  {
    var p := Resolve(fs, dir, name, java);
    forall f | f in ConfigFiles(java) && p.Some?
      ensures Unrelated(WorldName(dir, name, java, p.value), [Prefix(java), f])
    {
      WorldBesideConfigs(dir, name, java, p.value, f);
    }
    if IsWorldMember(fs, dir, name, java, m) && IsWorldMember(fs, dir, name, java, n) {
      var arc := WorldName(dir, name, java, p.value);
      NestedPacks(fs, p.value, arc, m, n);
    } else if IsWorldMember(fs, dir, name, java, n) {
      var arc := WorldName(dir, name, java, p.value);
      ApartBelow(m.name, arc, n.name);
    }
  }

  lemma NestedPacks(fs: Tree, src: Path, arc: Path, m: Member, n: Member)
    requires WellFormed(fs) && Packs(fs, src, arc, m) && Packs(fs, src, arc, n) && m.name <= n.name
    ensures if m.name == n.name then m == n else m.entry.Folder?
  {
    hide WellFormed;
    if m.name != n.name {
      var p, q := src + m.name[|arc|..], src + n.name[|arc|..];
      TailsNest(src, arc, m.name, n.name);
      PrefixesAreFolders(fs, p, q);
    }
  }

  lemma TailsNest(src: Path, arc: Path, a: Path, b: Path)
    requires arc <= a && a <= b
    ensures src + a[|arc|..] <= src + b[|arc|..]
    ensures a != b ==> src + a[|arc|..] != src + b[|arc|..]
  {
    assert a == arc + a[|arc|..] && b == arc + b[|arc|..];
    assert b[|arc|..][..|a| - |arc|] == b[..|a|][|arc|..];
  }

  /** No directory listing contains the component "..". */
  ghost predicate RealNames(fs: Tree) {
    forall p :: p in fs ==> ".." !in p
  }

  /** A restore accepts the members of a backup exactly when the server had a world. */
  lemma BackupIsSafeIff(fs: Tree, dir: Path, name: string, java: bool, a: Archive)
    requires IsBackup(fs, dir, name, java, a) && RealNames(fs)
    ensures SafeArchive(a) <==> Resolve(fs, dir, name, java).Some?
  {
    hide NamesWorld, SafeMember, Resolve, IsConfigMember, IsWorldMember, RealNames, PlainName;
    forall m | m in a ensures SafeMember(m) && (NamesWorld(m.name) ==> Resolve(fs, dir, name, java).Some?) {
      MemberCases(fs, dir, name, java, a, m);
      MemberIsSafe(fs, dir, name, java, m);
    }
    if Resolve(fs, dir, name, java).Some? {
      WorldEntry(fs, dir, name, java, a);
    }
  }

  /** The backup of a server with a world has an entry for it. */
  lemma WorldEntry(fs: Tree, dir: Path, name: string, java: bool, a: Archive)
    requires IsBackup(fs, dir, name, java, a) && Resolve(fs, dir, name, java).Some?
    ensures exists m :: m in a && NamesWorld(m.name)
  {
    var p := Resolve(fs, dir, name, java).value;
    var arc := WorldName(dir, name, java, p);
    var m := Member(arc, fs[p]);
    assert arc + [] == arc && p + [] == p;
    MemberCases(fs, dir, name, java, a, m);
    assert NamesWorld(m.name);
  }

  lemma MemberIsSafe(fs: Tree, dir: Path, name: string, java: bool, m: Member)
    requires PlainName(name) && RealNames(fs)
    requires IsWorldMember(fs, dir, name, java, m) || IsConfigMember(fs, dir, java, m)
    ensures SafeMember(m)
    ensures NamesWorld(m.name) ==> Resolve(fs, dir, name, java).Some?
  {
    hide NamesWorld, IsConfigMember;
    if IsWorldMember(fs, dir, name, java, m) {
      WorldMemberIsSafe(fs, dir, name, java, m);
    } else {
      ConfigMemberIsSafe(fs, dir, java, m);
    }
  }

  lemma WorldMemberIsSafe(fs: Tree, dir: Path, name: string, java: bool, m: Member)
    requires PlainName(name) && RealNames(fs) && IsWorldMember(fs, dir, name, java, m)
    ensures SafeMember(m)
  {
    var p := Resolve(fs, dir, name, java).value;
    var arc := WorldName(dir, name, java, p);
    assert m.name == arc + m.name[|arc|..];
    assert forall c :: c in m.name[|arc|..] ==> c in p + m.name[|arc|..];
  }

  lemma ConfigMemberIsSafe(fs: Tree, dir: Path, java: bool, m: Member)
    requires RealNames(fs) && IsConfigMember(fs, dir, java, m)
    ensures SafeMember(m) && !NamesWorld(m.name)
  {
    var f :| f in ConfigFiles(java) && IsFile(fs, dir + [f]) && m == Member([Prefix(java), f], fs[dir + [f]]);
    ConfigIsNoWorld(f);
    assert f in dir + [f];
    assert m.name[1] == f && m.name[0] == Prefix(java);
    assert WorldRoot(false)[1] == "worlds";
    hide ConfigFiles, RealNames, IsFile;
    if WorldRoot(false) <= m.name {
      assert false;
    }
  }

  lemma ConfigIsNoWorld(f: string)
    requires f in JAVA_FILES || f in BEDROCK_FILES
    ensures f != "worlds" && !(f in JAVA_FILES && "world" <= f)
  {
    assert "world"[1] == 'o';
    assert forall g :: g in JAVA_FILES ==> g[1] != 'o';
  }

  // ---------------------------------------------------------------------------
  // What unpacking a backup recreates
  // ---------------------------------------------------------------------------

  /** The saved world: everything below the resolved path except symbolic links. */
  ghost function SavedWorld(fs: Tree, p: Path): Tree {
    StripLinks(Subtree(fs, p))
  }

  /** Members at or below the world's archive name come from the world. */
  lemma BelowWorldName(fs: Tree, dir: Path, name: string, java: bool, a: Archive, p: Path, m: Member)
    requires IsBackup(fs, dir, name, java, a) && Resolve(fs, dir, name, java) == Some(p)
    requires m in a && WorldName(dir, name, java, p) <= m.name
    ensures Packs(fs, p, WorldName(dir, name, java, p), m)
  {
    MemberCases(fs, dir, name, java, a, m);
    if IsConfigMember(fs, dir, java, m) {
      var f :| f in ConfigFiles(java) && IsFile(fs, dir + [f]) && m == Member([Prefix(java), f], fs[dir + [f]]);
      WorldBesideConfigs(dir, name, java, p, f);
    }
  }

  lemma WorldMemberAt(fs: Tree, dir: Path, name: string, java: bool, a: Archive, p: Path, q: Path)
    requires IsBackup(fs, dir, name, java, a) && Resolve(fs, dir, name, java) == Some(p)
    ensures q in SavedWorld(fs, p) ==> Member(WorldName(dir, name, java, p) + q, fs[p + q]) in a
    ensures Covers(a, WorldName(dir, name, java, p) + q) ==> q in SavedWorld(fs, p)
  {
    var arc := WorldName(dir, name, java, p);
    assert (arc + q)[|arc|..] == q;
    if q in SavedWorld(fs, p) {
      MemberCases(fs, dir, name, java, a, Member(arc + q, fs[p + q]));
    }
    if m :| m in a && arc + q <= m.name {
      AboveIsPrefix(arc, q, m.name);
      BelowWorldName(fs, dir, name, java, a, p, m);
      PackedPrefix(fs, p, arc, m, q);
    }
  }

  lemma AboveIsPrefix(a: Path, q: Path, p: Path)
    requires a + q <= p
    ensures a <= p
  {
    assert p[..|a|] == (a + q)[..|a|];
  }

  /** Folders above a packed entry are packed too. */
  lemma PackedPrefix(fs: Tree, src: Path, arc: Path, m: Member, q: Path)
    requires WellFormed(fs) && Packs(fs, src, arc, m) && arc + q <= m.name
    ensures q in StripLinks(Subtree(fs, src))
  {
    var rel := m.name[|arc|..];
    assert m.name == arc + rel && q == rel[..|q|];
    assert src + rel in fs;
    if q != rel {
      assert (src + rel)[..|src + q|] == src + q;
      PrefixesAreFolders(fs, src + q, src + rel);
    }
  }

  /** The archive directory of the world unpacks to the saved world. */
  lemma UnpackedWorld(fs: Tree, dir: Path, name: string, java: bool, a: Archive, p: Path)
    requires IsBackup(fs, dir, name, java, a) && Resolve(fs, dir, name, java) == Some(p)
    ensures Subtree(Unpacked(a), WorldName(dir, name, java, p)) == SavedWorld(fs, p)
  {
    var arc, u, s := WorldName(dir, name, java, p), Unpacked(a), SavedWorld(fs, p);
    BackupConsistent(fs, dir, name, java, a);
    forall q ensures (q in s <==> arc + q in u) && (q in s ==> u[arc + q] == s[q]) {
      WorldMemberAt(fs, dir, name, java, a, p, q);
      UnpackedAt(a, arc + q);
      if q in s {
        UnpackedMember(a, Member(arc + q, fs[p + q]));
      }
    }
    HoldsUnique(u, arc, s);
  }

  lemma ConfigMember(fs: Tree, dir: Path, name: string, java: bool, a: Archive, f: string)
    requires IsBackup(fs, dir, name, java, a) && f in ConfigFiles(java) && IsFile(fs, dir + [f])
    ensures Member([Prefix(java), f], fs[dir + [f]]) in a
  {
    var m := Member([Prefix(java), f], fs[dir + [f]]);
    assert IsConfigMember(fs, dir, java, m);
    hide IsBackup, IsConfigMember, IsWorldMember;
    MemberCases(fs, dir, name, java, a, m);
  }

  lemma RestoredIsNoWorld(f: string)
    requires f in RESTORED_FILES
    ensures f != "world" && f != "worlds"
  {
  }

  /** A configuration file unpacks to itself, and an absent one to nothing. */
  lemma UnpackedConfig(fs: Tree, dir: Path, name: string, java: bool, a: Archive, f: string)
    requires IsBackup(fs, dir, name, java, a) && f in RESTORED_FILES
    ensures IsFile(Unpacked(a), [Prefix(java), f]) <==> f in ConfigFiles(java) && IsFile(fs, dir + [f])
    ensures IsFile(Unpacked(a), [Prefix(java), f]) ==> Unpacked(a)[[Prefix(java), f]] == fs[dir + [f]]
  {
    hide IsBackup, Consistent, NoRoot, ConfigFiles, Prefix, Unpacked, Named;
    var q := [Prefix(java), f];
    BackupConsistent(fs, dir, name, java, a);
    UnpackedAt(a, q);
    if f in ConfigFiles(java) && IsFile(fs, dir + [f]) {
      ConfigMember(fs, dir, name, java, a, f);
      UnpackedMember(a, Member(q, fs[dir + [f]]));
    } else {
      RestoredIsNoWorld(f);
      forall m | m in a ensures !(q <= m.name) {
        NoSuchConfig(fs, dir, name, java, a, f, m);
      }
    }
  }

  lemma NoSuchConfig(fs: Tree, dir: Path, name: string, java: bool, a: Archive, f: string, m: Member)
    requires IsBackup(fs, dir, name, java, a) && f != "world" && f != "worlds" && m in a
    requires !(f in ConfigFiles(java) && IsFile(fs, dir + [f]))
    ensures !([Prefix(java), f] <= m.name)
  {
    hide *;
    MemberCases(fs, dir, name, java, a, m);
    if IsWorldMember(fs, dir, name, java, m) {
      WorldMemberName(fs, dir, name, java, m);
    } else {
      ConfigMemberName(fs, dir, java, m, f);
    }
  }

  lemma ConfigMemberName(fs: Tree, dir: Path, java: bool, m: Member, f: string)
    requires IsConfigMember(fs, dir, java, m)
    ensures [Prefix(java), f] <= m.name ==> f in ConfigFiles(java) && IsFile(fs, dir + [f])
  {
    hide ConfigFiles, Prefix;
    var g :| g in ConfigFiles(java) && IsFile(fs, dir + [g]) && m == Member([Prefix(java), g], fs[dir + [g]]);
    assert m.name[1] == g;
  }

  lemma WorldMemberName(fs: Tree, dir: Path, name: string, java: bool, m: Member)
    requires IsWorldMember(fs, dir, name, java, m)
    ensures |m.name| >= 2 && m.name[1] == if java then "world" else "worlds"
  {
    var arc := WorldName(dir, name, java, Resolve(fs, dir, name, java).value);
    assert arc[1] == m.name[1];
  }

  /** A tree one level further down. */
  ghost function Wrapped(name: string, w: Tree): Tree {
    Place([name], w)[[] := Folder]
  }

  /** No finite tree equals itself one level further down. */
  lemma WrappedDiffers(name: string, w: Tree)
    ensures Wrapped(name, w) != w
  {
    var k := Shifted([name], w);
    ShiftedSize([name], w.Keys, w);
    assert Wrapped(name, w).Keys == k + {[]};
    assert [] !in k;
  }

  lemma {:induction false} ShiftedSize(root: Path, keys: set<Path>, w: Tree)
    requires keys <= w.Keys
    ensures |set q | q in keys :: root + q| == |keys|
    decreases keys
  {
    if keys != {} {
      var x :| x in keys;
      ShiftedSize(root, keys - {x}, w);
      assert (set q | q in keys :: root + q) == (set q | q in keys - {x} :: root + q) + {root + x};
      forall q | q in keys - {x} ensures root + q != root + x {
        assert (root + q)[|root|..] == q && (root + x)[|root|..] == x;
      }
    }
  }

  /** In the per-level layout the directory a restore moves holds the saved world one level down. */
  lemma UnpackedPerLevel(fs: Tree, dir: Path, name: string, a: Archive, p: Path)
    requires IsBackup(fs, dir, name, false, a) && Resolve(fs, dir, name, false) == Some(p)
    requires p != dir + ["worlds"]
    ensures Subtree(Unpacked(a), WorldRoot(false)) == Wrapped(name, SavedWorld(fs, p))
  {
    var root, u, s := WorldRoot(false), Unpacked(a), SavedWorld(fs, p);
    assert name != "";
    var arc := root + [name];
    UnpackedWorld(fs, dir, name, false, a, p);
    BackupConsistent(fs, dir, name, false, a);
    forall q
      ensures (q in Wrapped(name, s) <==> root + q in u) && (q in Wrapped(name, s) ==> u[root + q] == Wrapped(name, s)[q])
    {
      PerLevelAt(fs, dir, name, a, p, q);
    }
    HoldsUnique(u, root, Wrapped(name, s));
  }

  /**
    A restore can take a world from a backup exactly if the server had one and it was a folder; a
    level's own path may hold a file as well, which is then unpacked inside a folder.
   */
  lemma BackupHasWorldIff(fs: Tree, dir: Path, name: string, java: bool, a: Archive)
    requires IsBackup(fs, dir, name, java, a) && RealNames(fs)
    ensures HasWorld(a, java) <==>
              var p := Resolve(fs, dir, name, java);
              p.Some? && (IsFolder(fs, p.value) || WorldName(dir, name, java, p.value) != WorldRoot(java))
  {
    var p := Resolve(fs, dir, name, java);
    BackupIsSafeIff(fs, dir, name, java, a);
    BackupUnpacks(fs, dir, name, java, a);
    HasWorldMeans(a, java);
    if p.Some? {
      ResolvedExists(fs, dir, name, java, p.value);
      WorldFolder(fs, dir, name, java, a, p.value);
    }
  }

  lemma BackupUnpacks(fs: Tree, dir: Path, name: string, java: bool, a: Archive)
    requires IsBackup(fs, dir, name, java, a)
    ensures UnpacksCleanly(a)
  {
    hide IsBackup, Clashes, Unpacked, Consistent, NoRoot;
    BackupConsistent(fs, dir, name, java, a);
    forall i | 0 <= i < |a| ensures !Clashes(Unpacked(a[..i]), a[i]) {
      UnpackedNeverClashes(a, i);
    }
  }

  lemma WorldFolder(fs: Tree, dir: Path, name: string, java: bool, a: Archive, p: Path)
    requires IsBackup(fs, dir, name, java, a) && Resolve(fs, dir, name, java) == Some(p) && Exists(fs, p)
    ensures IsFolder(Unpacked(a), WorldRoot(java)) <==>
              IsFolder(fs, p) || WorldName(dir, name, java, p) != WorldRoot(java)
  {
    var root, u := WorldRoot(java), Unpacked(a);
    if WorldName(dir, name, java, p) == root {
      UnpackedWorld(fs, dir, name, java, a, p);
      hide *;
      FolderOfSaved(u, root, fs, p);
    } else {
      assert !java && p != dir + ["worlds"];
      UnpackedPerLevel(fs, dir, name, a, p);
      hide *;
      FolderOfWrapped(u, root, name, SavedWorld(fs, p));
    }
  }

  lemma FolderOfSaved(u: Tree, root: Path, fs: Tree, p: Path)
    requires Subtree(u, root) == SavedWorld(fs, p) && Exists(fs, p)
    ensures IsFolder(u, root) <==> IsFolder(fs, p)
  {
    assert Holds(u, root, SavedWorld(fs, p));
    assert root + [] == root && p + [] == p;
    assert [] in SavedWorld(fs, p) && SavedWorld(fs, p)[[]] == fs[p];
  }

  lemma FolderOfWrapped(u: Tree, root: Path, name: string, w: Tree)
    requires Subtree(u, root) == Wrapped(name, w)
    ensures IsFolder(u, root)
  {
    WrappedAt(name, w, []);
    WrappedExists(u, root, name, w);
    assert Holds(u, root, Wrapped(name, w));
    hide Wrapped, Subtree;
    assert root + [] == root;
  }

  lemma PerLevelAt(fs: Tree, dir: Path, name: string, a: Archive, p: Path, q: Path)
    requires IsBackup(fs, dir, name, false, a) && Resolve(fs, dir, name, false) == Some(p)
    requires p != dir + ["worlds"] && name != "" && Consistent(a) && NoRoot(a)
    requires Subtree(Unpacked(a), WorldRoot(false) + [name]) == SavedWorld(fs, p)
    ensures var root, u, w := WorldRoot(false), Unpacked(a), Wrapped(name, SavedWorld(fs, p));
            (q in w <==> root + q in u) && (q in w ==> u[root + q] == w[q])
  {
    var root, u, s := WorldRoot(false), Unpacked(a), SavedWorld(fs, p);
    WrappedAt(name, s, q);
    if q != [] && q[0] == name {
      assert Holds(u, root + [name], s);
      LevelAt(u, root, name, s, q);
    } else if q == [] {
      WorldRootIsImplied(fs, dir, name, a, p);
      assert root + [] == root;
    } else {
      UnpackedAt(a, root + q);
      forall m | m in a ensures !(root + q <= m.name) {
        NothingBesideLevel(fs, dir, name, a, p, q, m);
      }
    }
  }

  lemma WrappedAt(name: string, s: Tree, q: Path)
    ensures q == [] ==> q in Wrapped(name, s) && Wrapped(name, s)[q] == Folder
    ensures q != [] && q[0] != name ==> q !in Wrapped(name, s)
  {
  }

  lemma LevelAt(u: Tree, root: Path, name: string, s: Tree, q: Path)
    requires Holds(u, root + [name], s) && q != [] && q[0] == name
    ensures (q in Wrapped(name, s) <==> root + q in u) && (q in Wrapped(name, s) ==> u[root + q] == Wrapped(name, s)[q])
  {
    var r := q[1..];
    assert q == [name] + r && root + q == (root + [name]) + r;
    assert r in s <==> (root + [name]) + r in u;
    assert r in s <==> [name] + r in Place([name], s);
  }

  lemma NothingBesideLevel(fs: Tree, dir: Path, name: string, a: Archive, p: Path, q: Path, m: Member)
    requires IsBackup(fs, dir, name, false, a) && Resolve(fs, dir, name, false) == Some(p)
    requires p != dir + ["worlds"] && name != "" && q != [] && q[0] != name && m in a
    ensures !(WorldRoot(false) + q <= m.name)
  {
    MemberCases(fs, dir, name, false, a, m);
    var root := WorldRoot(false);
    assert "worlds" !in ConfigFiles(false);
    if IsWorldMember(fs, dir, name, false, m) {
      assert m.name[2] == name;
      assert (root + q)[2] == q[0];
    }
  }

  lemma NothingAtWorldRoot(fs: Tree, dir: Path, name: string, a: Archive, p: Path, m: Member)
    requires IsBackup(fs, dir, name, false, a) && Resolve(fs, dir, name, false) == Some(p)
    requires p != dir + ["worlds"] && name != "" && m in a
    ensures m.name != WorldRoot(false)
  {
    MemberCases(fs, dir, name, false, a, m);
    if IsWorldMember(fs, dir, name, false, m) {
      assert |WorldName(dir, name, false, p)| == 3;
    } else {
      var f :| f in ConfigFiles(false) && IsFile(fs, dir + [f]) && m == Member([Prefix(false), f], fs[dir + [f]]);
      ConfigIsNoWorld(f);
      assert m.name[1] == f && WorldRoot(false)[1] == "worlds";
    }
  }

  /** The archive has no entry for the directory of the levels, so unpacking makes a folder. */
  lemma WorldRootIsImplied(fs: Tree, dir: Path, name: string, a: Archive, p: Path)
    requires IsBackup(fs, dir, name, false, a) && Resolve(fs, dir, name, false) == Some(p)
    requires p != dir + ["worlds"] && name != "" && Consistent(a) && NoRoot(a)
    ensures IsFolder(Unpacked(a), WorldRoot(false))
  {
    var root := WorldRoot(false);
    var top := Member(root + [name], fs[p]);
    assert top in a by {
      assert root + [name] + [] == root + [name] && p + [] == p;
      assert [] in SavedWorld(fs, p);
      WorldMemberAt(fs, dir, name, false, a, p, []);
    }
    hide IsBackup, Resolve, Consistent, NoRoot, Unpacked;
    assert root <= top.name;
    UnpackedAt(a, root);
    forall m | m in a ensures m.name != root {
      NothingAtWorldRoot(fs, dir, name, a, p, m);
    }
  }

  // ---------------------------------------------------------------------------
  // The server after a completed restore
  // ---------------------------------------------------------------------------

  /** A restore of archive `a` that started from `before` completed and left `after`. */
  ghost predicate Restored(before: Tree, after: Tree, dir: Path, name: string, java: bool, a: Archive) {
    && WellFormed(before) && IsFolder(before, dir) && PlainName(name)
    && RestoredAs(before, after, dir, ActiveWorld(before, dir, name, java), java, Unpacked(a))
  }

  /** The restored server, path by path, outside its working folder. */
  lemma RestoredPath(before: Tree, after: Tree, dir: Path, name: string, java: bool, a: Archive, p: Path)
    requires Restored(before, after, dir, name, java, a) && !(RuntimeDir(dir) <= p)
    requires !IsConfigPath(dir, p)
    ensures var active := ActiveWorld(before, dir, name, java);
            var w := Subtree(Unpacked(a), WorldRoot(java));
            if active <= p then
              (p in after <==> p[|active|..] in w) && (p in after ==> after[p] == w[p[|active|..]])
            else (p in after <==> p in before) && (p in after ==> after[p] == before[p])
  {
    var active := ActiveWorld(before, dir, name, java);
    var w := Subtree(Unpacked(a), WorldRoot(java));
    var swapped := Graft(before, active, w);
    WithConfigsAt(swapped, dir, Prefix(java), Unpacked(a), RESTORED_FILES, p);
    if active <= p {
      SplitPath(active, p);
    }
  }

  /** The active world holds what the archive's world directory unpacks to. */
  lemma RestoredWorld(before: Tree, after: Tree, dir: Path, name: string, java: bool, a: Archive)
    requires Restored(before, after, dir, name, java, a)
    ensures Subtree(after, ActiveWorld(before, dir, name, java)) == Subtree(Unpacked(a), WorldRoot(java))
  {
    var active := ActiveWorld(before, dir, name, java);
    ActiveIsWorldPath(before, dir, name, java);
    RestoredActive(before, after, dir, active, java, Unpacked(a));
    HoldsUnique(after, active, Subtree(Unpacked(a), WorldRoot(java)));
  }

  /** Whether another candidate of the world search exists is not changed by the restore. */
  lemma CandidateStays(before: Tree, after: Tree, dir: Path, name: string, java: bool, a: Archive, c: Path)
    requires Restored(before, after, dir, name, java, a) && WorldPath(dir, c)
    requires !(ActiveWorld(before, dir, name, java) <= c)
    ensures Exists(after, c) <==> Exists(before, c)
  {
    hide Restored, ActiveWorld, IsConfigPath, WorldPath, RuntimeDir, Unpacked, Subtree;
    assert c + [] == c;
    WorldPathApart(dir, c, []);
    RestoredPath(before, after, dir, name, java, a, c);
  }

  /**
    For every Java server the restore gives back the saved world, at the path where the server
    looks for it, also when the server has another world name by then.
   */
  lemma JavaRoundTrip(saved: Tree, before: Tree, after: Tree, dir: Path, was: string, name: string, a: Archive, p: Path)
    requires IsBackup(saved, dir, was, true, a) && Resolve(saved, dir, was, true) == Some(p)
    requires Restored(before, after, dir, name, true, a)
    ensures var active := ActiveWorld(before, dir, name, true);
            Resolve(after, dir, name, true) == Some(active) && Subtree(after, active) == SavedWorld(saved, p)
  {
    hide *;
    RestoredWorld(before, after, dir, name, true, a);
    UnpackedWorld(saved, dir, was, true, a, p);
    JavaWorldName(dir, was, p);
    ResolvedExists(saved, dir, was, true, p);
    JavaResolves(before, after, dir, name, a, saved, p);
  }

  lemma JavaWorldName(dir: Path, name: string, p: Path)
    ensures WorldName(dir, name, true, p) == WorldRoot(true)
  {
  }

  lemma JavaResolves(before: Tree, after: Tree, dir: Path, name: string, a: Archive, saved: Tree, p: Path)
    requires Restored(before, after, dir, name, true, a) && Exists(saved, p)
    requires Subtree(after, ActiveWorld(before, dir, name, true)) == SavedWorld(saved, p)
    ensures Resolve(after, dir, name, true) == Some(ActiveWorld(before, dir, name, true))
  {
    hide *;
    var active := ActiveWorld(before, dir, name, true);
    RootExists(after, active, saved, p);
    JavaActive(before, dir, name);
    JavaActive(after, dir, name);
    RestoredPlain(before, after, dir, name, true, a);
    if active != dir + [name] && name != "" {
      NamedWorldPath(dir, name);
      CandidateStays(before, after, dir, name, true, a, dir + [name]);
    }
  }

  lemma NamedWorldPath(dir: Path, name: string)
    requires PlainName(name)
    ensures WorldPath(dir, dir + [name])
  {
  }

  lemma RestoredPlain(before: Tree, after: Tree, dir: Path, name: string, java: bool, a: Archive)
    requires Restored(before, after, dir, name, java, a)
    ensures PlainName(name) && WellFormed(before)
  {
  }

  /** A Java world is the named folder if it exists, and "world" otherwise. */
  lemma JavaActive(fs: Tree, dir: Path, name: string)
    ensures ActiveWorld(fs, dir, name, true) == if name != "" && Exists(fs, dir + [name]) then dir + [name] else dir + ["world"]
    ensures ActiveWorld(fs, dir, name, true) != dir + [name] ==> !(ActiveWorld(fs, dir, name, true) <= dir + [name])
    ensures Resolve(fs, dir, name, true) == (
              if name != "" && Exists(fs, dir + [name]) then Some(dir + [name])
              else if Exists(fs, dir + ["world"]) then Some(dir + ["world"]) else None)
  {
    if name != "" {
      assert Candidates(dir, name, true) == [dir + [name], dir + ["world"]];
      assert [dir + [name], dir + ["world"]][1..] == [dir + ["world"]];
    } else {
      assert Candidates(dir, name, true) == [dir + ["world"]];
    }
  }

  lemma RootExists(fs: Tree, at: Path, saved: Tree, p: Path)
    requires Subtree(fs, at) == SavedWorld(saved, p) && Exists(saved, p)
    ensures Exists(fs, at)
  {
    assert p + [] == p && at + [] == at;
    assert [] in SavedWorld(saved, p);
    assert Holds(fs, at, SavedWorld(saved, p));
  }

  /**
    Every saved configuration file has its saved contents again; every other one is left alone.  The
    world's name at either time makes no difference.
   */
  lemma ConfigRoundTrip(saved: Tree, before: Tree, after: Tree, dir: Path, was: string, name: string, java: bool,
                        a: Archive, f: string)
    requires IsBackup(saved, dir, was, java, a) && Restored(before, after, dir, name, java, a)
    requires f in RESTORED_FILES
    ensures if f in ConfigFiles(java) && IsFile(saved, dir + [f])
            then dir + [f] in after && after[dir + [f]] == saved[dir + [f]]
            else (dir + [f] in after <==> dir + [f] in before)
                 && (dir + [f] in after ==> after[dir + [f]] == before[dir + [f]])
  {
    RestoredConfig(before, after, dir, name, java, a, f);
    hide *;
    UnpackedConfig(saved, dir, was, java, a, f);
  }

  lemma RestoredConfig(before: Tree, after: Tree, dir: Path, name: string, java: bool, a: Archive, f: string)
    requires Restored(before, after, dir, name, java, a) && f in RESTORED_FILES
    ensures if IsFile(Unpacked(a), [Prefix(java), f])
            then dir + [f] in after && after[dir + [f]] == Unpacked(a)[[Prefix(java), f]]
            else (dir + [f] in after <==> dir + [f] in before) && (dir + [f] in after ==> after[dir + [f]] == before[dir + [f]])
  {
    var active := ActiveWorld(before, dir, name, java);
    var w := Subtree(Unpacked(a), WorldRoot(java));
    ActiveIsWorldPath(before, dir, name, java);
    ConfigApart(dir, active, f);
    ConfigInResult(before, after, dir, active, java, Unpacked(a), f);
  }

  lemma ConfigApart(dir: Path, active: Path, f: string)
    requires WorldPath(dir, active) && f in RESTORED_FILES
    ensures !(active <= dir + [f]) && !(RuntimeDir(dir) <= dir + [f])
  {
    ApartAt(dir + [f], active, |dir|);
    assert f != "runtime";
    ApartAt(dir + [f], RuntimeDir(dir), |dir|);
  }

  lemma ConfigInResult(before: Tree, after: Tree, dir: Path, active: Path, java: bool, u: Tree, f: string)
    requires RestoredAs(before, after, dir, active, java, u) && f in RESTORED_FILES
    requires !(active <= dir + [f]) && !(RuntimeDir(dir) <= dir + [f])
    ensures if IsFile(u, [Prefix(java), f]) then dir + [f] in after && after[dir + [f]] == u[[Prefix(java), f]]
            else (dir + [f] in after <==> dir + [f] in before) && (dir + [f] in after ==> after[dir + [f]] == before[dir + [f]])
  {
    WithConfigsAt(Graft(before, active, Subtree(u, WorldRoot(java))), dir, Prefix(java), u, RESTORED_FILES, dir + [f]);
  }

  /** In the per-level layout the saved world ends up one level too deep, under the name it was saved with. */
  lemma PerLevelTooDeep(saved: Tree, before: Tree, after: Tree, dir: Path, was: string, name: string, a: Archive, p: Path)
    requires IsBackup(saved, dir, was, false, a) && Resolve(saved, dir, was, false) == Some(p) && p != dir + ["worlds"]
    requires Restored(before, after, dir, name, false, a)
    ensures var active := ActiveWorld(before, dir, name, false);
            Subtree(after, active) == Wrapped(was, SavedWorld(saved, p))
            && Subtree(after, active + [was]) == SavedWorld(saved, p)
  {
    hide *;
    var active := ActiveWorld(before, dir, name, false);
    RestoredWorld(before, after, dir, name, false, a);
    UnpackedPerLevel(saved, dir, was, a, p);
    OneLevelDown(after, active, was, SavedWorld(saved, p));
  }

  lemma OneLevelDown(fs: Tree, at: Path, name: string, w: Tree)
    requires Subtree(fs, at) == Wrapped(name, w)
    ensures Subtree(fs, at + [name]) == w
  {
    assert Holds(fs, at, Wrapped(name, w));
    forall q ensures (q in w <==> at + [name] + q in fs) && (q in w ==> fs[at + [name] + q] == w[q]) {
      LevelEntry(fs, at, name, w, q);
    }
    HoldsUnique(fs, at + [name], w);
  }

  lemma LevelEntry(fs: Tree, at: Path, name: string, w: Tree, q: Path)
    requires Holds(fs, at, Wrapped(name, w))
    ensures (q in w <==> at + [name] + q in fs) && (q in w ==> fs[at + [name] + q] == w[q])
  {
    assert at + [name] + q == at + ([name] + q);
    assert [name] + q in Wrapped(name, w) <==> q in w;
    assert [name] + q in Wrapped(name, w) <==> at + ([name] + q) in fs;
  }

  // ---------------------------------------------------------------------------
  // Bedrock
  // ---------------------------------------------------------------------------

  /** The Bedrock search, candidate by candidate. */
  lemma BedrockResolve(fs: Tree, dir: Path, name: string)
    ensures Resolve(fs, dir, name, false) == (
              if name != "" && Exists(fs, dir + [name]) then Some(dir + [name])
              else if name != "" && Exists(fs, dir + ["worlds", name]) then Some(dir + ["worlds", name])
              else if Exists(fs, dir + ["worlds"]) then Some(dir + ["worlds"]) else None)
    ensures ActiveWorld(fs, dir, name, false) == (
              if Resolve(fs, dir, name, false).Some? then Resolve(fs, dir, name, false).value else dir + ["worlds"])
  {
    var worlds := dir + ["worlds"];
    if name != "" {
      assert worlds + [name] == dir + ["worlds", name];
      assert Candidates(dir, name, false) == [dir + [name], dir + ["worlds", name], worlds];
      FirstOfThree(fs, dir + [name], dir + ["worlds", name], worlds);
    } else {
      assert Candidates(dir, name, false) == [worlds, worlds];
      FirstOfThree(fs, worlds, worlds, worlds);
      assert [worlds, worlds, worlds][1..] == [worlds, worlds];
    }
  }

  lemma FirstOfThree(fs: Tree, a: Path, b: Path, c: Path)
    ensures FirstExisting(fs, [a, b, c]) ==
            if Exists(fs, a) then Some(a) else if Exists(fs, b) then Some(b) else if Exists(fs, c) then Some(c) else None
  {
    assert [a, b, c][1..] == [b, c] && [b, c][1..] == [c] && [c][1..] == [];
  }

  lemma BedrockPaths(dir: Path, name: string)
    requires PlainName(name) && name != ""
    ensures WorldPath(dir, dir + [name]) && WorldPath(dir, dir + ["worlds", name]) && WorldPath(dir, dir + ["worlds"])
    ensures name != "worlds" ==> Unrelated(dir + [name], dir + ["worlds"]) && Unrelated(dir + [name], dir + ["worlds", name])
    ensures dir + ["worlds"] <= dir + ["worlds", name] && dir + ["worlds"] + [name] == dir + ["worlds", name]
    ensures name == "worlds" ==> dir + [name] == dir + ["worlds"]
    ensures dir + [name] != dir + ["worlds", name] && dir + ["worlds"] != dir + ["worlds", name]
  {
    assert "worlds" !in RESTORED_FILES;
    if name != "worlds" {
      ApartAt(dir + [name], dir + ["worlds"], |dir|);
      ApartAt(dir + [name], dir + ["worlds", name], |dir|);
    }
  }

  /** The restored server resolves the world that was restored, when that was a level's own folder. */
  lemma LevelResolves(before: Tree, after: Tree, dir: Path, name: string, a: Archive)
    requires Restored(before, after, dir, name, false, a)
    requires ActiveWorld(before, dir, name, false) != dir + ["worlds"]
    requires Exists(after, ActiveWorld(before, dir, name, false))
    ensures Resolve(after, dir, name, false) == Some(ActiveWorld(before, dir, name, false))
  {
    hide *;
    BedrockResolve(before, dir, name);
    BedrockResolve(after, dir, name);
    RestoredPlain(before, after, dir, name, false, a);
    var active := ActiveWorld(before, dir, name, false);
    BedrockPaths(dir, name);
    WorldsNamed(before, dir, name, active);
    if active != dir + [name] {
      NamedUntouched(before, after, dir, name, a);
    }
  }

  /** A folder named like the level is not created by a restore into `worlds` or a level below it. */
  lemma NamedUntouched(before: Tree, after: Tree, dir: Path, name: string, a: Archive)
    requires Restored(before, after, dir, name, false, a) && name != "" && name != "worlds"
    requires ActiveWorld(before, dir, name, false) != dir + [name]
    ensures Exists(after, dir + [name]) <==> Exists(before, dir + [name])
  {
    BedrockResolve(before, dir, name);
    hide Restored, ActiveWorld, Resolve, Exists;
    RestoredPlain(before, after, dir, name, false, a);
    BedrockPaths(dir, name);
    CandidateStays(before, after, dir, name, false, a, dir + [name]);
  }

  /** When a Bedrock server saved as `was` and restored as `name` finds its world again. */
  ghost predicate BedrockComesBack(saved: Tree, before: Tree, dir: Path, was: string, name: string, p: Path) {
    var worlds := dir + ["worlds"];
    if p == worlds then
      ActiveWorld(before, dir, name, false) != worlds || name == "" || name == "worlds"
      || !Exists(saved, dir + ["worlds", name])
    else ActiveWorld(before, dir, name, false) == worlds && name == was
  }

  /**
    A Bedrock restore gives back the saved world, where the server looks for it, exactly in two
    cases: the whole `worlds` folder was saved, and it is not being restored for a server that now
    names a level inside it; or a level's folder was saved, the whole `worlds` folder is being
    restored, and the level has kept its name.
   */
  lemma BedrockRoundTripIff(saved: Tree, before: Tree, after: Tree, dir: Path, was: string, name: string, a: Archive, p: Path)
    requires IsBackup(saved, dir, was, false, a) && Resolve(saved, dir, was, false) == Some(p)
    requires Restored(before, after, dir, name, false, a)
    ensures var found := Resolve(after, dir, name, false);
            found.Some? && (Subtree(after, found.value) == SavedWorld(saved, p) <==>
                            BedrockComesBack(saved, before, dir, was, name, p))
  {
    hide *;
    ComesBackMeans(saved, before, dir, was, name, p);
    if p == dir + ["worlds"] {
      WholeFolderSaved(saved, before, after, dir, was, name, a);
    } else {
      LevelSaved(saved, before, after, dir, was, name, a, p);
    }
  }

  lemma ComesBackMeans(saved: Tree, before: Tree, dir: Path, was: string, name: string, p: Path)
    ensures var worlds := dir + ["worlds"];
      BedrockComesBack(saved, before, dir, was, name, p) <==>
        if p == worlds then
          ActiveWorld(before, dir, name, false) != worlds || name == "" || name == "worlds"
          || !Exists(saved, dir + ["worlds", name])
        else ActiveWorld(before, dir, name, false) == worlds && name == was
  {
  }

  /** A level's folder was saved. */
  lemma LevelSaved(saved: Tree, before: Tree, after: Tree, dir: Path, was: string, name: string, a: Archive, p: Path)
    requires IsBackup(saved, dir, was, false, a) && Resolve(saved, dir, was, false) == Some(p) && p != dir + ["worlds"]
    requires Restored(before, after, dir, name, false, a)
    ensures var found := Resolve(after, dir, name, false);
            found.Some? && (Subtree(after, found.value) == SavedWorld(saved, p) <==>
                            ActiveWorld(before, dir, name, false) == dir + ["worlds"] && name == was)
  {
    hide *;
    var active, worlds := ActiveWorld(before, dir, name, false), dir + ["worlds"];
    PerLevelTooDeep(saved, before, after, dir, was, name, a, p);
    BackupWellFormed(saved, dir, was, false, a);
    WorldsNamed(saved, dir, was, p);
    WrappedExists(after, active, was, SavedWorld(saved, p));
    WrappedDiffers(was, SavedWorld(saved, p));
    if active != worlds {
      LevelResolves(before, after, dir, name, a);
    } else if name == was {
      LevelIntoWorlds(saved, before, after, dir, name, a, p);
    } else {
      OtherLevelIntoWorlds(saved, before, after, dir, was, name, a, p);
    }
  }

  /** A level was saved under another name: the server finds no level below `worlds`, only the folder itself. */
  lemma OtherLevelIntoWorlds(saved: Tree, before: Tree, after: Tree, dir: Path, was: string, name: string, a: Archive, p: Path)
    requires Restored(before, after, dir, name, false, a) && ActiveWorld(before, dir, name, false) == dir + ["worlds"]
    requires Subtree(after, dir + ["worlds"]) == Wrapped(was, SavedWorld(saved, p)) && Exists(after, dir + ["worlds"])
    requires name != was
    ensures Resolve(after, dir, name, false) == Some(dir + ["worlds"])
  {
    hide *;
    BedrockResolve(before, dir, name);
    BedrockResolve(after, dir, name);
    RestoredPlain(before, after, dir, name, false, a);
    if name != "" && name != "worlds" {
      BedrockPaths(dir, name);
      NamedUntouched(before, after, dir, name, a);
      NotWrapped(after, dir + ["worlds"], was, SavedWorld(saved, p), name);
    } else if name == "worlds" {
      BedrockPaths(dir, name);
    }
  }

  lemma NotWrapped(fs: Tree, at: Path, was: string, w: Tree, name: string)
    requires Subtree(fs, at) == Wrapped(was, w) && name != was
    ensures !Exists(fs, at + [name])
  {
    assert Holds(fs, at, Wrapped(was, w));
    assert [name] in Wrapped(was, w) <==> at + [name] in fs;
    WrappedAt(was, w, [name]);
  }

  lemma ResolvedExists(fs: Tree, dir: Path, name: string, java: bool, p: Path)
    requires Resolve(fs, dir, name, java) == Some(p)
    ensures Exists(fs, p)
  {
  }

  lemma WrappedExists(fs: Tree, at: Path, name: string, w: Tree)
    requires Subtree(fs, at) == Wrapped(name, w)
    ensures Exists(fs, at)
  {
    var whole := Wrapped(name, w);
    assert [] in whole && whole[[]] == Folder && at + [] == at;
    assert Holds(fs, at, whole);
    hide Wrapped, Subtree;
    ExistsAt(fs, at, whole);
  }

  /** The whole `worlds` folder was saved: the server finds it again, unless it names a level inside it. */
  lemma WholeFolderSaved(saved: Tree, before: Tree, after: Tree, dir: Path, was: string, name: string, a: Archive)
    requires IsBackup(saved, dir, was, false, a) && Resolve(saved, dir, was, false) == Some(dir + ["worlds"])
    requires Restored(before, after, dir, name, false, a)
    ensures var found, worlds := Resolve(after, dir, name, false), dir + ["worlds"];
            found.Some? && (Subtree(after, found.value) == SavedWorld(saved, worlds) <==>
                            ActiveWorld(before, dir, name, false) != worlds || name == "" || name == "worlds"
                            || !Exists(saved, dir + ["worlds", name]))
  {
    hide *;
    var active, worlds := ActiveWorld(before, dir, name, false), dir + ["worlds"];
    WholeFolderRestored(saved, before, after, dir, was, name, a);
    BedrockResolve(before, dir, name);
    BedrockResolve(after, dir, name);
    RestoredPlain(before, after, dir, name, false, a);
    if active != worlds {
      LevelResolves(before, after, dir, name, a);
    } else if name != "" && name != "worlds" {
      BedrockPaths(dir, name);
      NamedUntouched(before, after, dir, name, a);
      if Exists(saved, dir + ["worlds", name]) {
        LevelInside(saved, after, worlds, name);
      } else {
        NoSuchLevel(saved, after, worlds, name);
      }
    } else if name == "worlds" {
      BedrockPaths(dir, name);
    }
  }

  lemma WholeFolderRestored(saved: Tree, before: Tree, after: Tree, dir: Path, was: string, name: string, a: Archive)
    requires IsBackup(saved, dir, was, false, a) && Resolve(saved, dir, was, false) == Some(dir + ["worlds"])
    requires Restored(before, after, dir, name, false, a)
    ensures Subtree(after, ActiveWorld(before, dir, name, false)) == SavedWorld(saved, dir + ["worlds"])
    ensures Exists(after, ActiveWorld(before, dir, name, false)) && Exists(saved, dir + ["worlds"])
  {
    var worlds := dir + ["worlds"];
    assert WorldName(dir, was, false, worlds) == WorldRoot(false);
    hide *;
    RestoredWorld(before, after, dir, name, false, a);
    UnpackedWorld(saved, dir, was, false, a, worlds);
    ResolvedExists(saved, dir, was, false, worlds);
    RootExists(after, ActiveWorld(before, dir, name, false), saved, worlds);
  }

  /** A level inside the saved folder is restored with it, and is not the whole folder. */
  lemma LevelInside(saved: Tree, after: Tree, worlds: Path, name: string)
    requires Subtree(after, worlds) == SavedWorld(saved, worlds)
    requires Exists(saved, worlds) && Exists(saved, worlds + [name])
    ensures Exists(after, worlds + [name])
    ensures Subtree(after, worlds + [name]) != SavedWorld(saved, worlds)
  {
    var w := SavedWorld(saved, worlds);
    assert Holds(after, worlds, w);
    assert worlds + [] == worlds;
    assert [] in w && [name] in w && !w[[name]].Link?;
    SubtreeOfHeld(after, worlds, w, [name]);
    SubtreeDiffers(name, w);
  }

  /** No finite tree equals one of its own folders. */
  lemma SubtreeDiffers(name: string, w: Tree)
    requires [] in w
    ensures Subtree(w, [name]) != w
  {
    var k := Shifted([name], w);
    ShiftedSize([name], w.Keys, w);
    assert [] !in k && |k| == |w.Keys|;
    if Subtree(w, [name]) == w {
      SubsetIsSmaller(k, w.Keys);
      assert false;
    }
  }

  lemma SubsetIsSmaller(a: set<Path>, b: set<Path>)
    requires [] in b && [] !in a && a <= b
    ensures |a| < |b|
  {
    assert a <= b - {[]};
    SubsetSize(a, b - {[]});
  }

  /** A level folder that was not saved is not restored. */
  lemma NoSuchLevel(saved: Tree, after: Tree, worlds: Path, name: string)
    requires Subtree(after, worlds) == SavedWorld(saved, worlds) && !Exists(saved, worlds + [name])
    ensures !Exists(after, worlds + [name])
  {
    assert Holds(after, worlds, SavedWorld(saved, worlds));
    assert [name] in SavedWorld(saved, worlds) <==> worlds + [name] in after;
    assert [name] in Subtree(saved, worlds) <==> worlds + [name] in saved;
  }

  /** A level folder was saved, and now only `worlds` exists: the level is found below it. */
  lemma LevelIntoWorlds(saved: Tree, before: Tree, after: Tree, dir: Path, name: string, a: Archive, p: Path)
    requires WellFormed(saved) && Resolve(saved, dir, name, false) == Some(p) && p != dir + ["worlds"]
    requires Restored(before, after, dir, name, false, a) && ActiveWorld(before, dir, name, false) == dir + ["worlds"]
    requires Subtree(after, dir + ["worlds"] + [name]) == SavedWorld(saved, p)
    ensures Resolve(after, dir, name, false) == Some(dir + ["worlds"] + [name])
  {
    hide *;
    ResolvedExists(saved, dir, name, false, p);
    RootExists(after, dir + ["worlds"] + [name], saved, p);
    BedrockResolve(saved, dir, name);
    BedrockResolve(before, dir, name);
    BedrockResolve(after, dir, name);
    RestoredPlain(before, after, dir, name, false, a);
    BedrockPaths(dir, name);
    WorldsNamed(saved, dir, name, p);
    NamedUntouched(before, after, dir, name, a);
  }

  /** A level named "worlds" is found as the `worlds` folder itself. */
  lemma WorldsNamed(fs: Tree, dir: Path, name: string, p: Path)
    requires WellFormed(fs) && Resolve(fs, dir, name, false) == Some(p) && p != dir + ["worlds"]
    ensures name != "" && name != "worlds"
  {
    var worlds := dir + ["worlds"];
    if p == worlds + ["worlds"] {
      assert Parent(p) == worlds;
    }
  }

  lemma BackupWellFormed(fs: Tree, dir: Path, name: string, java: bool, a: Archive)
    requires IsBackup(fs, dir, name, java, a)
    ensures WellFormed(fs)
  {
  }
}
