/** A Bedrock server whose world is in a level folder, backed up and restored onto itself. */
module LevelRestore {
  import opened Wrappers
  import opened FileTree
  import opened WorldArchive
  import opened WorldRestore
  import opened WorldRoundTrip

  const SERVER_DIR: Path := ["srv"]

  const LEVEL := "Alpha"

  const LEVEL_DIR: Path := ["srv", "worlds", "Alpha"]

  function LevelServer(): Tree {
    map[[] := Folder, SERVER_DIR := Folder, ["srv", "worlds"] := Folder, LEVEL_DIR := Folder,
        LEVEL_DIR + ["level.dat"] := File([7])]
  }

  function LevelBackup(): Archive {
    [Member(["bedrock", "worlds", "Alpha"], Folder), Member(["bedrock", "worlds", "Alpha", "level.dat"], File([7]))]
  }

  lemma ServerFacts()
    ensures WellFormed(LevelServer()) && PlainName(LEVEL) && IsFolder(LevelServer(), SERVER_DIR)
    ensures Resolve(LevelServer(), SERVER_DIR, LEVEL, false) == Some(LEVEL_DIR)
    ensures ActiveWorld(LevelServer(), SERVER_DIR, LEVEL, false) == LEVEL_DIR
  {
    ServerWellFormed();
    BelowServer(LEVEL);
    assert SERVER_DIR + ["worlds", LEVEL] == LEVEL_DIR;
    assert Exists(LevelServer(), LEVEL_DIR);
    hide *;
    BedrockResolve(LevelServer(), SERVER_DIR, LEVEL);
    LevelIsPlain();
  }

  lemma LevelIsPlain()
    ensures PlainName(LEVEL) && LEVEL != ""
  {
  }

  lemma ServerWellFormed()
    ensures WellFormed(LevelServer()) && IsFolder(LevelServer(), SERVER_DIR)
  {
    assert Parent(LEVEL_DIR + ["level.dat"]) == LEVEL_DIR && Parent(LEVEL_DIR) == ["srv", "worlds"];
    assert Parent(["srv", "worlds"]) == SERVER_DIR && Parent(SERVER_DIR) == [];
  }

  /** Only the folder `worlds` is right below the server directory. */
  lemma BelowServer(f: string)
    ensures SERVER_DIR + [f] in LevelServer() <==> f == "worlds"
    ensures !IsFile(LevelServer(), SERVER_DIR + [f])
  {
    var p := SERVER_DIR + [f];
    assert |p| == 2 && p[1] == f;
    assert f == "worlds" ==> p == ["srv", "worlds"];
    assert p == ["srv", "worlds"] ==> f == "worlds";
  }

  lemma BelowLevel(tail: Path)
    ensures LEVEL_DIR + tail in LevelServer() <==> tail == [] || tail == ["level.dat"]
    ensures LevelServer()[LEVEL_DIR] == Folder && LEVEL_DIR + ["level.dat"] in LevelServer()
    ensures LevelServer()[LEVEL_DIR + ["level.dat"]] == File([7]) && LEVEL_DIR + [] == LEVEL_DIR
  {
    var p := LEVEL_DIR + tail;
    assert p[|LEVEL_DIR|..] == tail && |p| >= 3;
    assert LEVEL_DIR + [] == LEVEL_DIR;
    assert (LEVEL_DIR + ["level.dat"])[|LEVEL_DIR|..] == ["level.dat"];
  }

  lemma LevelPacks(m: Member)
    ensures Packs(LevelServer(), LEVEL_DIR, ["bedrock", "worlds", "Alpha"], m) <==> m in LevelBackup()
  {
    var arc: Path := ["bedrock", "worlds", "Alpha"];
    assert arc + ["level.dat"] == ["bedrock", "worlds", "Alpha", "level.dat"] && arc + [] == arc;
    var tail := if arc <= m.name then m.name[|arc|..] else [];
    assert arc <= m.name ==> m.name == arc + tail;
    BelowLevel(tail);
    hide LevelServer;
    assert tail == [] || tail == ["level.dat"] || !Packs(LevelServer(), LEVEL_DIR, arc, m);
    assert (arc + ["level.dat"])[|arc|..] == ["level.dat"];
  }

  lemma NoConfigsSaved()
    ensures PresentFiles(LevelServer(), SERVER_DIR, "bedrock", BEDROCK_FILES) == []
  {
    forall f: string ensures !IsFile(LevelServer(), SERVER_DIR + [f]) {
      BelowServer(f);
    }
    hide *;
    EmptyOrNot(PresentFiles(LevelServer(), SERVER_DIR, "bedrock", BEDROCK_FILES));
  }

  lemma EmptyOrNot(r: seq<(Path, Path)>)
    ensures r == [] || exists i :: i in r
  {
    assert r != [] ==> r[0] in r;
  }

  lemma LevelIsBackup()
    ensures IsBackup(LevelServer(), SERVER_DIR, LEVEL, false, LevelBackup())
  {
    ServerFacts();
    NoConfigsSaved();
    hide Packs, WellFormed, PlainName, Resolve;
    var i: (Path, Path) := (LEVEL_DIR, ["bedrock", "worlds", "Alpha"]);
    assert WorldName(SERVER_DIR, LEVEL, false, LEVEL_DIR) == i.1;
    assert IncludedPaths(LevelServer(), SERVER_DIR, LEVEL, false) == [i] + [] == [i];
    forall m ensures m in LevelBackup() <==> Packs(LevelServer(), i.0, i.1, m) {
      LevelPacks(m);
    }
    assert i in [i];
  }

  /**
    The restored server finds a world at the level's folder, but not the saved one: its files are
    one level further down.
   */
  lemma LevelIsLost()
    ensures var fs := LevelServer();
            var after := RestoredTree(fs, SERVER_DIR, LEVEL_DIR, false, Unpacked(LevelBackup()));
            && IsBackup(fs, SERVER_DIR, LEVEL, false, LevelBackup())
            && Restored(fs, after, SERVER_DIR, LEVEL, false, LevelBackup())
            && Resolve(fs, SERVER_DIR, LEVEL, false) == Some(LEVEL_DIR) == Resolve(after, SERVER_DIR, LEVEL, false)
            && Subtree(after, LEVEL_DIR) != SavedWorld(fs, LEVEL_DIR)
            && LEVEL_DIR + ["level.dat"] !in after && LEVEL_DIR + ["Alpha", "level.dat"] in after
  {
    var fs, a := LevelServer(), LevelBackup();
    var after := RestoredTree(fs, SERVER_DIR, LEVEL_DIR, false, Unpacked(a));
    ServerFacts();
    LevelIsBackup();
    LevelSaves();
    hide *;
    RestoredHere(fs, a);
    PerLevelTooDeep(fs, fs, after, SERVER_DIR, LEVEL, LEVEL, a, LEVEL_DIR);
    WrappedExists(after, LEVEL_DIR, LEVEL, SavedWorld(fs, LEVEL_DIR));
    LevelResolves(fs, after, SERVER_DIR, LEVEL, a);
    WrappedDiffers(LEVEL, SavedWorld(fs, LEVEL_DIR));
    FileTooDeep(after, SavedWorld(fs, LEVEL_DIR));
  }

  lemma RestoredHere(fs: Tree, a: Archive)
    requires WellFormed(fs) && IsFolder(fs, SERVER_DIR) && PlainName(LEVEL)
    requires ActiveWorld(fs, SERVER_DIR, LEVEL, false) == LEVEL_DIR
    ensures Restored(fs, RestoredTree(fs, SERVER_DIR, LEVEL_DIR, false, Unpacked(a)), SERVER_DIR, LEVEL, false, a)
  {
    hide RestoredTree, WellFormed, ActiveWorld;
    SameOutsideRefl(RestoredTree(fs, SERVER_DIR, LEVEL_DIR, false, Unpacked(a)), RuntimeDir(SERVER_DIR));
  }

  lemma LevelSaves()
    ensures LEVEL_DIR != SERVER_DIR + ["worlds"]
    ensures ["level.dat"] in SavedWorld(LevelServer(), LEVEL_DIR)
  {
  }

  lemma FileTooDeep(after: Tree, w: Tree)
    requires Subtree(after, LEVEL_DIR) == Wrapped(LEVEL, w) && ["level.dat"] in w
    ensures LEVEL_DIR + ["level.dat"] !in after && LEVEL_DIR + ["Alpha", "level.dat"] in after
  {
    assert Holds(after, LEVEL_DIR, Wrapped(LEVEL, w));
    WrappedAt(LEVEL, w, ["level.dat"]);
    assert [LEVEL] + ["level.dat"] == ["Alpha", "level.dat"];
    assert ["Alpha", "level.dat"] in Wrapped(LEVEL, w);
  }
}
