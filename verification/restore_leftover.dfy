/** A completed restore whose clean-up left the empty folder of the old world, and the handler that takes it back. */
module RestoreLeftover {
  import opened Wrappers
  import opened FileTree
  import opened WorldArchive
  import opened DiskOps
  import opened WorldRestore

  const SERVER_DIR: Path := ["srv"]

  const ACTIVE_WORLD: Path := ["srv", "world"]

  const JOB_ID := "00000000-0000-0000-0000-000000000001"

  function OldServer(): Tree {
    map[[] := Folder, SERVER_DIR := Folder, ACTIVE_WORLD := Folder, ACTIVE_WORLD + ["level.dat"] := File([0])]
  }

  function NewWorld(): Archive {
    [Member(["java", "world"], Folder), Member(["java", "world", "level.dat"], File([1]))]
  }

  /** The folders of the job down to the rollback path. */
  function LeftFolders(dir: Path, id: string, active: Path): Tree
    requires active != []
  {
    map q | q in Prefixes(RollbackPath(dir, id, active)) && RuntimeDir(dir) <= q :: Folder
  }

  ghost function WithLeftover(start: Tree, dir: Path, id: string, active: Path, java: bool, e: Tree): Tree
    requires active != []
  {
    RestoredTree(start, dir, active, java, e) + LeftFolders(dir, id, active)
  }

  lemma LeftoverInstalled(start: Tree, dir: Path, id: string, active: Path, java: bool, archive: Archive)
    requires WorldPath(dir, active) && active != [] && SafeArchive(archive)
    requires IsFolder(Unpacked(archive), WorldRoot(java))
    requires IsFolder(start, active) && Absent(start, RollbackRoot(dir, id))
    ensures var before := WithLeftover(start, dir, id, active, java, Unpacked(archive));
            && Installed(start, before, dir, id, active, java, archive)
            && Holds(before, RollbackPath(dir, id, active), map[[] := Folder])
  {
    hide *;
    var e := Unpacked(archive);
    LeftoverRestored(start, dir, id, active, java, e);
    LeftoverHolds(start, dir, id, active, java, e);
    FolderIsPart(WithLeftover(start, dir, id, active, java, e), RollbackPath(dir, id, active), start, active);
    IsInstalled(start, WithLeftover(start, dir, id, active, java, e), dir, id, active, java, archive);
  }

  lemma LeftoverRestored(start: Tree, dir: Path, id: string, active: Path, java: bool, e: Tree)
    requires active != []
    ensures RestoredAs(start, WithLeftover(start, dir, id, active, java, e), dir, active, java, e)
  {
    hide RestoredTree, RollbackPath;
  }

  lemma FolderIsPart(fs: Tree, back: Path, start: Tree, active: Path)
    requires Holds(fs, back, map[[] := Folder]) && IsFolder(start, active)
    ensures PartOf(fs, back, Subtree(start, active))
  {
    assert active + [] == active;
  }

  lemma LeftoverHolds(start: Tree, dir: Path, id: string, active: Path, java: bool, e: Tree)
    requires WorldPath(dir, active) && active != [] && Absent(start, RollbackRoot(dir, id))
    ensures Holds(WithLeftover(start, dir, id, active, java, e), RollbackPath(dir, id, active), map[[] := Folder])
  {
    hide *;
    var back := RollbackPath(dir, id, active);
    LeftFolderAt(dir, id, active);
    forall q ensures back + q !in RestoredTree(start, dir, active, java, e) {
      BackIsNew(start, dir, id, active, java, e, q);
    }
    FolderAdded(RestoredTree(start, dir, active, java, e), LeftFolders(dir, id, active), back);
    LeftoverIs(start, dir, id, active, java, e);
  }

  lemma FolderAdded(base: Tree, extra: Tree, back: Path)
    requires forall q :: back + q !in base
    requires forall q :: back + q in extra <==> q == []
    requires forall p :: p in extra ==> extra[p].Folder?
    ensures Holds(base + extra, back, map[[] := Folder])
  {
    assert back + [] in extra;
  }

  lemma LeftoverIs(start: Tree, dir: Path, id: string, active: Path, java: bool, e: Tree)
    requires active != []
    ensures WithLeftover(start, dir, id, active, java, e)
         == RestoredTree(start, dir, active, java, e) + LeftFolders(dir, id, active)
  {
  }

  lemma LeftFolderAt(dir: Path, id: string, active: Path)
    requires active != []
    ensures forall q :: RollbackPath(dir, id, active) + q in LeftFolders(dir, id, active) <==> q == []
    ensures forall p :: p in LeftFolders(dir, id, active) ==> LeftFolders(dir, id, active)[p].Folder?
  {
    var back := RollbackPath(dir, id, active);
    assert back + [] == back && RuntimeDir(dir) <= back;
    forall q: Path ensures back + q <= back <==> q == [] {
    }
  }

  lemma BackIsNew(start: Tree, dir: Path, id: string, active: Path, java: bool, e: Tree, q: Path)
    requires WorldPath(dir, active) && active != [] && Absent(start, RollbackRoot(dir, id))
    ensures RollbackPath(dir, id, active) + q !in RestoredTree(start, dir, active, java, e)
  {
    var back := RollbackPath(dir, id, active);
    var p := back + q;
    assert !(active <= p) && !IsConfigPath(dir, p) && p !in start by {
      Geometry(dir, id, active);
      ApartBelow(active, back, p);
      AbsentBelow(start, RollbackRoot(dir, id), back);
      assert |p| > |dir| + 1;
    }
    hide WorldPath, RollbackPath, Absent, Subtree, Graft;
    NoConfigPath(dir, p);
    WithConfigsAt(Graft(start, active, Subtree(e, WorldRoot(java))), dir, Prefix(java), e, RESTORED_FILES, p);
  }

  lemma NewWorldUnpacked()
    ensures SafeArchive(NewWorld()) && IsFolder(Unpacked(NewWorld()), WorldRoot(true))
    ensures ["java", "world", "level.dat"] in Unpacked(NewWorld())
  {
    var a := NewWorld();
    assert a[..2] == a && a[..1] == [a[0]] && a[..1][..0] == [] && a[..2][..1] == a[..1];
    assert a[0] in a && NamesWorld(a[0].name);
    assert Unpacked(a[..1]) == Unpack(Unpacked([]), a[0]);
    assert Unpacked(a) == Unpack(Unpacked(a[..1]), a[1]);
  }

  /** The two renames of the handler, when they succeed. */
  ghost function RolledBackTree(before: Tree, dir: Path, id: string, active: Path): Tree
    requires active != []
  {
    Rename(Rename(before, active, FailedPath(active, id)), RollbackPath(dir, id, active), active)
  }

  lemma PathsApart(dir: Path, id: string, active: Path)
    requires WorldPath(dir, active) && active != []
    ensures HandlerApart(active, RollbackPath(dir, id, active), FailedPath(active, id))
    ensures RuntimeDir(dir) <= RollbackPath(dir, id, active)
  {
    HandlerPaths(dir, id, active);
    hide RollbackPath, FailedPath, RuntimeDir;
  }

  lemma RollBackMoves(before: Tree, dir: Path, id: string, active: Path, w: Tree, v: Tree)
    requires WorldPath(dir, active) && active != []
    requires Holds(before, RollbackPath(dir, id, active), w) && Holds(before, active, v)
    requires Exists(before, RollbackPath(dir, id, active)) && Exists(before, active)
    requires IsFolder(before, Parent(active)) && FailedPath(active, id) !in before
    ensures var back, failed := RollbackPath(dir, id, active), FailedPath(active, id);
            && ReplaceAllowed(before, active, failed)
            && ReplaceAllowed(Rename(before, active, failed), back, active)
            && Holds(RolledBackTree(before, dir, id, active), active, w)
            && Holds(RolledBackTree(before, dir, id, active), failed, v)
            && SameElsewhere(before, RolledBackTree(before, dir, id, active), dir, id, active)
  {
    var back, failed := RollbackPath(dir, id, active), FailedPath(active, id);
    var moved, after := Rename(before, active, failed), RolledBackTree(before, dir, id, active);
    hide *;
    PathsApart(dir, id, active);
    AsideReady(before, active, back, failed);
    SetAsideEffect(before, moved, active, back, failed, w, v);
    StillThere(before, moved, back, w);
    AbsentHere(moved, active);
    BackReady(moved, active, back, failed);
    RollBackEffect(moved, after, active, back, failed, w);
    UntouchedHolds(moved, after, failed, v);
    BeyondElsewhere(before, moved, dir, id, active, back, failed);
    BeyondElsewhere(moved, after, dir, id, active, back, failed);
    ElsewhereTrans(before, moved, after, dir, id, active);
  }

  lemma StillThere(a: Tree, b: Tree, p: Path, w: Tree)
    requires Holds(a, p, w) && Holds(b, p, w) && Exists(a, p)
    ensures Exists(b, p)
  {
    ExistsAt(a, p, w);
    ExistsAt(b, p, w);
  }

  /** That is what the handler does when none of its operations fails. */
  lemma RollBackIsHandled(before: Tree, dir: Path, id: string, active: Path, w: Tree, v: Tree)
    requires WorldPath(dir, active) && active != []
    requires Holds(before, RollbackPath(dir, id, active), w) && Holds(before, active, v)
    requires Exists(before, RollbackPath(dir, id, active)) && FailedPath(active, id) !in before
    requires var after := RolledBackTree(before, dir, id, active);
             Holds(after, active, w) && Holds(after, FailedPath(active, id), v)
             && SameElsewhere(before, after, dir, id, active)
    ensures HandlerEffect(before, RolledBackTree(before, dir, id, active), [], 0, dir, id, active,
                          Some(RollbackPath(dir, id, active)), true, true, RolledBack)
  {
    hide Holds, Subtree, RolledBackTree, SameElsewhere, WorldPath, RollbackPath, FailedPath, Kept;
    HoldsUnique(before, RollbackPath(dir, id, active), w);
    HoldsUnique(before, active, v);
  }

  /**
    A completed restore of a small server whose handler finds the empty folder of the old world:
    it moves the restored world to the failed path and reports a rollback to that empty folder.
   */
  lemma LateRollbackHappens()
    ensures var e, failed := Unpacked(NewWorld()), FailedPath(ACTIVE_WORLD, JOB_ID);
            var before := WithLeftover(OldServer(), SERVER_DIR, JOB_ID, ACTIVE_WORLD, true, e);
            var after := RolledBackTree(before, SERVER_DIR, JOB_ID, ACTIVE_WORLD);
            && WorldPath(SERVER_DIR, ACTIVE_WORLD) && IsUuid(JOB_ID) && WellFormed(OldServer())
            && Installed(OldServer(), before, SERVER_DIR, JOB_ID, ACTIVE_WORLD, true, NewWorld())
            && ReplaceAllowed(before, ACTIVE_WORLD, failed)
            && ReplaceAllowed(Rename(before, ACTIVE_WORLD, failed), RollbackPath(SERVER_DIR, JOB_ID, ACTIVE_WORLD), ACTIVE_WORLD)
            && HandlerEffect(before, after, [], 0, SERVER_DIR, JOB_ID, ACTIVE_WORLD,
                             Some(RollbackPath(SERVER_DIR, JOB_ID, ACTIVE_WORLD)), true, true, RolledBack)
            && ACTIVE_WORLD in after && ACTIVE_WORLD + ["level.dat"] !in after && failed + ["level.dat"] in after
  {
    var start, e := OldServer(), Unpacked(NewWorld());
    var dir, id, active := SERVER_DIR, JOB_ID, ACTIVE_WORLD;
    var r, left := Subtree(e, WorldRoot(true)), map[[] := Folder];
    var before := WithLeftover(start, dir, id, active, true, e);
    var back, failed := RollbackPath(dir, id, active), FailedPath(active, id);
    OldServerFacts();
    NewWorldUnpacked();
    hide *;
    LeftoverInstalled(start, dir, id, active, true, NewWorld());
    InstalledParts(start, before, dir, id, active, true, NewWorld());
    RestoredActive(start, before, dir, active, true, e);
    InstalledExists(before, active, e, true);
    HandlerPathsKept(start, before, dir, id, active, true, e);
    SameFolder(start, before, Parent(active));
    SameAbsent(start, before, failed);
    HeldFolder(before, back, left);
    RollBackMoves(before, dir, id, active, left, r);
    RollBackIsHandled(before, dir, id, active, left, r);
    LevelMoved(RolledBackTree(before, dir, id, active), active, failed, e, left, r);
  }

  lemma OldServerFacts()
    ensures WorldPath(SERVER_DIR, ACTIVE_WORLD) && IsUuid(JOB_ID) && WellFormed(OldServer())
    ensures IsFolder(OldServer(), ACTIVE_WORLD) && IsFolder(OldServer(), Parent(ACTIVE_WORLD))
    ensures Absent(OldServer(), RollbackRoot(SERVER_DIR, JOB_ID)) && FailedPath(ACTIVE_WORLD, JOB_ID) !in OldServer()
  {
    assert Parent(ACTIVE_WORLD) == SERVER_DIR && Parent(ACTIVE_WORLD + ["level.dat"]) == ACTIVE_WORLD;
    assert Parent(SERVER_DIR) == [];
    assert FailedPath(ACTIVE_WORLD, JOB_ID)[1] != "world" by {
      assert |FailedPath(ACTIVE_WORLD, JOB_ID)[1]| > 36;
    }
    assert |RollbackRoot(SERVER_DIR, JOB_ID)| == 5;
  }

  lemma SameFolder(a: Tree, b: Tree, p: Path)
    requires SameAt(a, b, p) && IsFolder(a, p)
    ensures IsFolder(b, p)
  {
  }

  lemma SameAbsent(a: Tree, b: Tree, p: Path)
    requires SameAt(a, b, p) && p !in a
    ensures p !in b
  {
  }

  lemma HeldFolder(fs: Tree, p: Path, w: Tree)
    requires Holds(fs, p, w) && [] in w && w[[]].Folder?
    ensures Exists(fs, p)
  {
    ExistsAt(fs, p, w);
  }

  lemma LevelMoved(after: Tree, active: Path, failed: Path, e: Tree, left: Tree, r: Tree)
    requires Holds(after, active, left) && left == map[[] := Folder]
    requires Holds(after, failed, r) && r == Subtree(e, WorldRoot(true)) && ["java", "world", "level.dat"] in e
    ensures active in after && active + ["level.dat"] !in after && failed + ["level.dat"] in after
  {
    assert active + [] == active;
    assert WorldRoot(true) + ["level.dat"] == ["java", "world", "level.dat"];
  }
}
