/**
  The restore job on the file system: prepare a copy of the saved world, swap it in with two
  renames, copy the configuration files, and roll back on failure.  The handler runs after the
  lock was released.
 */
module WorldRestore {
  import opened Wrappers
  import opened FileTree
  import opened WorldArchive
  import opened DiskOps

  datatype RestoreStatus =
    | Pending | Running | ValidatingBackup | StoppingServer | Extracting | ValidatingRestore
    | Swapping | StartingServer | Completed | Failed | RolledBack

  const RESTORED_FILES: seq<string> :=
    ["server.properties", "allowlist.json", "permissions.json", "valid_known_packs.json",
     "world_behavior_packs.json", "world_resource_packs.json", "eula.txt", "ops.json",
     "banned-players.json", "banned-ips.json", "whitelist.json"]

  // ---------------------------------------------------------------------------
  // The paths of one restore job
  // ---------------------------------------------------------------------------

  function RuntimeDir(dir: Path): Path { dir + ["runtime"] }

  function TmpPath(dir: Path, id: string): Path { dir + ["runtime", "tmp", "restore", id] }

  function RollbackRoot(dir: Path, id: string): Path { dir + ["runtime", "tmp", "rollback", id] }

  function RollbackPath(dir: Path, id: string, active: Path): Path
    requires active != []
  {
    RollbackRoot(dir, id) + [active[|active| - 1]]
  }

  function FailedPath(active: Path, id: string): Path
    requires active != []
  {
    Parent(active) + [active[|active| - 1] + ".failed-restore-" + id]
  }

  /** Job ids are UUIDs, printed with 36 characters. */
  predicate IsUuid(id: string) {
    |id| == 36
  }

  /** A world path one or two components below the server directory, clear of the other paths. */
  ghost predicate WorldPath(dir: Path, active: Path) {
    && |dir| < |active| <= |dir| + 2 && dir <= active
    && active[|dir|] != "runtime" && active[|dir|] !in RESTORED_FILES
  }

  lemma ApartAt(a: Path, b: Path, k: nat)
    requires k < |a| && k < |b| && a[k] != b[k]
    ensures Unrelated(a, b)
  {
  }

  /** The job's own paths never meet the world. */
  lemma Geometry(dir: Path, id: string, active: Path)
    requires WorldPath(dir, active)
    ensures Unrelated(active, RuntimeDir(dir))
    ensures Unrelated(active, TmpPath(dir, id)) && Unrelated(active, RollbackRoot(dir, id))
    ensures Unrelated(active, RollbackPath(dir, id, active)) && Unrelated(active, FailedPath(active, id))
    ensures Unrelated(RollbackPath(dir, id, active), TmpPath(dir, id))
    ensures Unrelated(RollbackPath(dir, id, active), FailedPath(active, id))
    ensures Unrelated(RollbackRoot(dir, id), TmpPath(dir, id))
    ensures forall f :: f in RESTORED_FILES ==> Unrelated(dir + [f], active) && Unrelated(dir + [f], RuntimeDir(dir))
  {
    var n := |dir|;
    var rollback, failed := RollbackPath(dir, id, active), FailedPath(active, id);
    ApartAt(active, RuntimeDir(dir), n);
    ApartAt(active, TmpPath(dir, id), n);
    ApartAt(active, RollbackRoot(dir, id), n);
    ApartAt(active, rollback, n);
    ApartAt(active, failed, |active| - 1);
    ApartAt(rollback, TmpPath(dir, id), n + 2);
    ApartAt(RollbackRoot(dir, id), TmpPath(dir, id), n + 2);
    assert |active| == n + 1 ==> |failed[n]| > 7;
    assert |active| == n + 2 ==> failed[n] == active[n];
    ApartAt(rollback, failed, n);
    forall f | f in RESTORED_FILES ensures Unrelated(dir + [f], active) && Unrelated(dir + [f], RuntimeDir(dir)) {
      ApartAt(dir + [f], active, n);
      assert f != "runtime";
      ApartAt(dir + [f], RuntimeDir(dir), n);
    }
  }

  /** Nobody used this job id before: a job is submitted once. */
  ghost predicate Fresh(fs: Tree, dir: Path, id: string) {
    && (forall q :: TmpPath(dir, id) <= q ==> q !in fs)
    && (forall q :: RollbackRoot(dir, id) <= q ==> q !in fs)
  }

  /** The places the configuration files go to are free or hold files. */
  ghost predicate ConfigsArePlain(fs: Tree, dir: Path) {
    forall f :: f in RESTORED_FILES && dir + [f] in fs ==> IsFile(fs, dir + [f])
  }

  // ---------------------------------------------------------------------------
  // What must survive
  // ---------------------------------------------------------------------------

  /** The original world is whole, in place or at the rollback path. */
  ghost predicate Kept(fs: Tree, active: Path, rollback: Path, w: Tree) {
    Holds(fs, active, w) || Holds(fs, rollback, w)
  }

  ghost predicate KeptSince(trail: seq<Tree>, n: int, active: Path, rollback: Path, w: Tree) {
    forall i :: 0 <= n <= i < |trail| ==> Kept(trail[i], active, rollback, w)
  }

  /** Nothing is at or below a path. */
  ghost predicate Absent(fs: Tree, p: Path) {
    forall q :: p <= q ==> q !in fs
  }

  /** The server directory after the saved world was swapped in and the files were copied. */
  function WithConfigs(fs: Tree, dir: Path, prefix: string, unpacked: Tree, names: seq<string>): Tree {
    if names == [] then fs
    else
      var rest := WithConfigs(fs, dir, prefix, unpacked, names[..|names| - 1]);
      var f := names[|names| - 1];
      if IsFile(unpacked, [prefix, f]) then rest[dir + [f] := unpacked[[prefix, f]]] else rest
  }

  ghost function RestoredTree(fs: Tree, dir: Path, active: Path, java: bool, unpacked: Tree): Tree {
    WithConfigs(Graft(fs, active, Subtree(unpacked, WorldRoot(java))), dir, Prefix(java), unpacked, RESTORED_FILES)
  }

  /** The statuses that a restore commits up to the swap, in order. */
  const PHASES: seq<RestoreStatus> := [Running, ValidatingBackup, StoppingServer, Extracting, ValidatingRestore, Swapping]

  function AllPhases(restart: bool): seq<RestoreStatus> {
    PHASES + (if restart then [StartingServer] else []) + [Completed]
  }

  /** The first `k` phases were committed. */
  predicate Through(history: seq<RestoreStatus>, k: nat) {
    k <= |PHASES| && history == PHASES[..k]
  }

  /** The phases were committed in order, as far as the job got. */
  predicate InOrder(history: seq<RestoreStatus>, restart: bool) {
    history <= AllPhases(restart)
  }

  predicate IsPhase(k: nat, status: RestoreStatus) {
    k < |PHASES| && PHASES[k] == status
  }

  lemma PhasesAre()
    ensures Through([], 0)
    ensures IsPhase(0, Running) && IsPhase(1, ValidatingBackup) && IsPhase(2, StoppingServer)
    ensures IsPhase(3, Extracting) && IsPhase(4, ValidatingRestore) && IsPhase(5, Swapping)
  {
  }

  lemma NextPhase(h: seq<RestoreStatus>, k: nat, next: RestoreStatus, restart: bool)
    requires Through(h, k)
    ensures InOrder(h, restart)
    ensures IsPhase(k, next) ==> Through(h + [next], k + 1) && InOrder(h + [next], restart)
  {
    assert AllPhases(restart)[..|PHASES|] == PHASES;
    assert PHASES[..k] <= PHASES <= AllPhases(restart);
    assert k < |PHASES| ==> PHASES[..k + 1] == PHASES[..k] + [PHASES[k]] && PHASES[..k + 1] <= PHASES;
  }

  lemma PhasesEnd(h: seq<RestoreStatus>, restart: bool)
    requires Through(h, 6)
    ensures InOrder(h, restart)
    ensures restart ==> InOrder(h + [StartingServer], restart) && h + [StartingServer] + [Completed] == AllPhases(true)
    ensures !restart ==> h + [Completed] == AllPhases(false)
    ensures InOrder(AllPhases(restart), restart)
  {
    assert PHASES[..6] == PHASES;
  }

  class RestoreJob {
    const id: string
    const rollbackEnabled: bool
    const restartAfterRestore: bool
    var status: RestoreStatus
    var committed: RestoreStatus
    var up: bool                              // the server runs
    ghost var history: seq<RestoreStatus>     // the committed statuses
    ghost var stumbles: nat                   // commits and calls that raised

    constructor (id: string, rollbackEnabled: bool, restartAfterRestore: bool, up: bool)
      ensures this.id == id && this.rollbackEnabled == rollbackEnabled
      ensures this.restartAfterRestore == restartAfterRestore
      ensures status == Pending && committed == Pending && this.up == up && history == [] && stumbles == 0
    {
      this.id := id;
      this.rollbackEnabled := rollbackEnabled;
      this.restartAfterRestore := restartAfterRestore;
      status, committed, this.up, history, stumbles := Pending, Pending, up, [], 0;
    }

    /** Sets the status and commits it; the commit may raise. */
    method Update(next: RestoreStatus) returns (ok: bool)
      modifies this`status, this`committed, this`history, this`stumbles
      ensures status == next
      ensures history == if ok then old(history) + [next] else old(history)
      ensures committed == if ok then next else old(committed)
      ensures stumbles == old(stumbles) + if ok then 0 else 1
    {
      status := next;
      ok := MayRaise();
      if ok {
        committed := next;
        history := history + [next];
      }
    }

    /** Commits the next phase, number `k`. */
    method Advance(k: nat, next: RestoreStatus) returns (ok: bool)
      requires Through(history, k) && IsPhase(k, next)
      modifies this`status, this`committed, this`history, this`stumbles
      ensures status == next && (committed != Completed || committed == old(committed))
      ensures stumbles == old(stumbles) + if ok then 0 else 1
      ensures Through(history, if ok then k + 1 else k) && InOrder(history, restartAfterRestore)
    {
      NextPhase(history, k, next, restartAfterRestore);
      assert next != Completed;
      ok := Update(next);
    }

    /** Stopping the server; a call that raises may have stopped it. */
    method StopServer() returns (ok: bool)
      modifies this`up, this`stumbles
      ensures stumbles == old(stumbles) + if ok then 0 else 1
      ensures ok ==> !up
      ensures up ==> old(up)
    {
      ok := MayRaise();
      var down: bool := *;
      if ok || down {
        up := false;
      }
    }

    /** Starting the server; a call that raises may have started it. */
    method StartServer() returns (ok: bool)
      modifies this`up, this`stumbles
      ensures stumbles == old(stumbles) + if ok then 0 else 1
      ensures ok ==> up
      ensures old(up) ==> up
    {
      ok := MayRaise();
      var started: bool := *;
      if ok || started {
        up := true;
      }
    }

    /** A step that touches no modelled file: a query, a runtime call, a commit of other columns. */
    method MayRaise() returns (ok: bool)
      modifies this`stumbles
      ensures stumbles == old(stumbles) + if ok then 0 else 1
    {
      ok := *;
      if !ok {
        stumbles := stumbles + 1;
      }
    }
  }

  // ---------------------------------------------------------------------------
  // The phases of the job
  // ---------------------------------------------------------------------------

  lemma UnpackedNext(archive: Archive, i: nat)
    requires i < |archive|
    ensures Unpacked(archive[..i + 1]) == Unpack(Unpacked(archive[..i]), archive[i])
  {
    assert archive[..i + 1][..i] == archive[..i];
  }

  lemma ExtractStep(fs: Tree, target: Path, archive: Archive, i: nat)
    requires i < |archive| && Holds(fs, target, Unpacked(archive[..i]))
    ensures Holds(Graft(fs, target, Unpack(Subtree(fs, target), archive[i])), target, Unpacked(archive[..i + 1]))
  {
    hide *;
    HoldsUnique(fs, target, Unpacked(archive[..i]));
    UnpackedNext(archive, i);
  }

  lemma SameOutsideRefl(a: Tree, root: Path)
    ensures SameOutside(a, a, root)
  {
  }

  lemma SameOutsideTrans(a: Tree, b: Tree, c: Tree, root: Path)
    requires SameOutside(a, b, root) && SameOutside(b, c, root)
    ensures SameOutside(a, c, root)
  {
  }

  /** Unpacks the archive below a new target, member by member. */
  method ExtractSafely(disk: Disk, archive: Archive, target: Path) returns (ok: bool)
    requires Holds(disk.tree, target, Unpacked([]))
    modifies disk
    ensures ok ==> SafeArchive(archive) && UnpacksCleanly(archive) && Holds(disk.tree, target, Unpacked(archive))
    ensures disk.faults >= old(disk.faults)
    ensures SafeArchive(archive) && UnpacksCleanly(archive) && disk.faults == old(disk.faults) ==> ok
    ensures SameOutside(old(disk.tree), disk.tree, target)
    ensures old(disk.trail) <= disk.trail
    ensures StaysOutside(old(disk.tree), disk.trail, |old(disk.trail)|, target)
  {
    ok := ValidateArchiveMembers(archive);
    if ok {
      ok := ExtractAll(disk, archive, target);
    }
  }

  /** The first `i` members unpack without a clash. */
  ghost predicate CleanUpTo(archive: Archive, i: nat)
    requires i <= |archive|
  {
    forall k :: 0 <= k < i ==> !Clashes(Unpacked(archive[..k]), archive[k])
  }

  lemma CleanStep(fs: Tree, target: Path, archive: Archive, i: nat)
    requires i < |archive| && Holds(fs, target, Unpacked(archive[..i]))
    ensures CleanUpTo(archive, 0)
    ensures CleanUpTo(archive, i) && !Clashes(Subtree(fs, target), archive[i]) ==> CleanUpTo(archive, i + 1)
    ensures UnpacksCleanly(archive) ==> !Clashes(Subtree(fs, target), archive[i])
  {
    hide Clashes, Unpacked, Holds, Subtree;
    HoldsUnique(fs, target, Unpacked(archive[..i]));
  }

  lemma CleanAll(archive: Archive)
    ensures CleanUpTo(archive, 0)
    ensures CleanUpTo(archive, |archive|) <==> UnpacksCleanly(archive)
  {
    hide Clashes, Unpacked;
  }

  method ExtractAll(disk: Disk, archive: Archive, target: Path) returns (ok: bool)
    requires Holds(disk.tree, target, Unpacked([]))
    modifies disk
    ensures ok ==> UnpacksCleanly(archive) && Holds(disk.tree, target, Unpacked(archive))
    ensures disk.faults >= old(disk.faults)
    ensures UnpacksCleanly(archive) && disk.faults == old(disk.faults) ==> ok
    ensures SameOutside(old(disk.tree), disk.tree, target)
    ensures old(disk.trail) <= disk.trail
    ensures StaysOutside(old(disk.tree), disk.trail, |old(disk.trail)|, target)
  {
    hide *;
    var i := 0;
    assert archive[..0] == [];
    SameOutsideRefl(disk.tree, target);
    CleanAll(archive);
    StaysSoFar(disk.tree, disk.trail, target);
    ok := true;
    while i < |archive| && ok
      invariant 0 <= i <= |archive|
      invariant ok ==> Holds(disk.tree, target, Unpacked(archive[..i])) && CleanUpTo(archive, i)
      invariant disk.faults >= old(disk.faults)
      invariant UnpacksCleanly(archive) && disk.faults == old(disk.faults) ==> ok
      invariant SameOutside(old(disk.tree), disk.tree, target)
      invariant old(disk.trail) <= disk.trail
      invariant StaysOutside(old(disk.tree), disk.trail, |old(disk.trail)|, target)
      decreases |archive| - i, ok
    {
      ghost var before, steps := disk.tree, disk.trail;
      ExtractStep(before, target, archive, i);
      CleanStep(before, target, archive, i);
      ok := disk.ExtractMember(target, archive[i]);
      SameOutsideTrans(old(disk.tree), before, disk.tree, target);
      StaysMore(old(disk.tree), steps, disk.tree, |old(disk.trail)|, target);
      i := i + 1;
    }
    assert ok ==> archive[..i] == archive;
  }

  ghost predicate AncestorsExist(fs: Tree, dir: Path) {
    forall k :: 0 <= k <= |dir| ==> IsFolder(fs, dir[..k])
  }

  lemma MakeDirsStaysInside(fs: Tree, dir: Path, p: Path)
    requires AncestorsExist(fs, dir) && RuntimeDir(dir) <= p
    ensures SameOutside(fs, fs + MissingFolders(fs, p), RuntimeDir(dir))
  {
    forall k | 0 <= k <= |dir| ensures p[..k] in fs {
      assert p[..k] == dir[..k];
    }
    forall k | |dir| < k <= |p| ensures RuntimeDir(dir) <= p[..k] {
      assert p[..k][..|dir| + 1] == p[..|dir| + 1] == RuntimeDir(dir);
    }
  }

  lemma AncestorsStay(a: Tree, b: Tree, dir: Path)
    requires AncestorsExist(a, dir) && SameOutside(a, b, RuntimeDir(dir))
    ensures AncestorsExist(b, dir)
  {
  }

  /** Making a folder that nothing was below yields an empty one. */
  lemma NewFolder(fs: Tree, p: Path)
    requires Absent(fs, p)
    ensures Holds(fs + MissingFolders(fs, p), p, Unpacked([]))
    ensures IsFolder(fs + MissingFolders(fs, p), p)
  {
    assert p[..|p|] == p && p + [] == p && p <= p;
    forall q ensures q in Unpacked([]) <==> p + q in fs + MissingFolders(fs, p) {
      assert p <= p + q;
    }
  }

  lemma UntouchedAbsent(a: Tree, b: Tree, p: Path)
    requires Untouched(a, b, p) && Absent(a, p)
    ensures Absent(b, p)
  {
  }

  lemma SameOutsideMono(a: Tree, b: Tree, inner: Path, outer: Path)
    requires SameOutside(a, b, inner) && outer <= inner
    ensures SameOutside(a, b, outer)
  {
    forall q | !(outer <= q) && (q in a || q in b) ensures !(inner <= q) {
      if |inner| <= |q| {
        assert q[..|inner|][..|outer|] == q[..|outer|];
      }
    }
  }

  /** Removes what is left of an earlier run and makes a new folder below the runtime folder. */
  method RecreateDir(disk: Disk, dir: Path, p: Path) returns (ok: bool)
    requires AncestorsExist(disk.tree, dir) && RuntimeDir(dir) <= p && Absent(disk.tree, p)
    modifies disk
    ensures ok ==> Holds(disk.tree, p, Unpacked([])) && IsFolder(disk.tree, p)
    ensures ok ==> CanMakeDirs(old(disk.tree), p) && disk.tree == old(disk.tree) + MissingFolders(old(disk.tree), p)
    ensures disk.faults >= old(disk.faults)
    ensures CanMakeDirs(old(disk.tree), p) && disk.faults == old(disk.faults) ==> ok
    ensures SameOutside(old(disk.tree), disk.tree, RuntimeDir(dir))
    ensures AncestorsExist(disk.tree, dir)
    ensures forall other :: !(other <= p) ==> Untouched(old(disk.tree), disk.tree, other)
    ensures old(disk.trail) <= disk.trail
    ensures StaysOutside(old(disk.tree), disk.trail, |old(disk.trail)|, RuntimeDir(dir))
  {
    ghost var start := disk.tree;
    assert p <= p;
    var _ := disk.RemoveTree(p);
    assert disk.tree == start;
    MakeDirsStaysInside(start, dir, p);
    NewFolder(start, p);
    SameOutsideRefl(start, RuntimeDir(dir));
    hide *;
    ok := disk.MakeDirs(p);
    AncestorsStay(start, disk.tree, dir);
  }

  lemma JobPathsAbsent(fs: Tree, dir: Path, id: string, active: Path)
    requires WorldPath(dir, active) && Fresh(fs, dir, id)
    ensures Absent(fs, TmpPath(dir, id)) && Absent(fs, RollbackRoot(dir, id)) && Absent(fs, RollbackPath(dir, id, active))
    ensures RuntimeDir(dir) <= TmpPath(dir, id) && RuntimeDir(dir) <= RollbackRoot(dir, id)
    ensures !(RollbackPath(dir, id, active) <= RollbackRoot(dir, id))
    ensures !(RollbackPath(dir, id, active) <= TmpPath(dir, id))
    ensures !(TmpPath(dir, id) <= RollbackRoot(dir, id)) && !(RollbackRoot(dir, id) <= TmpPath(dir, id))
  {
    Geometry(dir, id, active);
    AbsentBelow(fs, RollbackRoot(dir, id), RollbackPath(dir, id, active));
  }

  lemma AbsentBelow(fs: Tree, root: Path, p: Path)
    requires Absent(fs, root) && root <= p
    ensures Absent(fs, p)
  {
    forall q | q in fs ensures !(p <= q) {
      if |p| <= |q| {
        assert q[..|p|][..|root|] == q[..|root|];
      }
    }
  }

  /** The checks before any file is touched. */
  method CheckJob(job: RestoreJob, archive: Archive) returns (ok: bool)
    requires Through(job.history, 0)
    modifies job
    ensures job.committed != Completed || job.committed == old(job.committed)
    ensures job.stumbles >= old(job.stumbles)
    ensures ok ==> SafeArchive(archive) && !job.up && Through(job.history, 3)
    ensures SafeArchive(archive) && job.stumbles == old(job.stumbles) ==> ok
    ensures InOrder(job.history, job.restartAfterRestore) && (job.up ==> old(job.up))
  {
    PhasesAre();
    hide Through, InOrder;
    ok := job.Advance(0, Running);
    if !ok { return; }
    ok := job.MayRaise();
    if !ok { return; }
    ok := job.Advance(1, ValidatingBackup);
    if !ok { return; }
    ok := ValidateArchiveMembers(archive);
    if !ok { return; }
    ok := job.MayRaise();
    if !ok { return; }
    ok := job.Advance(2, StoppingServer);
    if !ok { return; }
    if job.up {
      ok := job.StopServer();
    }
  }

  /** Up to now only the runtime folder has changed. */
  ghost predicate OnlyRuntime(start: Tree, now: Tree, trail: seq<Tree>, from: nat, dir: Path) {
    SameOutside(start, now, RuntimeDir(dir)) && StaysOutside(start, trail, from, RuntimeDir(dir))
  }

  lemma OnlyRuntimeRefl(start: Tree, trail: seq<Tree>, dir: Path)
    ensures OnlyRuntime(start, start, trail, |trail|, dir)
  {
  }

  lemma OnlyRuntimeMore(start: Tree, mid: Tree, a: seq<Tree>, now: Tree, b: seq<Tree>, from: nat, inner: Path, dir: Path)
    requires OnlyRuntime(start, mid, a, from, dir) && a <= b && RuntimeDir(dir) <= inner
    requires SameOutside(mid, now, inner) && StaysOutside(mid, b, |a|, inner)
    ensures OnlyRuntime(start, now, b, from, dir)
  {
    OutsideAll(start, mid, now, b, |a|, inner, RuntimeDir(dir));
    StaysJoin(start, a, b, from, RuntimeDir(dir));
  }

  lemma OnlyRuntimeMeans(start: Tree, now: Tree, trail: seq<Tree>, from: nat, dir: Path)
    requires OnlyRuntime(start, now, trail, from, dir)
    ensures SameOutside(start, now, RuntimeDir(dir)) && StaysOutside(start, trail, from, RuntimeDir(dir))
    ensures AncestorsExist(start, dir) ==> AncestorsExist(now, dir)
  {
  }

  /** The folder for the job's own copy. */
  method MakeTmp(disk: Disk, dir: Path, id: string, active: Path, ghost start: Tree, ghost from: nat) returns (ok: bool)
    requires WorldPath(dir, active) && active != [] && AncestorsExist(disk.tree, dir) && Fresh(disk.tree, dir, id)
    requires OnlyRuntime(start, disk.tree, disk.trail, from, dir)
    modifies disk
    ensures OnlyRuntime(start, disk.tree, disk.trail, from, dir) && old(disk.trail) <= disk.trail
    ensures Absent(disk.tree, RollbackRoot(dir, id)) && Absent(disk.tree, RollbackPath(dir, id, active))
    ensures ok ==> Holds(disk.tree, TmpPath(dir, id), Unpacked([]))
    ensures disk.faults >= old(disk.faults)
    ensures ok ==> CanMakeDirs(old(disk.tree), TmpPath(dir, id))
    ensures CanMakeDirs(old(disk.tree), TmpPath(dir, id)) && disk.faults == old(disk.faults) ==> ok
    ensures ok ==> (CanMakeDirs(disk.tree, RollbackRoot(dir, id)) <==> CanMakeDirs(old(disk.tree), RollbackRoot(dir, id)))
  {
    ghost var before, steps := disk.tree, disk.trail;
    JobPathsAbsent(before, dir, id, active);
    hide *;
    ok := RecreateDir(disk, dir, TmpPath(dir, id));
    UntouchedAbsent(before, disk.tree, RollbackRoot(dir, id));
    UntouchedAbsent(before, disk.tree, RollbackPath(dir, id, active));
    OnlyRuntimeMore(start, before, steps, disk.tree, disk.trail, from, RuntimeDir(dir), dir);
    if ok {
      SameOutsideRefl(disk.tree, TmpPath(dir, id));
      RootDirsStay(before, disk.tree, disk.tree, dir, id);
    }
  }

  /** Unpacks the archive into it. */
  method FillTmp(disk: Disk, archive: Archive, dir: Path, id: string, active: Path, java: bool, ghost start: Tree,
                 ghost from: nat) returns (ok: bool)
    requires WorldPath(dir, active) && active != [] && Holds(disk.tree, TmpPath(dir, id), Unpacked([]))
    requires Absent(disk.tree, RollbackRoot(dir, id)) && Absent(disk.tree, RollbackPath(dir, id, active))
    requires OnlyRuntime(start, disk.tree, disk.trail, from, dir)
    modifies disk
    ensures OnlyRuntime(start, disk.tree, disk.trail, from, dir) && old(disk.trail) <= disk.trail
    ensures Absent(disk.tree, RollbackRoot(dir, id)) && Absent(disk.tree, RollbackPath(dir, id, active))
    ensures ok ==> Holds(disk.tree, TmpPath(dir, id), Unpacked(archive))
    ensures ok ==> IsFolder(disk.tree, TmpPath(dir, id) + WorldRoot(java))
    ensures disk.faults >= old(disk.faults)
    ensures ok ==> HasWorld(archive, java)
    ensures HasWorld(archive, java) && disk.faults == old(disk.faults) ==> ok
    ensures CanMakeDirs(disk.tree, RollbackRoot(dir, id)) <==> CanMakeDirs(old(disk.tree), RollbackRoot(dir, id))
  {
    var tmp := TmpPath(dir, id);
    ghost var before, steps := disk.tree, disk.trail;
    ghost var back, root := RollbackPath(dir, id, active), RollbackRoot(dir, id);
    Geometry(dir, id, active);
    JobFolderBelow(dir, id);
    hide *;
    ok := ExtractSafely(disk, archive, tmp);
    OutsideUntouched(before, disk.tree, tmp, back);
    UntouchedAbsent(before, disk.tree, back);
    OutsideUntouched(before, disk.tree, tmp, root);
    UntouchedAbsent(before, disk.tree, root);
    OnlyRuntimeMore(start, before, steps, disk.tree, disk.trail, from, tmp, dir);
    RootDirsApart(before, disk.tree, dir, id);
    if ok {
      FolderIn(disk.tree, tmp, Unpacked(archive), WorldRoot(java));
      ok := IsFolder(disk.tree, tmp + WorldRoot(java));
    }
    HasWorldMeans(archive, java);
  }

  lemma JobFolderBelow(dir: Path, id: string)
    ensures RuntimeDir(dir) <= TmpPath(dir, id) && RuntimeDir(dir) <= RollbackRoot(dir, id)
  {
  }

  /** A restore can take a world from the archive. */
  ghost predicate HasWorld(archive: Archive, java: bool) {
    SafeArchive(archive) && UnpacksCleanly(archive) && IsFolder(Unpacked(archive), WorldRoot(java))
  }

  lemma HasWorldMeans(archive: Archive, java: bool)
    ensures HasWorld(archive, java) <==>
              SafeArchive(archive) && UnpacksCleanly(archive) && IsFolder(Unpacked(archive), WorldRoot(java))
  {
  }

  lemma FolderIn(fs: Tree, root: Path, e: Tree, q: Path)
    requires Holds(fs, root, e)
    ensures IsFolder(fs, root + q) <==> IsFolder(e, q)
  {
  }

  /** Neither making the copy's folder nor unpacking decides whether the rollback folder can be made. */
  lemma RootDirsStay(start: Tree, made: Tree, now: Tree, dir: Path, id: string)
    requires made == start + MissingFolders(start, TmpPath(dir, id)) && SameOutside(made, now, TmpPath(dir, id))
    ensures CanMakeDirs(now, RollbackRoot(dir, id)) <==> CanMakeDirs(start, RollbackRoot(dir, id))
  {
    RootDirsApart(made, now, dir, id);
  }

  lemma RootDirsApart(a: Tree, b: Tree, dir: Path, id: string)
    requires SameOutside(a, b, TmpPath(dir, id))
    ensures CanMakeDirs(b, RollbackRoot(dir, id)) <==> CanMakeDirs(a, RollbackRoot(dir, id))
  {
    var tmp, root := TmpPath(dir, id), RollbackRoot(dir, id);
    ApartAt(tmp, root, |dir| + 2);
    forall k | 0 <= k <= |root| ensures !(tmp <= root[..k]) {
      AboveStaysAbove(tmp, root[..k], root);
    }
  }

  /** The folder for the old world. */
  method MakeRollbackRoot(disk: Disk, ghost archive: Archive, dir: Path, id: string, active: Path, java: bool,
                          ghost start: Tree, ghost from: nat) returns (ok: bool)
    requires WorldPath(dir, active) && active != [] && AncestorsExist(disk.tree, dir)
    requires Absent(disk.tree, RollbackRoot(dir, id)) && Absent(disk.tree, RollbackPath(dir, id, active))
    requires Holds(disk.tree, TmpPath(dir, id), Unpacked(archive))
    requires IsFolder(disk.tree, TmpPath(dir, id) + WorldRoot(java))
    requires OnlyRuntime(start, disk.tree, disk.trail, from, dir)
    modifies disk
    ensures OnlyRuntime(start, disk.tree, disk.trail, from, dir) && old(disk.trail) <= disk.trail
    ensures Absent(disk.tree, RollbackPath(dir, id, active))
    ensures Holds(disk.tree, TmpPath(dir, id), Unpacked(archive))
    ensures IsFolder(disk.tree, TmpPath(dir, id) + WorldRoot(java))
    ensures ok ==> IsFolder(disk.tree, RollbackRoot(dir, id)) && CanMakeDirs(old(disk.tree), RollbackRoot(dir, id))
    ensures disk.faults >= old(disk.faults)
    ensures CanMakeDirs(old(disk.tree), RollbackRoot(dir, id)) && disk.faults == old(disk.faults) ==> ok
  {
    ghost var before, steps := disk.tree, disk.trail;
    ghost var tmp, back := TmpPath(dir, id), RollbackPath(dir, id, active);
    RootApart(dir, id, active);
    JobFolderBelow(dir, id);
    hide *;
    ok := RecreateDir(disk, dir, RollbackRoot(dir, id));
    UntouchedAbsent(before, disk.tree, back);
    UntouchedHolds(before, disk.tree, tmp, Unpacked(archive));
    FolderStays(before, disk.tree, tmp, WorldRoot(java));
    OnlyRuntimeMore(start, before, steps, disk.tree, disk.trail, from, RuntimeDir(dir), dir);
  }

  lemma RootApart(dir: Path, id: string, active: Path)
    requires WorldPath(dir, active) && active != []
    ensures var root := RollbackRoot(dir, id);
            RuntimeDir(dir) <= root && !(RollbackPath(dir, id, active) <= root) && !(TmpPath(dir, id) <= root)
  {
    Geometry(dir, id, active);
  }

  /** The extracting phase. */
  method UnpackCopy(disk: Disk, job: RestoreJob, archive: Archive, dir: Path, active: Path, java: bool, ghost start: Tree,
                    ghost from: nat) returns (ok: bool)
    requires WorldPath(dir, active) && active != [] && AncestorsExist(disk.tree, dir) && Fresh(disk.tree, dir, job.id)
    requires OnlyRuntime(start, disk.tree, disk.trail, from, dir) && Through(job.history, 3)
    modifies disk, job
    ensures InOrder(job.history, job.restartAfterRestore) && job.up == old(job.up) && (ok ==> Through(job.history, 4))
    ensures OnlyRuntime(start, disk.tree, disk.trail, from, dir) && old(disk.trail) <= disk.trail
    ensures Absent(disk.tree, RollbackRoot(dir, job.id)) && Absent(disk.tree, RollbackPath(dir, job.id, active))
    ensures ok ==> Holds(disk.tree, TmpPath(dir, job.id), Unpacked(archive))
    ensures ok ==> IsFolder(disk.tree, TmpPath(dir, job.id) + WorldRoot(java))
    ensures job.committed != Completed || job.committed == old(job.committed)
    ensures disk.faults >= old(disk.faults) && job.stumbles >= old(job.stumbles)
    ensures ok ==> HasWorld(archive, java) && CanMakeDirs(old(disk.tree), TmpPath(dir, job.id))
    ensures (HasWorld(archive, java) && CanMakeDirs(old(disk.tree), TmpPath(dir, job.id))
             && disk.faults == old(disk.faults) && job.stumbles == old(job.stumbles)) ==> ok
    ensures ok ==> (CanMakeDirs(disk.tree, RollbackRoot(dir, job.id))
                    <==> CanMakeDirs(old(disk.tree), RollbackRoot(dir, job.id)))
  {
    PhasesAre();
    NextPhase(job.history, 3, Extracting, job.restartAfterRestore);
    hide *;
    ok := MakeTmp(disk, dir, job.id, active, start, from);
    if !ok { return; }
    ok := job.Advance(3, Extracting);
    if !ok { return; }
    ok := FillTmp(disk, archive, dir, job.id, active, java, start, from);
  }

  /** What is left before the swap; from here on the handler knows the rollback path. */
  method MakeReady(disk: Disk, job: RestoreJob, ghost archive: Archive, dir: Path, active: Path, java: bool,
                   ghost start: Tree, ghost from: nat) returns (ok: bool, rollback: Option<Path>)
    requires WorldPath(dir, active) && active != [] && AncestorsExist(disk.tree, dir) && Through(job.history, 4)
    requires Absent(disk.tree, RollbackRoot(dir, job.id)) && Absent(disk.tree, RollbackPath(dir, job.id, active))
    requires Holds(disk.tree, TmpPath(dir, job.id), Unpacked(archive))
    requires IsFolder(disk.tree, TmpPath(dir, job.id) + WorldRoot(java))
    requires OnlyRuntime(start, disk.tree, disk.trail, from, dir)
    modifies disk, job
    ensures InOrder(job.history, job.restartAfterRestore) && job.up == old(job.up) && (ok ==> Through(job.history, 6))
    ensures OnlyRuntime(start, disk.tree, disk.trail, from, dir) && old(disk.trail) <= disk.trail
    ensures rollback.Some? ==> rollback.value == RollbackPath(dir, job.id, active)
    ensures Absent(disk.tree, RollbackPath(dir, job.id, active))
    ensures Holds(disk.tree, TmpPath(dir, job.id), Unpacked(archive))
    ensures IsFolder(disk.tree, TmpPath(dir, job.id) + WorldRoot(java))
    ensures ok ==> rollback.Some? && IsFolder(disk.tree, RollbackRoot(dir, job.id))
    ensures job.committed != Completed || job.committed == old(job.committed)
    ensures disk.faults >= old(disk.faults) && job.stumbles >= old(job.stumbles)
    ensures ok ==> CanMakeDirs(old(disk.tree), RollbackRoot(dir, job.id))
    ensures (CanMakeDirs(old(disk.tree), RollbackRoot(dir, job.id))
             && disk.faults == old(disk.faults) && job.stumbles == old(job.stumbles)) ==> ok
  {
    PhasesAre();
    hide *;
    rollback := None;
    ok := job.Advance(4, ValidatingRestore);
    if !ok { return; }
    rollback := Some(RollbackPath(dir, job.id, active));
    ok := MakeRollbackRoot(disk, archive, dir, job.id, active, java, start, from);
    if !ok { return; }
    ok := job.MayRaise();
    if !ok { return; }
    ok := job.Advance(5, Swapping);
  }

  /** Everything before the swap happens below the runtime folder. */
  method Prepare(disk: Disk, job: RestoreJob, archive: Archive, dir: Path, active: Path, java: bool)
    returns (ok: bool, rollback: Option<Path>)
    requires WorldPath(dir, active) && active != [] && AncestorsExist(disk.tree, dir) && Fresh(disk.tree, dir, job.id)
    requires Through(job.history, 0)
    modifies disk, job
    ensures InOrder(job.history, job.restartAfterRestore) && (job.up ==> old(job.up))
    ensures ok ==> !job.up && Through(job.history, 6)
    ensures OnlyRuntime(old(disk.tree), disk.tree, disk.trail, |old(disk.trail)|, dir) && old(disk.trail) <= disk.trail
    ensures rollback.Some? ==> rollback.value == RollbackPath(dir, job.id, active)
    ensures Absent(disk.tree, RollbackPath(dir, job.id, active))
    ensures ok ==> rollback.Some? && IsFolder(disk.tree, RollbackRoot(dir, job.id))
    ensures ok ==> Holds(disk.tree, TmpPath(dir, job.id), Unpacked(archive))
    ensures ok ==> IsFolder(disk.tree, TmpPath(dir, job.id) + WorldRoot(java))
    ensures job.committed != Completed || job.committed == old(job.committed)
    ensures disk.faults >= old(disk.faults) && job.stumbles >= old(job.stumbles)
    ensures ok ==> HasWorld(archive, java) && FoldersCanBeMade(old(disk.tree), dir, job.id)
    ensures (HasWorld(archive, java) && FoldersCanBeMade(old(disk.tree), dir, job.id)
             && disk.faults == old(disk.faults) && job.stumbles == old(job.stumbles)) ==> ok
  {
    rollback := None;
    ghost var start, from := disk.tree, |disk.trail|;
    JobPathsAbsent(start, dir, job.id, active);
    OnlyRuntimeRefl(start, disk.trail, dir);
    HasWorldMeans(archive, java);
    FoldersMeans(start, dir, job.id);
    PhasesAre();
    hide *;
    ok := CheckJob(job, archive);
    if !ok { return; }
    ok := UnpackCopy(disk, job, archive, dir, active, java, start, from);
    if !ok { return; }
    OnlyRuntimeMeans(start, disk.tree, disk.trail, from, dir);
    ok, rollback := MakeReady(disk, job, archive, dir, active, java, start, from);
  }

  /** Neither a file nor a link is in the way of the job's two folders. */
  predicate FoldersCanBeMade(fs: Tree, dir: Path, id: string) {
    CanMakeDirs(fs, TmpPath(dir, id)) && CanMakeDirs(fs, RollbackRoot(dir, id))
  }

  lemma FoldersMeans(fs: Tree, dir: Path, id: string)
    ensures FoldersCanBeMade(fs, dir, id) <==> CanMakeDirs(fs, TmpPath(dir, id)) && CanMakeDirs(fs, RollbackRoot(dir, id))
  {
  }

  lemma FolderStays(a: Tree, b: Tree, root: Path, q: Path)
    requires Untouched(a, b, root) && IsFolder(a, root + q)
    ensures IsFolder(b, root + q)
  {
    assert root <= root + q;
  }

  /** No state since `from` differs from the first one outside `root`. */
  ghost predicate StaysOutside(start: Tree, trail: seq<Tree>, from: nat, root: Path) {
    from <= |trail| && forall i :: from <= i < |trail| ==> SameOutside(start, trail[i], root)
  }

  lemma StaysSoFar(start: Tree, trail: seq<Tree>, root: Path)
    ensures StaysOutside(start, trail, |trail|, root)
  {
  }

  /** What stays outside in one phase and in the next stays outside in both. */
  lemma StaysJoin(start: Tree, a: seq<Tree>, b: seq<Tree>, from: nat, root: Path)
    requires StaysOutside(start, a, from, root) && a <= b && StaysOutside(start, b, |a|, root)
    ensures StaysOutside(start, b, from, root)
  {
    hide SameOutside;
    assert forall i :: from <= i < |a| ==> b[i] == a[i];
  }

  lemma StaysMore(start: Tree, a: seq<Tree>, now: Tree, from: nat, root: Path)
    requires StaysOutside(start, a, from, root) && SameOutside(start, now, root)
    ensures StaysOutside(start, a + [now], from, root)
  {
    hide SameOutside;
  }

  /** Chains what one phase left outside a path with what the phases before it left. */
  lemma OutsideAll(start: Tree, mid: Tree, now: Tree, trail: seq<Tree>, from: nat, inner: Path, outer: Path)
    requires SameOutside(start, mid, outer) && SameOutside(mid, now, inner) && outer <= inner
    requires StaysOutside(mid, trail, from, inner)
    ensures SameOutside(start, now, outer)
    ensures StaysOutside(start, trail, from, outer)
  {
    hide SameOutside;
    SameOutsideMono(mid, now, inner, outer);
    SameOutsideTrans(start, mid, now, outer);
    forall i | from <= i < |trail| ensures SameOutside(start, trail[i], outer) {
      SameOutsideMono(mid, trail[i], inner, outer);
      SameOutsideTrans(start, mid, trail[i], outer);
    }
  }

  // ---------------------------------------------------------------------------
  // The swap
  // ---------------------------------------------------------------------------

  /** After the swap failed, the original is back in place or whole at the rollback path. */
  ghost predicate SwapUndone(fs: Tree, active: Path, rollback: Path, w: Tree) {
    || (Holds(fs, active, w) && Absent(fs, rollback))
    || (Holds(fs, rollback, w) && Absent(fs, active))
  }

  lemma ExistsAt(fs: Tree, p: Path, w: Tree)
    requires Holds(fs, p, w)
    ensures p in fs <==> [] in w
    ensures p in fs ==> fs[p] == w[[]]
  {
    assert p + [] == p;
  }

  /** The trees agree away from the three places a swap touches. */
  ghost predicate SameBeyond(a: Tree, b: Tree, x: Path, y: Path, z: Path) {
    forall p :: !(x <= p) && !(y <= p) && !(z <= p) ==> (p in a <==> p in b) && (p in a ==> a[p] == b[p])
  }

  lemma SameBeyondRefl(a: Tree, x: Path, y: Path, z: Path)
    ensures SameBeyond(a, a, x, y, z)
  {
  }

  lemma SameBeyondTrans(a: Tree, b: Tree, c: Tree, x: Path, y: Path, z: Path)
    requires SameBeyond(a, b, x, y, z) && SameBeyond(b, c, x, y, z)
    ensures SameBeyond(a, c, x, y, z)
  {
  }

  /** What a rename between two of those places does. */
  lemma ReplaceEffect(a: Tree, b: Tree, src: Path, dst: Path, w: Tree, third: Path)
    requires b == Rename(a, src, dst) && Holds(a, src, w)
    requires Unrelated(src, dst) && Unrelated(src, third) && Unrelated(dst, third)
    ensures Holds(b, dst, w) && Absent(b, src) && Untouched(a, b, third)
    ensures SameBeyond(a, b, src, dst, third) && SameBeyond(a, b, dst, src, third) && SameBeyond(a, b, dst, third, src)
  {
    RenameMoves(a, src, dst, w);
    RenameElsewhere(a, b, src, dst, third);
  }

  lemma RenameElsewhere(a: Tree, b: Tree, src: Path, dst: Path, third: Path)
    requires forall p :: !(src <= p) && !(dst <= p) ==> (p in a <==> p in b) && (p in a ==> a[p] == b[p])
    requires Unrelated(src, third) && Unrelated(dst, third)
    ensures Untouched(a, b, third)
  {
    forall q | third <= q && (q in a || q in b) ensures (q in a <==> q in b) && (q in a ==> a[q] == b[q]) {
      ApartBelow(src, third, q);
      ApartBelow(dst, third, q);
    }
  }

  /** The first rename, when there is a world to move aside. */
  method MoveAside(disk: Disk, active: Path, rollback: Path, restored: Path) returns (ok: bool)
    requires Unrelated(active, rollback) && Unrelated(active, restored) && Unrelated(rollback, restored)
    requires Exists(disk.tree, active) && Absent(disk.tree, rollback)
    modifies disk
    ensures disk.trail == old(disk.trail) + [disk.tree]
    ensures var w := Subtree(old(disk.tree), active);
            if ok then Holds(disk.tree, rollback, w) && Absent(disk.tree, active) else disk.tree == old(disk.tree)
    ensures Untouched(old(disk.tree), disk.tree, restored)
    ensures SameBeyond(old(disk.tree), disk.tree, active, rollback, restored)
    ensures disk.faults >= old(disk.faults)
    ensures rollback != [] && IsFolder(old(disk.tree), Parent(rollback)) && disk.faults == old(disk.faults) ==> ok
  {
    ghost var start := disk.tree;
    assert rollback <= rollback;
    ok := disk.Replace(active, rollback);
    if ok {
      ReplaceEffect(start, disk.tree, active, rollback, Subtree(start, active), restored);
    }
  }

  /** The inner handler: takes the first rename back. */
  method TakeBack(disk: Disk, active: Path, rollback: Path, restored: Path, ghost w: Tree)
    requires Unrelated(active, rollback) && Unrelated(active, restored) && Unrelated(rollback, restored)
    requires Holds(disk.tree, rollback, w) && Absent(disk.tree, active)
    modifies disk
    ensures disk.trail == old(disk.trail) + [disk.tree]
    ensures SwapUndone(disk.tree, active, rollback, w)
    ensures SameBeyond(old(disk.tree), disk.tree, active, rollback, restored)
    ensures disk.faults >= old(disk.faults)
    ensures (active != [] && IsFolder(old(disk.tree), Parent(active)) && Exists(old(disk.tree), rollback)
             && disk.faults == old(disk.faults)) ==> Holds(disk.tree, active, w)
  {
    ghost var start := disk.tree;
    assert active <= active;
    var back := disk.Replace(rollback, active);
    if back {
      ReplaceEffect(start, disk.tree, rollback, active, w, restored);
    }
  }

  /** The restored world can be renamed into a free place. */
  predicate PlaceReady(fs: Tree, active: Path, restored: Path) {
    active != [] && IsFolder(fs, Parent(active)) && IsFolder(fs, restored)
  }

  /** The second rename on its own. */
  method PutInPlace(disk: Disk, active: Path, rollback: Path, restored: Path) returns (ok: bool)
    requires Unrelated(active, rollback) && Unrelated(active, restored) && Unrelated(rollback, restored)
    modifies disk
    ensures disk.trail == old(disk.trail) + [disk.tree]
    ensures if ok then Holds(disk.tree, active, Subtree(old(disk.tree), restored)) else disk.tree == old(disk.tree)
    ensures Untouched(old(disk.tree), disk.tree, rollback)
    ensures SameBeyond(old(disk.tree), disk.tree, active, rollback, restored)
    ensures disk.faults >= old(disk.faults)
    ensures ok && IsFolder(old(disk.tree), restored) ==> NoLinkAt(old(disk.tree), active)
    ensures PlaceReady(old(disk.tree), active, restored) && active !in old(disk.tree) && disk.faults == old(disk.faults) ==> ok
  {
    ghost var start := disk.tree;
    ok := disk.Replace(restored, active);
    if ok {
      ReplaceEffect(start, disk.tree, restored, active, Subtree(start, restored), rollback);
    }
  }

  /** The second rename; when it raises, the inner handler takes the first one back. */
  method MoveIn(disk: Disk, active: Path, rollback: Path, restored: Path, ghost w: Tree, ghost had: bool) returns (ok: bool)
    requires Unrelated(active, rollback) && Unrelated(active, restored) && Unrelated(rollback, restored)
    requires had ==> Holds(disk.tree, rollback, w) && Exists(disk.tree, rollback) && Absent(disk.tree, active)
    requires !had ==> Absent(disk.tree, rollback)
    modifies disk
    ensures old(disk.trail) <= disk.trail
    ensures had ==> KeptSince(disk.trail, |old(disk.trail)|, active, rollback, w)
    ensures ok ==> Holds(disk.tree, active, Subtree(old(disk.tree), restored))
    ensures ok && had ==> Holds(disk.tree, rollback, w)
    ensures !ok && had ==> SwapUndone(disk.tree, active, rollback, w)
    ensures !had ==> Absent(disk.tree, rollback)
    ensures SameBeyond(old(disk.tree), disk.tree, active, rollback, restored)
    ensures disk.faults >= old(disk.faults)
    ensures ok && IsFolder(old(disk.tree), restored) ==> NoLinkAt(old(disk.tree), active)
    ensures PlaceReady(old(disk.tree), active, restored) && active !in old(disk.tree) && disk.faults == old(disk.faults) ==> ok
    ensures (!ok && had && PlaceReady(old(disk.tree), active, restored) && disk.faults <= old(disk.faults) + 1) ==>
              Holds(disk.tree, active, w)
  {
    ghost var start, faults := disk.tree, disk.faults;
    assert PlaceReady(start, active, restored) ==> active != [] && IsFolder(start, Parent(active));
    hide Holds, Subtree, Untouched, SameBeyond, Unrelated, Absent, PlaceReady;
    if had {
      AbsentHere(start, active);
    }
    ok := PutInPlace(disk, active, rollback, restored);
    if had {
      UntouchedHolds(start, disk.tree, rollback, w);
    } else {
      UntouchedAbsent(start, disk.tree, rollback);
    }
    if !ok && Exists(disk.tree, rollback) && !Exists(disk.tree, active) {
      ExistsAbsent(disk.tree, rollback);
      TakeBack(disk, active, rollback, restored, w);
    }
  }

  lemma ExistsAbsent(fs: Tree, p: Path)
    requires Exists(fs, p)
    ensures !Absent(fs, p)
  {
    assert p <= p;
  }

  /** After the first rename the original is at the rollback path; when it raised, still in place. */
  lemma AsideEffect(start: Tree, now: Tree, active: Path, rollback: Path, restored: Path, ok: bool)
    requires Exists(start, active) && Absent(start, rollback) && Untouched(start, now, restored)
    requires if ok then Holds(now, rollback, Subtree(start, active)) && Absent(now, active) else now == start
    ensures ok ==> Exists(now, rollback)
    ensures !ok ==> SwapUndone(now, active, rollback, Subtree(start, active))
    ensures Kept(now, active, rollback, Subtree(start, active))
    ensures Subtree(now, restored) == Subtree(start, restored)
  {
    hide Holds, Subtree, Untouched, Absent;
    ExistsAt(start, active, Subtree(start, active));
    if ok {
      ExistsAt(now, rollback, Subtree(start, active));
    }
    UntouchedHolds(start, now, restored, Subtree(start, restored));
    HoldsUnique(now, restored, Subtree(start, restored));
  }

  lemma KeptThen(a: seq<Tree>, mid: Tree, b: seq<Tree>, active: Path, rollback: Path, w: Tree)
    requires a + [mid] <= b && Kept(mid, active, rollback, w) && KeptSince(b, |a| + 1, active, rollback, w)
    ensures a <= b && KeptSince(b, |a|, active, rollback, w)
  {
    hide Kept;
    assert b[|a|] == (a + [mid])[|a|] == mid;
    assert a == (a + [mid])[..|a|] == b[..|a|];
  }

  lemma KeptNow(a: seq<Tree>, mid: Tree, active: Path, rollback: Path, w: Tree)
    requires Kept(mid, active, rollback, w)
    ensures KeptSince(a + [mid], |a|, active, rollback, w)
  {
    hide Kept;
  }

  /** The two renames of the swap can succeed. */
  predicate SwapReady(fs: Tree, active: Path, rollback: Path, restored: Path) {
    NoLinkAt(fs, active) && PlaceReady(fs, active, restored) && rollback != [] && IsFolder(fs, Parent(rollback))
  }

  lemma SwapReadyMeans(fs: Tree, active: Path, rollback: Path, restored: Path)
    ensures SwapReady(fs, active, rollback, restored) ==>
              && NoLinkAt(fs, active) && PlaceReady(fs, active, restored) && rollback != [] && IsFolder(fs, Parent(rollback))
    ensures Exists(fs, active) ==> NoLinkAt(fs, active)
    ensures NoLinkAt(fs, active) && !Exists(fs, active) ==> active !in fs
  {
  }

  lemma PlaceStays(a: Tree, b: Tree, active: Path, rollback: Path, restored: Path, ok: bool)
    requires SameBeyond(a, b, active, rollback, restored) && Untouched(a, b, restored)
    requires Unrelated(active, rollback) && Unrelated(active, restored)
    requires if ok then Absent(b, active) else b == a
    ensures SwapReady(a, active, rollback, restored) ==> PlaceReady(b, active, restored)
    ensures IsFolder(a, restored) ==> IsFolder(b, restored)
    ensures ok ==> active !in b
  {
    assert restored <= restored && active <= active;
  }

  /** The two renames of the swap. */
  method SwapWorlds(disk: Disk, active: Path, rollback: Path, restored: Path) returns (ok: bool)
    requires Unrelated(active, rollback) && Unrelated(active, restored) && Unrelated(rollback, restored)
    requires Absent(disk.tree, rollback)
    modifies disk
    ensures old(disk.trail) <= disk.trail
    ensures var w, had := Subtree(old(disk.tree), active), Exists(old(disk.tree), active);
            && (had ==> KeptSince(disk.trail, |old(disk.trail)|, active, rollback, w))
            && (ok && had ==> Holds(disk.tree, rollback, w))
            && (!ok && had ==> SwapUndone(disk.tree, active, rollback, w))
            && (!had ==> Absent(disk.tree, rollback))
    ensures ok ==> Holds(disk.tree, active, Subtree(old(disk.tree), restored))
    ensures SameBeyond(old(disk.tree), disk.tree, active, rollback, restored)
    ensures disk.faults >= old(disk.faults)
    ensures ok && IsFolder(old(disk.tree), restored) ==> NoLinkAt(old(disk.tree), active)
    ensures SwapReady(old(disk.tree), active, rollback, restored) && disk.faults == old(disk.faults) ==> ok
    ensures !ok && SwapReady(old(disk.tree), active, rollback, restored) && disk.faults <= old(disk.faults) + 1 ==>
              var w := Subtree(old(disk.tree), active);
              Exists(old(disk.tree), active) ==> Holds(disk.tree, active, w)
  {
    hide *;
    SwapReadyMeans(disk.tree, active, rollback, restored);
    ghost var start, steps := disk.tree, disk.trail;
    ghost var w := Subtree(start, active);
    var had := Exists(disk.tree, active);
    if had {
      ok := MoveAside(disk, active, rollback, restored);
      ghost var moved := disk.tree;
      AsideEffect(start, moved, active, rollback, restored, ok);
      PlaceStays(start, moved, active, rollback, restored, ok);
      KeptNow(steps, moved, active, rollback, w);
      if ok {
        ok := MoveIn(disk, active, rollback, restored, w, true);
        KeptThen(steps, moved, disk.trail, active, rollback, w);
        SameBeyondTrans(start, moved, disk.tree, active, rollback, restored);
      }
    } else {
      ok := MoveIn(disk, active, rollback, restored, w, false);
    }
  }

  // ---------------------------------------------------------------------------
  // Configuration files
  // ---------------------------------------------------------------------------

  ghost predicate IsConfigPath(dir: Path, p: Path) {
    exists f :: f in RESTORED_FILES && p == dir + [f]
  }

  /** The trees agree away from the configuration files. */
  ghost predicate OnlyConfigs(a: Tree, b: Tree, dir: Path) {
    forall p :: !IsConfigPath(dir, p) ==> (p in a <==> p in b) && (p in a ==> a[p] == b[p])
  }

  /** The unpacked configuration files are as the archive has them. */
  ghost predicate ConfigsUnpacked(fs: Tree, tmp: Path, prefix: string, unpacked: Tree) {
    forall f :: f in RESTORED_FILES ==>
      && (IsFile(fs, tmp + [prefix, f]) <==> IsFile(unpacked, [prefix, f]))
      && (IsFile(fs, tmp + [prefix, f]) ==> fs[tmp + [prefix, f]] == unpacked[[prefix, f]])
  }

  lemma CopyConfigStep(start: Tree, now: Tree, dir: Path, tmp: Path, prefix: string, unpacked: Tree, f: string)
    requires f in RESTORED_FILES && OnlyConfigs(start, now, dir) && ConfigsArePlain(now, dir)
    requires ConfigsUnpacked(start, tmp, prefix, unpacked) && |dir| + 1 < |tmp|
    ensures IsFile(now, tmp + [prefix, f]) <==> IsFile(unpacked, [prefix, f])
    ensures IsFile(now, tmp + [prefix, f]) ==>
              && now[tmp + [prefix, f]] == unpacked[[prefix, f]]
              && OnlyConfigs(start, now[dir + [f] := now[tmp + [prefix, f]]], dir)
              && ConfigsArePlain(now[dir + [f] := now[tmp + [prefix, f]]], dir)
    ensures dir + [f] in now ==> IsFile(now, dir + [f])
  {
    assert !IsConfigPath(dir, tmp + [prefix, f]);
    assert IsConfigPath(dir, dir + [f]);
  }

  lemma WithConfigsNext(fs: Tree, dir: Path, prefix: string, unpacked: Tree, names: seq<string>, i: nat)
    requires i < |names|
    ensures var f, before := names[i], WithConfigs(fs, dir, prefix, unpacked, names[..i]);
      WithConfigs(fs, dir, prefix, unpacked, names[..i + 1])
        == if IsFile(unpacked, [prefix, f]) then before[dir + [f] := unpacked[[prefix, f]]] else before
  {
    assert names[..i + 1][..i] == names[..i];
  }

  lemma OnlyConfigsRefl(fs: Tree, dir: Path)
    ensures OnlyConfigs(fs, fs, dir)
  {
  }

  /** The copying of the listed files got to one of them, or through. */
  ghost predicate CopiedSome(start: Tree, now: Tree, dir: Path, prefix: string, unpacked: Tree, names: seq<string>) {
    exists n :: 0 <= n <= |names| && now == WithConfigs(start, dir, prefix, unpacked, names[..n])
  }

  lemma CopiedTo(start: Tree, now: Tree, dir: Path, prefix: string, unpacked: Tree, names: seq<string>, n: nat)
    requires n <= |names| && now == WithConfigs(start, dir, prefix, unpacked, names[..n])
    ensures CopiedSome(start, now, dir, prefix, unpacked, names)
  {
  }

  /** Copies the unpacked configuration files over those of the server. */
  method CopyConfigs(disk: Disk, dir: Path, tmp: Path, prefix: string, ghost unpacked: Tree) returns (ok: bool)
    requires ConfigsUnpacked(disk.tree, tmp, prefix, unpacked) && ConfigsArePlain(disk.tree, dir) && |dir| + 1 < |tmp|
    modifies disk
    ensures ok ==> disk.tree == WithConfigs(old(disk.tree), dir, prefix, unpacked, RESTORED_FILES)
    ensures CopiedSome(old(disk.tree), disk.tree, dir, prefix, unpacked, RESTORED_FILES)
    ensures disk.faults >= old(disk.faults) && (disk.faults == old(disk.faults) ==> ok)
    ensures OnlyConfigs(old(disk.tree), disk.tree, dir)
    ensures old(disk.trail) <= disk.trail
    ensures forall i :: |old(disk.trail)| <= i < |disk.trail| ==> OnlyConfigs(old(disk.tree), disk.trail[i], dir)
  {
    hide OnlyConfigs, ConfigsUnpacked, ConfigsArePlain, CopiedSome;
    ok := CopyNames(disk, dir, tmp, prefix, RESTORED_FILES, unpacked);
  }

  method CopyNames(disk: Disk, dir: Path, tmp: Path, prefix: string, names: seq<string>, ghost unpacked: Tree)
    returns (ok: bool)
    requires forall i :: 0 <= i < |names| ==> names[i] in RESTORED_FILES
    requires ConfigsUnpacked(disk.tree, tmp, prefix, unpacked) && ConfigsArePlain(disk.tree, dir) && |dir| + 1 < |tmp|
    modifies disk
    ensures ok ==> disk.tree == WithConfigs(old(disk.tree), dir, prefix, unpacked, names)
    ensures CopiedSome(old(disk.tree), disk.tree, dir, prefix, unpacked, names)
    ensures disk.faults >= old(disk.faults) && (disk.faults == old(disk.faults) ==> ok)
    ensures OnlyConfigs(old(disk.tree), disk.tree, dir)
    ensures old(disk.trail) <= disk.trail
    ensures forall i :: |old(disk.trail)| <= i < |disk.trail| ==> OnlyConfigs(old(disk.tree), disk.trail[i], dir)
  {
    ok := true;
    ghost var start := disk.tree;
    assert names[..0] == [] && WithConfigs(start, dir, prefix, unpacked, []) == start;
    hide OnlyConfigs, ConfigsUnpacked, ConfigsArePlain, WithConfigs, CopiedSome;
    OnlyConfigsRefl(start, dir);
    for i := 0 to |names|
      invariant ok && disk.tree == WithConfigs(start, dir, prefix, unpacked, names[..i])
      invariant OnlyConfigs(start, disk.tree, dir) && ConfigsArePlain(disk.tree, dir)
      invariant old(disk.trail) <= disk.trail && disk.faults >= old(disk.faults)
      invariant forall k :: |old(disk.trail)| <= k < |disk.trail| ==> OnlyConfigs(start, disk.trail[k], dir)
    {
      var f := names[i];
      CopyConfigStep(start, disk.tree, dir, tmp, prefix, unpacked, f);
      WithConfigsNext(start, dir, prefix, unpacked, names, i);
      if IsFile(disk.tree, tmp + [prefix, f]) {
        ok := disk.CopyFile(tmp + [prefix, f], dir + [f]);
        if !ok {
          CopiedTo(start, disk.tree, dir, prefix, unpacked, names, i);
          return;
        }
      }
    }
    assert names[..|names|] == names;
    CopiedTo(start, disk.tree, dir, prefix, unpacked, names, |names|);
  }

  // ---------------------------------------------------------------------------
  // Rollback
  // ---------------------------------------------------------------------------

  /** A removal that spares everything at and below `other`. */
  lemma RemovalSpares(a: Tree, b: Tree, p: Path, other: Path)
    requires p != [] && Unrelated(p, other) && !(other <= Parent(p))
    requires forall q :: q in b ==> q in a && b[q] == a[q]
    requires forall q :: q in a && !(p <= q) && q != Parent(p) ==> q in b
    ensures Untouched(a, b, other)
  {
    forall q | other <= q && q in a ensures q in b {
      ApartBelow(p, other, q);
    }
  }

  /** What the handler needs of the three paths of one job. */
  ghost predicate HandlerApart(active: Path, rollback: Path, failed: Path) {
    active != [] && failed != [] && Parent(failed) == Parent(active)
    && Unrelated(active, rollback) && Unrelated(active, failed) && Unrelated(rollback, failed)
    && !(rollback <= Parent(active)) && !(active <= Parent(active)) && !(failed <= Parent(active))
  }

  /** Clearing the failed path spares the folder the world is in and everything elsewhere. */
  lemma ClearSpares(a: Tree, b: Tree, active: Path, rollback: Path, failed: Path)
    requires HandlerApart(active, rollback, failed) && active in a && Untouched(a, b, active)
    requires forall q :: q in b ==> q in a && b[q] == a[q]
    requires forall q :: q in a && !(failed <= q) && q != Parent(failed) ==> q in b
    requires Parent(failed) in a && Parent(failed) !in b ==> forall q :: q in b ==> !(Parent(failed) <= q)
    ensures SameBeyond(a, b, active, rollback, failed)
    ensures IsFolder(a, Parent(active)) ==> IsFolder(b, Parent(active))
  {
    assert active <= active && Parent(active) <= active;
  }

  /**
    Removes what an earlier rollback set aside; the worlds of this job are spared.  A dangling link
    is taken for nothing and stays.
   */
  method ClearFailed(disk: Disk, active: Path, rollback: Path, failed: Path, ghost w: Tree, ghost v: Tree)
    requires HandlerApart(active, rollback, failed) && Exists(disk.tree, active)
    requires Holds(disk.tree, active, v) && Holds(disk.tree, rollback, w)
    modifies disk
    ensures Holds(disk.tree, active, v) && Holds(disk.tree, rollback, w)
    ensures Untouched(old(disk.tree), disk.tree, active)
    ensures old(disk.trail) <= disk.trail
    ensures forall i :: |old(disk.trail)| <= i < |disk.trail| ==> Holds(disk.trail[i], rollback, w)
    ensures disk.faults >= old(disk.faults)
    ensures SameBeyond(old(disk.tree), disk.tree, active, rollback, failed)
    ensures IsFolder(old(disk.tree), Parent(active)) ==> IsFolder(disk.tree, Parent(active))
    ensures disk.faults == old(disk.faults) && NoLinkAt(old(disk.tree), failed) ==> failed !in disk.tree
    ensures !NoLinkAt(old(disk.tree), failed) ==> disk.tree == old(disk.tree)
  {
    ghost var start := disk.tree;
    hide Holds;
    if Exists(disk.tree, failed) {
      var _ := disk.RemoveTree(failed);
      RemovalSpares(start, disk.tree, failed, rollback);
      RemovalSpares(start, disk.tree, failed, active);
      UntouchedHolds(start, disk.tree, rollback, w);
      UntouchedHolds(start, disk.tree, active, v);
      ClearSpares(start, disk.tree, active, rollback, failed);
      assert failed <= failed;
    }
  }

  /** Moves the failed world aside. */
  method SetAside(disk: Disk, active: Path, rollback: Path, failed: Path, ghost w: Tree, ghost v: Tree)
    returns (ok: bool)
    requires HandlerApart(active, rollback, failed) && Exists(disk.tree, active)
    requires Holds(disk.tree, active, v) && Holds(disk.tree, rollback, w)
    modifies disk
    ensures Holds(disk.tree, rollback, w)
    ensures if ok then Holds(disk.tree, failed, v) && Absent(disk.tree, active) else Holds(disk.tree, active, v)
    ensures old(disk.trail) <= disk.trail
    ensures forall i :: |old(disk.trail)| <= i < |disk.trail| ==> Holds(disk.trail[i], rollback, w)
    ensures disk.faults >= old(disk.faults)
    ensures SameBeyond(old(disk.tree), disk.tree, active, rollback, failed)
    ensures disk.faults == old(disk.faults) && IsFolder(old(disk.tree), Parent(active)) && NoLinkAt(old(disk.tree), failed) ==>
              ok && IsFolder(disk.tree, Parent(active))
    ensures ok && IsFolder(old(disk.tree), active) ==> NoLinkAt(old(disk.tree), failed)
  {
    ghost var start := disk.tree;
    hide Holds, Rename, Untouched, SameBeyond, Absent, ReplaceAllowed, HandlerApart, Unrelated;
    ClearFailed(disk, active, rollback, failed, w, v);
    ghost var cleared := disk.tree;
    ClearedHasWorld(start, cleared, active);
    AsideReady(cleared, active, rollback, failed);
    ok := disk.Replace(active, failed);
    if ok {
      SetAsideEffect(cleared, disk.tree, active, rollback, failed, w, v);
      SameBeyondTrans(start, cleared, disk.tree, active, rollback, failed);
      OntoLink(cleared, active, failed);
    }
  }

  lemma ClearedHasWorld(a: Tree, b: Tree, active: Path)
    requires Untouched(a, b, active) && Exists(a, active)
    ensures Exists(b, active)
  {
    assert active <= active;
  }

  lemma AsideReady(fs: Tree, active: Path, rollback: Path, failed: Path)
    requires HandlerApart(active, rollback, failed)
    ensures Exists(fs, active) && IsFolder(fs, Parent(active)) && failed !in fs ==> ReplaceAllowed(fs, active, failed)
  {
  }

  /** A folder is never moved onto a link. */
  lemma OntoLink(fs: Tree, src: Path, dst: Path)
    requires ReplaceAllowed(fs, src, dst)
    ensures IsFolder(fs, src) ==> NoLinkAt(fs, dst)
  {
  }

  lemma SetAsideEffect(a: Tree, b: Tree, active: Path, rollback: Path, failed: Path, w: Tree, v: Tree)
    requires HandlerApart(active, rollback, failed) && b == Rename(a, active, failed)
    requires Holds(a, active, v) && Holds(a, rollback, w)
    ensures Holds(b, failed, v) && Holds(b, rollback, w) && Absent(b, active)
    ensures SameBeyond(a, b, active, rollback, failed)
    ensures IsFolder(a, Parent(active)) ==> IsFolder(b, Parent(active))
  {
    ReplaceEffect(a, b, active, failed, v, rollback);
    UntouchedHolds(a, b, rollback, w);
    RenameMoves(a, active, failed, v);
  }

  /** The renames of the handler can succeed. */
  ghost predicate RollbackReady(fs: Tree, active: Path, rollback: Path, failed: Path)
    requires active != []
  {
    && IsFolder(fs, Parent(active)) && NoLinkAt(fs, failed) && Exists(fs, rollback)
    && (Exists(fs, active) || active !in fs)
  }

  /** The renames of the outer handler. */
  method RollBack(disk: Disk, active: Path, rollback: Path, failed: Path, ghost w: Tree) returns (ok: bool)
    requires HandlerApart(active, rollback, failed) && Holds(disk.tree, rollback, w)
    modifies disk
    ensures if ok then Holds(disk.tree, active, w) else Holds(disk.tree, rollback, w)
    ensures Exists(old(disk.tree), active) ==>
              var v := Subtree(old(disk.tree), active);
              Holds(disk.tree, failed, v) || (!ok && Holds(disk.tree, active, v))
    ensures old(disk.trail) <= disk.trail
    ensures forall i :: |old(disk.trail)| <= i < |disk.trail| ==> Kept(disk.trail[i], active, rollback, w)
    ensures disk.faults >= old(disk.faults)
    ensures SameBeyond(old(disk.tree), disk.tree, active, rollback, failed)
    ensures disk.faults == old(disk.faults) && RollbackReady(old(disk.tree), active, rollback, failed) ==> ok
    ensures ok && IsFolder(old(disk.tree), active) ==> NoLinkAt(old(disk.tree), failed)
  {
    ghost var start := disk.tree;
    ghost var v := Subtree(start, active);
    ExistsAt(start, rollback, w);
    var had := Exists(disk.tree, active);
    hide Holds, Rename, Subtree, Untouched, SameBeyond, Absent, HandlerApart, Unrelated, NoLinkAt;
    if had {
      ok := SetAside(disk, active, rollback, failed, w, v);
      if !ok {
        return;
      }
      ExistsAt(disk.tree, rollback, w);
      AbsentHere(disk.tree, active);
    } else {
      SameBeyondRefl(start, active, rollback, failed);
    }
    ghost var moved := disk.tree;
    BackReady(moved, active, rollback, failed);
    hide ReplaceAllowed;
    ok := disk.Replace(rollback, active);
    if ok {
      RollBackEffect(moved, disk.tree, active, rollback, failed, w);
      SameBeyondTrans(start, moved, disk.tree, active, rollback, failed);
      if had {
        UntouchedHolds(moved, disk.tree, failed, v);
      }
    }
  }

  lemma AbsentHere(fs: Tree, p: Path)
    requires Absent(fs, p)
    ensures p !in fs
  {
    assert p <= p;
  }

  lemma BackReady(fs: Tree, active: Path, rollback: Path, failed: Path)
    requires HandlerApart(active, rollback, failed)
    ensures Exists(fs, rollback) && IsFolder(fs, Parent(active)) && active !in fs ==> ReplaceAllowed(fs, rollback, active)
  {
  }

  lemma RollBackEffect(a: Tree, b: Tree, active: Path, rollback: Path, failed: Path, w: Tree)
    requires HandlerApart(active, rollback, failed) && b == Rename(a, rollback, active) && Holds(a, rollback, w)
    ensures Holds(b, active, w) && Untouched(a, b, failed) && SameBeyond(a, b, active, rollback, failed)
  {
    ReplaceEffect(a, b, rollback, active, w, failed);
  }

  // ---------------------------------------------------------------------------
  // The whole job
  // ---------------------------------------------------------------------------

  /** Where an uncommitted restore leaves the original world. */
  ghost predicate Undecided(fs: Tree, active: Path, rollback: Path, w: Tree) {
    || (Holds(fs, active, w) && Absent(fs, rollback))
    || (Holds(fs, rollback, w) && (Exists(fs, active) || active !in fs))
  }

  /** What a completed restore shows outside its own working folder. */
  ghost predicate RestoredAs(before: Tree, after: Tree, dir: Path, active: Path, java: bool, unpacked: Tree) {
    SameOutside(RestoredTree(before, dir, active, java, unpacked), after, RuntimeDir(dir))
  }

  lemma {:induction false} WithConfigsAt(fs: Tree, dir: Path, prefix: string, unpacked: Tree, names: seq<string>, p: Path)
    ensures (forall f :: f in names ==> p != dir + [f]) ==>
              var r := WithConfigs(fs, dir, prefix, unpacked, names);
              (p in r <==> p in fs) && (p in r ==> r[p] == fs[p])
    ensures forall f :: f in names && p == dir + [f] ==>
              var r := WithConfigs(fs, dir, prefix, unpacked, names);
              if IsFile(unpacked, [prefix, f]) then p in r && r[p] == unpacked[[prefix, f]]
              else (p in r <==> p in fs) && (p in r ==> r[p] == fs[p])
  {
    if names != [] {
      var init, last := names[..|names| - 1], names[|names| - 1];
      WithConfigsAt(fs, dir, prefix, unpacked, init, p);
      assert names == init + [last];
      assert forall f :: dir + [f] == dir + [last] ==> (dir + [f])[|dir|] == last;
      assert forall f :: (dir + [f])[|dir|] == f;
    }
  }

  lemma WorldPathApart(dir: Path, active: Path, q: Path)
    requires WorldPath(dir, active)
    ensures !(RuntimeDir(dir) <= active + q) && !IsConfigPath(dir, active + q) && active <= active + q
  {
    assert (active + q)[|dir|] == active[|dir|];
  }

  /** In the restored server the active path holds the archive's world. */
  lemma RestoredActive(before: Tree, after: Tree, dir: Path, active: Path, java: bool, unpacked: Tree)
    requires WorldPath(dir, active) && RestoredAs(before, after, dir, active, java, unpacked)
    ensures Holds(after, active, Subtree(unpacked, WorldRoot(java)))
  {
    var w := Subtree(unpacked, WorldRoot(java));
    var swapped := Graft(before, active, w);
    hide Graft, Subtree, WorldPath, RuntimeDir;
    forall q ensures (q in w <==> active + q in after) && (q in w ==> after[active + q] == w[q]) {
      WorldPathApart(dir, active, q);
      NoConfigPath(dir, active + q);
      WithConfigsAt(swapped, dir, Prefix(java), unpacked, RESTORED_FILES, active + q);
    }
  }

  lemma NoConfigPath(dir: Path, p: Path)
    requires !IsConfigPath(dir, p)
    ensures forall f :: f in RESTORED_FILES ==> p != dir + [f]
  {
  }

  lemma {:induction false} WithConfigsOutside(a: Tree, b: Tree, root: Path, dir: Path, prefix: string, unpacked: Tree,
                                              names: seq<string>)
    requires SameOutside(a, b, root)
    ensures SameOutside(WithConfigs(a, dir, prefix, unpacked, names), WithConfigs(b, dir, prefix, unpacked, names), root)
  {
    if names != [] {
      WithConfigsOutside(a, b, root, dir, prefix, unpacked, names[..|names| - 1]);
    }
  }

  // ---------------------------------------------------------------------------
  // Everything else
  // ---------------------------------------------------------------------------

  /** A path that is not the job's: outside the runtime folder, the world and the failed path. */
  predicate Elsewhere(dir: Path, id: string, active: Path, p: Path)
    requires active != []
  {
    !(RuntimeDir(dir) <= p) && !(active <= p) && !(FailedPath(active, id) <= p)
  }

  ghost predicate SameElsewhere(a: Tree, b: Tree, dir: Path, id: string, active: Path)
    requires active != []
  {
    forall p :: Elsewhere(dir, id, active, p) ==> SameAt(a, b, p)
  }

  /** Elsewhere, the first `n` of the listed files are as the archive has them, and nothing else has changed. */
  ghost predicate CopiedUpTo(start: Tree, fs: Tree, dir: Path, id: string, active: Path, java: bool, e: Tree, n: nat)
    requires active != [] && n <= |RESTORED_FILES|
  {
    SameElsewhere(WithConfigs(start, dir, Prefix(java), e, RESTORED_FILES[..n]), fs, dir, id, active)
  }

  /** Elsewhere, nothing has changed but the configuration files the copy got to. */
  ghost predicate Framed(start: Tree, fs: Tree, dir: Path, id: string, active: Path, java: bool, e: Tree)
    requires active != []
  {
    exists n :: 0 <= n <= |RESTORED_FILES| && CopiedUpTo(start, fs, dir, id, active, java, e, n)
  }

  lemma OutsideElsewhere(a: Tree, b: Tree, dir: Path, id: string, active: Path)
    requires active != []
    ensures SameOutside(a, b, RuntimeDir(dir)) || SameOutside(a, b, active) ==> SameElsewhere(a, b, dir, id, active)
  {
  }

  lemma BeyondElsewhere(a: Tree, b: Tree, dir: Path, id: string, active: Path, x: Path, y: Path)
    requires active != [] && SameBeyond(a, b, active, x, y) && RuntimeDir(dir) <= x
    requires RuntimeDir(dir) <= y || y == FailedPath(active, id)
    ensures SameElsewhere(a, b, dir, id, active)
  {
    forall p | Elsewhere(dir, id, active, p) ensures SameAt(a, b, p) {
      BelowRuntime(RuntimeDir(dir), x, p);
      if RuntimeDir(dir) <= y {
        BelowRuntime(RuntimeDir(dir), y, p);
      }
    }
  }

  lemma ElsewhereTrans(a: Tree, b: Tree, c: Tree, dir: Path, id: string, active: Path)
    requires active != [] && SameElsewhere(a, b, dir, id, active) && SameElsewhere(b, c, dir, id, active)
    ensures SameElsewhere(a, c, dir, id, active)
  {
    hide Elsewhere;
  }

  lemma {:induction false} ConfigsElsewhere(a: Tree, b: Tree, dir: Path, id: string, active: Path, prefix: string, e: Tree,
                                            names: seq<string>)
    requires active != [] && SameElsewhere(a, b, dir, id, active)
    ensures SameElsewhere(WithConfigs(a, dir, prefix, e, names), WithConfigs(b, dir, prefix, e, names), dir, id, active)
  {
    hide Elsewhere;
    if names != [] {
      ConfigsElsewhere(a, b, dir, id, active, prefix, e, names[..|names| - 1]);
    }
  }

  lemma FramedFromStart(start: Tree, fs: Tree, dir: Path, id: string, active: Path, java: bool, e: Tree)
    requires active != [] && SameElsewhere(start, fs, dir, id, active)
    ensures Framed(start, fs, dir, id, active, java, e)
  {
    hide SameElsewhere;
    assert RESTORED_FILES[..0] == [];
    assert CopiedUpTo(start, fs, dir, id, active, java, e, 0);
  }

  lemma FramedStays(start: Tree, a: Tree, b: Tree, dir: Path, id: string, active: Path, java: bool, e: Tree)
    requires active != [] && Framed(start, a, dir, id, active, java, e) && SameElsewhere(a, b, dir, id, active)
    ensures Framed(start, b, dir, id, active, java, e)
  {
    hide SameElsewhere, WithConfigs;
    var n :| 0 <= n <= |RESTORED_FILES| && CopiedUpTo(start, a, dir, id, active, java, e, n);
    ElsewhereTrans(WithConfigs(start, dir, Prefix(java), e, RESTORED_FILES[..n]), a, b, dir, id, active);
    assert CopiedUpTo(start, b, dir, id, active, java, e, n);
  }

  lemma CopiedFramed(start: Tree, swapped: Tree, now: Tree, dir: Path, id: string, active: Path, java: bool, e: Tree)
    requires active != [] && SameElsewhere(start, swapped, dir, id, active)
    requires CopiedSome(swapped, now, dir, Prefix(java), e, RESTORED_FILES)
    ensures Framed(start, now, dir, id, active, java, e)
  {
    hide SameElsewhere, WithConfigs;
    var n :| 0 <= n <= |RESTORED_FILES| && now == WithConfigs(swapped, dir, Prefix(java), e, RESTORED_FILES[..n]);
    ConfigsElsewhere(start, swapped, dir, id, active, Prefix(java), e, RESTORED_FILES[..n]);
    assert CopiedUpTo(start, now, dir, id, active, java, e, n);
  }

  lemma RestoredFramed(start: Tree, fs: Tree, dir: Path, id: string, active: Path, java: bool, e: Tree)
    requires active != [] && RestoredAs(start, fs, dir, active, java, e)
    ensures Framed(start, fs, dir, id, active, java, e)
  {
    hide SameElsewhere, WithConfigs, SameOutside, Subtree, Graft;
    var installed := Graft(start, active, Subtree(e, WorldRoot(java)));
    OutsideElsewhere(start, installed, dir, id, active);
    assert RESTORED_FILES[..|RESTORED_FILES|] == RESTORED_FILES;
    var copied := WithConfigs(installed, dir, Prefix(java), e, RESTORED_FILES);
    CopiedTo(installed, copied, dir, Prefix(java), e, RESTORED_FILES, |RESTORED_FILES|);
    CopiedFramed(start, installed, copied, dir, id, active, java, e);
    OutsideElsewhere(copied, fs, dir, id, active);
    FramedStays(start, copied, fs, dir, id, active, java, e);
  }

  /**
    Elsewhere, a path differs from before only if it is a configuration file that the archive has
    and that the copy got to; it then has the archive's contents, also after a rollback.
   */
  lemma FramedAt(start: Tree, fs: Tree, dir: Path, id: string, active: Path, java: bool, e: Tree, n: nat, p: Path)
    requires active != [] && n <= |RESTORED_FILES| && CopiedUpTo(start, fs, dir, id, active, java, e, n)
    requires Elsewhere(dir, id, active, p)
    ensures !IsConfigPath(dir, p) ==> SameAt(start, fs, p)
    ensures forall i :: 0 <= i < |RESTORED_FILES| && p == dir + [RESTORED_FILES[i]] ==>
              var f := RESTORED_FILES[i];
              if i < n && IsFile(e, [Prefix(java), f]) then p in fs && fs[p] == e[[Prefix(java), f]] else SameAt(start, fs, p)
  {
    hide Elsewhere, WithConfigs;
    var names := RESTORED_FILES[..n];
    WithConfigsAt(start, dir, Prefix(java), e, names, p);
    assert forall f :: f in names ==> f in RESTORED_FILES;
    if !IsConfigPath(dir, p) {
      NoConfigPath(dir, p);
    }
    forall i | 0 <= i < |RESTORED_FILES| && p == dir + [RESTORED_FILES[i]]
      ensures RESTORED_FILES[i] in names <==> i < n
      ensures forall f :: f in names && p == dir + [f] ==> f == RESTORED_FILES[i]
    {
      FilesDiffer(i, n);
      assert p[|dir|] == RESTORED_FILES[i];
    }
  }

  lemma FilesDiffer(i: nat, n: nat)
    requires i < |RESTORED_FILES| && n <= |RESTORED_FILES|
    ensures RESTORED_FILES[i] in RESTORED_FILES[..n] <==> i < n
  {
    assert forall j, k :: 0 <= j < k < |RESTORED_FILES| ==> RESTORED_FILES[j] != RESTORED_FILES[k];
    assert i < n ==> RESTORED_FILES[..n][i] == RESTORED_FILES[i];
  }

  /** Which of the configuration files a job leaves different: those the copy got to, with new contents. */
  lemma ConfigDiffersIff(start: Tree, fs: Tree, dir: Path, id: string, active: Path, java: bool, e: Tree, n: nat, i: nat)
    requires WorldPath(dir, active) && IsUuid(id) && active != []
    requires n <= |RESTORED_FILES| && CopiedUpTo(start, fs, dir, id, active, java, e, n) && i < |RESTORED_FILES|
    ensures var f := RESTORED_FILES[i];
            !SameAt(start, fs, dir + [f]) <==>
              && i < n && IsFile(e, [Prefix(java), f])
              && !(dir + [f] in start && start[dir + [f]] == e[[Prefix(java), f]])
  {
    ConfigIsElsewhere(dir, id, active, RESTORED_FILES[i]);
    hide Elsewhere, CopiedUpTo, WorldPath;
    FramedAt(start, fs, dir, id, active, java, e, n, dir + [RESTORED_FILES[i]]);
  }

  /** The configuration files are elsewhere. */
  lemma ConfigIsElsewhere(dir: Path, id: string, active: Path, f: string)
    requires WorldPath(dir, active) && IsUuid(id) && f in RESTORED_FILES
    ensures Elsewhere(dir, id, active, dir + [f])
  {
    Geometry(dir, id, active);
    var failed := FailedPath(active, id);
    assert !(failed <= dir + [f]) by {
      assert |failed[|active| - 1]| > 36 && |f| <= 36;
      assert |active| == |dir| + 1 ==> (dir + [f])[|dir|] == f;
    }
  }

  /** The swap puts the saved world where the old one was and changes nothing else outside. */
  lemma SwapOutcome(start: Tree, staged: Tree, swapped: Tree, dir: Path, active: Path, rollback: Path, restored: Path, w: Tree)
    requires SameOutside(start, staged, RuntimeDir(dir)) && SameBeyond(staged, swapped, active, rollback, restored)
    requires RuntimeDir(dir) <= rollback && RuntimeDir(dir) <= restored && Holds(swapped, active, w)
    ensures SameOutside(Graft(start, active, w), swapped, RuntimeDir(dir))
  {
    var runtime, goal := RuntimeDir(dir), Graft(start, active, w);
    forall p | !(runtime <= p)
      ensures (p in goal <==> p in swapped) && (p in goal ==> goal[p] == swapped[p])
    {
      if active <= p {
        SplitPath(active, p);
      } else {
        BelowRuntime(runtime, rollback, p);
        BelowRuntime(runtime, restored, p);
      }
    }
  }

  lemma BelowRuntime(runtime: Path, inner: Path, p: Path)
    requires runtime <= inner && !(runtime <= p)
    ensures !(inner <= p)
  {
    if |inner| <= |p| {
      assert p[..|inner|][..|runtime|] == p[..|runtime|];
    }
  }

  lemma HeldBelow(fs: Tree, root: Path, e: Tree, q: Path, r: Path)
    requires Holds(fs, root, e)
    ensures q + r in e <==> root + q + r in fs
    ensures q + r in e ==> fs[root + q + r] == e[q + r]
  {
    assert root + q + r == root + (q + r);
  }

  lemma SubtreeOfHeld(fs: Tree, root: Path, e: Tree, q: Path)
    requires Holds(fs, root, e)
    ensures Subtree(fs, root + q) == Subtree(e, q)
  {
    var v := Subtree(e, q);
    hide Subtree;
    assert Holds(fs, root + q, v) by {
      forall r ensures (r in v <==> root + q + r in fs) && (r in v ==> fs[root + q + r] == v[r]) {
        HeldBelow(fs, root, e, q, r);
        assert r in v <==> q + r in e;
      }
    }
    HoldsUnique(fs, root + q, v);
  }

  /** The configuration files of the job's copy survive the swap. */
  lemma ConfigStays(staged: Tree, swapped: Tree, dir: Path, id: string, active: Path, java: bool, e: Tree, f: string)
    requires WorldPath(dir, active) && Holds(staged, TmpPath(dir, id), e) && f != "world" && f != "worlds"
    requires SameBeyond(staged, swapped, active, RollbackPath(dir, id, active), TmpPath(dir, id) + WorldRoot(java))
    ensures var p := TmpPath(dir, id) + [Prefix(java), f];
      (p in staged <==> p in swapped) && (p in staged ==> staged[p] == swapped[p])
    ensures TmpPath(dir, id) + [Prefix(java), f] in staged <==> [Prefix(java), f] in e
  {
    var tmp := TmpPath(dir, id);
    Geometry(dir, id, active);
    hide WorldPath, RollbackPath, Prefix;
    var p := tmp + [Prefix(java), f];
    ApartBelow(active, tmp, p);
    ApartBelow(RollbackPath(dir, id, active), tmp, p);
    assert p[|tmp| + 1] == f && (tmp + WorldRoot(java))[|tmp| + 1] != f;
  }

  lemma RestoredFilesAreNoWorlds()
    ensures forall f :: f in RESTORED_FILES ==> f != "world" && f != "worlds"
  {
  }

  lemma ConfigsStay(staged: Tree, swapped: Tree, dir: Path, id: string, active: Path, java: bool, e: Tree)
    requires WorldPath(dir, active) && Holds(staged, TmpPath(dir, id), e)
    requires SameBeyond(staged, swapped, active, RollbackPath(dir, id, active), TmpPath(dir, id) + WorldRoot(java))
    ensures ConfigsUnpacked(swapped, TmpPath(dir, id), Prefix(java), e)
  {
    RestoredFilesAreNoWorlds();
    hide WorldPath, SameBeyond, RollbackPath, TmpPath, Prefix, WorldRoot;
    var tmp := TmpPath(dir, id);
    forall f | f in RESTORED_FILES
      ensures var p := tmp + [Prefix(java), f]; (p in staged <==> p in swapped) && (p in staged ==> staged[p] == swapped[p])
      ensures tmp + [Prefix(java), f] in staged <==> [Prefix(java), f] in e
    {
      ConfigStays(staged, swapped, dir, id, active, java, e, f);
    }
  }

  /** Nothing the preparation did reached the world or the configuration files. */
  lemma StagedWorld(start: Tree, staged: Tree, dir: Path, id: string, active: Path)
    requires WorldPath(dir, active) && SameOutside(start, staged, RuntimeDir(dir))
    ensures SameAt(start, staged, FailedPath(active, id))
    ensures Holds(staged, active, Subtree(start, active)) && Subtree(staged, active) == Subtree(start, active)
    ensures Exists(staged, active) <==> Exists(start, active)
    ensures IsFolder(start, Parent(active)) ==> IsFolder(staged, Parent(active))
    ensures ConfigsArePlain(start, dir) ==> ConfigsArePlain(staged, dir)
  {
    Geometry(dir, id, active);
    OutsideUntouched(start, staged, RuntimeDir(dir), active);
    UntouchedHolds(start, staged, active, Subtree(start, active));
    HoldsUnique(staged, active, Subtree(start, active));
    assert active <= active && !(RuntimeDir(dir) <= Parent(active));
  }

  /** The trees agree on whether the parent of the world exists. */
  lemma ParentStays(staged: Tree, swapped: Tree, dir: Path, id: string, active: Path, restored: Path)
    requires WorldPath(dir, active) && TmpPath(dir, id) <= restored
    requires SameBeyond(staged, swapped, active, RollbackPath(dir, id, active), restored)
    ensures SameAt(staged, swapped, FailedPath(active, id))
    ensures IsFolder(staged, Parent(active)) ==> IsFolder(swapped, Parent(active))
    ensures ConfigsArePlain(staged, dir) ==> ConfigsArePlain(swapped, dir)
  {
    Geometry(dir, id, active);
    forall f | f in RESTORED_FILES ensures dir + [f] in staged <==> dir + [f] in swapped {
    }
  }

  lemma ConfigsSpareNames(dir: Path, id: string, active: Path)
    requires WorldPath(dir, active) && IsUuid(id)
    ensures !IsConfigPath(dir, FailedPath(active, id)) && !IsConfigPath(dir, Parent(active))
  {
    var failed := FailedPath(active, id);
    assert |failed[|active| - 1]| > 36 && forall f :: f in RESTORED_FILES ==> |f| <= 36;
    assert |Parent(active)| == |dir| + 1 ==> Parent(active)[|dir|] == active[|dir|];
  }

  /** Copying configuration files leaves the worlds alone. */
  lemma ConfigsSpare(a: Tree, b: Tree, dir: Path, id: string, active: Path)
    requires WorldPath(dir, active) && OnlyConfigs(a, b, dir) && IsUuid(id)
    ensures SameAt(a, b, FailedPath(active, id))
    ensures Untouched(a, b, active) && Untouched(a, b, RollbackPath(dir, id, active))
    ensures IsFolder(a, Parent(active)) ==> IsFolder(b, Parent(active))
  {
    var back := RollbackPath(dir, id, active);
    ConfigsSpareNames(dir, id, active);
    forall q | active <= q ensures !IsConfigPath(dir, q) {
      assert q[|dir|] == active[|dir|];
    }
    forall q | back <= q ensures !IsConfigPath(dir, q) {
      assert |q| > |dir| + 1;
    }
  }

  lemma RestoredApart(dir: Path, id: string, active: Path, java: bool)
    requires WorldPath(dir, active)
    ensures var restored := TmpPath(dir, id) + WorldRoot(java);
            && Unrelated(active, restored) && Unrelated(RollbackPath(dir, id, active), restored)
            && RuntimeDir(dir) <= restored && TmpPath(dir, id) <= restored
            && RuntimeDir(dir) <= RollbackPath(dir, id, active)
  {
    ApartAt(active, TmpPath(dir, id) + WorldRoot(java), |dir|);
    ApartAt(RollbackPath(dir, id, active), TmpPath(dir, id) + WorldRoot(java), |dir| + 2);
  }

  lemma SwapDecided(fs: Tree, active: Path, back: Path, w: Tree, v: Tree, ok: bool)
    requires !ok ==> SwapUndone(fs, active, back, w)
    requires ok ==> Holds(fs, back, w) && Holds(fs, active, v) && IsFolder(v, [])
    ensures Undecided(fs, active, back, w)
  {
    if ok {
      ExistsAt(fs, active, v);
    }
    assert active <= active;
  }

  /** The state between the preparation and the swap. */
  ghost predicate Staged(start: Tree, fs: Tree, dir: Path, id: string, active: Path, java: bool, e: Tree) {
    && WorldPath(dir, active) && SameOutside(start, fs, RuntimeDir(dir))
    && IsFolder(start, Parent(active)) && ConfigsArePlain(start, dir)
    && Holds(fs, TmpPath(dir, id), e) && IsFolder(e, WorldRoot(java))
    && Absent(fs, RollbackPath(dir, id, active))
  }

  /** The state after the swap. */
  ghost predicate Swapped(start: Tree, fs: Tree, dir: Path, id: string, active: Path, java: bool, e: Tree)
    requires WorldPath(dir, active)
  {
    && SameOutside(Graft(start, active, Subtree(e, WorldRoot(java))), fs, RuntimeDir(dir))
    && ConfigsUnpacked(fs, TmpPath(dir, id), Prefix(java), e) && ConfigsArePlain(fs, dir)
  }

  /** Where the worlds are when the job stops at this point. */
  ghost predicate Located(start: Tree, fs: Tree, dir: Path, id: string, active: Path)
    requires WorldPath(dir, active)
  {
    && IsFolder(fs, Parent(active))
    && (NoLinkAt(start, FailedPath(active, id)) ==> NoLinkAt(fs, FailedPath(active, id)))
    && (if Exists(start, active) then Undecided(fs, active, RollbackPath(dir, id, active), Subtree(start, active))
        else Absent(fs, RollbackPath(dir, id, active)))
  }

  ghost predicate TrailKept(start: Tree, trail: seq<Tree>, from: int, dir: Path, id: string, active: Path)
    requires WorldPath(dir, active)
  {
    Exists(start, active) ==> KeptSince(trail, from, active, RollbackPath(dir, id, active), Subtree(start, active))
  }

  /** The swap, from the staged copy on. */
  method Swap(disk: Disk, dir: Path, id: string, active: Path, java: bool, ghost start: Tree, ghost e: Tree)
    returns (ok: bool)
    requires Staged(start, disk.tree, dir, id, active, java, e)
    modifies disk
    ensures old(disk.trail) <= disk.trail && TrailKept(start, disk.trail, |old(disk.trail)|, dir, id, active)
    ensures Located(start, disk.tree, dir, id, active)
    ensures IsFolder(old(disk.tree), RollbackRoot(dir, id)) ==> IsFolder(disk.tree, RollbackRoot(dir, id))
    ensures ok ==> Swapped(start, disk.tree, dir, id, active, java, e)
    ensures SameElsewhere(start, disk.tree, dir, id, active)
    ensures disk.faults >= old(disk.faults)
    ensures ok ==> NoLinkAt(start, active)
    ensures NoLinkAt(start, active) && IsFolder(old(disk.tree), RollbackRoot(dir, id)) && disk.faults == old(disk.faults) ==> ok
  {
    ghost var staged, w, had := disk.tree, Subtree(start, active), Exists(start, active);
    var tmp, back := TmpPath(dir, id), RollbackPath(dir, id, active);
    var restored := tmp + WorldRoot(java);
    ghost var v := Subtree(e, WorldRoot(java));
    SwapFacts(start, staged, dir, id, active, java, e);
    StagedReady(start, staged, dir, id, active, java, e);
    hide SwapReady, NoLinkAt, Holds, Subtree, SameOutside, SameBeyond, Unrelated, Absent, WorldPath, KeptSince,
         ConfigsUnpacked, ConfigsArePlain, IsFolder, Exists, Graft, TmpPath, RollbackPath, FailedPath, WorldRoot,
         SameElsewhere;
    ok := SwapWorlds(disk, active, back, restored);
    ghost var swapped := disk.tree;
    OutsideElsewhere(start, staged, dir, id, active);
    BeyondElsewhere(staged, swapped, dir, id, active, back, restored);
    ElsewhereTrans(start, staged, swapped, dir, id, active);
    ParentStays(staged, swapped, dir, id, active, restored);
    RootStays(staged, swapped, dir, id, active, restored);
    if had {
      SwapDecided(swapped, active, back, w, v, ok);
    }
    if ok {
      SwapOutcome(start, staged, swapped, dir, active, back, restored, v);
      ConfigsStay(staged, swapped, dir, id, active, java, e);
    }
  }

  /** The renames of a staged job can succeed exactly if no dangling link is where the world goes. */
  lemma StagedReady(start: Tree, staged: Tree, dir: Path, id: string, active: Path, java: bool, e: Tree)
    requires Staged(start, staged, dir, id, active, java, e)
    ensures IsFolder(staged, TmpPath(dir, id) + WorldRoot(java))
    ensures NoLinkAt(staged, active) <==> NoLinkAt(start, active)
    ensures IsFolder(staged, RollbackRoot(dir, id)) && NoLinkAt(start, active) ==>
              SwapReady(staged, active, RollbackPath(dir, id, active), TmpPath(dir, id) + WorldRoot(java))
  {
    StagedWorld(start, staged, dir, id, active);
    FolderIn(staged, TmpPath(dir, id), e, WorldRoot(java));
    JobFolderPaths(dir, id, active);
    hide IsFolder, Holds, TmpPath, RollbackPath, RollbackRoot, WorldRoot, Absent, Subtree;
    Geometry(dir, id, active);
    assert !(RuntimeDir(dir) <= active);
  }

  lemma RootStays(staged: Tree, swapped: Tree, dir: Path, id: string, active: Path, restored: Path)
    requires WorldPath(dir, active) && TmpPath(dir, id) <= restored
    requires SameBeyond(staged, swapped, active, RollbackPath(dir, id, active), restored)
    ensures IsFolder(staged, RollbackRoot(dir, id)) ==> IsFolder(swapped, RollbackRoot(dir, id))
  {
    Geometry(dir, id, active);
    var root := RollbackRoot(dir, id);
    assert !(active <= root) && !(RollbackPath(dir, id, active) <= root);
    assert !(restored <= root) by {
      assert |root| == |TmpPath(dir, id)| && root != TmpPath(dir, id);
      assert restored <= root ==> restored == TmpPath(dir, id) == root;
    }
  }

  lemma RootIsNoConfig(a: Tree, b: Tree, dir: Path, id: string)
    requires OnlyConfigs(a, b, dir)
    ensures IsFolder(a, RollbackRoot(dir, id)) ==> IsFolder(b, RollbackRoot(dir, id))
  {
    assert !IsConfigPath(dir, RollbackRoot(dir, id)) by {
      assert |RollbackRoot(dir, id)| == |dir| + 4;
    }
  }

  lemma SwapFacts(start: Tree, staged: Tree, dir: Path, id: string, active: Path, java: bool, e: Tree)
    requires Staged(start, staged, dir, id, active, java, e)
    ensures var tmp, back := TmpPath(dir, id), RollbackPath(dir, id, active);
            var restored := tmp + WorldRoot(java);
            && Unrelated(active, back) && Unrelated(active, restored) && Unrelated(back, restored)
            && RuntimeDir(dir) <= restored && TmpPath(dir, id) <= restored && RuntimeDir(dir) <= back
            && Subtree(staged, restored) == Subtree(e, WorldRoot(java)) && IsFolder(Subtree(e, WorldRoot(java)), [])
            && Subtree(staged, active) == Subtree(start, active) && (Exists(staged, active) <==> Exists(start, active))
            && IsFolder(staged, Parent(active)) && ConfigsArePlain(staged, dir)
            && SameAt(start, staged, FailedPath(active, id))
  {
    StagedWorld(start, staged, dir, id, active);
    Geometry(dir, id, active);
    RestoredApart(dir, id, active, java);
    SubtreeOfHeld(staged, TmpPath(dir, id), e, WorldRoot(java));
    assert WorldRoot(java) + [] == WorldRoot(java);
  }

  /** The configuration files, after the swap. */
  method Copy(disk: Disk, dir: Path, id: string, active: Path, java: bool, ghost start: Tree, ghost e: Tree)
    returns (ok: bool)
    requires WorldPath(dir, active) && IsUuid(id)
    requires Swapped(start, disk.tree, dir, id, active, java, e) && Located(start, disk.tree, dir, id, active)
    requires SameElsewhere(start, disk.tree, dir, id, active)
    modifies disk
    ensures old(disk.trail) <= disk.trail && TrailKept(start, disk.trail, |old(disk.trail)|, dir, id, active)
    ensures Located(start, disk.tree, dir, id, active)
    ensures IsFolder(old(disk.tree), RollbackRoot(dir, id)) ==> IsFolder(disk.tree, RollbackRoot(dir, id))
    ensures ok ==> RestoredAs(start, disk.tree, dir, active, java, e)
    ensures Framed(start, disk.tree, dir, id, active, java, e)
    ensures disk.faults >= old(disk.faults) && (disk.faults == old(disk.faults) ==> ok)
  {
    ghost var swapped := disk.tree;
    ghost var world := Graft(start, active, Subtree(e, WorldRoot(java)));
    hide CopiedSome, SameElsewhere;
    ok := CopyConfigs(disk, dir, TmpPath(dir, id), Prefix(java), e);
    CopiedFramed(start, swapped, disk.tree, dir, id, active, java, e);
    LocatedStays(start, swapped, disk.tree, dir, id, active);
    RootIsNoConfig(swapped, disk.tree, dir, id);
    forall i | |old(disk.trail)| <= i < |disk.trail| && Exists(start, active)
      ensures Kept(disk.trail[i], active, RollbackPath(dir, id, active), Subtree(start, active))
    {
      LocatedStays(start, swapped, disk.trail[i], dir, id, active);
    }
    WithConfigsOutside(world, swapped, RuntimeDir(dir), dir, Prefix(java), e, RESTORED_FILES);
  }

  lemma LocatedStays(start: Tree, a: Tree, b: Tree, dir: Path, id: string, active: Path)
    requires WorldPath(dir, active) && IsUuid(id) && Located(start, a, dir, id, active) && OnlyConfigs(a, b, dir)
    ensures Located(start, b, dir, id, active)
  {
    var back, w := RollbackPath(dir, id, active), Subtree(start, active);
    ConfigsSpare(a, b, dir, id, active);
    assert active <= active;
    if Exists(start, active) {
      if Holds(a, active, w) && Absent(a, back) {
        UntouchedHolds(a, b, active, w);
        UntouchedAbsent(a, b, back);
      } else {
        UntouchedHolds(a, b, back, w);
      }
    } else {
      UntouchedAbsent(a, b, back);
    }
  }

  /** While only the job's own folders change, the world stays where it is. */
  lemma StagedTrail(start: Tree, staged: Tree, trail: seq<Tree>, from: nat, dir: Path, id: string, active: Path)
    requires WorldPath(dir, active) && IsFolder(start, Parent(active)) && SameOutside(start, staged, RuntimeDir(dir))
    requires Absent(staged, RollbackPath(dir, id, active))
    requires StaysOutside(start, trail, from, RuntimeDir(dir))
    ensures TrailKept(start, trail, from, dir, id, active) && Located(start, staged, dir, id, active)
  {
    StagedWorld(start, staged, dir, id, active);
    forall i | from <= i < |trail| && Exists(start, active)
      ensures Kept(trail[i], active, RollbackPath(dir, id, active), Subtree(start, active))
    {
      StagedWorld(start, trail[i], dir, id, active);
    }
  }

  lemma TrailKeptJoin(start: Tree, a: seq<Tree>, b: seq<Tree>, from: nat, dir: Path, id: string, active: Path)
    requires WorldPath(dir, active) && a <= b && from <= |a|
    requires TrailKept(start, a, from, dir, id, active) && TrailKept(start, b, |a|, dir, id, active)
    ensures TrailKept(start, b, from, dir, id, active)
  {
    forall i | from <= i < |a| ensures a[i] == b[i] {
    }
  }

  /** Removing a folder of the job below the runtime folder. */
  method RemoveJobFolder(disk: Disk, dir: Path, p: Path)
    requires p != [] && RuntimeDir(dir) <= Parent(p)
    modifies disk
    ensures SameOutside(old(disk.tree), disk.tree, RuntimeDir(dir))
    ensures forall keep :: Unrelated(p, keep) && !(keep <= Parent(p)) ==> Untouched(old(disk.tree), disk.tree, keep)
    ensures forall q :: q in disk.tree ==> q in old(disk.tree) && disk.tree[q] == old(disk.tree)[q]
    ensures disk.faults == old(disk.faults) && Exists(old(disk.tree), p) ==> Absent(disk.tree, p)
    ensures disk.trail == old(disk.trail) + [disk.tree]
    ensures disk.faults >= old(disk.faults)
  {
    ghost var before := disk.tree;
    var _ := disk.RemoveTree(p);
    forall keep | Unrelated(p, keep) && !(keep <= Parent(p)) ensures Untouched(before, disk.tree, keep) {
      RemovalSpares(before, disk.tree, p, keep);
    }
    forall q | !(RuntimeDir(dir) <= q) && q in before ensures q in disk.tree {
      BelowRuntime(RuntimeDir(dir), Parent(p), q);
      assert Parent(p)[..|dir| + 1] == p[..|dir| + 1];
      BelowRuntime(RuntimeDir(dir), p, q);
    }
  }

  /** What an attempt has done when it made its completing commit. */
  ghost predicate Installed(start: Tree, fs: Tree, dir: Path, id: string, active: Path, java: bool, archive: Archive)
    requires active != []
  {
    SafeArchive(archive) && IsFolder(Unpacked(archive), WorldRoot(java))
    && RestoredAs(start, fs, dir, active, java, Unpacked(archive))
    && PartOf(fs, RollbackPath(dir, id, active), Subtree(start, active))
  }

  /**
    One attempt, from the first status to the release of the lock.  `watched` is the trail up to
    the completing commit, or all of it when there is none; `quiet` says that no operation failed
    after that commit.
   */
  method TryRestore(disk: Disk, job: RestoreJob, archive: Archive, dir: Path, active: Path, java: bool)
    returns (ok: bool, rollback: Option<Path>, ghost watched: seq<Tree>, ghost quiet: bool)
    requires WorldPath(dir, active) && AncestorsExist(disk.tree, dir) && IsFolder(disk.tree, Parent(active))
    requires Fresh(disk.tree, dir, job.id) && ConfigsArePlain(disk.tree, dir) && job.committed != Completed
    requires IsUuid(job.id)
    requires Through(job.history, 0)
    modifies disk, job
    ensures InOrder(job.history, job.restartAfterRestore) && (job.up ==> old(job.up) || job.restartAfterRestore)
    ensures job.committed == Completed ==> job.up == job.restartAfterRestore && job.history == AllPhases(job.restartAfterRestore)
    ensures rollback.Some? ==> rollback.value == RollbackPath(dir, job.id, active)
    ensures ok ==> job.committed == Completed && job.status == Completed
    ensures old(disk.trail) <= watched <= disk.trail
    ensures TrailKept(old(disk.tree), watched, |old(disk.trail)|, dir, job.id, active)
    ensures job.committed != Completed ==>
              && watched == disk.trail && Located(old(disk.tree), disk.tree, dir, job.id, active)
              && (rollback.None? ==> Absent(disk.tree, RollbackPath(dir, job.id, active)))
    ensures job.committed == Completed ==>
              Installed(old(disk.tree), disk.tree, dir, job.id, active, java, archive) && rollback.Some?
              && (quiet ==> !Exists(disk.tree, RollbackPath(dir, job.id, active)))
    ensures Framed(old(disk.tree), disk.tree, dir, job.id, active, java, Unpacked(archive))
    ensures disk.faults >= old(disk.faults) && job.stumbles >= old(job.stumbles)
    ensures disk.faults == old(disk.faults) ==> quiet
    ensures job.committed == Completed ==> Restorable(old(disk.tree), archive, dir, job.id, active, java)
    ensures (Restorable(old(disk.tree), archive, dir, job.id, active, java)
             && disk.faults == old(disk.faults) && job.stumbles == old(job.stumbles)) ==> ok
  {
    ghost var start, from := disk.tree, |disk.trail|;
    WorldPathNonEmpty(dir, active);
    RestorableMeans(start, archive, dir, job.id, active, java);
    hide *;
    quiet := true;
    ok, rollback := Prepare(disk, job, archive, dir, active, java);
    OnlyRuntimeMeans(start, disk.tree, disk.trail, from, dir);
    HasWorldMeans(archive, java);
    StagedTrail(start, disk.tree, disk.trail, from, dir, job.id, active);
    OutsideElsewhere(start, disk.tree, dir, job.id, active);
    FramedFromStart(start, disk.tree, dir, job.id, active, java, Unpacked(archive));
    watched := disk.trail;
    if !ok {
      return;
    }
    ok, watched, quiet := InstallWorld(disk, job, archive, dir, active, java, start, from);
  }

  /**
    What a caller can check before a restore: the archive is safe, unpacks and has a world folder,
    nothing is in the way of the job's folders, and no dangling link is where the world goes.
   */
  ghost predicate Restorable(fs: Tree, archive: Archive, dir: Path, id: string, active: Path, java: bool) {
    HasWorld(archive, java) && FoldersCanBeMade(fs, dir, id) && NoLinkAt(fs, active)
  }

  lemma RestorableMeans(fs: Tree, archive: Archive, dir: Path, id: string, active: Path, java: bool)
    ensures Restorable(fs, archive, dir, id, active, java) <==>
              HasWorld(archive, java) && FoldersCanBeMade(fs, dir, id) && NoLinkAt(fs, active)
  {
  }

  lemma WorldPathNonEmpty(dir: Path, active: Path)
    requires WorldPath(dir, active)
    ensures active != []
  {
  }

  /** The attempt from the prepared copy on. */
  method InstallWorld(disk: Disk, job: RestoreJob, archive: Archive, dir: Path, active: Path, java: bool,
                      ghost start: Tree, ghost from: nat)
    returns (ok: bool, ghost watched: seq<Tree>, ghost quiet: bool)
    requires WorldPath(dir, active) && active != [] && SameOutside(start, disk.tree, RuntimeDir(dir))
    requires IsFolder(start, Parent(active)) && ConfigsArePlain(start, dir) && IsUuid(job.id)
    requires Holds(disk.tree, TmpPath(dir, job.id), Unpacked(archive)) && SafeArchive(archive)
    requires IsFolder(disk.tree, TmpPath(dir, job.id) + WorldRoot(java)) && IsFolder(disk.tree, RollbackRoot(dir, job.id))
    requires Absent(disk.tree, RollbackPath(dir, job.id, active)) && job.committed != Completed
    requires !job.up && Through(job.history, 6)
    requires from <= |disk.trail| && TrailKept(start, disk.trail, from, dir, job.id, active)
    modifies disk, job
    ensures InOrder(job.history, job.restartAfterRestore) && (job.up ==> job.restartAfterRestore)
    ensures job.committed == Completed ==> job.up == job.restartAfterRestore && job.history == AllPhases(job.restartAfterRestore)
    ensures ok ==> job.committed == Completed && job.status == Completed
    ensures old(disk.trail) <= watched <= disk.trail && TrailKept(start, watched, from, dir, job.id, active)
    ensures job.committed != Completed ==> watched == disk.trail && Located(start, disk.tree, dir, job.id, active)
    ensures job.committed == Completed ==>
              Installed(start, disk.tree, dir, job.id, active, java, archive)
              && (quiet ==> !Exists(disk.tree, RollbackPath(dir, job.id, active)))
    ensures Framed(start, disk.tree, dir, job.id, active, java, Unpacked(archive))
    ensures disk.faults >= old(disk.faults) && job.stumbles >= old(job.stumbles)
    ensures disk.faults == old(disk.faults) ==> quiet
    ensures job.committed == Completed ==> NoLinkAt(start, active)
    ensures NoLinkAt(start, active) && disk.faults == old(disk.faults) && job.stumbles == old(job.stumbles) ==> ok
  {
    PhasesAre();
    hide *;
    NextPhase(job.history, 6, Completed, job.restartAfterRestore);
    ghost var e := Unpacked(archive);
    quiet := true;
    StagedFromPrepare(start, disk.tree, dir, job.id, active, java, e);
    StagedHasWorld(start, disk.tree, dir, job.id, active, java, e);
    ok := SwapThenCopy(disk, dir, job.id, active, java, start, e, from);
    watched := disk.trail;
    if !ok {
      return;
    }
    ok := CommitRestore(job);
    if !ok {
      return;
    }
    LocatedIsPart(start, disk.tree, dir, job.id, active);
    ghost var faults := disk.faults;
    ok := CleanUp(disk, job, dir, job.id, active, start, java, e);
    quiet := disk.faults == faults;
    RestoredFramed(start, disk.tree, dir, job.id, active, java, e);
    IsInstalled(start, disk.tree, dir, job.id, active, java, archive);
  }

  lemma StagedHasWorld(start: Tree, fs: Tree, dir: Path, id: string, active: Path, java: bool, e: Tree)
    requires Staged(start, fs, dir, id, active, java, e)
    ensures IsFolder(e, WorldRoot(java))
  {
  }

  lemma IsInstalled(start: Tree, fs: Tree, dir: Path, id: string, active: Path, java: bool, archive: Archive)
    requires active != [] && SafeArchive(archive) && IsFolder(Unpacked(archive), WorldRoot(java))
    requires RestoredAs(start, fs, dir, active, java, Unpacked(archive))
    requires PartOf(fs, RollbackPath(dir, id, active), Subtree(start, active))
    ensures Installed(start, fs, dir, id, active, java, archive)
  {
  }

  /** The start of the server, if asked for, and the completing commit. */
  method CommitRestore(job: RestoreJob) returns (ok: bool)
    requires job.committed != Completed && !job.up && Through(job.history, 6)
    modifies job
    ensures ok <==> job.committed == Completed
    ensures ok ==> job.status == Completed
    ensures job.stumbles >= old(job.stumbles) && (job.stumbles == old(job.stumbles) ==> ok)
    ensures InOrder(job.history, job.restartAfterRestore) && (job.up ==> job.restartAfterRestore)
    ensures ok ==> job.up == job.restartAfterRestore && job.history == AllPhases(job.restartAfterRestore)
  {
    PhasesEnd(job.history, job.restartAfterRestore);
    hide InOrder, Through, AllPhases;
    if job.restartAfterRestore {
      ok := job.Update(StartingServer);
      if !ok { return; }
      ok := job.StartServer();
      if !ok { return; }
    }
    ok := job.Update(Completed);
  }

  /** The swap followed by the configuration files. */
  method SwapThenCopy(disk: Disk, dir: Path, id: string, active: Path, java: bool, ghost start: Tree, ghost e: Tree,
                      ghost from: nat)
    returns (ok: bool)
    requires Staged(start, disk.tree, dir, id, active, java, e)
    requires WorldPath(dir, active) && active != [] && IsUuid(id)
    requires from <= |disk.trail| && TrailKept(start, disk.trail, from, dir, id, active)
    modifies disk
    ensures old(disk.trail) <= disk.trail && TrailKept(start, disk.trail, from, dir, id, active)
    ensures Located(start, disk.tree, dir, id, active)
    ensures IsFolder(old(disk.tree), RollbackRoot(dir, id)) ==> IsFolder(disk.tree, RollbackRoot(dir, id))
    ensures ok ==> RestoredAs(start, disk.tree, dir, active, java, e)
    ensures Framed(start, disk.tree, dir, id, active, java, e)
    ensures disk.faults >= old(disk.faults)
    ensures ok ==> NoLinkAt(start, active)
    ensures NoLinkAt(start, active) && IsFolder(old(disk.tree), RollbackRoot(dir, id)) && disk.faults == old(disk.faults) ==> ok
  {
    hide *;
    ghost var trail0 := disk.trail;
    ok := Swap(disk, dir, id, active, java, start, e);
    FramedFromStart(start, disk.tree, dir, id, active, java, e);
    TrailKeptJoin(start, trail0, disk.trail, from, dir, id, active);
    if ok {
      ghost var trail1 := disk.trail;
      ok := Copy(disk, dir, id, active, java, start, e);
      TrailKeptJoin(start, trail1, disk.trail, from, dir, id, active);
    }
  }

  lemma StagedFromPrepare(start: Tree, fs: Tree, dir: Path, id: string, active: Path, java: bool, e: Tree)
    requires WorldPath(dir, active) && SameOutside(start, fs, RuntimeDir(dir))
    requires IsFolder(start, Parent(active)) && ConfigsArePlain(start, dir)
    requires Holds(fs, TmpPath(dir, id), e) && IsFolder(fs, TmpPath(dir, id) + WorldRoot(java))
    requires Absent(fs, RollbackPath(dir, id, active))
    ensures Staged(start, fs, dir, id, active, java, e)
  {
  }

  lemma JobFolderPaths(dir: Path, id: string, active: Path)
    requires WorldPath(dir, active)
    ensures active != []
    ensures var back, root := RollbackPath(dir, id, active), RollbackRoot(dir, id);
            && back != [] && root != [] && Parent(back) == root && RuntimeDir(dir) <= Parent(root)
            && Unrelated(root, active) && !(active <= Parent(root))
    ensures var tmp := TmpPath(dir, id);
            && tmp != [] && RuntimeDir(dir) <= Parent(tmp)
            && Unrelated(tmp, active) && !(active <= Parent(tmp))
            && Unrelated(tmp, RollbackPath(dir, id, active)) && !(RollbackPath(dir, id, active) <= Parent(tmp))
  {
    Geometry(dir, id, active);
    ApartAt(active, Parent(RollbackRoot(dir, id)), |dir|);
    ApartAt(active, Parent(TmpPath(dir, id)), |dir|);
  }

  lemma RestoredStays(start: Tree, a: Tree, b: Tree, dir: Path, active: Path, java: bool, e: Tree)
    requires RestoredAs(start, a, dir, active, java, e) && SameOutside(a, b, RuntimeDir(dir))
    ensures RestoredAs(start, b, dir, active, java, e)
  {
    SameOutsideTrans(RestoredTree(start, dir, active, java, e), a, b, RuntimeDir(dir));
  }

  /** What is left at a path is part of a tree. */
  ghost predicate PartOf(fs: Tree, root: Path, w: Tree) {
    forall q :: root + q in fs ==> q in w && fs[root + q] == w[q]
  }

  lemma LocatedIsPart(start: Tree, fs: Tree, dir: Path, id: string, active: Path)
    requires WorldPath(dir, active) && Located(start, fs, dir, id, active)
    ensures PartOf(fs, RollbackPath(dir, id, active), Subtree(start, active))
  {
    var back := RollbackPath(dir, id, active);
    assert forall q :: back <= back + q;
  }

  lemma LessIsPart(a: Tree, b: Tree, root: Path, w: Tree)
    requires PartOf(a, root, w) && forall q :: q in b ==> q in a && b[q] == a[q]
    ensures PartOf(b, root, w)
  {
  }

  lemma FolderExists(fs: Tree, p: Path)
    requires IsFolder(fs, p)
    ensures Exists(fs, p)
  {
  }

  lemma BelowAbsent(fs: Tree, p: Path)
    requires p != [] && Absent(fs, Parent(p))
    ensures !Exists(fs, p)
  {
    assert Parent(p) <= p;
  }

  /**
    After the completing commit: drop the old world and release the lock.  Parts of the old world
    are left only if an operation of the removal failed.
   */
  method CleanUp(disk: Disk, job: RestoreJob, dir: Path, id: string, active: Path, ghost start: Tree, java: bool,
                 ghost e: Tree)
    returns (ok: bool)
    requires WorldPath(dir, active) && RestoredAs(start, disk.tree, dir, active, java, e)
    requires PartOf(disk.tree, RollbackPath(dir, id, active), Subtree(start, active))
    requires IsFolder(disk.tree, RollbackRoot(dir, id))
    modifies disk, job`stumbles
    ensures job.stumbles >= old(job.stumbles) && (job.stumbles == old(job.stumbles) ==> ok)
    ensures RestoredAs(start, disk.tree, dir, active, java, e)
    ensures PartOf(disk.tree, RollbackPath(dir, id, active), Subtree(start, active))
    ensures old(disk.trail) <= disk.trail && disk.faults >= old(disk.faults)
    ensures disk.faults == old(disk.faults) ==> !Exists(disk.tree, RollbackPath(dir, id, active))
  {
    hide *;
    JobFolderPaths(dir, id, active);
    FolderExists(disk.tree, RollbackRoot(dir, id));
    var back := RollbackPath(dir, id, active);
    ghost var before := disk.tree;
    ghost var faults := disk.faults;
    if Exists(disk.tree, back) {
      RemoveJobFolder(disk, dir, Parent(back));
      RestoredStays(start, before, disk.tree, dir, active, java, e);
      LessIsPart(before, disk.tree, back, Subtree(start, active));
      if disk.faults == faults {
        BelowAbsent(disk.tree, back);
      }
    }
    ok := job.MayRaise();
  }

  lemma HandlerPaths(dir: Path, id: string, active: Path)
    requires WorldPath(dir, active)
    ensures active != []
    ensures var back, failed := RollbackPath(dir, id, active), FailedPath(active, id);
            && failed != [] && Parent(failed) == Parent(active)
            && Unrelated(active, back) && Unrelated(active, failed) && Unrelated(back, failed)
            && !(back <= Parent(active)) && !(active <= Parent(active)) && !(failed <= Parent(active))
            && RuntimeDir(dir) <= back
  {
    Geometry(dir, id, active);
  }

  /** The world that was active is set aside, or still in place if the handler failed. */
  ghost predicate FailedAside(before: Tree, after: Tree, active: Path, failed: Path, status: RestoreStatus) {
    var v := Subtree(before, active);
    Holds(after, failed, v) || (!status.RolledBack? && Holds(after, active, v))
  }

  /** What the handler does to the two worlds; `quiet` says that no operation of it failed. */
  ghost predicate HandlerEffect(before: Tree, after: Tree, trail: seq<Tree>, from: nat, dir: Path, id: string, active: Path,
                                rollback: Option<Path>, enabled: bool, quiet: bool, status: RestoreStatus)
    requires WorldPath(dir, active)
  {
    var back, w := RollbackPath(dir, id, active), Subtree(before, RollbackPath(dir, id, active));
    SameElsewhere(before, after, dir, id, active)
    && if enabled && rollback.Some? && Exists(before, back) then
      && (if status.RolledBack? then Holds(after, active, w) else Holds(after, back, w))
      && (Exists(before, active) ==> FailedAside(before, after, active, FailedPath(active, id), status))
      && (forall i :: from <= i < |trail| ==> Kept(trail[i], active, back, w))
      && (quiet && RollbackReady(before, active, back, FailedPath(active, id)) ==> status.RolledBack?)
      && (status.RolledBack? && IsFolder(before, active) ==> NoLinkAt(before, FailedPath(active, id)))
    else status.Failed? && after == before && |trail| == from
  }

  /** The exception handler, after the lock was released. */
  method HandleFailure(disk: Disk, job: RestoreJob, dir: Path, active: Path, rollback: Option<Path>) returns (saved: bool)
    requires WorldPath(dir, active)
    requires rollback.Some? ==> rollback.value == RollbackPath(dir, job.id, active)
    modifies disk, job
    ensures job.up == old(job.up) && (saved || job.stumbles > old(job.stumbles))
    ensures job.history == if saved then old(job.history) + [job.status] else old(job.history)
    ensures HandlerEffect(old(disk.tree), disk.tree, disk.trail, |old(disk.trail)|, dir, job.id, active, rollback,
                          job.rollbackEnabled, disk.faults == old(disk.faults), job.status)
    ensures job.status.RolledBack? || job.status.Failed?
    ensures old(disk.trail) <= disk.trail && disk.faults >= old(disk.faults) && job.stumbles >= old(job.stumbles)
    ensures job.committed in {old(job.committed), RolledBack, Failed}
  {
    HandlerPaths(dir, job.id, active);
    hide Elsewhere, SameBeyond;
    var outcome := Failed;
    ghost var before := disk.tree;
    if job.rollbackEnabled && rollback.Some? && Exists(disk.tree, rollback.value) {
      var failed := FailedPath(active, job.id);
      var ok := RollBack(disk, active, rollback.value, failed, Subtree(disk.tree, rollback.value));
      BeyondElsewhere(before, disk.tree, dir, job.id, active, rollback.value, failed);
      if ok {
        outcome := RolledBack;
      }
    }
    saved := job.Update(outcome);
  }

  // ---------------------------------------------------------------------------
  // The job as submitted
  // ---------------------------------------------------------------------------

  /** A world name is one ordinary path component that none of the other files uses. */
  ghost predicate PlainName(name: string) {
    name !in {"runtime", ".", ".."} && name !in RESTORED_FILES
  }

  lemma ActiveIsWorldPath(fs: Tree, dir: Path, name: string, java: bool)
    requires WellFormed(fs) && IsFolder(fs, dir) && PlainName(name)
    ensures WorldPath(dir, ActiveWorld(fs, dir, name, java))
    ensures IsFolder(fs, Parent(ActiveWorld(fs, dir, name, java)))
    ensures AncestorsExist(fs, dir)
  {
    var active := ActiveWorld(fs, dir, name, java);
    CandidateShapes(dir, name, java);
    assert active in Candidates(dir, name, java) || active == dir + ["world"] || active == dir + ["worlds"];
    forall k | 0 <= k <= |dir| ensures IsFolder(fs, dir[..k]) {
      if k < |dir| {
        PrefixesAreFolders(fs, dir[..k], dir);
      } else {
        assert dir[..k] == dir;
      }
    }
    assert Parent(dir + ["world"]) == dir && Parent(dir + ["worlds"]) == dir;
  }

  lemma CandidateShapes(dir: Path, name: string, java: bool)
    requires PlainName(name)
    ensures forall p :: p in Candidates(dir, name, java) ==> WorldPath(dir, p)
  {
    var c := Candidates(dir, name, java);
    assert "world" !in RESTORED_FILES && "worlds" !in RESTORED_FILES;
    assert Join(dir + ["worlds"], name) == (if name == "" then dir + ["worlds"] else dir + ["worlds", name]);
  }

  /** What the job guarantees about the original world as long as it has not committed completion. */
  ghost predicate OriginalSafe(start: Tree, fs: Tree, dir: Path, id: string, active: Path, status: RestoreStatus,
                               mustRollBack: bool)
    requires WorldPath(dir, active)
  {
    var back, w := RollbackPath(dir, id, active), Subtree(start, active);
    Exists(start, active) ==>
      && Kept(fs, active, back, w)
      && (status.RolledBack? || mustRollBack ==> Holds(fs, active, w))
  }

  /** The handler's outcome, from where the attempt left the worlds. */
  lemma HandlerOutcome(start: Tree, before: Tree, after: Tree, trail: seq<Tree>, from: nat, dir: Path, id: string, active: Path,
                       rollback: Option<Path>, enabled: bool, quiet: bool, status: RestoreStatus)
    requires WorldPath(dir, active) && Located(start, before, dir, id, active)
    requires rollback.None? ==> Absent(before, RollbackPath(dir, id, active))
    requires HandlerEffect(before, after, trail, from, dir, id, active, rollback, enabled, quiet, status)
    ensures TrailKept(start, trail, from, dir, id, active)
    ensures OriginalSafe(start, after, dir, id, active, status, enabled && quiet && NoLinkAt(start, FailedPath(active, id)))
  {
    var back, w := RollbackPath(dir, id, active), Subtree(start, active);
    if Exists(start, active) {
      if Holds(before, back, w) {
        HoldsUnique(before, back, w);
        ExistsAt(before, back, w);
        ExistsAt(start, active, w);
      } else {
        assert back <= back && Absent(before, back);
      }
    }
  }

  lemma SafeStays(start: Tree, a: Tree, b: Tree, dir: Path, id: string, active: Path, status: RestoreStatus, must: bool)
    requires WorldPath(dir, active) && OriginalSafe(start, a, dir, id, active, status, must)
    requires Untouched(a, b, active) && Untouched(a, b, RollbackPath(dir, id, active))
    ensures OriginalSafe(start, b, dir, id, active, status, must)
  {
    var back, w := RollbackPath(dir, id, active), Subtree(start, active);
    if Holds(a, active, w) {
      UntouchedHolds(a, b, active, w);
    }
    if Holds(a, back, w) {
      UntouchedHolds(a, b, back, w);
    }
  }

  /**
    A job that raised after its completing commit.  The restored server is left as it was installed
    unless rollback is enabled and parts of the old world were left over.  Then the handler puts
    those parts in its place and reports a rollback, or fails on the way; the restored world is
    whole all the same, set aside or, after a failure, possibly still in place.  `LateRollsBackIff`
    says when it does the one and when the other.
   */
  ghost predicate LateOutcome(start: Tree, fs: Tree, dir: Path, id: string, active: Path, java: bool, e: Tree,
                              status: RestoreStatus, enabled: bool, leftover: bool)
    requires WorldPath(dir, active)
  {
    var r, failed := Subtree(e, WorldRoot(java)), FailedPath(active, id);
    if !(enabled && leftover) then status.Failed? && Holds(fs, active, r) && RestoredAs(start, fs, dir, active, java, e)
    else if status.RolledBack? then Holds(fs, failed, r) && PartOf(fs, active, Subtree(start, active))
    else status.Failed? && (Holds(fs, active, r) || Holds(fs, failed, r))
  }

  lemma LateHandler(start: Tree, before: Tree, after: Tree, trail: seq<Tree>, from: nat, dir: Path, id: string, active: Path,
                    java: bool, archive: Archive, rollback: Option<Path>, enabled: bool, quiet: bool, status: RestoreStatus)
    requires WorldPath(dir, active) && rollback.Some? && (status.RolledBack? || status.Failed?)
    requires Installed(start, before, dir, id, active, java, archive)
    requires HandlerEffect(before, after, trail, from, dir, id, active, rollback, enabled, quiet, status)
    ensures LateOutcome(start, after, dir, id, active, java, Unpacked(archive), status, enabled,
                        Exists(before, RollbackPath(dir, id, active)))
  {
    var e, back := Unpacked(archive), RollbackPath(dir, id, active);
    var r, w := Subtree(e, WorldRoot(java)), Subtree(start, active);
    RestoredActive(start, before, dir, active, java, e);
    hide RestoredAs, Subtree, Unpacked, SafeArchive, WorldPath, FailedPath, RollbackPath;
    if enabled && Exists(before, back) {
      InstalledExists(before, active, e, java);
      HoldsUnique(before, active, r);
      if status.RolledBack? {
        HeldIsPart(after, active, Subtree(before, back), before, back, w);
      }
    }
  }

  /** The restored server is as before at every other path that is no configuration file. */
  lemma RestoredKeeps(start: Tree, fs: Tree, dir: Path, id: string, active: Path, java: bool, e: Tree, p: Path)
    requires active != [] && RestoredAs(start, fs, dir, active, java, e)
    requires !(RuntimeDir(dir) <= p) && !(active <= p) && !IsConfigPath(dir, p)
    ensures SameAt(start, fs, p)
  {
    NoConfigPath(dir, p);
    WithConfigsAt(Graft(start, active, Subtree(e, WorldRoot(java))), dir, Prefix(java), e, RESTORED_FILES, p);
  }

  lemma HandlerPathsKept(start: Tree, fs: Tree, dir: Path, id: string, active: Path, java: bool, e: Tree)
    requires WorldPath(dir, active) && IsUuid(id) && RestoredAs(start, fs, dir, active, java, e)
    ensures SameAt(start, fs, FailedPath(active, id)) && SameAt(start, fs, Parent(active))
  {
    var failed := FailedPath(active, id);
    Geometry(dir, id, active);
    FailedApart(dir, id, active);
    assert !IsConfigPath(dir, failed) && !IsConfigPath(dir, Parent(active)) by {
      ConfigsSpareNames(dir, id, active);
    }
    assert !(RuntimeDir(dir) <= Parent(active));
    RestoredKeeps(start, fs, dir, id, active, java, e, failed);
    RestoredKeeps(start, fs, dir, id, active, java, e, Parent(active));
  }

  /**
    When no operation of the handler fails, it reports a rollback exactly if rollback is enabled,
    part of the old world was left over, and no dangling link is at the failed path.
   */
  lemma LateRollsBackIff(start: Tree, before: Tree, after: Tree, trail: seq<Tree>, from: nat, dir: Path, id: string,
                         active: Path, java: bool, archive: Archive, rollback: Option<Path>, enabled: bool,
                         status: RestoreStatus)
    requires WorldPath(dir, active) && IsUuid(id) && IsFolder(start, Parent(active)) && rollback.Some?
    requires Installed(start, before, dir, id, active, java, archive)
    requires HandlerEffect(before, after, trail, from, dir, id, active, rollback, enabled, true, status)
    ensures status.RolledBack? <==>
              enabled && Exists(before, RollbackPath(dir, id, active)) && NoLinkAt(start, FailedPath(active, id))
  {
    var e := Unpacked(archive);
    RestoredActive(start, before, dir, active, java, e);
    HandlerPathsKept(start, before, dir, id, active, java, e);
    hide RestoredAs, Subtree, Unpacked, SafeArchive, WorldPath, FailedPath, RollbackPath, SameElsewhere, Holds;
    InstalledExists(before, active, e, java);
  }

  lemma InstalledExists(fs: Tree, active: Path, e: Tree, java: bool)
    requires Holds(fs, active, Subtree(e, WorldRoot(java))) && IsFolder(e, WorldRoot(java))
    ensures IsFolder(fs, active) && Exists(fs, active)
  {
    assert WorldRoot(java) + [] == WorldRoot(java) && active + [] == active;
    assert [] in Subtree(e, WorldRoot(java));
  }

  lemma HeldIsPart(fs: Tree, at: Path, v: Tree, before: Tree, back: Path, w: Tree)
    requires Holds(fs, at, v) && v == Subtree(before, back) && PartOf(before, back, w)
    ensures PartOf(fs, at, w)
  {
  }

  lemma LateStays(start: Tree, a: Tree, b: Tree, dir: Path, id: string, active: Path, java: bool, e: Tree,
                  status: RestoreStatus, enabled: bool, leftover: bool)
    requires WorldPath(dir, active) && LateOutcome(start, a, dir, id, active, java, e, status, enabled, leftover)
    requires SameOutside(a, b, RuntimeDir(dir))
    ensures LateOutcome(start, b, dir, id, active, java, e, status, enabled, leftover)
  {
    WorldPathNonEmpty(dir, active);
    var r, failed := Subtree(e, WorldRoot(java)), FailedPath(active, id);
    FailedApart(dir, id, active);
    Geometry(dir, id, active);
    hide RestoredAs, SameOutside, WorldPath, Subtree, FailedPath, Holds, PartOf, Untouched, RuntimeDir, Unrelated, WorldRoot;
    OutsideUntouched(a, b, RuntimeDir(dir), active);
    OutsideUntouched(a, b, RuntimeDir(dir), failed);
    if Holds(a, active, r) {
      UntouchedHolds(a, b, active, r);
    }
    if Holds(a, failed, r) {
      UntouchedHolds(a, b, failed, r);
    }
    if RestoredAs(start, a, dir, active, java, e) {
      RestoredStays(start, a, b, dir, active, java, e);
    }
    if PartOf(a, active, Subtree(start, active)) {
      PartStays(a, b, active, Subtree(start, active));
    }
  }

  lemma PartStays(a: Tree, b: Tree, root: Path, w: Tree)
    requires Untouched(a, b, root) && PartOf(a, root, w)
    ensures PartOf(b, root, w)
  {
    assert forall q :: root <= root + q;
  }

  lemma FailedApart(dir: Path, id: string, active: Path)
    requires WorldPath(dir, active)
    ensures Unrelated(FailedPath(active, id), RuntimeDir(dir))
  {
    var failed := FailedPath(active, id);
    assert |active| == |dir| + 1 ==> |failed[|dir|]| > 7;
    assert |active| == |dir| + 2 ==> failed[|dir|] == active[|dir|];
    ApartAt(failed, RuntimeDir(dir), |dir|);
  }

  lemma EffectElsewhere(before: Tree, after: Tree, trail: seq<Tree>, from: nat, dir: Path, id: string, active: Path,
                        rollback: Option<Path>, enabled: bool, quiet: bool, status: RestoreStatus)
    requires WorldPath(dir, active)
    requires HandlerEffect(before, after, trail, from, dir, id, active, rollback, enabled, quiet, status)
    ensures SameElsewhere(before, after, dir, id, active)
  {
  }

  /** The handler of an attempt that raised, before or after its completing commit. */
  method HandleRaised(disk: Disk, job: RestoreJob, archive: Archive, dir: Path, active: Path, java: bool,
                      rollback: Option<Path>, ghost start: Tree, ghost from: nat, ghost tried: seq<Tree>)
    returns (saved: bool, ghost watched: seq<Tree>, ghost faults: int)
    requires WorldPath(dir, active) && active != [] && IsUuid(job.id) && IsFolder(start, Parent(active))
    requires from <= |tried| && tried <= disk.trail
    requires Framed(start, disk.tree, dir, job.id, active, java, Unpacked(archive))
    requires rollback.Some? ==> rollback.value == RollbackPath(dir, job.id, active)
    requires TrailKept(start, tried, from, dir, job.id, active)
    requires job.committed != Completed ==>
               && tried == disk.trail && Located(start, disk.tree, dir, job.id, active)
               && (rollback.None? ==> Absent(disk.tree, RollbackPath(dir, job.id, active)))
    requires job.committed == Completed ==>
               Installed(start, disk.tree, dir, job.id, active, java, archive) && rollback.Some?
    modifies disk, job
    ensures job.up == old(job.up) && (saved || job.stumbles > old(job.stumbles))
    ensures job.history == if saved then old(job.history) + [job.status] else old(job.history)
    ensures faults == disk.faults - old(disk.faults) >= 0 && job.stumbles >= old(job.stumbles)
    ensures job.status.RolledBack? || job.status.Failed?
    ensures tried <= watched <= disk.trail && TrailKept(start, watched, from, dir, job.id, active)
    ensures old(job.committed) != Completed ==>
              && watched == disk.trail
              && OriginalSafe(start, disk.tree, dir, job.id, active, job.status,
                              job.rollbackEnabled && faults == 0 && NoLinkAt(start, FailedPath(active, job.id)))
    ensures old(job.committed) == Completed ==>
              LateOutcome(start, disk.tree, dir, job.id, active, java, Unpacked(archive), job.status,
                          job.rollbackEnabled, Exists(old(disk.tree), RollbackPath(dir, job.id, active)))
    ensures old(job.committed) == Completed && faults == 0 ==>
              (job.status.RolledBack? <==>
                 job.rollbackEnabled && Exists(old(disk.tree), RollbackPath(dir, job.id, active))
                 && NoLinkAt(start, FailedPath(active, job.id)))
    ensures Framed(start, disk.tree, dir, job.id, active, java, Unpacked(archive))
  {
    hide *;
    var late := job.committed == Completed;
    ghost var before, steps := disk.tree, disk.trail;
    faults := disk.faults;
    watched := tried;
    saved := HandleFailure(disk, job, dir, active, rollback);
    faults := disk.faults - faults;
    EffectElsewhere(before, disk.tree, disk.trail, |steps|, dir, job.id, active, rollback, job.rollbackEnabled, faults == 0,
                    job.status);
    FramedStays(start, before, disk.tree, dir, job.id, active, java, Unpacked(archive));
    if late {
      if faults == 0 {
        LateRollsBackIff(start, before, disk.tree, disk.trail, |steps|, dir, job.id, active, java, archive, rollback,
                         job.rollbackEnabled, job.status);
      }
      LateHandler(start, before, disk.tree, disk.trail, |steps|, dir, job.id, active, java, archive, rollback,
                  job.rollbackEnabled, faults == 0, job.status);
    } else {
      HandlerOutcome(start, before, disk.tree, disk.trail, |steps|, dir, job.id, active, rollback,
                     job.rollbackEnabled, faults == 0, job.status);
      TrailKeptJoin(start, steps, disk.trail, from, dir, job.id, active);
      watched := disk.trail;
    }
  }

  /** Behind the handler's commit: a server that ran before the job is started when it does not run. */
  method RestartAfter(job: RestoreJob, wasRunning: bool)
    modifies job`up, job`stumbles
    ensures job.stumbles >= old(job.stumbles)
    ensures old(job.up) ==> job.up
    ensures !wasRunning ==> job.up == old(job.up)
    ensures wasRunning && job.stumbles == old(job.stumbles) ==> job.up
  {
    if wasRunning && !job.up {
      var _ := job.StartServer();
    }
  }

  /** How an unsuccessful job ends its history: the phases it got through, and its last status if that was committed. */
  predicate EndedInOrder(history: seq<RestoreStatus>, restart: bool, status: RestoreStatus) {
    InOrder(history, restart)
    || (history != [] && InOrder(history[..|history| - 1], restart) && history[|history| - 1] == status)
  }

  lemma EndsInOrder(h: seq<RestoreStatus>, restart: bool, status: RestoreStatus, saved: bool)
    requires InOrder(h, restart)
    ensures EndedInOrder(if saved then h + [status] else h, restart, status)
  {
    assert (h + [status])[..|h|] == h;
  }

  /** The attempt and, when it raised, the handler. */
  method TryThenHandle(disk: Disk, job: RestoreJob, archive: Archive, dir: Path, active: Path, java: bool)
    returns (ghost watched: seq<Tree>, ghost completed: bool, ghost handlerFaults: int, ghost handlerStumbles: int,
             ghost leftover: bool, ghost quiet: bool)
    requires WorldPath(dir, active) && AncestorsExist(disk.tree, dir) && IsFolder(disk.tree, Parent(active))
    requires Fresh(disk.tree, dir, job.id) && ConfigsArePlain(disk.tree, dir) && job.committed != Completed
    requires IsUuid(job.id) && Through(job.history, 0)
    modifies disk, job
    ensures job.status in {Completed, RolledBack, Failed}
    ensures job.status.Completed? ==> completed
    ensures job.status.Completed? ==>
              job.up == job.restartAfterRestore && job.history == AllPhases(job.restartAfterRestore)
    ensures !job.status.Completed? ==>
              EndedInOrder(job.history, job.restartAfterRestore, job.status)
              && (old(job.up) && handlerStumbles == 0 ==> job.up)
    ensures old(disk.trail) <= watched <= disk.trail && (!completed ==> watched == disk.trail)
    ensures TrailKept(old(disk.tree), watched, |old(disk.trail)|, dir, job.id, active)
    ensures !completed ==>
              OriginalSafe(old(disk.tree), disk.tree, dir, job.id, active, job.status,
                           job.rollbackEnabled && handlerFaults == 0 && NoLinkAt(old(disk.tree), FailedPath(active, job.id)))
    ensures job.status.Completed? ==>
              SafeArchive(archive) && RestoredAs(old(disk.tree), disk.tree, dir, active, java, Unpacked(archive))
    ensures completed && !job.status.Completed? ==>
              LateOutcome(old(disk.tree), disk.tree, dir, job.id, active, java, Unpacked(archive), job.status,
                          job.rollbackEnabled, leftover)
              && (quiet ==> !leftover)
    ensures completed && !job.status.Completed? && handlerFaults == 0 ==>
              (job.status.RolledBack? <==>
                 job.rollbackEnabled && leftover && NoLinkAt(old(disk.tree), FailedPath(active, job.id)))
    ensures active != [] && Framed(old(disk.tree), disk.tree, dir, job.id, active, java, Unpacked(archive))
    ensures 0 <= handlerFaults <= disk.faults - old(disk.faults) && (disk.faults == old(disk.faults) ==> quiet)
    ensures 0 <= handlerStumbles <= job.stumbles - old(job.stumbles)
    ensures completed ==> Restorable(old(disk.tree), archive, dir, job.id, active, java)
    ensures disk.faults == old(disk.faults) && job.stumbles == old(job.stumbles) ==>
              (job.status.Completed? <==> Restorable(old(disk.tree), archive, dir, job.id, active, java))
  {
    ghost var start, from := disk.tree, |disk.trail|;
    WorldPathNonEmpty(dir, active);
    hide *;
    var ok, rollback;
    var wasRunning := job.up;
    ok, rollback, watched, quiet := TryRestore(disk, job, archive, dir, active, java);
    completed, handlerFaults, handlerStumbles := job.committed == Completed, 0, 0;
    leftover := Exists(disk.tree, RollbackPath(dir, job.id, active));
    if ok {
      InstalledParts(start, disk.tree, dir, job.id, active, java, archive);
      return;
    }
    ghost var phases, stumbles := job.history, job.stumbles;
    var saved;
    saved, watched, handlerFaults := HandleRaised(disk, job, archive, dir, active, java, rollback, start, from, watched);
    EndsInOrder(phases, job.restartAfterRestore, job.status, saved);
    if saved {
      RestartAfter(job, wasRunning);
    }
    handlerStumbles := job.stumbles - stumbles;
  }

  lemma InstalledParts(start: Tree, fs: Tree, dir: Path, id: string, active: Path, java: bool, archive: Archive)
    requires active != [] && Installed(start, fs, dir, id, active, java, archive)
    ensures SafeArchive(archive) && RestoredAs(start, fs, dir, active, java, Unpacked(archive))
  {
  }

  /** The attempt, the handler and the `finally` block, for the world at `active`. */
  method RestoreAt(disk: Disk, job: RestoreJob, archive: Archive, dir: Path, active: Path, java: bool)
    returns (ghost watched: seq<Tree>, ghost completed: bool, ghost handlerFaults: int, ghost handlerStumbles: int,
             ghost leftover: bool, ghost quiet: bool)
    requires WorldPath(dir, active) && active != [] && AncestorsExist(disk.tree, dir) && IsFolder(disk.tree, Parent(active))
    requires IsUuid(job.id)
    requires Fresh(disk.tree, dir, job.id) && ConfigsArePlain(disk.tree, dir) && job.committed != Completed
    requires Through(job.history, 0)
    modifies disk, job
    ensures job.status in {Completed, RolledBack, Failed}
    ensures job.status.Completed? ==> completed
    ensures job.status.Completed? ==>
              job.up == job.restartAfterRestore && job.history == AllPhases(job.restartAfterRestore)
    ensures !job.status.Completed? ==>
              EndedInOrder(job.history, job.restartAfterRestore, job.status)
              && (old(job.up) && handlerStumbles == 0 ==> job.up)
    ensures old(disk.trail) <= watched <= disk.trail && (!completed ==> watched + [disk.tree] == disk.trail)
    ensures TrailKept(old(disk.tree), watched, |old(disk.trail)|, dir, job.id, active)
    ensures !completed ==>
              OriginalSafe(old(disk.tree), disk.tree, dir, job.id, active, job.status,
                           job.rollbackEnabled && handlerFaults == 0 && NoLinkAt(old(disk.tree), FailedPath(active, job.id)))
    ensures job.status.Completed? ==>
              && SafeArchive(archive)
              && RestoredAs(old(disk.tree), disk.tree, dir, active, java, Unpacked(archive))
    ensures completed && !job.status.Completed? ==>
              LateOutcome(old(disk.tree), disk.tree, dir, job.id, active, java, Unpacked(archive), job.status,
                          job.rollbackEnabled, leftover)
              && (quiet ==> !leftover)
              && (handlerFaults == 0 ==>
                    (job.status.RolledBack? <==>
                       job.rollbackEnabled && leftover && NoLinkAt(old(disk.tree), FailedPath(active, job.id))))
    ensures Framed(old(disk.tree), disk.tree, dir, job.id, active, java, Unpacked(archive))
    ensures 0 <= handlerFaults <= disk.faults - old(disk.faults) && (disk.faults == old(disk.faults) ==> quiet)
    ensures 0 <= handlerStumbles <= job.stumbles - old(job.stumbles)
    ensures completed ==> Restorable(old(disk.tree), archive, dir, job.id, active, java)
    ensures disk.faults == old(disk.faults) && job.stumbles == old(job.stumbles) ==>
              (job.status.Completed? <==> Restorable(old(disk.tree), archive, dir, job.id, active, java))
  {
    JobFolderPaths(dir, job.id, active);
    hide *;
    ghost var start := disk.tree;
    watched, completed, handlerFaults, handlerStumbles, leftover, quiet :=
      TryThenHandle(disk, job, archive, dir, active, java);
    ghost var before := disk.tree;
    RemoveJobFolder(disk, dir, TmpPath(dir, job.id));
    OutsideElsewhere(before, disk.tree, dir, job.id, active);
    FramedStays(start, before, disk.tree, dir, job.id, active, java, Unpacked(archive));
    if !completed {
      SafeStays(start, before, disk.tree, dir, job.id, active, job.status,
                job.rollbackEnabled && handlerFaults == 0 && NoLinkAt(start, FailedPath(active, job.id)));
    } else if job.status.Completed? {
      RestoredStays(start, before, disk.tree, dir, active, java, Unpacked(archive));
    } else {
      LateStays(start, before, disk.tree, dir, job.id, active, java, Unpacked(archive), job.status,
                job.rollbackEnabled, leftover);
    }
  }

  /**
    `run_restore_job` on the file system.  Until the completing commit the original world is whole
    in place or at the rollback path; an unsuccessful job that rolled back has it in place again.  A
    job that raises after that commit leaves the restored world as `LateOutcome` says; with no
    operation failing behind the commit, nothing of the old world is left over and the restored
    world stays in place.  `handlerFaults` counts the failing operations of the handler, and
    `handlerStumbles` its failing commit and start.  The world is swapped while the server is down; a
    server that ran runs again behind an unsuccessful job, unless its handler stumbled.  However the
    job ends, nothing but the copied configuration files has changed elsewhere.
   */
  method RunRestoreJob(disk: Disk, job: RestoreJob, archive: Archive, dir: Path, name: string, java: bool)
    returns (ghost watched: seq<Tree>, ghost completed: bool, ghost handlerFaults: int, ghost handlerStumbles: int,
             ghost leftover: bool, ghost quiet: bool)
    requires WellFormed(disk.tree) && IsFolder(disk.tree, dir) && PlainName(name) && IsUuid(job.id)
    requires Fresh(disk.tree, dir, job.id) && ConfigsArePlain(disk.tree, dir) && job.committed != Completed
    requires job.history == []
    modifies disk, job
    ensures WorldPath(dir, ActiveWorld(old(disk.tree), dir, name, java))
    ensures job.status in {Completed, RolledBack, Failed}
    ensures job.status.Completed? ==> completed
    ensures job.status.Completed? ==>
              job.up == job.restartAfterRestore && job.history == AllPhases(job.restartAfterRestore)
    ensures !job.status.Completed? ==>
              EndedInOrder(job.history, job.restartAfterRestore, job.status)
              && (old(job.up) && handlerStumbles == 0 ==> job.up)
    ensures old(disk.trail) <= watched <= disk.trail && (!completed ==> watched + [disk.tree] == disk.trail)
    ensures TrailKept(old(disk.tree), watched, |old(disk.trail)|, dir, job.id, ActiveWorld(old(disk.tree), dir, name, java))
    ensures !completed ==>
              var active := ActiveWorld(old(disk.tree), dir, name, java);
              OriginalSafe(old(disk.tree), disk.tree, dir, job.id, active, job.status,
                           job.rollbackEnabled && handlerFaults == 0 && NoLinkAt(old(disk.tree), FailedPath(active, job.id)))
    ensures job.status.Completed? ==>
              && SafeArchive(archive)
              && RestoredAs(old(disk.tree), disk.tree, dir, ActiveWorld(old(disk.tree), dir, name, java), java, Unpacked(archive))
    ensures completed && !job.status.Completed? ==>
              var active := ActiveWorld(old(disk.tree), dir, name, java);
              LateOutcome(old(disk.tree), disk.tree, dir, job.id, active, java, Unpacked(archive), job.status,
                          job.rollbackEnabled, leftover)
              && (quiet ==> !leftover)
              && (handlerFaults == 0 ==>
                    (job.status.RolledBack? <==>
                       job.rollbackEnabled && leftover && NoLinkAt(old(disk.tree), FailedPath(active, job.id))))
    ensures Framed(old(disk.tree), disk.tree, dir, job.id, ActiveWorld(old(disk.tree), dir, name, java), java,
                   Unpacked(archive))
    ensures 0 <= handlerFaults <= disk.faults - old(disk.faults) && (disk.faults == old(disk.faults) ==> quiet)
    ensures 0 <= handlerStumbles <= job.stumbles - old(job.stumbles)
    ensures completed ==> Restorable(old(disk.tree), archive, dir, job.id, ActiveWorld(old(disk.tree), dir, name, java), java)
    ensures disk.faults == old(disk.faults) && job.stumbles == old(job.stumbles) ==>
              var active := ActiveWorld(old(disk.tree), dir, name, java);
              (job.status.Completed? <==> Restorable(old(disk.tree), archive, dir, job.id, active, java))
  {
    var active := ActiveWorld(disk.tree, dir, name, java);
    ActiveIsWorldPath(disk.tree, dir, name, java);
    WorldPathNonEmpty(dir, active);
    PhasesAre();
    hide *;
    watched, completed, handlerFaults, handlerStumbles, leftover, quiet := RestoreAt(disk, job, archive, dir, active, java);
  }
}
