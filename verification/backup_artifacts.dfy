/**
  Backup artifacts and their rows: the archive in storage, the checksum file beside it, and the
  row that says whether the backup is complete.
 */
module BackupArtifacts {
  import opened Wrappers
  import opened Sets
  import opened Text

  type ServerId = nat
  type BackupId = nat

  datatype Path =
    | Archive(server: ServerId, backup: BackupId)
    | Sidecar(server: ServerId, backup: BackupId)
    | Temp(server: ServerId, backup: BackupId)

  /** The files of the storage root, their bytes as characters. */
  type Files = map<Path, string>

  datatype Status = Pending | Running | HeldSaves | Compressing | Verifying | Completed | Failed | Deleted

  predicate ActiveStatus(s: Status) {
    s.Pending? || s.Running? || s.HeldSaves? || s.Compressing? || s.Verifying?
  }

  /** A row; an unset checksum is empty and an unset size is zero. */
  datatype Row = Row(server: ServerId, status: Status, pinned: bool, created: int, checksum: string, size: nat)

  type Rows = map<BackupId, Row>

  predicate IsHex(s: string) {
    |s| == 64 && forall i :: 0 <= i < |s| ==> '0' <= s[i] <= '9' || 'a' <= s[i] <= 'f'
  }

  /** SHA-256 as the code uses it: a function from bytes. */
  type Digest = string -> string

  /** Its results are 64 hexadecimal digits. */
  ghost predicate Hexadecimal(digest: Digest) {
    forall s :: IsHex(digest(s))
  }

  datatype Problem =
    | TempMissing | TempEmpty | ObjectMissing | ObjectEmpty | SizeMismatch | ChecksumMismatch
    | SidecarMissing | SidecarMismatch | SystemError

  datatype Stored = Stored(checksum: string, size: nat)

  /** `verify_backup_artifact`. */
  function Verify(files: Files, digest: Digest, id: BackupId, row: Row): Result<Stored, Problem> {
    var path := Archive(row.server, id);
    if path !in files then Failure(ObjectMissing)
    else
      var size := |files[path]|;
      var checksum := digest(files[path]);
      if size == 0 then Failure(ObjectEmpty)
      else if row.size != 0 && size != row.size then Failure(SizeMismatch)
      else if row.checksum != "" && checksum != row.checksum then Failure(ChecksumMismatch)
      else if row.checksum != "" && Sidecar(row.server, id) !in files then Failure(SidecarMissing)
      else if row.checksum != "" && Strip(files[Sidecar(row.server, id)]) != row.checksum then Failure(SidecarMismatch)
      else Success(Stored(if row.checksum != "" then row.checksum else checksum, size))
  }

  /** A completed row has its checksum and size, and its artifact passes the verification. */
  predicate Passes(files: Files, digest: Digest, id: BackupId, row: Row) {
    row.checksum != "" && row.size > 0 && Verify(files, digest, id, row).Success?
  }

  ghost predicate Sound(files: Files, digest: Digest, rows: Rows) {
    forall b :: b in rows && rows[b].status.Completed? ==> Passes(files, digest, b, rows[b])
  }

  /** Two stores agree on the artifact of a backup. */
  predicate SameArtifact(a: Files, b: Files, server: ServerId, id: BackupId) {
    forall p :: p in {Archive(server, id), Sidecar(server, id)} ==> (p in a <==> p in b) && (p in a ==> a[p] == b[p])
  }

  /** Nothing but the files of one backup differs. */
  ghost predicate OnlyArtifact(a: Files, b: Files, server: ServerId, id: BackupId) {
    forall p: Path :: (p in a || p in b) && (p.server != server || p.backup != id) ==> p in a && p in b && a[p] == b[p]
  }

  /** `_verify_local_backup_artifact`. */
  function VerifyLocal(files: Files, digest: Digest, server: ServerId, id: BackupId, checksum: string, size: nat):
    Result<Stored, Problem>
  {
    var path := Archive(server, id);
    if path !in files then Failure(ObjectMissing)
    else if |files[path]| == 0 then Failure(ObjectEmpty)
    else if |files[path]| != size then Failure(SizeMismatch)
    else if digest(files[path]) != checksum then Failure(ChecksumMismatch)
    else if Sidecar(server, id) !in files || Strip(files[Sidecar(server, id)]) != checksum then Failure(SidecarMissing)
    else Success(Stored(checksum, size))
  }

  /** The stored archive has this size and digest, and the checksum file beside it holds the digest. */
  predicate Intact(files: Files, digest: Digest, server: ServerId, id: BackupId, checksum: string, size: nat) {
    var path, sidecar := Archive(server, id), Sidecar(server, id);
    path in files && |files[path]| == size && size > 0 && digest(files[path]) == checksum
    && sidecar in files && Strip(files[sidecar]) == checksum
  }

  /** A completed row passes on any files exactly if its archive and its checksum file are intact. */
  lemma PassesIffIntact(files: Files, digest: Digest, id: BackupId, row: Row)
    ensures Passes(files, digest, id, row) <==>
              row.checksum != "" && Intact(files, digest, row.server, id, row.checksum, row.size)
    ensures Passes(files, digest, id, row) ==> Verify(files, digest, id, row) == Success(Stored(row.checksum, row.size))
  {
    hide Strip, IsSpace;
  }

  /** The same for the verification that a job makes of its own artifact. */
  lemma VerifyLocalIffIntact(files: Files, digest: Digest, server: ServerId, id: BackupId, checksum: string, size: nat)
    ensures VerifyLocal(files, digest, server, id, checksum, size).Success? <==>
              Intact(files, digest, server, id, checksum, size)
    ensures Intact(files, digest, server, id, checksum, size) ==>
              VerifyLocal(files, digest, server, id, checksum, size) == Success(Stored(checksum, size))
  {
    hide Strip, IsSpace;
  }

  /**
    What went wrong with a completed row's artifact is told apart: a missing or empty archive,
    another size, other bytes of the same size, a missing checksum file, or another checksum in it.
   */
  lemma DamageIsFound(files: Files, digest: Digest, id: BackupId, row: Row)
    requires row.checksum != "" && row.size > 0
    ensures var path, sidecar, r := Archive(row.server, id), Sidecar(row.server, id), Verify(files, digest, id, row);
      (path !in files <==> r == Failure(ObjectMissing))
      && (path in files && files[path] == "" <==> r == Failure(ObjectEmpty))
      && (path in files && |files[path]| !in {0, row.size} <==> r == Failure(SizeMismatch))
      && (path in files && |files[path]| == row.size ==>
            (digest(files[path]) != row.checksum <==> r == Failure(ChecksumMismatch))
            && (digest(files[path]) == row.checksum ==>
                  (sidecar !in files <==> r == Failure(SidecarMissing))
                  && (sidecar in files && Strip(files[sidecar]) != row.checksum <==> r == Failure(SidecarMismatch))))
  {
    hide Strip, IsSpace;
  }

  /** A row without checksum and size is verified by its archive alone, but does not pass as a completed one. */
  lemma UncheckedRow(files: Files, digest: Digest, id: BackupId, row: Row)
    requires row.checksum == "" && row.size == 0
    ensures !Passes(files, digest, id, row)
    ensures var path := Archive(row.server, id);
      (Verify(files, digest, id, row).Success? <==> path in files && files[path] != "")
      && (path in files && files[path] != "" ==>
            Verify(files, digest, id, row) == Success(Stored(digest(files[path]), |files[path]|)))
  {
  }

  /** The files after a committed artifact: the temporary file became the archive, with its checksum beside it. */
  function CommittedFiles(files: Files, digest: Digest, server: ServerId, id: BackupId): Files
    requires Temp(server, id) in files
  {
    var content := files[Temp(server, id)];
    Without(files, {Temp(server, id)})[Archive(server, id) := content][Sidecar(server, id) := digest(content) + "\n"]
  }

  lemma CommittedPasses(files: Files, digest: Digest, server: ServerId, id: BackupId, row: Row)
    requires Temp(server, id) in files && files[Temp(server, id)] != ""
    requires row.server == server && row.size == |files[Temp(server, id)]|
             && row.checksum == digest(files[Temp(server, id)]) && IsHex(row.checksum)
    ensures var after := CommittedFiles(files, digest, server, id);
      VerifyLocal(after, digest, server, id, row.checksum, row.size) == Success(Stored(row.checksum, row.size))
      && Passes(after, digest, id, row)
  {
    HexStripped(row.checksum);
    hide IsHex, Strip, Without;
    var after := CommittedFiles(files, digest, server, id);
    assert after[Archive(server, id)] == files[Temp(server, id)];
    assert after[Sidecar(server, id)] == row.checksum + "\n";
  }

  lemma CommittedElsewhere(files: Files, digest: Digest, server: ServerId, id: BackupId)
    requires Temp(server, id) in files
    ensures var after := CommittedFiles(files, digest, server, id);
      OnlyArtifact(files, after, server, id) && Temp(server, id) !in after
      && Archive(server, id) in after && after[Archive(server, id)] == files[Temp(server, id)]
  {
  }

  lemma HexStripped(s: string)
    requires IsHex(s)
    ensures Strip(s + "\n") == s
  {
    StripUnique("", s, "\n");
    assert "" + s + "\n" == s + "\n";
  }

  // ---------------------------------------------------------------------------
  // Retention
  // ---------------------------------------------------------------------------

  /** The backups that retention of a server looks at. */
  predicate Candidate(rows: Rows, server: ServerId, id: BackupId) {
    id in rows && rows[id].server == server && rows[id].status.Completed? && !rows[id].pinned
  }

  function Candidates(rows: Rows, server: ServerId): set<BackupId> {
    set b | b in rows && Candidate(rows, server, b)
  }

  predicate NoRepeats(listing: seq<BackupId>) {
    forall i, j :: 0 <= i < j < |listing| ==> listing[i] != listing[j]
  }

  predicate NotOlder(rows: Rows, a: BackupId, b: BackupId) {
    a in rows && b in rows && rows[a].created >= rows[b].created
  }

  /** A listing of the candidates, newest first, ties in any order. */
  ghost predicate NewestFirst(rows: Rows, server: ServerId, listing: seq<BackupId>) {
    NoRepeats(listing)
    && (forall b :: Candidate(rows, server, b) <==> b in listing)
    && forall i, j :: 0 <= i < j < |listing| ==> NotOlder(rows, listing[i], listing[j])
  }

  /** How many to keep: the schedule's count unless unset or zero, never less than one. */
  function KeepCount(count: Option<int>, default: int): (keep: nat)
    ensures keep >= 1
    ensures count.Some? && count.value >= 1 ==> keep == count.value
    ensures count.Some? && count.value < 0 ==> keep == 1
    ensures (count.None? || count.value == 0) && default >= 1 ==> keep == default
    ensures (count.None? || count.value == 0) && default < 1 ==> keep == 1
  {
    var n := if count.Some? && count.value != 0 then count.value else default;
    if n < 1 then 1 else n
  }

  function Marked(rows: Rows, victims: seq<BackupId>): Rows {
    map b | b in rows :: if b in victims then rows[b].(status := Deleted) else rows[b]
  }

  function Without(files: Files, gone: set<Path>): Files {
    map p | p in files && p !in gone :: files[p]
  }

  /** The archives and checksum files of the backups. */
  function ArtifactsOf(server: ServerId, ids: seq<BackupId>): set<Path> {
    if ids == [] then {}
    else
      var last := ids[|ids| - 1];
      ArtifactsOf(server, ids[..|ids| - 1]) + {Archive(server, last), Sidecar(server, last)}
  }

  lemma {:induction false} ArtifactsMember(server: ServerId, ids: seq<BackupId>, p: Path)
    ensures p in ArtifactsOf(server, ids) <==> !p.Temp? && p.server == server && p.backup in ids
  {
    if ids != [] {
      ArtifactsMember(server, ids[..|ids| - 1], p);
    }
  }

  class Store {
    const digest: Digest
    var files: Files
    var rows: Rows
    var running: set<ServerId>      // the servers that run
    ghost var stumbles: nat         // steps that raised

    constructor (digest: Digest, files: Files, rows: Rows, running: set<ServerId>)
      ensures this.digest == digest && this.files == files && this.rows == rows && this.running == running && stumbles == 0
    {
      this.digest := digest;
      this.files := files;
      this.rows := rows;
      this.running := running;
      stumbles := 0;
    }

    /** Stopping a server; a call that raises may have stopped it. */
    method StopServer(server: ServerId) returns (raised: bool)
      modifies this`running, this`stumbles
      ensures stumbles == old(stumbles) + if raised then 1 else 0
      ensures running == old(running) - {server} || (raised && running == old(running))
    {
      raised := Raises();
      var down: bool := *;
      if !raised || down {
        running := running - {server};
      }
    }

    /** Starting a server; a call that raises may have started it. */
    method StartServer(server: ServerId, fails: bool)
      modifies this`running
      ensures running == old(running) + {server} || (fails && running == old(running))
    {
      var up: bool := *;
      if !fails || up {
        running := running + {server};
      }
    }

    /** A commit, a call or an operation of the system that may raise. */
    method Raises() returns (raised: bool)
      modifies this`stumbles
      ensures stumbles == old(stumbles) + if raised then 1 else 0
    {
      raised := *;
      if raised {
        stumbles := stumbles + 1;
      }
    }

    /** `unlink(missing_ok=True)`; a failure of the operating system leaves the file. */
    method Unlink(p: Path, fails: bool) returns (ok: bool)
      modifies this`files
      ensures ok == !fails
      ensures files == if ok then Without(old(files), {p}) else old(files)
    {
      ok := !fails;
      if ok {
        files := Without(files, {p});
      }
    }

    /** The query of `apply_backup_retention`. */
    method SelectNewestFirst(server: ServerId) returns (listing: seq<BackupId>)
      ensures NewestFirst(rows, server, listing)
    {
      var pool := Candidates(rows, server);
      listing := [];
      while pool != {}
        invariant NoRepeats(listing)
        invariant forall b :: Candidate(rows, server, b) <==> b in pool || b in listing
        invariant forall b :: b in pool ==> b !in listing
        invariant forall i, j :: 0 <= i < j < |listing| ==> NotOlder(rows, listing[i], listing[j])
        invariant forall i, b :: 0 <= i < |listing| && b in pool ==> NotOlder(rows, listing[i], b)
        decreases |pool|
      {
        NewestExists(rows, pool);
        var next :| next in pool && forall b :: b in pool ==> rows[b].created <= rows[next].created;
        pool := pool - {next};
        listing := listing + [next];
      }
    }

    /** `_commit_local_backup_artifact`. */
    method CommitLocalArtifact(server: ServerId, id: BackupId) returns (r: Result<Stored, Problem>)
      requires Hexadecimal(digest)
      modifies this`files, this`stumbles
      ensures stumbles >= old(stumbles)
      ensures Temp(server, id) !in old(files) ==> r == Failure(TempMissing)
      ensures Temp(server, id) in old(files) && old(files)[Temp(server, id)] == "" ==> r == Failure(TempEmpty)
      ensures Temp(server, id) in old(files) && old(files)[Temp(server, id)] != "" && stumbles == old(stumbles) ==> r.Success?
      ensures OnlyArtifact(old(files), files, server, id)
      ensures r.Success? ==>
        Temp(server, id) in old(files) && old(files)[Temp(server, id)] != ""
        && files == CommittedFiles(old(files), digest, server, id)
        && r.value == Stored(digest(old(files)[Temp(server, id)]), |old(files)[Temp(server, id)]|)
    {
      assert forall s :: IsHex(digest(s));
      hide Strip, IsHex, Passes;
      if Temp(server, id) !in files {
        return Failure(TempMissing);
      }
      var content := files[Temp(server, id)];
      var checksum := digest(content);
      if content == "" {
        return Failure(TempEmpty);
      }
      var raised := Raises();
      if raised {
        return Failure(SystemError);
      }
      files := Without(files, {Temp(server, id)})[Archive(server, id) := content];
      raised := Raises();
      if raised {
        return Failure(SystemError);
      }
      files := files[Sidecar(server, id) := checksum + "\n"];
      CommittedPasses(old(files), digest, server, id, Row(server, Completed, false, 0, checksum, |content|));
      CommittedElsewhere(old(files), digest, server, id);
      raised := Raises();
      r := if raised then Failure(SystemError) else VerifyLocal(files, digest, server, id, checksum, |content|);
    }

    /**
      `apply_backup_retention` up to its commit.  `stuck` are the files that cannot be removed now;
      `raised` is the first of them it meets.  The rows of the backups removed before it are already
      marked in the session.
     */
    method ApplyRetention(server: ServerId, count: Option<int>, default: int, stuck: set<Path>)
      returns (ghost listing: seq<BackupId>, raised: Option<Path>)
      modifies this
      ensures NewestFirst(old(rows), server, listing)
      ensures RetentionResult(old(files), old(rows), server, Victims(listing, KeepCount(count, default)), raised, files, rows)
      ensures raised == FirstStuck(server, Victims(listing, KeepCount(count, default)), stuck)
      ensures stumbles == old(stumbles) && running == old(running)
    {
      hide *;
      var keep := KeepCount(count, default);
      var backups := SelectNewestFirst(server);
      listing := backups;
      raised := None;
      var victims := Victims(backups, keep);
      VictimsAreCandidates(rows, server, listing, keep);
      RetentionStart(files, rows, server, victims);
      for i := 0 to |victims|
        invariant raised == None && stumbles == old(stumbles) && running == old(running)
        invariant FirstStuck(server, victims, stuck) == FirstStuck(server, victims[i..], stuck)
        invariant rows == Marked(old(rows), victims[..i])
        invariant files == Without(old(files), ArtifactsOf(server, victims[..i]))
      {
        var id := victims[i];
        PrefixCandidates(old(rows), server, victims, i);
        OneMore(old(files), old(rows), server, victims, i);
        StuckStep(server, victims[i..], stuck);
        assert victims[i..][1..] == victims[i + 1..];
        var unlinked := Unlink(Archive(server, id), Archive(server, id) in stuck);
        if !unlinked {
          raised := Some(Archive(server, id));
          RetentionStops(old(files), old(rows), server, victims, i, raised.value, files, rows);
          return;
        }
        unlinked := Unlink(Sidecar(server, id), Sidecar(server, id) in stuck);
        if !unlinked {
          raised := Some(Sidecar(server, id));
          RetentionStops(old(files), old(rows), server, victims, i, raised.value, files, rows);
          return;
        }
        rows := rows[id := rows[id].(status := Deleted)];
      }
      assert victims[..|victims|] == victims && victims[|victims|..] == [];
      NothingStuck(server, stuck);
      RetentionDone(old(files), old(rows), server, victims, files, rows);
    }

    /**
      `apply_retention_now`: a failure rolls the session back.  Every completed row still passes
      exactly if all files of the victims can be removed, or the very first archive cannot.
     */
    method ApplyRetentionNow(server: ServerId, default: int, stuck: set<Path>)
      returns (ghost listing: seq<BackupId>, raised: Option<Path>)
      requires Sound(files, digest, rows)
      modifies this
      ensures NewestFirst(old(rows), server, listing)
      ensures var victims := Victims(listing, KeepCount(None, default));
        rows == if ArtifactsOf(server, victims) !! stuck then Marked(old(rows), victims) else old(rows)
      ensures raised == FirstStuck(server, Victims(listing, KeepCount(None, default)), stuck)
      ensures var victims := Victims(listing, KeepCount(None, default));
        Sound(files, digest, rows) <==>
          ArtifactsOf(server, victims) !! stuck || (victims != [] && Archive(server, victims[0]) in stuck)
    {
      hide *;
      var before := rows;
      listing, raised := ApplyRetention(server, None, default, stuck);
      ghost var victims := Victims(listing, KeepCount(None, default));
      FirstStuckIff(server, victims, stuck);
      VictimsAreCandidates(before, server, listing, KeepCount(None, default));
      RetentionCommitted(old(files), before, server, victims, raised, files, rows);
      RetentionSoundIff(old(files), digest, before, server, victims, raised, files, rows);
      if raised.Some? {
        RolledBackRetentionSoundIff(old(files), digest, before, server, victims, raised.value, files, rows);
        rows := before;
      }
    }

    /**
      `delete_backup`; `stuck` are the files that cannot be removed now, and `tidies` says whether
      removing empty folders succeeds.  Of a completed backup that may be deleted, the row passes or
      is marked afterwards exactly if the archive is stuck or nothing fails.
     */
    method DeleteBackup(id: BackupId, evenIfPinned: bool, stuck: set<Path>, tidies: bool) returns (r: Deletion)
      requires id in rows && Sound(files, digest, rows)
      modifies this
      ensures r.Refused? <==> ActiveStatus(old(rows)[id].status) || (old(rows)[id].pinned && !evenIfPinned)
      ensures r.Refused? ==> files == old(files) && rows == old(rows)
      ensures OnlyArtifact(old(files), files, old(rows)[id].server, id)
      ensures r.Removed? ==>
        rows == old(rows)[id := old(rows)[id].(status := Deleted)] && ArtifactGone(files, old(rows)[id].server, id)
      ensures r.Raised? ==> rows == old(rows)
      ensures r.Removed? <==> !r.Refused? && NoneStuck(old(rows)[id].server, id, stuck, 3) && tidies
      ensures r.Raised? ==> NoneStuck(old(rows)[id].server, id, stuck, r.step)
      ensures r.Raised? && r.step < 3 ==> DeletedFile(old(rows)[id].server, id, r.step) in stuck
      ensures Sound(files, digest, rows) <==>
        r.Refused? || !old(rows)[id].status.Completed? || Archive(old(rows)[id].server, id) in stuck
        || (NoneStuck(old(rows)[id].server, id, stuck, 3) && tidies)
    {
      hide Passes, Sound;
      var row := rows[id];
      if ActiveStatus(row.status) || (row.pinned && !evenIfPinned) {
        return Refused;
      }
      WithoutNothing(files);
      for i := 0 to 3
        invariant rows == old(rows)
        invariant files == Without(old(files), Earlier(row.server, id, i))
        invariant NoneStuck(row.server, id, stuck, i)
      {
        hide Without, OnlyArtifact, ArtifactGone;
        EarlierMore(files, row.server, id, i);
        EarlierMore(old(files), row.server, id, i);
        var path := DeletedFile(row.server, id, i);
        var unlinked := Unlink(path, path in stuck);
        if !unlinked {
          assert i > 0 ==> DeletedFile(row.server, id, 0) !in stuck;
          DeletionRaised(old(files), files, digest, rows, id, i);
          return Raised(i);
        }
      }
      if !tidies {
        assert DeletedFile(row.server, id, 0) !in stuck;
        DeletionRaised(old(files), files, digest, rows, id, 3);
        return Raised(3);
      }
      rows := rows[id := row.(status := Deleted)];
      SoundElsewhere(old(files), files, digest, old(rows), rows, id);
      r := Removed;
    }

    /**
      `run_backup_job` from the guard to the compressing phase; `saves` says whether the server can
      be asked to hold its saves.  Otherwise it is stopped.
     */
    method Quiesce(id: BackupId, forceOffline: bool, saves: bool) returns (t: Try)
      requires id in rows && ActiveStatus(rows[id].status)
      modifies this`rows, this`running, this`stumbles
      ensures stumbles >= old(stumbles) && (stumbles == old(stumbles) ==> !t.raised)
      ensures t == Try(t.raised, t.stopped, !t.raised, !t.raised, false, false, None, t.held, t.stopRaised)
      ensures OthersRun(old(running), running, old(rows)[id].server)
      ensures StillRuns(old(running), running, old(rows)[id].server, t)
      ensures t.stopped || t.stopRaised ==> old(rows)[id].server in old(running) && (forceOffline || !saves)
      ensures t.stopRaised ==> t.raised && !t.stopped
      ensures t.held <==> !t.raised && old(rows)[id].server in old(running) && !forceOffline && saves
      ensures id in rows && rows == old(rows)[id := rows[id]]
      ensures rows[id] == old(rows)[id] || rows[id] == old(rows)[id].(status := Running)
      ensures t.stopped || !t.raised ==> rows[id].status.Running?
    {
      var server := rows[id].server;
      t := Try(true, false, false, false, false, false, None, false, false);
      var guardRaised := Raises();
      if guardRaised { return; }
      rows := rows[id := rows[id].(status := Running)];
      var prepareRaised := Raises();
      if prepareRaised { return; }
      var saveHeld := false;
      if server in running && !forceOffline {
        saveHeld := saves;
      }
      if !saveHeld && server in running {
        var stopRaised := StopServer(server);
        t := t.(stopped := !stopRaised, stopRaised := stopRaised);
        if stopRaised { return; }
      }
      var phaseRaised := Raises();
      if phaseRaised { return; }
      t := t.(raised := false, pathsKnown := true, tempHeld := true, held := saveHeld);
    }

    /** The archive, in a new temporary file. */
    method Pack(server: ServerId, id: BackupId, archive: string) returns (ok: bool)
      modifies this`files, this`stumbles
      ensures stumbles >= old(stumbles) && (stumbles == old(stumbles) ==> ok)
      ensures OnlyArtifact(old(files), files, server, id)
      ensures ok ==> Temp(server, id) in files && files[Temp(server, id)] == archive
    {
      ok := false;
      if Temp(server, id) in files {
        var unlinkRaised := Raises();
        var unlinked := Unlink(Temp(server, id), unlinkRaised);
        if !unlinked { return; }
      }
      var archiverRaised := Raises();
      if archiverRaised {
        var left: bool, partial: string := *, *;
        if left {
          files := files[Temp(server, id) := partial];
        }
        return;
      }
      files := files[Temp(server, id) := archive];
      ok := true;
    }

    /** The same up to the finished temporary file, the server running again. */
    method WriteArchive(id: BackupId, archive: string, forceOffline: bool, saves: bool) returns (t: Try)
      requires id in rows && ActiveStatus(rows[id].status)
      modifies this
      ensures stumbles >= old(stumbles) && (stumbles == old(stumbles) ==> !t.raised)
      ensures OthersRun(old(running), running, old(rows)[id].server)
      ensures StillRuns(old(running), running, old(rows)[id].server, t)
      ensures t.stopped || t.stopRaised ==> old(rows)[id].server in old(running) && (forceOffline || !saves)
      ensures t.stopRaised ==> t.raised && !t.stopped
      ensures t.pathsKnown ==> (t.held <==> old(rows)[id].server in old(running) && !forceOffline && saves)
      ensures !t.completed && !t.retentionRan && t.retention == None
      ensures t.raised ==> Unfinished(old(files), old(rows), files, rows, id, t)
      ensures !t.raised ==>
        (!t.stopped && t.tempHeld && t.pathsKnown
         && rows == old(rows)[id := old(rows)[id].(status := Running)]
         && OnlyArtifact(old(files), files, old(rows)[id].server, id)
         && Temp(old(rows)[id].server, id) in files && files[Temp(old(rows)[id].server, id)] == archive)
    {
      var server := rows[id].server;
      t := Quiesce(id, forceOffline, saves);
      OnlyArtifactRefl(files, server, id);
      if t.raised { return; }
      hide OnlyArtifact;
      t := t.(raised := true);
      var packed := Pack(server, id, archive);
      if !packed { return; }
      if t.stopped {
        var startRaised := Raises();
        StartServer(server, startRaised);
        if startRaised { return; }
        SameRunning(old(running), running, server);
        t := t.(stopped := false);
      }
      var updateRaised := Raises();
      if updateRaised { return; }
      t := t.(raised := false);
    }

    /** The same up to the completing commit. */
    method CompleteBackup(id: BackupId, archive: string, forceOffline: bool, saves: bool) returns (t: Try)
      requires id in rows && ActiveStatus(rows[id].status) && Hexadecimal(digest)
      modifies this
      ensures stumbles >= old(stumbles) && (stumbles == old(stumbles) ==> (t.completed <==> archive != "") && !t.stopRaised)
      ensures OthersRun(old(running), running, old(rows)[id].server)
      ensures StillRuns(old(running), running, old(rows)[id].server, t)
      ensures t.stopped || t.stopRaised ==> old(rows)[id].server in old(running) && (forceOffline || !saves)
      ensures t.completed ==> !t.stopRaised
      ensures t.pathsKnown ==> (t.held <==> old(rows)[id].server in old(running) && !forceOffline && saves)
      ensures t.completed ==> t.pathsKnown
      ensures t.raised == !t.completed && !t.retentionRan && t.retention == None
      ensures t.raised ==> Unfinished(old(files), old(rows), files, rows, id, t)
      ensures t.completed ==> Finished(old(files), old(rows), digest, files, rows, id, archive) && !t.stopped && !t.tempHeld
    {
      RanOn(running, rows[id].server);
      hide *;
      var server := rows[id].server;
      t := WriteArchive(id, archive, forceOffline, saves);
      if t.raised {
        return;
      }
      RunsAsBefore(old(running), running, server, t);
      ghost var written := files;
      var artifact := CommitLocalArtifact(server, id);
      if artifact.Failure? {
        t := Try(true, false, true, true, false, false, None, t.held, false);
        CommitFailed(old(files), old(rows), written, files, rows, id, t);
        return;
      }
      rows := rows[id := rows[id].(status := Completed, checksum := artifact.value.checksum, size := artifact.value.size)];
      HexadecimalAt(digest, archive);
      CommittedJob(old(files), old(rows), written, files, digest, rows, id, archive);
      t := Try(false, false, true, false, true, false, None, t.held, false);
    }

    /**
      The guarded part of `run_backup_job`; any step may raise.  `archive` is what the archiver
      writes.  Retention works on the state left by the completing commit, `committed`.
     */
    method TryBackup(id: BackupId, archive: string, forceOffline: bool, saves: bool,
                     count: Option<int>, default: int, stuck: set<Path>)
      returns (t: Try, ghost committed: (Files, Rows), ghost listing: seq<BackupId>)
      requires id in rows && ActiveStatus(rows[id].status) && Hexadecimal(digest)
      modifies this
      ensures stumbles >= old(stumbles)
      ensures stumbles == old(stumbles) ==>
        (t.completed <==> archive != "") && (t.completed ==> t.retentionRan) && !t.stopRaised
      ensures OthersRun(old(running), running, old(rows)[id].server)
      ensures StillRuns(old(running), running, old(rows)[id].server, t)
      ensures t.stopped || t.stopRaised ==> old(rows)[id].server in old(running) && (forceOffline || !saves)
      ensures t.completed ==> !t.stopRaised
      ensures t.completed ==> (t.held <==> old(rows)[id].server in old(running) && !forceOffline && saves)
      ensures !t.completed ==> t.raised && Unfinished(old(files), old(rows), files, rows, id, t)
      ensures t.completed ==> Finished(old(files), old(rows), digest, committed.0, committed.1, id, archive)
      ensures t.completed ==> !t.stopped && !t.tempHeld
      ensures t.completed && t.retentionRan ==>
        var victims := Victims(listing, KeepCount(count, default));
        NewestFirst(committed.1, old(rows)[id].server, listing)
        && RetentionResult(committed.0, committed.1, old(rows)[id].server, victims, t.retention, files, rows)
        && t.retention == FirstStuck(old(rows)[id].server, victims, stuck) && (t.raised <==> t.retention.Some?)
      ensures t.completed && !t.retentionRan ==> t.raised && (files, rows) == committed && t.retention == None
    {
      RanOn(running, rows[id].server);
      hide *;
      var server := rows[id].server;
      listing := [];
      t := CompleteBackup(id, archive, forceOffline, saves);
      committed := (files, rows);
      if t.raised {
        return;
      }
      RunsAsBefore(old(running), running, server, t);
      var scheduleRaised := Raises();
      if scheduleRaised {
        t := t.(raised := true);
        return;
      }
      var retention: Option<Path>;
      listing, retention := ApplyRetention(server, count, default, stuck);
      t := t.(raised := retention.Some?, retentionRan := true, retention := retention);
    }

    /**
      The handler of `run_backup_job`.  Its inner handler rebinds the exception and unsets it, so
      when the server cannot be restarted the handler itself raises and commits nothing; `restarts`
      says whether it can.
     */
    method HandleFailure(id: BackupId, stopped: bool, restarts: bool) returns (handlerRaised: bool)
      requires id in rows
      modifies this`rows, this`running
      ensures handlerRaised <==> stopped && !restarts
      ensures OthersRun(old(running), running, old(rows)[id].server)
      ensures running == old(running) || (stopped && running == old(running) + {old(rows)[id].server})
      ensures stopped && restarts ==> old(rows)[id].server in running
      ensures handlerRaised ==> rows == old(rows)
      ensures !handlerRaised ==> rows == old(rows)[id := old(rows)[id].(status := Failed)]
    {
      handlerRaised := false;
      if stopped {
        StartServer(rows[id].server, !restarts);
        if !restarts {
          handlerRaised := true;
          return;
        }
      }
      rows := rows[id := rows[id].(status := Failed)];
    }

    /** The `finally` block of `run_backup_job`; false when a removal raised. */
    method CleanUp(id: BackupId, t: Try) returns (cleaned: bool)
      requires id in rows && (t.completed ==> !t.tempHeld)
      modifies this`files, this`stumbles
      ensures stumbles >= old(stumbles) && (stumbles == old(stumbles) ==> cleaned)
      ensures OnlyArtifact(old(files), files, rows[id].server, id)
      ensures t.completed || (!t.pathsKnown && !t.tempHeld) ==> cleaned && files == old(files)
      ensures cleaned && t.pathsKnown && t.tempHeld && !t.completed && !rows[id].status.Completed? ==>
        ArtifactGone(files, rows[id].server, id)
    {
      var server := rows[id].server;
      if t.tempHeld && Temp(server, id) in files {
        var tempStuck := Raises();
        cleaned := Unlink(Temp(server, id), tempStuck);
        if !cleaned { return; }
      }
      if t.pathsKnown && !t.completed && !rows[id].status.Completed? {
        var archiveStuck := Raises();
        cleaned := Unlink(Archive(server, id), archiveStuck);
        if !cleaned { return; }
        var sidecarStuck := Raises();
        cleaned := Unlink(Sidecar(server, id), sidecarStuck);
        if !cleaned { return; }
      }
      cleaned := true;
    }

    /** The handler and the `finally` block. */
    method EndJob(id: BackupId, t: Try, restarts: bool) returns (handlerRaised: bool, cleaned: bool)
      requires id in rows && (t.completed ==> !t.tempHeld && !t.stopped)
      requires !t.completed ==> t.raised && !rows[id].status.Completed? && (t.tempHeld <==> t.pathsKnown)
      modifies this
      ensures OthersRun(old(running), running, old(rows)[id].server)
      ensures running == old(running) || (t.raised && t.stopped && running == old(running) + {old(rows)[id].server})
      ensures t.raised && t.stopped && restarts ==> old(rows)[id].server in running
      ensures rows == if t.raised && !handlerRaised then MarkedFailed(old(rows), id) else old(rows)
      ensures handlerRaised <==> t.raised && t.stopped && !restarts
      ensures stumbles >= old(stumbles) && (stumbles == old(stumbles) ==> cleaned)
      ensures t.completed ==> files == old(files)
      ensures OnlyArtifact(old(files), files, old(rows)[id].server, id)
      ensures !t.pathsKnown && !t.completed ==> files == old(files)
      ensures cleaned && t.pathsKnown && !t.completed ==> ArtifactGone(files, old(rows)[id].server, id)
    {
      hide OnlyArtifact, ArtifactGone;
      handlerRaised := false;
      if t.raised {
        handlerRaised := HandleFailure(id, t.stopped, restarts);
      }
      cleaned := CleanUp(id, t);
    }

    /**
      `run_backup_job`; `stuck` are the files that retention cannot remove.  Every completed row
      still passes the verification, except when retention ran and the first stuck file it met is
      the checksum file of another backup.  A job that raises before its completing commit
      leaves no file of its own; its row stays active exactly when the handler raised too.
     */
    method RunBackupJob(id: BackupId, archive: string, forceOffline: bool, saves: bool,
                        count: Option<int>, default: int, restarts: bool, stuck: set<Path>)
      returns (t: Try, handlerRaised: bool, cleaned: bool, ghost committed: (Files, Rows), ghost listing: seq<BackupId>)
      requires id in rows && ActiveStatus(rows[id].status) && Sound(files, digest, rows) && Hexadecimal(digest)
      modifies this
      ensures id in rows
      ensures !t.completed ==> t.raised && JobFailed(old(files), old(rows), files, rows, id, t, handlerRaised, cleaned)
      ensures handlerRaised <==> t.raised && t.stopped && !restarts
      ensures OthersRun(old(running), running, old(rows)[id].server)
      ensures old(rows)[id].server in old(running) && !t.stopRaised && !handlerRaised ==> old(rows)[id].server in running
      ensures old(rows)[id].server !in old(running) ==> running == old(running)
      ensures t.stopped || t.stopRaised ==> old(rows)[id].server in old(running) && (forceOffline || !saves)
      ensures t.completed ==> (t.held <==> old(rows)[id].server in old(running) && !forceOffline && saves)
      ensures stumbles == old(stumbles) ==>
        (t.completed <==> archive != "") && (t.completed ==> t.retentionRan) && cleaned && !t.stopRaised
      ensures t.completed && !t.raised ==>
        var server, victims := old(rows)[id].server, Victims(listing, KeepCount(count, default));
        t.retentionRan && files == Without(committed.0, ArtifactsOf(server, victims)) && rows == Marked(committed.1, victims)
      ensures t.completed && t.raised ==> !handlerRaised && rows[id].status.Failed?
      ensures t.completed ==> Finished(old(files), old(rows), digest, committed.0, committed.1, id, archive)
      ensures t.completed && t.retentionRan ==> NewestFirst(committed.1, old(rows)[id].server, listing)
      ensures t.completed && t.retentionRan ==>
        t.retention == FirstStuck(old(rows)[id].server, Victims(listing, KeepCount(count, default)), stuck)
      ensures Sound(files, digest, rows) <==>
        !(t.completed && t.retentionRan
          && var p := FirstStuck(old(rows)[id].server, Victims(listing, KeepCount(count, default)), stuck);
             p.Some? && p.value.Sidecar? && p.value.backup != id)
    {
      hide *;
      t, committed, listing := TryBackup(id, archive, forceOffline, saves, count, default, stuck);
      ghost var victims := if t.retentionRan then Victims(listing, KeepCount(count, default)) else [];
      NoCandidates(committed.1, old(rows)[id].server);
      ghost var files1, rows1 := files, rows;
      if t.completed {
        FinishedSound(old(files), old(rows), digest, committed.0, committed.1, id, archive);
        if t.retentionRan {
          VictimsAreCandidates(committed.1, old(rows)[id].server, listing, KeepCount(count, default));
          RetentionFinished(committed.0, committed.1, old(rows)[id].server, victims, t.retention, files, rows);
        }
        RetentionEnds(committed.0, committed.1, digest, id, victims, t, files1, rows1);
      } else {
        UnfinishedRow(old(files), old(rows), files1, rows1, id, t);
      }
      ghost var running1 := running;
      handlerRaised, cleaned := EndJob(id, t, restarts);
      RunsAgain(old(running), running1, running, old(rows)[id].server, t, restarts);
      MarkedRow(rows1, id);
      if !t.completed {
        FailedJob(old(files), old(rows), files1, rows1, files, rows, digest, id, t, handlerRaised, cleaned);
      }
    }
  }

  /**
    How the guarded part ended: whether it raised, whether the server was left stopped, whether the
    paths were set and the temporary file is still the job's to remove, whether the completing
    commit was made, where retention raised, whether the archive was written with the server's saves
    held, the consistency method of the row, and whether the call to stop the server raised.
   */
  datatype Try = Try(raised: bool, stopped: bool, pathsKnown: bool, tempHeld: bool, completed: bool,
                     retentionRan: bool, retention: Option<Path>, held: bool, stopRaised: bool)

  /** Only this server was stopped or started. */
  predicate OthersRun(a: set<ServerId>, b: set<ServerId>, server: ServerId) {
    a - {server} == b - {server}
  }

  /** Unless the job stopped the server, or its call to stop it raised, the server runs as before. */
  predicate StillRuns(a: set<ServerId>, b: set<ServerId>, server: ServerId, t: Try) {
    !t.stopped && !t.stopRaised ==> b == a
  }

  lemma SameRunning(a: set<ServerId>, b: set<ServerId>, server: ServerId)
    requires OthersRun(a, b, server) && server in a && server in b
    ensures a == b
  {
    forall s ensures s in a <==> s in b {
      assert s in a - {server} <==> s in b - {server};
    }
  }

  lemma RanOn(a: set<ServerId>, server: ServerId)
    ensures OthersRun(a, a, server) && forall t :: StillRuns(a, a, server, t)
  {
  }

  lemma RunsAsBefore(a: set<ServerId>, b: set<ServerId>, server: ServerId, t: Try)
    requires StillRuns(a, b, server, t) && !t.stopped && !t.stopRaised
    ensures b == a
  {
  }

  lemma OnlyArtifactRefl(files: Files, server: ServerId, id: BackupId)
    ensures OnlyArtifact(files, files, server, id)
  {
  }

  lemma RunsAgain(a: set<ServerId>, b: set<ServerId>, c: set<ServerId>, server: ServerId, t: Try, restarts: bool)
    requires OthersRun(a, b, server) && StillRuns(a, b, server, t)
    requires OthersRun(b, c, server) && (c == b || (t.raised && t.stopped && c == b + {server}))
    requires t.raised && t.stopped && restarts ==> server in c
    requires t.stopped || t.stopRaised ==> server in a
    requires t.stopped ==> t.raised
    ensures OthersRun(a, c, server)
    ensures server in a && !t.stopRaised && !(t.raised && t.stopped && !restarts) ==> server in c
    ensures server !in a ==> c == a
  {
  }

  /** The job raised before its completing commit: only its own files and its status changed. */
  ghost predicate Unfinished(files0: Files, rows0: Rows, files: Files, rows: Rows, id: BackupId, t: Try) {
    id in rows0 && id in rows && rows == rows0[id := rows[id]]
    && (rows[id] == rows0[id] || rows[id] == rows0[id].(status := Running))
    && (t.stopped ==> rows[id].status.Running?)
    && OnlyArtifact(files0, files, rows0[id].server, id)
    && (!t.pathsKnown ==> files == files0)
    && (t.tempHeld <==> t.pathsKnown)
  }

  /** A job that failed before its completing commit, after its handler and its clean-up. */
  ghost predicate JobFailed(files0: Files, rows0: Rows, files: Files, rows: Rows, id: BackupId, t: Try,
                            handlerRaised: bool, cleaned: bool)
  {
    id in rows0 && id in rows && OnlyArtifact(files0, files, rows0[id].server, id)
    && rows == rows0[id := rows[id]] && rows[id] == rows0[id].(status := rows[id].status)
    && (if handlerRaised then t.stopped && rows[id].status.Running? else rows[id].status.Failed?)
    && (cleaned ==> files == files0 || ArtifactGone(files, rows0[id].server, id))
  }

  lemma UnfinishedRow(files0: Files, rows0: Rows, files: Files, rows: Rows, id: BackupId, t: Try)
    requires Unfinished(files0, rows0, files, rows, id, t) && ActiveStatus(rows0[id].status)
    ensures id in rows && !rows[id].status.Completed? && rows[id].server == rows0[id].server
    ensures t.tempHeld <==> t.pathsKnown
  {
  }

  lemma MarkedRow(rows: Rows, id: BackupId)
    requires id in rows
    ensures id in MarkedFailed(rows, id) && MarkedFailed(rows, id)[id].status.Failed?
  {
  }

  lemma FinishedSound(files0: Files, rows0: Rows, digest: Digest, files: Files, rows: Rows, id: BackupId, archive: string)
    requires Sound(files0, digest, rows0) && Finished(files0, rows0, digest, files, rows, id, archive)
    ensures Sound(files, digest, rows)
    ensures id in rows && rows[id].server == rows0[id].server
  {
    hide Sound, Passes;
    SoundElsewhere(files0, files, digest, rows0, rows, id);
  }

  lemma FailedJob(files0: Files, rows0: Rows, files1: Files, rows1: Rows, files: Files, rows: Rows, digest: Digest,
                  id: BackupId, t: Try, handlerRaised: bool, cleaned: bool)
    requires Sound(files0, digest, rows0) && Unfinished(files0, rows0, files1, rows1, id, t) && !t.completed
    requires ActiveStatus(rows0[id].status)
    requires if handlerRaised then t.stopped && rows == rows1 else rows == MarkedFailed(rows1, id)
    requires OnlyArtifact(files1, files, rows0[id].server, id)
    requires !t.pathsKnown ==> files == files1
    requires cleaned && t.pathsKnown ==> ArtifactGone(files, rows0[id].server, id)
    ensures JobFailed(files0, rows0, files, rows, id, t, handlerRaised, cleaned)
    ensures Sound(files, digest, rows)
  {
    hide Sound, Passes, ArtifactGone;
    SoundElsewhere(files0, files, digest, rows0, rows, id);
  }

  /** The job's own row once its handler marked it as failed. */
  function MarkedFailed(rows: Rows, id: BackupId): Rows
    requires id in rows
  {
    rows[id := rows[id].(status := Failed)]
  }

  lemma SoundMarkedFailed(files: Files, digest: Digest, rows: Rows, id: BackupId)
    requires Sound(files, digest, rows) && id in rows
    ensures Sound(files, digest, MarkedFailed(rows, id))
  {
    hide Passes;
  }

  /** How the rows stand after retention and, when it or the schedule's update raised, after the handler. */
  lemma RetentionEnds(files0: Files, rows0: Rows, digest: Digest, id: BackupId, victims: seq<BackupId>, t: Try,
                      files: Files, rows: Rows)
    requires Sound(files0, digest, rows0) && id in rows0 && t.completed
    requires AllCandidates(rows0, rows0[id].server, victims)
    requires t.retentionRan ==>
      RetentionResult(files0, rows0, rows0[id].server, victims, t.retention, files, rows) && (t.raised <==> t.retention.Some?)
    requires !t.retentionRan ==> t.raised && files == files0 && rows == rows0 && t.retention == None
    ensures id in rows
    ensures Sound(files, digest, if t.raised then MarkedFailed(rows, id) else rows) <==>
      !(t.retention.Some? && t.retention.value.Sidecar? && t.retention.value.backup != id)
  {
    hide Sound, Passes, AllCandidates, RetentionResult;
    var server := rows0[id].server;
    if !t.retentionRan {
      SoundMarkedFailed(files, digest, rows, id);
    } else {
      RetentionSoundIff(files0, digest, rows0, server, victims, t.retention, files, rows);
      RetentionKeys(files0, rows0, server, victims, t.retention, files, rows);
      if t.retention.Some? {
        if t.retention.value.Sidecar? {
          LostVictim(files0, digest, rows0, server, victims, t.retention.value, files, rows);
          if t.retention.value.backup != id {
            LostArchive(files, digest, MarkedFailed(rows, id), t.retention.value.backup);
          }
        } else {
          SoundMarkedFailed(files, digest, rows, id);
        }
      }
    }
  }

  lemma RetentionKeys(files0: Files, rows0: Rows, server: ServerId, victims: seq<BackupId>, raised: Option<Path>,
                      files: Files, rows: Rows)
    requires RetentionResult(files0, rows0, server, victims, raised, files, rows)
    ensures rows.Keys == rows0.Keys && (raised.Some? ==> !raised.value.Temp?)
  {
  }

  /** The one backup whose checksum file could not be removed is the only one that lost its archive. */
  lemma LostVictim(files0: Files, digest: Digest, rows0: Rows, server: ServerId, victims: seq<BackupId>, raised: Path,
                   files: Files, rows: Rows)
    requires Sound(files0, digest, rows0) && AllCandidates(rows0, server, victims) && raised.Sidecar?
    requires RetentionResult(files0, rows0, server, victims, Some(raised), files, rows)
    ensures raised.backup in rows && rows[raised.backup].status.Completed? && rows[raised.backup].server == server
    ensures Archive(server, raised.backup) !in files
    ensures Sound(files, digest, MarkedFailed(rows, raised.backup))
  {
    hide Sound, Passes, AllCandidates, ArtifactsOf;
    var k: nat :| StoppedAt(files0, rows0, server, victims, raised, files, rows, k);
    PrefixCandidates(rows0, server, victims, k);
    SoundWithout(files0, digest, rows0, server, victims[..k]);
    var v := victims[k];
    SoundElsewhere(Without(files0, ArtifactsOf(server, victims[..k])), files, digest, rows, MarkedFailed(rows, v), v);
  }

  /** The state at the completing commit. */
  ghost predicate Finished(files0: Files, rows0: Rows, digest: Digest, files: Files, rows: Rows, id: BackupId, archive: string) {
    id in rows0 && id in rows && rows == rows0[id := rows[id]]
    && rows[id] == rows0[id].(status := Completed, checksum := digest(archive), size := |archive|)
    && OnlyArtifact(files0, files, rows0[id].server, id)
    && Archive(rows0[id].server, id) in files && files[Archive(rows0[id].server, id)] == archive
    && Temp(rows0[id].server, id) !in files
    && Passes(files, digest, id, rows[id])
  }

  /** So once a job completed with `archive`, its row passes, on any later files, exactly if they still hold that artifact. */
  lemma FinishedPassesIff(files0: Files, rows0: Rows, digest: Digest, files: Files, rows: Rows, id: BackupId, archive: string,
                          later: Files)
    requires Finished(files0, rows0, digest, files, rows, id, archive)
    ensures Passes(later, digest, id, rows[id]) <==>
              Intact(later, digest, rows[id].server, id, digest(archive), |archive|)
  {
    hide Intact;
    PassesIffIntact(later, digest, id, rows[id]);
    PassesIffIntact(files, digest, id, rows[id]);
  }

  datatype Deletion = Removed | Refused | Raised(step: nat)

  /** What `delete_backup` removes in its step `i`. */
  function DeletedFile(server: ServerId, id: BackupId, i: nat): Path {
    if i == 0 then Archive(server, id) else if i == 1 then Sidecar(server, id) else Temp(server, id)
  }

  /** The first `i` of those files can be removed. */
  predicate NoneStuck(server: ServerId, id: BackupId, stuck: set<Path>, i: nat) {
    forall j :: 0 <= j < i ==> DeletedFile(server, id, j) !in stuck
  }

  /** The files of a backup that `delete_backup` removes before its step `i`. */
  function Earlier(server: ServerId, id: BackupId, i: nat): set<Path> {
    (if i > 0 then {Archive(server, id)} else {})
    + (if i > 1 then {Sidecar(server, id)} else {})
    + (if i > 2 then {Temp(server, id)} else {})
  }

  lemma EarlierMore(files: Files, server: ServerId, id: BackupId, i: nat)
    requires i < 3
    ensures var p := DeletedFile(server, id, i);
      Without(Without(files, Earlier(server, id, i)), {p}) == Without(files, Earlier(server, id, i + 1))
      && OnlyArtifact(files, Without(files, Earlier(server, id, i)), server, id)
  {
  }

  ghost predicate ArtifactGone(files: Files, server: ServerId, id: BackupId) {
    Archive(server, id) !in files && Sidecar(server, id) !in files && Temp(server, id) !in files
  }

  lemma NoCandidates(rows: Rows, server: ServerId)
    ensures AllCandidates(rows, server, [])
  {
  }

  lemma CommitFailed(files0: Files, rows0: Rows, written: Files, files: Files, rows: Rows, id: BackupId, t: Try)
    requires id in rows0 && rows == rows0[id := rows0[id].(status := Running)]
    requires OnlyArtifact(files0, written, rows0[id].server, id) && OnlyArtifact(written, files, rows0[id].server, id)
    requires !t.stopped && t.pathsKnown && t.tempHeld
    ensures Unfinished(files0, rows0, files, rows, id, t)
  {
  }

  lemma HexadecimalAt(digest: Digest, s: string)
    requires Hexadecimal(digest)
    ensures IsHex(digest(s))
  {
  }

  lemma CommittedJob(files0: Files, rows0: Rows, written: Files, files: Files, digest: Digest, rows: Rows, id: BackupId,
                     archive: string)
    requires id in rows0 && OnlyArtifact(files0, written, rows0[id].server, id) && archive != "" && IsHex(digest(archive))
    requires var server := rows0[id].server;
      Temp(server, id) in written && written[Temp(server, id)] == archive && files == CommittedFiles(written, digest, server, id)
    requires rows == rows0[id := rows0[id].(status := Completed, checksum := digest(archive), size := |archive|)]
    ensures Finished(files0, rows0, digest, files, rows, id, archive)
  {
    hide Passes, CommittedFiles, IsHex;
    CommittedPasses(written, digest, rows0[id].server, id, rows[id]);
    CommittedElsewhere(written, digest, rows0[id].server, id);
  }

  lemma VictimsAreCandidates(rows: Rows, server: ServerId, listing: seq<BackupId>, keep: nat)
    requires NewestFirst(rows, server, listing)
    ensures AllCandidates(rows, server, Victims(listing, keep))
  {
    var victims := Victims(listing, keep);
    forall i | 0 <= i < |victims| ensures Candidate(rows, server, victims[i]) {
      assert victims[i] in listing;
    }
  }

  lemma RetentionFinished(files0: Files, rows0: Rows, server: ServerId, victims: seq<BackupId>, raised: Option<Path>,
                          files: Files, rows: Rows)
    requires RetentionResult(files0, rows0, server, victims, raised, files, rows)
    ensures raised.None? ==> rows == Marked(rows0, victims) && files == Without(files0, ArtifactsOf(server, victims))
  {
  }

  lemma RetentionCommitted(files0: Files, rows0: Rows, server: ServerId, victims: seq<BackupId>, raised: Option<Path>,
                           files: Files, rows: Rows)
    requires RetentionResult(files0, rows0, server, victims, raised, files, rows)
    ensures raised.None? ==> rows == Marked(rows0, victims)
  {
  }

  /** Rows that did not become complete keep passing when only one unfinished backup's files change. */
  lemma SoundElsewhere(files0: Files, files: Files, digest: Digest, rows0: Rows, rows: Rows, id: BackupId)
    requires Sound(files0, digest, rows0) && id in rows0 && OnlyArtifact(files0, files, rows0[id].server, id)
    requires id in rows && rows == rows0[id := rows[id]] && rows[id].server == rows0[id].server
    requires rows[id].status.Completed? ==> Passes(files, digest, id, rows[id])
    ensures Sound(files, digest, rows)
  {
    hide Passes;
    forall b | b in rows && rows[b].status.Completed? ensures Passes(files, digest, b, rows[b]) {
      if b != id {
        PassesElsewhere(files0, files, digest, b, rows[b]);
      }
    }
  }

  lemma DeletionRaised(files0: Files, files: Files, digest: Digest, rows: Rows, id: BackupId, i: nat)
    requires id in rows && Sound(files0, digest, rows) && i <= 3
    requires files == Without(files0, Earlier(rows[id].server, id, i))
    ensures Sound(files, digest, rows) <==> !(i > 0 && rows[id].status.Completed?)
  {
    hide Passes, Sound;
    if i > 0 {
      if rows[id].status.Completed? {
        LostArchive(files, digest, rows, id);
      } else {
        SoundElsewhere(files0, files, digest, rows, rows, id);
      }
    } else {
      WithoutNothing(files0);
    }
  }

  lemma RetentionStart(files: Files, rows: Rows, server: ServerId, victims: seq<BackupId>)
    ensures rows == Marked(rows, victims[..0]) && files == Without(files, ArtifactsOf(server, victims[..0]))
  {
    assert ArtifactsOf(server, victims[..0]) == {};
  }

  lemma RetentionStops(files0: Files, rows0: Rows, server: ServerId, victims: seq<BackupId>, k: nat, raised: Path,
                       files: Files, rows: Rows)
    requires k < |victims| && rows == Marked(rows0, victims[..k])
    requires raised == Archive(server, victims[k]) || raised == Sidecar(server, victims[k])
    requires raised.Archive? ==> files == Without(files0, ArtifactsOf(server, victims[..k]))
    requires raised.Sidecar? ==>
      files == Without(Without(files0, ArtifactsOf(server, victims[..k])), {Archive(server, victims[k])})
    ensures RetentionResult(files0, rows0, server, victims, Some(raised), files, rows)
  {
    WithoutNothing(Without(files0, ArtifactsOf(server, victims[..k])));
    assert StoppedAt(files0, rows0, server, victims, raised, files, rows, k);
  }

  lemma RetentionDone(files0: Files, rows0: Rows, server: ServerId, victims: seq<BackupId>, files: Files, rows: Rows)
    requires rows == Marked(rows0, victims) && files == Without(files0, ArtifactsOf(server, victims))
    ensures RetentionResult(files0, rows0, server, victims, None, files, rows)
  {
  }

  /** The first file of the backups that cannot be removed, in the order retention goes. */
  function FirstStuck(server: ServerId, ids: seq<BackupId>, stuck: set<Path>): Option<Path> {
    if ids == [] then None
    else if Archive(server, ids[0]) in stuck then Some(Archive(server, ids[0]))
    else if Sidecar(server, ids[0]) in stuck then Some(Sidecar(server, ids[0]))
    else FirstStuck(server, ids[1..], stuck)
  }

  lemma StuckStep(server: ServerId, ids: seq<BackupId>, stuck: set<Path>)
    requires ids != []
    ensures FirstStuck(server, ids, stuck) ==
      if Archive(server, ids[0]) in stuck then Some(Archive(server, ids[0]))
      else if Sidecar(server, ids[0]) in stuck then Some(Sidecar(server, ids[0]))
      else FirstStuck(server, ids[1..], stuck)
  {
  }

  lemma NothingStuck(server: ServerId, stuck: set<Path>)
    ensures FirstStuck(server, [], stuck) == None
  {
  }

  lemma {:induction false} FirstStuckIff(server: ServerId, ids: seq<BackupId>, stuck: set<Path>)
    ensures FirstStuck(server, ids, stuck) == None <==> ArtifactsOf(server, ids) !! stuck
    ensures ids != [] ==>
      (FirstStuck(server, ids, stuck) == Some(Archive(server, ids[0])) <==> Archive(server, ids[0]) in stuck)
    ensures var p := FirstStuck(server, ids, stuck); p.Some? ==> p.value in stuck && p.value in ArtifactsOf(server, ids)
  {
    if ids != [] {
      FirstStuckIff(server, ids[1..], stuck);
      assert ids[0] in ids;
      forall p: Path
        ensures p in ArtifactsOf(server, ids) <==>
          p in ArtifactsOf(server, ids[1..]) || p == Archive(server, ids[0]) || p == Sidecar(server, ids[0])
      {
        ArtifactsMember(server, ids, p);
        ArtifactsMember(server, ids[1..], p);
        assert p.backup in ids <==> p.backup == ids[0] || p.backup in ids[1..];
      }
    }
  }

  lemma WithoutNothing(files: Files)
    ensures Without(files, {}) == files
  {
  }

  lemma OneMore(files: Files, rows: Rows, server: ServerId, victims: seq<BackupId>, i: nat)
    requires i < |victims| && victims[i] in rows
    ensures var id := victims[i];
      id in Marked(rows, victims[..i])
      && Marked(rows, victims[..i])[id := Marked(rows, victims[..i])[id].(status := Deleted)] == Marked(rows, victims[..i + 1])
      && Without(Without(Without(files, ArtifactsOf(server, victims[..i])), {Archive(server, id)}), {Sidecar(server, id)})
         == Without(files, ArtifactsOf(server, victims[..i + 1]))
  {
    assert victims[..i + 1] == victims[..i] + [victims[i]];
    assert victims[..i + 1][..i] == victims[..i];
  }

  function Victims(listing: seq<BackupId>, keep: nat): seq<BackupId> {
    if keep < |listing| then listing[keep..] else []
  }

  /** The state after retention removed some of `victims`, all of them unless it raised. */
  ghost predicate RetentionResult(files0: Files, rows0: Rows, server: ServerId, victims: seq<BackupId>,
                                  raised: Option<Path>, files: Files, rows: Rows)
  {
    match raised
    case None => rows == Marked(rows0, victims) && files == Without(files0, ArtifactsOf(server, victims))
    case Some(p) => exists k :: StoppedAt(files0, rows0, server, victims, p, files, rows, k)
  }

  /** Retention failed at the archive or the checksum file of the `k`-th victim. */
  ghost predicate StoppedAt(files0: Files, rows0: Rows, server: ServerId, victims: seq<BackupId>, raised: Path,
                            files: Files, rows: Rows, k: nat)
  {
    k < |victims|
    && raised in {Archive(server, victims[k]), Sidecar(server, victims[k])}
    && rows == Marked(rows0, victims[..k])
    && files == Without(Without(files0, ArtifactsOf(server, victims[..k])),
                        if raised.Sidecar? then {Archive(server, victims[k])} else {})
  }

  lemma NewestExists(rows: Rows, pool: set<BackupId>)
    requires pool != {} && forall b :: b in pool ==> b in rows
    ensures exists a :: a in pool && forall b :: b in pool ==> rows[b].created <= rows[a].created
  {
    var created := (b: BackupId) => if b in rows then rows[b].created else 0;
    GreatestExists<BackupId>(pool, created);
    var a :| a in pool && forall b :: b in pool ==> created(b) <= created(a);
    assert forall b :: b in pool ==> rows[b].created <= rows[a].created;
  }

  // ---------------------------------------------------------------------------
  // What retention leaves
  // ---------------------------------------------------------------------------

  lemma {:induction false} ListingSize(rows: Rows, pool: set<BackupId>, listing: seq<BackupId>)
    requires NoRepeats(listing) && forall b :: b in pool <==> b in listing
    ensures |pool| == |listing|
  {
    if listing == [] {
      assert pool == {};
    } else {
      var last := listing[|listing| - 1];
      assert last in pool;
      var rest := listing[..|listing| - 1];
      assert forall b :: b in rest <==> b in listing && b != last by {
        assert listing == rest + [last];
      }
      ListingSize(rows, pool - {last}, rest);
    }
  }

  /**
    The backups retention leaves are as many of the newest as it may keep; pinned ones, other
    servers' and unfinished ones keep their rows, and so do the survivors.
   */
  lemma RetentionKeepsNewest(rows: Rows, server: ServerId, listing: seq<BackupId>, keep: nat)
    requires NewestFirst(rows, server, listing)
    ensures var after := Marked(rows, Victims(listing, keep));
      |Candidates(after, server)| == (if |Candidates(rows, server)| < keep then |Candidates(rows, server)| else keep)
      && (forall a :: Candidate(after, server, a) ==> Candidate(rows, server, a) && after[a] == rows[a])
      && (forall a, v :: Candidate(after, server, a) && Candidate(rows, server, v) && !Candidate(after, server, v) ==>
            NotOlder(rows, a, v) && after[v].status.Deleted?)
      && (forall b :: b in rows && !Candidate(rows, server, b) ==> after[b] == rows[b])
  {
    var victims := Victims(listing, keep);
    var after := Marked(rows, victims);
    var kept := if keep < |listing| then listing[..keep] else listing;
    assert listing == kept + victims;
    SurvivorsAre(rows, server, listing, keep, kept, victims);
    ListingSize(after, Candidates(after, server), kept);
    ListingSize(rows, Candidates(rows, server), listing);
  }

  lemma SurvivorsAre(rows: Rows, server: ServerId, listing: seq<BackupId>, keep: nat, kept: seq<BackupId>, victims: seq<BackupId>)
    requires NewestFirst(rows, server, listing) && listing == kept + victims
    ensures NoRepeats(kept)
    ensures forall b :: Candidate(Marked(rows, victims), server, b) <==> b in kept
    ensures forall a, v :: a in kept && v in victims ==> NotOlder(rows, a, v)
  {
    assert forall i :: 0 <= i < |kept| ==> kept[i] == listing[i];
    assert forall i :: 0 <= i < |victims| ==> victims[i] == listing[|kept| + i];
    forall a, v | a in kept && v in victims ensures NotOlder(rows, a, v) && a != v {
      var i :| 0 <= i < |kept| && kept[i] == a;
      var j :| 0 <= j < |victims| && victims[j] == v;
      assert NotOlder(rows, listing[i], listing[|kept| + j]);
    }
    forall b ensures Candidate(Marked(rows, victims), server, b) <==> b in kept {
      assert b in listing <==> b in kept || b in victims;
    }
  }

  /** Applied again with the same count, retention finds nothing to remove. */
  lemma RetentionSettles(rows: Rows, server: ServerId, listing: seq<BackupId>, again: seq<BackupId>, keep: nat)
    requires NewestFirst(rows, server, listing)
    requires NewestFirst(Marked(rows, Victims(listing, keep)), server, again)
    ensures Victims(again, keep) == []
  {
    RetentionKeepsNewest(rows, server, listing, keep);
    var after := Marked(rows, Victims(listing, keep));
    ListingSize(after, Candidates(after, server), again);
  }

  lemma PassesElsewhere(a: Files, b: Files, digest: Digest, id: BackupId, row: Row)
    requires SameArtifact(a, b, row.server, id)
    ensures Passes(a, digest, id, row) <==> Passes(b, digest, id, row)
  {
    hide Strip, IsHex;
    assert Archive(row.server, id) in {Archive(row.server, id), Sidecar(row.server, id)};
    assert Sidecar(row.server, id) in {Archive(row.server, id), Sidecar(row.server, id)};
  }

  ghost predicate AllCandidates(rows: Rows, server: ServerId, victims: seq<BackupId>) {
    NoRepeats(victims) && forall i :: 0 <= i < |victims| ==> Candidate(rows, server, victims[i])
  }

  /** With the removed backups marked, every other completed row keeps its artifact. */
  lemma SoundWithout(files: Files, digest: Digest, rows: Rows, server: ServerId, victims: seq<BackupId>)
    requires Sound(files, digest, rows) && AllCandidates(rows, server, victims)
    ensures Sound(Without(files, ArtifactsOf(server, victims)), digest, Marked(rows, victims))
  {
    hide Passes;
    var left := Without(files, ArtifactsOf(server, victims));
    var after := Marked(rows, victims);
    forall b | b in after && after[b].status.Completed? ensures Passes(left, digest, b, after[b]) {
      ArtifactsMember(server, victims, Archive(rows[b].server, b));
      ArtifactsMember(server, victims, Sidecar(rows[b].server, b));
      PassesElsewhere(files, left, digest, b, rows[b]);
    }
  }

  lemma LostArchive(files: Files, digest: Digest, rows: Rows, id: BackupId)
    requires id in rows && rows[id].status.Completed? && Archive(rows[id].server, id) !in files
    ensures !Sound(files, digest, rows)
  {
    assert !Passes(files, digest, id, rows[id]);
  }

  lemma PrefixCandidates(rows: Rows, server: ServerId, victims: seq<BackupId>, k: nat)
    requires AllCandidates(rows, server, victims) && k <= |victims|
    ensures AllCandidates(rows, server, victims[..k])
    ensures k < |victims| ==> victims[k] !in victims[..k] && Candidate(rows, server, victims[k]) && victims[k] in rows
  {
  }

  /**
    When retention raises and its caller commits what the session holds, every completed row still
    passes exactly if it was an archive that could not be removed: after a checksum file that could
    not be, a completed row has lost its archive.
   */
  lemma RetentionSoundIff(files0: Files, digest: Digest, rows0: Rows, server: ServerId, victims: seq<BackupId>,
                          raised: Option<Path>, files: Files, rows: Rows)
    requires Sound(files0, digest, rows0) && AllCandidates(rows0, server, victims)
    requires RetentionResult(files0, rows0, server, victims, raised, files, rows)
    ensures Sound(files, digest, rows) <==> raised.None? || raised.value.Archive?
  {
    hide Sound, Passes, AllCandidates, ArtifactsOf;
    match raised
    case None =>
      SoundWithout(files0, digest, rows0, server, victims);
    case Some(p) =>
      var k: nat :| StoppedAt(files0, rows0, server, victims, p, files, rows, k);
      PrefixCandidates(rows0, server, victims, k);
      SoundWithout(files0, digest, rows0, server, victims[..k]);
      WithoutNothing(Without(files0, ArtifactsOf(server, victims[..k])));
      if p.Sidecar? {
        LostArchive(files, digest, rows, victims[k]);
      }
  }

  /**
    When it raises and its caller rolls the session back, every completed row still passes exactly
    if the very first removal failed.
   */
  lemma RolledBackRetentionSoundIff(files0: Files, digest: Digest, rows0: Rows, server: ServerId, victims: seq<BackupId>,
                                    raised: Path, files: Files, rows: Rows)
    requires Sound(files0, digest, rows0) && AllCandidates(rows0, server, victims)
    requires RetentionResult(files0, rows0, server, victims, Some(raised), files, rows)
    ensures Sound(files, digest, rows0) <==> victims != [] && raised == Archive(server, victims[0])
  {
    hide Sound, Passes, AllCandidates;
    var k: nat :| StoppedAt(files0, rows0, server, victims, raised, files, rows, k);
    var id := victims[0];
    PrefixCandidates(rows0, server, victims, 0);
    PrefixCandidates(rows0, server, victims, k);
    if k == 0 && raised.Archive? {
      assert ArtifactsOf(server, victims[..0]) == {};
      WithoutNothing(files0);
    } else {
      FirstVictimGone(files0, server, victims, k, raised, files);
      LostArchive(files, digest, rows0, id);
      assert k > 0 ==> victims[k] != id by {
        assert k > 0 ==> victims[..k][0] == id;
      }
    }
  }

  lemma FirstVictimGone(files0: Files, server: ServerId, victims: seq<BackupId>, k: nat, raised: Path, files: Files)
    requires k < |victims| && (k == 0 ==> raised.Sidecar?)
    requires files == Without(Without(files0, ArtifactsOf(server, victims[..k])),
                              if raised.Sidecar? then {Archive(server, victims[k])} else {})
    ensures Archive(server, victims[0]) !in files
  {
    if k > 0 {
      assert victims[..k][0] == victims[0];
      ArtifactsMember(server, victims[..k], Archive(server, victims[0]));
    }
  }
}
