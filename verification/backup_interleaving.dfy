/**
  Backup jobs, retentions and deletions of many backups as they interleave, one file operation or
  one commit at a time.  Which steps a job may take depends on its row and on whether it verified
  its artifact, so they come in more orders here than in `run_backup_job`.
 */
module BackupInterleaving {
  import opened Wrappers
  import opened BackupArtifacts

  type WorkerId = nat

  /**
    The storage and the committed rows.  `verified` are the artifacts whose jobs have verified them
    and not yet committed, `removals` the victims of the retentions and deletions under way.  For
    the record, `gone` are the backups that lost a file of their artifact to a removal, and
    `dropped` the victims of removals that ended without marking them.
   */
  datatype World = World(files: Files, rows: Rows, verified: map<BackupId, Stored>,
                         removals: map<WorkerId, seq<BackupId>>, gone: set<BackupId>, dropped: set<BackupId>)

  datatype Event =
    | Create(id: BackupId, server: ServerId, created: int)
    | Progress(id: BackupId, status: Status)
    | Write(id: BackupId, path: Path, content: string)
    | VerifyOwn(id: BackupId)
    | Complete(id: BackupId)
    | Raise(id: BackupId)
    | Fail(id: BackupId)
    | CleanOwn(id: BackupId, path: Path)
    | Pin(id: BackupId, pinned: bool)
    | Retain(worker: WorkerId, server: ServerId, listing: seq<BackupId>, keep: nat)
    | Delete(worker: WorkerId, id: BackupId, evenIfPinned: bool)
    | Remove(worker: WorkerId, id: BackupId, path: Path)
    | EndRemoval(worker: WorkerId, marked: nat)

  predicate Own(rows: Rows, id: BackupId, p: Path) {
    id in rows && p.server == rows[id].server && p.backup == id
  }

  predicate Working(w: World, id: BackupId) {
    id in w.rows && ActiveStatus(w.rows[id].status)
  }

  function Digested(files: Files, digest: Digest, server: ServerId, id: BackupId): Stored {
    var p := Archive(server, id);
    if p in files then Stored(digest(files[p]), |files[p]|) else Stored("", 0)
  }

  function CompletedRow(row: Row, stored: Stored): Row {
    row.(status := Completed, checksum := stored.checksum, size := stored.size)
  }

  /** The verification a job makes of its own artifact succeeds. */
  predicate OwnVerifies(w: World, digest: Digest, id: BackupId)
    requires id in w.rows
  {
    var server := w.rows[id].server;
    var stored := Digested(w.files, digest, server, id);
    VerifyLocal(w.files, digest, server, id, stored.checksum, stored.size).Success?
  }

  /** Whether a job or request can take the step now. */
  ghost predicate Enabled(w: World, digest: Digest, e: Event) {
    match e
    case Create(id, _, _) => id !in w.rows
    case Progress(id, status) => Working(w, id) && ActiveStatus(status)
    case Write(id, path, _) => Working(w, id) && id !in w.verified && Own(w.rows, id, path)
    case VerifyOwn(id) => Working(w, id) && OwnVerifies(w, digest, id)
    case Complete(id) => id in w.verified && Working(w, id)
    case Raise(id) => true
    case Fail(id) => id in w.rows
    case CleanOwn(id, path) =>
      Own(w.rows, id, path) && !w.rows[id].status.Completed? && id !in w.verified
    case Pin(id, _) => id in w.rows
    case Retain(worker, server, listing, _) => worker !in w.removals && NewestFirst(w.rows, server, listing)
    case Delete(worker, id, evenIfPinned) =>
      worker !in w.removals && id in w.rows && !ActiveStatus(w.rows[id].status) && (w.rows[id].pinned ==> evenIfPinned)
    case Remove(worker, id, path) => worker in w.removals && id in w.removals[worker] && Own(w.rows, id, path)
    case EndRemoval(worker, marked) => worker in w.removals && marked <= |w.removals[worker]|
  }

  /** The world after an event; one that is not possible now changes nothing. */
  ghost function Apply(w: World, digest: Digest, e: Event): World {
    if !Enabled(w, digest, e) then w
    else
      match e
      case Create(id, server, created) => w.(rows := w.rows[id := Row(server, Pending, false, created, "", 0)])
      case Progress(id, status) => w.(rows := w.rows[id := w.rows[id].(status := status)])
      case Write(_, path, content) => w.(files := w.files[path := content])
      case VerifyOwn(id) => w.(verified := w.verified[id := Digested(w.files, digest, w.rows[id].server, id)])
      case Complete(id) =>
        w.(rows := w.rows[id := CompletedRow(w.rows[id], w.verified[id])], verified := w.verified - {id})
      case Raise(id) => w.(verified := w.verified - {id})
      case Fail(id) =>
        w.(rows := w.rows[id := w.rows[id].(status := Failed)], verified := w.verified - {id})
      case CleanOwn(_, path) => w.(files := Without(w.files, {path}))
      case Pin(id, pinned) => w.(rows := w.rows[id := w.rows[id].(pinned := pinned)])
      case Retain(worker, _, listing, keep) => w.(removals := w.removals[worker := Victims(listing, keep)])
      case Delete(worker, id, _) => w.(removals := w.removals[worker := [id]])
      case Remove(_, id, path) =>
        w.(files := Without(w.files, {path}),
           gone := if path in w.files && !path.Temp? then w.gone + {id} else w.gone)
      case EndRemoval(worker, marked) =>
        var victims := w.removals[worker];
        w.(rows := Marked(w.rows, victims[..marked]), removals := w.removals - {worker},
           dropped := w.dropped + set b | b in victims[marked..])
  }

  // ---------------------------------------------------------------------------
  // What every step keeps
  // ---------------------------------------------------------------------------

  /** A completed row passes the verification exactly if no removal took a file of its artifact. */
  ghost predicate Exact(w: World, digest: Digest) {
    forall b :: b in w.rows && w.rows[b].status.Completed? ==>
      (Passes(w.files, digest, b, w.rows[b]) <==> b !in w.gone)
  }

  /** A verified artifact would pass under the row its job is about to commit. */
  ghost predicate Ready(w: World, digest: Digest) {
    forall b :: b in w.verified ==> Working(w, b) && Passes(w.files, digest, b, CompletedRow(w.rows[b], w.verified[b]))
  }

  /** Removals, and what they took, concern backups no job works on. */
  ghost predicate Apart(w: World) {
    (forall b :: b in w.gone ==> b in w.rows && !ActiveStatus(w.rows[b].status))
    && (forall r, b :: r in w.removals && b in w.removals[r] ==> b in w.rows && !ActiveStatus(w.rows[b].status))
  }

  /** A completed backup that lost a file is still a victim, or was given up by a removal that ended. */
  ghost predicate Traced(w: World) {
    forall b :: b in w.gone && b in w.rows && w.rows[b].status.Completed? ==> b in w.dropped || BeingRemoved(w, b)
  }

  ghost predicate BeingRemoved(w: World, b: BackupId) {
    exists r :: r in w.removals && b in w.removals[r]
  }

  ghost predicate Inv(w: World, digest: Digest) {
    Exact(w, digest) && Ready(w, digest) && Apart(w) && Traced(w)
  }

  /** A backup no job works on stays so, and keeps its row. */
  lemma StaysIdle(w: World, digest: Digest, e: Event, b: BackupId)
    requires b in w.rows && !ActiveStatus(w.rows[b].status)
    ensures b in Apply(w, digest, e).rows && !ActiveStatus(Apply(w, digest, e).rows[b].status)
  {
    hide Passes, OwnVerifies, VerifyLocal, Marked, NewestFirst, Victims;
    if e.EndRemoval? && Enabled(w, digest, e) {
      MarkedRows(w.rows, w.removals[e.worker][..e.marked]);
    }
  }

  /** Whoever is newly gone or newly a victim is idle. */
  lemma NewOnesAreIdle(w: World, digest: Digest, e: Event, r: WorkerId, b: BackupId)
    requires Apart(w)
    ensures b in Apply(w, digest, e).gone ==> b in w.rows && !ActiveStatus(w.rows[b].status)
    ensures r in Apply(w, digest, e).removals && b in Apply(w, digest, e).removals[r] ==>
      b in w.rows && !ActiveStatus(w.rows[b].status)
  {
    hide Passes, OwnVerifies, VerifyLocal, Marked, NewestFirst, Victims;
    if e.Retain? && Enabled(w, digest, e) {
      VictimsAreCandidates(w.rows, e.server, e.listing, e.keep);
      VictimsAreIdle(w.rows, e.server, Victims(e.listing, e.keep));
    }
  }

  lemma VictimsAreIdle(rows: Rows, server: ServerId, victims: seq<BackupId>)
    requires AllCandidates(rows, server, victims)
    ensures forall b :: b in victims ==> b in rows && !ActiveStatus(rows[b].status)
  {
  }

  lemma StepKeepsApart(w: World, digest: Digest, e: Event)
    requires Apart(w)
    ensures Apart(Apply(w, digest, e))
  {
    hide Apply, ActiveStatus;
    var t := Apply(w, digest, e);
    forall b | b in t.gone ensures b in t.rows && !ActiveStatus(t.rows[b].status) {
      NewOnesAreIdle(w, digest, e, 0, b);
      StaysIdle(w, digest, e, b);
    }
    forall r, b | r in t.removals && b in t.removals[r] ensures b in t.rows && !ActiveStatus(t.rows[b].status) {
      NewOnesAreIdle(w, digest, e, r, b);
      StaysIdle(w, digest, e, b);
    }
  }

  lemma MarkedRows(rows: Rows, victims: seq<BackupId>)
    ensures Marked(rows, victims).Keys == rows.Keys
    ensures forall b :: b in rows ==>
      Marked(rows, victims)[b] == if b in victims then rows[b].(status := Deleted) else rows[b]
  {
  }

  lemma StepKeepsTraced(w: World, digest: Digest, e: Event)
    requires Apart(w) && Traced(w)
    ensures Traced(Apply(w, digest, e))
  {
    hide Passes, OwnVerifies, VerifyLocal, Marked, NewestFirst, Victims;
    var t := Apply(w, digest, e);
    if Enabled(w, digest, e) {
      if e.EndRemoval? {
        MarkedRows(w.rows, w.removals[e.worker][..e.marked]);
      }
      forall b | b in t.gone && b in t.rows && t.rows[b].status.Completed? ensures b in t.dropped || BeingRemoved(t, b) {
        TraceOne(w, digest, e, b);
      }
    }
  }

  lemma TraceOne(w: World, digest: Digest, e: Event, b: BackupId)
    requires Apart(w) && Traced(w) && Enabled(w, digest, e)
    requires var t := Apply(w, digest, e); b in t.gone && b in t.rows && t.rows[b].status.Completed?
    ensures var t := Apply(w, digest, e); b in t.dropped || BeingRemoved(t, b)
  {
    hide Passes, OwnVerifies, VerifyLocal, Marked, NewestFirst, Victims;
    var t := Apply(w, digest, e);
    if e.EndRemoval? {
      MarkedRows(w.rows, w.removals[e.worker][..e.marked]);
      if b !in w.dropped {
        var r :| r in w.removals && b in w.removals[r];
        if r == e.worker {
          var victims := w.removals[r];
          assert victims == victims[..e.marked] + victims[e.marked..];
        } else {
          assert r in t.removals && b in t.removals[r];
        }
      }
    } else if e.Remove? && b == e.id {
      assert e.worker in t.removals && b in t.removals[e.worker];
    } else if b !in w.dropped {
      assert b in w.rows && w.rows[b].status.Completed?;
      var r :| r in w.removals && b in w.removals[r];
      assert r in t.removals && b in t.removals[r];
    }
  }

  /** Exactness and readiness of one backup. */
  ghost predicate ExactAt(w: World, digest: Digest, b: BackupId) {
    b in w.rows && w.rows[b].status.Completed? ==> (Passes(w.files, digest, b, w.rows[b]) <==> b !in w.gone)
  }

  ghost predicate ReadyAt(w: World, digest: Digest, b: BackupId) {
    b in w.verified ==> Working(w, b) && Passes(w.files, digest, b, CompletedRow(w.rows[b], w.verified[b]))
  }

  lemma PassesAlike(files: Files, digest: Digest, b: BackupId, r1: Row, r2: Row)
    requires r1.server == r2.server && r1.checksum == r2.checksum && r1.size == r2.size
    ensures Passes(files, digest, b, r1) <==> Passes(files, digest, b, r2)
  {
  }

  /** An event that changes one file leaves every other backup's artifact alone. */
  lemma OneFileChanged(w: World, t: World, digest: Digest, id: BackupId, b: BackupId)
    requires t.rows == w.rows && t.verified == w.verified && (b in t.gone <==> b in w.gone) && b != id
    requires forall p: Path :: p.backup != id ==> (p in w.files <==> p in t.files) && (p in w.files ==> t.files[p] == w.files[p])
    requires ExactAt(w, digest, b) && ReadyAt(w, digest, b)
    ensures ExactAt(t, digest, b) && ReadyAt(t, digest, b)
  {
    hide Passes;
    if b in w.rows {
      assert SameArtifact(w.files, t.files, w.rows[b].server, b);
      PassesElsewhere(w.files, t.files, digest, b, w.rows[b]);
      if b in w.verified {
        PassesElsewhere(w.files, t.files, digest, b, CompletedRow(w.rows[b], w.verified[b]));
      }
    }
  }

  /** A removed archive or checksum file makes its row fail. */
  lemma RemovedFails(files: Files, digest: Digest, b: BackupId, row: Row, p: Path)
    requires p == Archive(row.server, b) || p == Sidecar(row.server, b)
    ensures !Passes(Without(files, {p}), digest, b, row)
  {
  }

  lemma WithoutAbsent(files: Files, p: Path)
    requires p !in files
    ensures Without(files, {p}) == files
  {
  }

  lemma RemoveKeeps(w: World, digest: Digest, worker: WorkerId, id: BackupId, path: Path, b: BackupId)
    requires Inv(w, digest) && Enabled(w, digest, Remove(worker, id, path))
    ensures ExactAt(Apply(w, digest, Remove(worker, id, path)), digest, b)
    ensures ReadyAt(Apply(w, digest, Remove(worker, id, path)), digest, b)
  {
    hide Passes;
    var t := Apply(w, digest, Remove(worker, id, path));
    if b != id {
      OneFileChanged(w, t, digest, id, b);
    } else if path.Temp? {
      assert SameArtifact(w.files, t.files, w.rows[b].server, b);
      PassesElsewhere(w.files, t.files, digest, b, w.rows[b]);
    } else if path in w.files {
      RemovedFails(w.files, digest, b, w.rows[b], path);
    } else {
      WithoutAbsent(w.files, path);
    }
  }

  lemma WriteKeeps(w: World, digest: Digest, e: Event, b: BackupId)
    requires Inv(w, digest) && Enabled(w, digest, e) && (e.Write? || e.CleanOwn?)
    ensures ExactAt(Apply(w, digest, e), digest, b) && ReadyAt(Apply(w, digest, e), digest, b)
  {
    hide Passes;
    if b != e.id {
      OneFileChanged(w, Apply(w, digest, e), digest, e.id, b);
    }
  }

  lemma DigestIsSet(digest: Digest, s: string)
    requires Hexadecimal(digest)
    ensures digest(s) != ""
  {
    assert IsHex(digest(s));
  }

  /** The job's own verification is what later verifications of its row repeat. */
  lemma OwnVerificationPasses(w: World, digest: Digest, id: BackupId)
    requires Hexadecimal(digest) && id in w.rows && OwnVerifies(w, digest, id)
    ensures Passes(w.files, digest, id, CompletedRow(w.rows[id], Digested(w.files, digest, w.rows[id].server, id)))
  {
    DigestIsSet(digest, w.files[Archive(w.rows[id].server, id)]);
    hide IsHex, Hexadecimal;
  }

  lemma RowsKeep(w: World, digest: Digest, e: Event, b: BackupId)
    requires Inv(w, digest) && Enabled(w, digest, e) && Hexadecimal(digest)
    requires !e.Write? && !e.CleanOwn? && !e.Remove? && !e.EndRemoval?
    ensures ExactAt(Apply(w, digest, e), digest, b) && ReadyAt(Apply(w, digest, e), digest, b)
  {
    hide Passes, Hexadecimal, OwnVerifies, NewestFirst, Victims, Traced;
    var t := Apply(w, digest, e);
    if e.VerifyOwn? && b == e.id {
      OwnVerificationPasses(w, digest, b);
    } else if b in w.rows && b in t.rows {
      PassesAlike(w.files, digest, b, w.rows[b], t.rows[b].(checksum := w.rows[b].checksum, size := w.rows[b].size));
      if b in w.verified {
        PassesAlike(w.files, digest, b, CompletedRow(w.rows[b], w.verified[b]), CompletedRow(t.rows[b], w.verified[b]));
      }
    }
  }

  lemma EndKeeps(w: World, digest: Digest, worker: WorkerId, marked: nat, b: BackupId)
    requires Inv(w, digest) && Enabled(w, digest, EndRemoval(worker, marked))
    ensures ExactAt(Apply(w, digest, EndRemoval(worker, marked)), digest, b)
    ensures ReadyAt(Apply(w, digest, EndRemoval(worker, marked)), digest, b)
  {
    hide Passes, Traced, Marked;
    var victims := w.removals[worker];
    MarkedRows(w.rows, victims[..marked]);
    assert b in victims[..marked] ==> b in victims;
  }

  lemma StepKeepsExactAndReady(w: World, digest: Digest, e: Event)
    requires Inv(w, digest) && Hexadecimal(digest)
    ensures Exact(Apply(w, digest, e), digest) && Ready(Apply(w, digest, e), digest)
  {
    hide Passes, Hexadecimal, Apply, Enabled;
    var t := Apply(w, digest, e);
    NotEnabled(w, digest, e);
    forall b ensures ExactAt(t, digest, b) && ReadyAt(t, digest, b) {
      if !Enabled(w, digest, e) {
      } else if e.Remove? {
        RemoveKeeps(w, digest, e.worker, e.id, e.path, b);
      } else if e.Write? || e.CleanOwn? {
        WriteKeeps(w, digest, e, b);
      } else if e.EndRemoval? {
        EndKeeps(w, digest, e.worker, e.marked, b);
      } else {
        RowsKeep(w, digest, e, b);
      }
    }
    AllAt(t, digest);
  }

  lemma NotEnabled(w: World, digest: Digest, e: Event)
    ensures !Enabled(w, digest, e) ==> Apply(w, digest, e) == w
  {
  }

  lemma AllAt(w: World, digest: Digest)
    requires forall b :: ExactAt(w, digest, b) && ReadyAt(w, digest, b)
    ensures Exact(w, digest) && Ready(w, digest)
  {
    hide Passes;
    assert forall b :: b in w.rows ==> ExactAt(w, digest, b);
    assert forall b :: b in w.verified ==> ReadyAt(w, digest, b);
  }

  lemma StepKeepsInv(w: World, digest: Digest, e: Event)
    requires Inv(w, digest) && Hexadecimal(digest)
    ensures Inv(Apply(w, digest, e), digest)
  {
    StepKeepsExactAndReady(w, digest, e);
    hide Exact, Ready, Apart, Traced, Apply, Hexadecimal;
    StepKeepsApart(w, digest, e);
    StepKeepsTraced(w, digest, e);
  }

  // ---------------------------------------------------------------------------
  // Runs
  // ---------------------------------------------------------------------------

  ghost function Run(w: World, digest: Digest, events: seq<Event>): World {
    if events == [] then w else Apply(Run(w, digest, events[..|events| - 1]), digest, events[|events| - 1])
  }

  /** Nothing is stored yet. */
  function Empty(): World {
    World(map[], map[], map[], map[], {}, {})
  }

  /**
    After every event of every run, a completed row passes the verification exactly if no removal
    has taken a file of its artifact; and a completed row that fails is the victim of a removal that
    is under way or ended without marking it.
   */
  lemma {:induction false} RunIsExact(digest: Digest, events: seq<Event>)
    requires Hexadecimal(digest)
    ensures var w := Run(Empty(), digest, events);
      Inv(w, digest)
      && forall b :: b in w.rows && w.rows[b].status.Completed? ==>
           (Passes(w.files, digest, b, w.rows[b]) <==> b !in w.gone)
           && (!Passes(w.files, digest, b, w.rows[b]) ==> b in w.dropped || BeingRemoved(w, b))
  {
    hide Passes, Apply, Hexadecimal;
    if events != [] {
      RunIsExact(digest, events[..|events| - 1]);
      StepKeepsInv(Run(Empty(), digest, events[..|events| - 1]), digest, events[|events| - 1]);
    }
  }

  /** So while no removal is under way and none has failed, every completed row passes. */
  lemma QuietRunIsSound(digest: Digest, events: seq<Event>)
    requires Hexadecimal(digest)
    requires Run(Empty(), digest, events).removals == map[] && Run(Empty(), digest, events).dropped == {}
    ensures Sound(Run(Empty(), digest, events).files, digest, Run(Empty(), digest, events).rows)
  {
    hide Passes, Run, Hexadecimal;
    RunIsExact(digest, events);
  }
}
