/**
  Backup and restore jobs of many servers as they interleave.  A worker takes a lock, looks for
  active jobs of the other kind, works, and handles failures after it left the lock.  The lock is
  a parameter: it may be reliable or, once it expired or Redis is away, admit everybody.
 */
module JobExclusion {
  import opened Wrappers

  type JobId = nat
  type ServerId = nat

  datatype Kind = BackupKind | RestoreKind

  /** The statuses of both job tables; `Phase` stands for the intermediate ones a job commits as it works. */
  datatype Status = Pending | Running | Phase(name: PhaseName) | Completed | Failed | RolledBack

  datatype PhaseName =
    | HeldSaves | Compressing | Verifying
    | ValidatingBackup | StoppingServer | Extracting | ValidatingRestore | Swapping | StartingServer

  /** Where a worker is in `run_backup_job` or `run_restore_job`. */
  datatype Point =
    | Submitted                // queued
    | Locked                   // inside the lock, before the guard
    | Guarded                  // the guard found no active job of the other kind
    | Working                  // `running` is committed
    | Ending                   // the completing commit is done; retention or clean-up is left
    | Handling(passed: bool)   // raised; in the handler, outside the lock
    | Done
    | Stuck                    // the handler itself raised before its commit

  datatype Job = Job(kind: Kind, server: ServerId, status: Status, point: Point)

  type State = map<JobId, Job>

  predicate Active(status: Status) {
    status.Pending? || status.Running? || status.Phase?
  }

  /**
    The job found no active job of the other kind and may still work on the files: it is before its
    completing commit, or cleaning up after it, or handling a failure of either.
   */
  predicate PastGuard(job: Job) {
    job.point.Guarded? || job.point.Working? || job.point.Ending? || (job.point.Handling? && job.point.passed)
  }

  predicate InsideLock(job: Job) {
    job.point in {Locked, Guarded, Working, Ending}
  }

  // ---------------------------------------------------------------------------
  // Steps
  // ---------------------------------------------------------------------------

  datatype Event =
    | Create(id: JobId, kind: Kind, server: ServerId)  // the commit of a new pending job
    | Acquire(id: JobId)
    | Guard(id: JobId)
    | CommitRunning(id: JobId)
    | CommitPhase(id: JobId, name: PhaseName)
    | Complete(id: JobId)
    | Release(id: JobId)
    | Raise(id: JobId)
    | CommitFailure(id: JobId, rolledBack: bool)
    | HandlerRaises(id: JobId)

  predicate HasActive(s: State, kind: Kind, server: ServerId) {
    exists j :: j in s && s[j].kind == kind && s[j].server == server && Active(s[j].status)
  }

  function Other(kind: Kind): Kind {
    if kind.BackupKind? then RestoreKind else BackupKind
  }

  predicate LockFree(s: State, server: ServerId) {
    forall j :: j in s && s[j].server == server ==> !InsideLock(s[j])
  }

  /** The phases each kind of job commits. */
  predicate PhaseOf(kind: Kind, name: PhaseName) {
    match kind
    case BackupKind => name.HeldSaves? || name.Compressing? || name.Verifying?
    case RestoreKind => !(name.HeldSaves? || name.Compressing? || name.Verifying?)
  }

  /** The next state, or None when the step is not possible; `reliable` says whether the lock excludes. */
  function Apply(s: State, e: Event, reliable: bool): Option<State> {
    if e.Create? then
      if e.id in s then None else Some(s[e.id := Job(e.kind, e.server, Pending, Submitted)])
    else if e.id !in s then None
    else
      var job := s[e.id];
      match e
      case Acquire(id) =>
        if job.point.Submitted? && (reliable ==> LockFree(s, job.server))
        then Some(s[id := job.(point := Locked)]) else None
      case Guard(id) =>
        if !job.point.Locked? then None
        else if HasActive(s, Other(job.kind), job.server) then Some(s[id := job.(point := Handling(false))])
        else Some(s[id := job.(point := Guarded)])
      case CommitRunning(id) =>
        if job.point.Guarded? then Some(s[id := job.(status := Running, point := Working)]) else None
      case CommitPhase(id, name) =>
        if job.point.Working? && PhaseOf(job.kind, name) then Some(s[id := job.(status := Phase(name))]) else None
      case Complete(id) =>
        if job.point.Working? then Some(s[id := job.(status := Completed, point := Ending)]) else None
      case Release(id) =>
        if job.point.Ending? then Some(s[id := job.(point := Done)]) else None
      case Raise(id) =>
        if job.point.Submitted? || InsideLock(job) then Some(s[id := job.(point := Handling(PastGuard(job)))]) else None
      case CommitFailure(id, rolledBack) =>
        if job.point.Handling? && (rolledBack ==> job.kind.RestoreKind?)
        then Some(s[id := job.(status := if rolledBack then RolledBack else Failed, point := Done)]) else None
      case HandlerRaises(id) =>
        if job.point.Handling? then Some(s[id := job.(point := Stuck)]) else None
  }

  /** An event touches its own job alone. */
  lemma OnlyOwnJob(s: State, e: Event, reliable: bool)
    requires Apply(s, e, reliable).Some?
    ensures var t := Apply(s, e, reliable).value;
      t.Keys == s.Keys + {e.id} && forall j :: j in s && j != e.id ==> t[j] == s[j]
    ensures e.Create? <==> e.id !in s
    ensures e.Create? ==> Apply(s, e, reliable).value[e.id] == Job(e.kind, e.server, Pending, Submitted)
    ensures !e.Create? ==>
      Apply(s, e, reliable).value[e.id].kind == s[e.id].kind && Apply(s, e, reliable).value[e.id].server == s[e.id].server
  {
  }

  /** The statuses that jobs commit: running behind the guard, completed, and at last failed or rolled back. */
  lemma StatusCommitted(s: State, e: Event, reliable: bool)
    requires Apply(s, e, reliable).Some? && !e.Create?
    ensures var before, after := s[e.id], Apply(s, e, reliable).value[e.id];
      (e.CommitRunning? ==> before.point.Guarded? && after.status.Running?)
      && (e.CommitPhase? ==> before.point.Working? && after.status == Phase(e.name))
      && (e.Complete? ==> before.point.Working? && after.status.Completed?)
      && (e.CommitFailure? ==>
            before.point.Handling? && after.status == if e.rolledBack then RolledBack else Failed)
      && (e.Acquire? || e.Guard? || e.Release? || e.Raise? || e.HandlerRaises? ==> after.status == before.status)
  {
  }

  /** The guard lets a job through exactly if its server has no active job of the other kind. */
  lemma GuardDecides(s: State, id: JobId, reliable: bool)
    requires Apply(s, Guard(id), reliable).Some?
    ensures var job := s[id];
      Apply(s, Guard(id), reliable).value[id].point.Guarded? <==>
        forall j :: j in s && s[j].server == job.server && s[j].kind != job.kind ==>
          !s[j].status.Pending? && !s[j].status.Running? && !s[j].status.Phase?
  {
    assert HasActive(s, Other(s[id].kind), s[id].server) <==>
      exists j :: j in s && s[j].server == s[id].server && s[j].kind != s[id].kind && Active(s[j].status);
  }

  /** The state after a run, or None when some step was not possible. */
  function Run(s: State, events: seq<Event>, reliable: bool): Option<State>
    decreases |events|
  {
    if events == [] then Some(s)
    else match Apply(s, events[0], reliable)
         case None => None
         case Some(next) => Run(next, events[1..], reliable)
  }

  // ---------------------------------------------------------------------------
  // Exclusion
  // ---------------------------------------------------------------------------

  /** When a backup and a restore of one server are both past their guard, one has made its completing commit. */
  ghost predicate Exclusive(s: State) {
    forall b, r :: b in s && r in s && s[b].kind.BackupKind? && s[r].kind.RestoreKind? && s[b].server == s[r].server ==>
      (PastGuard(s[b]) && PastGuard(s[r]) ==> s[b].status.Completed? || s[r].status.Completed?)
  }

  /** A job is seen as active until it commits its end. */
  ghost predicate Visible(s: State) {
    forall j :: j in s ==>
      (s[j].point in {Submitted, Locked, Guarded, Working, Handling(false)} ==> Active(s[j].status))
      && (s[j].point.Ending? ==> s[j].status.Completed?)
      && (s[j].point == Handling(true) ==> Active(s[j].status) || s[j].status.Completed?)
  }

  ghost predicate Inv(s: State) {
    Exclusive(s) && Visible(s)
  }

  lemma StepKeepsVisible(s: State, e: Event, reliable: bool)
    requires Visible(s) && Apply(s, e, reliable).Some?
    ensures Visible(Apply(s, e, reliable).value)
  {
  }

  lemma StepKeepsInv(s: State, e: Event, reliable: bool)
    requires Inv(s) && Apply(s, e, reliable).Some?
    ensures Inv(Apply(s, e, reliable).value)
  {
    var t := Apply(s, e, reliable).value;
    StepKeepsVisible(s, e, reliable);
    forall b, r | b in t && r in t && t[b].kind.BackupKind? && t[r].kind.RestoreKind? && t[b].server == t[r].server
                  && PastGuard(t[b]) && PastGuard(t[r])
      ensures t[b].status.Completed? || t[r].status.Completed?
    {
      assert b in s && r in s && PastGuard(s[b]) && PastGuard(s[r]) ==> s[b].status.Completed? || s[r].status.Completed?;
      if e.Guard? && t[e.id].point.Guarded? {
        assert !HasActive(s, Other(s[e.id].kind), s[e.id].server);
      }
    }
  }

  /** Whatever the lock does, in every run backup and restore exclude each other. */
  lemma {:induction false} RunsExclude(s: State, events: seq<Event>, reliable: bool)
    requires Inv(s) && Run(s, events, reliable).Some?
    ensures Inv(Run(s, events, reliable).value)
    decreases |events|
  {
    if events != [] {
      StepKeepsInv(s, events[0], reliable);
      RunsExclude(Apply(s, events[0], reliable).value, events[1..], reliable);
    }
  }

  // ---------------------------------------------------------------------------
  // What a lock that works adds, and what it does not
  // ---------------------------------------------------------------------------

  ghost predicate OneInside(s: State) {
    forall a, b :: a in s && b in s && s[a].server == s[b].server && InsideLock(s[a]) && InsideLock(s[b]) ==> a == b
  }

  /**
    With a lock that excludes, at most one job of a server is inside it.  Two unfinished jobs of a
    server can then be past their guard only while one of them is handling its failure.
   */
  lemma {:induction false} LockedRunsOverlapOnlyInHandlers(s: State, events: seq<Event>)
    requires OneInside(s) && Run(s, events, true).Some?
    ensures var t := Run(s, events, true).value;
      OneInside(t)
      && forall a, b :: a in t && b in t && a != b && t[a].server == t[b].server && PastGuard(t[a]) && PastGuard(t[b]) ==>
           t[a].point.Handling? || t[b].point.Handling?
    decreases |events|
  {
    if events != [] {
      var next := Apply(s, events[0], true).value;
      assert OneInside(next);
      LockedRunsOverlapOnlyInHandlers(next, events[1..]);
    }
  }

  /** A raised restore rolling its swap back outside the lock while another one of the server works inside it. */
  predicate RollsBackBeside(s: State, first: JobId, second: JobId) {
    first in s && second in s && s[first].server == s[second].server
    && s[first].kind.RestoreKind? && s[first].point == Handling(true) && Active(s[first].status)
    && s[second].kind.RestoreKind? && s[second].point.Working?
  }

  /** Consecutive states of a run. */
  predicate IsPath(states: seq<State>, events: seq<Event>, reliable: bool) {
    |states| == |events| + 1
    && forall i :: 0 <= i < |events| ==> Apply(states[i], events[i], reliable) == Some(states[i + 1])
  }

  lemma {:induction false} PathRuns(states: seq<State>, events: seq<Event>, reliable: bool)
    requires IsPath(states, events, reliable)
    ensures Run(states[0], events, reliable) == Some(states[|events|])
  {
    if events != [] {
      PathRuns(states[1..], events[1..], reliable);
    }
  }

  /** One or two jobs of one server. */
  function One(first: Job): State {
    map[1 := first]
  }

  function Two(first: Job, second: Job): State {
    map[1 := first, 2 := second]
  }

  function RestoreAt(status: Status, point: Point): Job {
    Job(RestoreKind, 0, status, point)
  }

  function BackupAt(status: Status, point: Point): Job {
    Job(BackupKind, 0, status, point)
  }

  lemma OneFacts(first: Job)
    requires first.server == 0
    ensures forall job :: One(first)[1 := job] == One(job)
    ensures forall job :: One(first)[2 := job] == Two(first, job)
    ensures forall kind :: HasActive(One(first), kind, 0) <==> first.kind == kind && Active(first.status)
    ensures LockFree(One(first), 0) <==> !InsideLock(first)
  {
    var s := One(first);
    assert s[1] == first && forall j :: j in s <==> j == 1;
  }

  lemma TwoFacts(first: Job, second: Job)
    requires first.server == 0 && second.server == 0
    ensures forall job :: Two(first, second)[1 := job] == Two(job, second)
    ensures forall job :: Two(first, second)[2 := job] == Two(first, job)
    ensures forall kind :: HasActive(Two(first, second), kind, 0) <==>
      (first.kind == kind && Active(first.status)) || (second.kind == kind && Active(second.status))
    ensures LockFree(Two(first, second), 0) <==> !InsideLock(first) && !InsideLock(second)
  {
    var s := Two(first, second);
    assert s[1] == first && s[2] == second && forall j :: j in s <==> j == 1 || j == 2;
  }

  /** The steps of a job alone on its server, from its creation to its work. */
  lemma AloneWorks(kind: Kind)
    ensures Apply(map[], Create(1, kind, 0), true) == Some(One(Job(kind, 0, Pending, Submitted)))
    ensures Apply(One(Job(kind, 0, Pending, Submitted)), Acquire(1), true) == Some(One(Job(kind, 0, Pending, Locked)))
    ensures Apply(One(Job(kind, 0, Pending, Locked)), Guard(1), true) == Some(One(Job(kind, 0, Pending, Guarded)))
    ensures Apply(One(Job(kind, 0, Pending, Guarded)), CommitRunning(1), true)
         == Some(One(Job(kind, 0, Running, Working)))
  {
    hide HasActive, LockFree;
    OneFacts(Job(kind, 0, Pending, Submitted));
    OneFacts(Job(kind, 0, Pending, Locked));
    OneFacts(Job(kind, 0, Pending, Guarded));
  }

  /** The steps of a job alone that raises in its work, and then in its handler. */
  lemma AloneRaises(kind: Kind)
    ensures Apply(One(Job(kind, 0, Running, Working)), Raise(1), true)
         == Some(One(Job(kind, 0, Running, Handling(true))))
    ensures Apply(One(Job(kind, 0, Running, Handling(true))), HandlerRaises(1), true)
         == Some(One(Job(kind, 0, Running, Stuck)))
  {
    hide HasActive, LockFree;
    OneFacts(Job(kind, 0, Running, Working));
    OneFacts(Job(kind, 0, Running, Handling(true)));
  }

  /** The steps of a job alone that raises after its completing commit. */
  lemma AloneRaisesLate(kind: Kind)
    ensures Apply(One(Job(kind, 0, Running, Working)), Complete(1), true)
         == Some(One(Job(kind, 0, Completed, Ending)))
    ensures Apply(One(Job(kind, 0, Completed, Ending)), Raise(1), true)
         == Some(One(Job(kind, 0, Completed, Handling(true))))
  {
    hide HasActive, LockFree;
    OneFacts(Job(kind, 0, Running, Working));
    OneFacts(Job(kind, 0, Completed, Ending));
  }

  /** The steps of a first restore up to its failure, while a second one waits. */
  lemma FirstFails(waiting: Job)
    requires waiting == RestoreAt(Pending, Submitted)
    ensures Apply(One(waiting), Create(2, RestoreKind, 0), true) == Some(Two(waiting, waiting))
    ensures Apply(Two(waiting, waiting), Acquire(1), true) == Some(Two(RestoreAt(Pending, Locked), waiting))
    ensures Apply(Two(RestoreAt(Pending, Locked), waiting), Guard(1), true)
         == Some(Two(RestoreAt(Pending, Guarded), waiting))
    ensures Apply(Two(RestoreAt(Pending, Guarded), waiting), CommitRunning(1), true)
         == Some(Two(RestoreAt(Running, Working), waiting))
    ensures Apply(Two(RestoreAt(Running, Working), waiting), Raise(1), true)
         == Some(Two(RestoreAt(Running, Handling(true)), waiting))
  {
    hide HasActive, LockFree;
    OneFacts(waiting);
    TwoFacts(waiting, waiting);
    TwoFacts(RestoreAt(Pending, Locked), waiting);
    TwoFacts(RestoreAt(Pending, Guarded), waiting);
    TwoFacts(RestoreAt(Running, Working), waiting);
  }

  /** The steps of a second job up to its work while the first is handled and not seen by its guard. */
  lemma SecondWorks(handled: Job, kind: Kind)
    requires handled.server == 0 && !InsideLock(handled) && !(handled.kind == Other(kind) && Active(handled.status))
    ensures Apply(One(handled), Create(2, kind, 0), true) == Some(Two(handled, Job(kind, 0, Pending, Submitted)))
    ensures Apply(Two(handled, Job(kind, 0, Pending, Submitted)), Acquire(2), true)
         == Some(Two(handled, Job(kind, 0, Pending, Locked)))
    ensures Apply(Two(handled, Job(kind, 0, Pending, Locked)), Guard(2), true)
         == Some(Two(handled, Job(kind, 0, Pending, Guarded)))
    ensures Apply(Two(handled, Job(kind, 0, Pending, Guarded)), CommitRunning(2), true)
         == Some(Two(handled, Job(kind, 0, Running, Working)))
  {
    hide HasActive, LockFree;
    OneFacts(handled);
    TwoFacts(handled, Job(kind, 0, Pending, Submitted));
    TwoFacts(handled, Job(kind, 0, Pending, Locked));
    TwoFacts(handled, Job(kind, 0, Pending, Guarded));
  }

  /** The run in which two restores overlap. */
  function OverlapEvents(): seq<Event> {
    [Create(1, RestoreKind, 0), Create(2, RestoreKind, 0), Acquire(1), Guard(1), CommitRunning(1), Raise(1),
     Acquire(2), Guard(2), CommitRunning(2)]
  }

  function OverlapStates(): seq<State> {
    var w, h := RestoreAt(Pending, Submitted), RestoreAt(Running, Handling(true));
    [map[], One(w), Two(w, w), Two(RestoreAt(Pending, Locked), w), Two(RestoreAt(Pending, Guarded), w),
     Two(RestoreAt(Running, Working), w), Two(h, w), Two(h, RestoreAt(Pending, Locked)),
     Two(h, RestoreAt(Pending, Guarded)), Two(h, RestoreAt(Running, Working))]
  }

  /**
    The guard of a restore looks for backups alone, so two restores created by racing requests
    overlap even under a lock that excludes.
   */
  lemma RestoresOverlap()
    ensures exists events :: Run(map[], events, true).Some? && RollsBackBeside(Run(map[], events, true).value, 1, 2)
  {
    AloneWorks(RestoreKind);
    FirstFails(RestoreAt(Pending, Submitted));
    SecondWorks(RestoreAt(Running, Handling(true)), RestoreKind);
    hide Apply, One, Two;
    assert IsPath(OverlapStates(), OverlapEvents(), true);
    PathRuns(OverlapStates(), OverlapEvents(), true);
    OverlapEnds();
  }

  lemma OverlapEnds()
    ensures |OverlapStates()| == 10 && OverlapStates()[0] == map[]
    ensures RollsBackBeside(OverlapStates()[9], 1, 2)
  {
  }

  /** A restore handling a failure after its completing commit, while a backup of the server works. */
  predicate HandledBesideBackup(s: State, restore: JobId, backup: JobId) {
    restore in s && backup in s && s[restore].server == s[backup].server
    && s[restore] == Job(RestoreKind, s[restore].server, Completed, Handling(true))
    && s[backup].kind.BackupKind? && s[backup].point.Working?
  }

  function LateEvents(): seq<Event> {
    [Create(1, RestoreKind, 0), Acquire(1), Guard(1), CommitRunning(1), Complete(1), Raise(1),
     Create(2, BackupKind, 0), Acquire(2), Guard(2), CommitRunning(2)]
  }

  function LateStates(): seq<State> {
    var h := RestoreAt(Completed, Handling(true));
    [map[], One(RestoreAt(Pending, Submitted)), One(RestoreAt(Pending, Locked)), One(RestoreAt(Pending, Guarded)),
     One(RestoreAt(Running, Working)), One(RestoreAt(Completed, Ending)), One(h),
     Two(h, BackupAt(Pending, Submitted)), Two(h, BackupAt(Pending, Locked)), Two(h, BackupAt(Pending, Guarded)),
     Two(h, BackupAt(Running, Working))]
  }

  /** So the exclusion cannot be had past a completing commit, not even under a lock that excludes. */
  lemma LateHandlerOverlaps()
    ensures exists events :: Run(map[], events, true).Some? && HandledBesideBackup(Run(map[], events, true).value, 1, 2)
  {
    AloneWorks(RestoreKind);
    AloneRaisesLate(RestoreKind);
    SecondWorks(RestoreAt(Completed, Handling(true)), BackupKind);
    hide Apply, One, Two;
    assert IsPath(LateStates(), LateEvents(), true);
    PathRuns(LateStates(), LateEvents(), true);
    LateEnds();
  }

  lemma LateEnds()
    ensures |LateStates()| == 11 && LateStates()[0] == map[]
    ensures HandledBesideBackup(LateStates()[10], 1, 2)
  {
  }

  // ---------------------------------------------------------------------------
  // A single active job
  // ---------------------------------------------------------------------------

  /** What the documentation asks for: a server has at most one active job of either kind. */
  ghost predicate OneActive(s: State) {
    forall a, b :: a in s && b in s && s[a].server == s[b].server && Active(s[a].status) && Active(s[b].status) ==> a == b
  }

  /**
    What both creating requests look for before they commit; concurrent requests may both find it.
    The schedules look for active backups alone, and only those that are to be deferred.
   */
  ghost predicate ServerIdle(s: State, server: ServerId) {
    !HasActive(s, BackupKind, server) && !HasActive(s, RestoreKind, server)
  }

  /** A job is created while its server has an active one. */
  ghost predicate CreatedBeside(s: State, e: Event) {
    e.Create? && !ServerIdle(s, e.server)
  }

  lemma StepOneActiveIff(s: State, e: Event, reliable: bool)
    requires Visible(s) && OneActive(s) && Apply(s, e, reliable).Some?
    ensures OneActive(Apply(s, e, reliable).value) <==> !CreatedBeside(s, e)
  {
    var t := Apply(s, e, reliable).value;
    if e.Create? {
      if !ServerIdle(s, e.server) {
        var j :| j in s && s[j].server == e.server && Active(s[j].status);
        assert t[j] == s[j] && j != e.id && Active(t[e.id].status);
      } else {
        forall j | j in s && s[j].server == e.server ensures !Active(s[j].status) {
          assert s[j].kind.BackupKind? || s[j].kind.RestoreKind?;
        }
      }
    } else {
      assert forall j :: j in t ==> j in s && t[j].server == s[j].server && (Active(t[j].status) ==> Active(s[j].status));
    }
  }

  /** The state after the first `k` events of a run. */
  function After(s: State, events: seq<Event>, reliable: bool, k: nat): Option<State>
    requires k <= |events|
  {
    Run(s, events[..k], reliable)
  }

  lemma {:induction false} RunNext(s: State, events: seq<Event>, reliable: bool, k: nat)
    requires k < |events| && Run(s, events, reliable).Some?
    ensures After(s, events, reliable, k).Some? && After(s, events, reliable, k + 1).Some?
    ensures Apply(After(s, events, reliable, k).value, events[k], reliable) == After(s, events, reliable, k + 1)
    decreases |events|
  {
    var next := Apply(s, events[0], reliable).value;
    if k == 0 {
      assert events[..0] == [] && events[..1][1..] == [];
      assert Run(next, [], reliable) == Some(next);
    } else {
      RunNext(next, events[1..], reliable, k - 1);
      assert events[..k][1..] == events[1..][..k - 1];
      assert events[..k + 1][1..] == events[1..][..k];
    }
  }

  /** After the first `k` events the server of every job has one active job at most. */
  ghost predicate OneActiveAfter(s: State, events: seq<Event>, reliable: bool, k: nat)
    requires k <= |events|
  {
    After(s, events, reliable, k).Some? && OneActive(After(s, events, reliable, k).value)
  }

  /** The event with number `k` creates a job beside an active one. */
  ghost predicate CreatedBesideAt(s: State, events: seq<Event>, reliable: bool, k: nat)
    requires k < |events|
  {
    After(s, events, reliable, k).Some? && CreatedBeside(After(s, events, reliable, k).value, events[k])
  }

  lemma {:induction false} VisibleAfter(s: State, events: seq<Event>, reliable: bool, k: nat)
    requires Visible(s) && Run(s, events, reliable).Some? && k <= |events|
    ensures After(s, events, reliable, k).Some? && Visible(After(s, events, reliable, k).value)
  {
    if k == 0 {
      assert events[..0] == [];
    } else {
      VisibleAfter(s, events, reliable, k - 1);
      RunNext(s, events, reliable, k - 1);
      StepKeepsVisible(After(s, events, reliable, k - 1).value, events[k - 1], reliable);
    }
  }

  lemma StepInRun(s: State, events: seq<Event>, reliable: bool, k: nat)
    requires Visible(s) && Run(s, events, reliable).Some? && k < |events| && OneActiveAfter(s, events, reliable, k)
    ensures OneActiveAfter(s, events, reliable, k + 1) <==> !CreatedBesideAt(s, events, reliable, k)
  {
    hide Visible, OneActive, CreatedBeside, Apply, After;
    VisibleAfter(s, events, reliable, k);
    RunNext(s, events, reliable, k);
    StepOneActiveIff(After(s, events, reliable, k).value, events[k], reliable);
  }

  lemma {:induction false} OneActiveUpTo(s: State, events: seq<Event>, reliable: bool, k: nat)
    requires Visible(s) && OneActive(s) && Run(s, events, reliable).Some? && k <= |events|
    requires forall i :: 0 <= i < k ==> !CreatedBesideAt(s, events, reliable, i)
    ensures OneActiveAfter(s, events, reliable, k)
  {
    if k == 0 {
      assert events[..0] == [];
    } else {
      OneActiveUpTo(s, events, reliable, k - 1);
      StepInRun(s, events, reliable, k - 1);
    }
  }

  /**
    In every run and whatever the lock does, each server has at most one active job throughout
    exactly if no job is created while its server has one: the guards of the jobs add nothing.
   */
  lemma OneActiveIff(s: State, events: seq<Event>, reliable: bool)
    requires Visible(s) && OneActive(s) && Run(s, events, reliable).Some?
    ensures (forall k :: 0 <= k <= |events| ==> OneActiveAfter(s, events, reliable, k))
       <==> (forall k :: 0 <= k < |events| ==> !CreatedBesideAt(s, events, reliable, k))
  {
    hide OneActiveAfter, CreatedBesideAt, Visible, OneActive, Run;
    if forall k :: 0 <= k < |events| ==> !CreatedBesideAt(s, events, reliable, k) {
      forall k | 0 <= k <= |events| ensures OneActiveAfter(s, events, reliable, k) {
        OneActiveUpTo(s, events, reliable, k);
      }
    }
    if forall k :: 0 <= k <= |events| ==> OneActiveAfter(s, events, reliable, k) {
      forall k | 0 <= k < |events| ensures !CreatedBesideAt(s, events, reliable, k) {
        StepInRun(s, events, reliable, k);
      }
    }
  }

  // ---------------------------------------------------------------------------
  // A job whose handler raised
  // ---------------------------------------------------------------------------

  /** The job left its worker without a final status: nothing in the program changes it any more. */
  predicate Abandoned(s: State, id: JobId) {
    id in s && s[id].point.Stuck? && Active(s[id].status)
  }

  lemma StepKeepsAbandoned(s: State, e: Event, reliable: bool, id: JobId)
    requires Abandoned(s, id) && Apply(s, e, reliable).Some?
    ensures var t := Apply(s, e, reliable).value;
      Abandoned(t, id) && t[id] == s[id]
      && forall j :: j in t && t[j].server == s[id].server && t[j].kind == Other(s[id].kind) && PastGuard(t[j]) ==>
           j in s && s[j].server == t[j].server && s[j].kind == t[j].kind && PastGuard(s[j])
  {
    assert e.Guard? && e.id in s && s[e.id].server == s[id].server && s[e.id].kind == Other(s[id].kind) ==>
      HasActive(s, Other(s[e.id].kind), s[e.id].server);
  }

  /**
    An abandoned backup shuts out every later restore of its server for good, and an abandoned
    restore every later backup: whoever is past the guard afterwards was past it before.
   */
  lemma {:induction false} AbandonedBlocksForEver(s: State, events: seq<Event>, reliable: bool, id: JobId)
    requires Abandoned(s, id) && Run(s, events, reliable).Some?
    ensures var t := Run(s, events, reliable).value;
      Abandoned(t, id) && t[id] == s[id]
      && forall j :: j in t && t[j].server == s[id].server && t[j].kind == Other(s[id].kind) && PastGuard(t[j]) ==>
           j in s && s[j].server == t[j].server && s[j].kind == t[j].kind && PastGuard(s[j])
    decreases |events|
  {
    if events != [] {
      StepKeepsAbandoned(s, events[0], reliable, id);
      AbandonedBlocksForEver(Apply(s, events[0], reliable).value, events[1..], reliable, id);
    }
  }

  function AbandoningEvents(kind: Kind): seq<Event> {
    [Create(1, kind, 0), Acquire(1), Guard(1), CommitRunning(1), Raise(1), HandlerRaises(1)]
  }

  function AbandoningStates(kind: Kind): seq<State> {
    [map[], One(Job(kind, 0, Pending, Submitted)), One(Job(kind, 0, Pending, Locked)),
     One(Job(kind, 0, Pending, Guarded)), One(Job(kind, 0, Running, Working)),
     One(Job(kind, 0, Running, Handling(true))), One(Job(kind, 0, Running, Stuck))]
  }

  /** A run in which a single job is abandoned: it fails, and then its handler does. */
  lemma JobsAreAbandoned(kind: Kind)
    ensures exists events :: Run(map[], events, true).Some? && Abandoned(Run(map[], events, true).value, 1)
  {
    AloneWorks(kind);
    AloneRaises(kind);
    AbandonedEnd(kind);
    hide Apply, One, Abandoned;
    assert IsPath(AbandoningStates(kind), AbandoningEvents(kind), true);
    PathRuns(AbandoningStates(kind), AbandoningEvents(kind), true);
  }

  lemma AbandonedEnd(kind: Kind)
    ensures |AbandoningStates(kind)| == 7 && AbandoningStates(kind)[0] == map[]
    ensures Abandoned(AbandoningStates(kind)[6], 1)
  {
  }
}
