/**
  The revisions of one deployment as its endpoints and its provisioning tasks change them.  Each
  endpoint call is atomic; a provisioning task runs beside them, from the revision that was the
  latest when it began.
 */
module DeploymentRevisions {
  import opened Wrappers

  type Env = map<string, string>
  type TaskId = nat

  datatype DeployState = Created | Building | Running | Error | Suspended | Stopped

  /** A revision; the revisions of a deployment are kept in the order of their creation. */
  datatype Revision = Revision(image: Option<string>, status: DeployState, active: bool, snapshot: Option<Env>)

  /**
    A provisioning task: its revision, and whether a commit has expired what its session loaded.
    The session writes `is_active` back only if it no longer holds the loaded value or that was false.
   */
  datatype Task = Task(revision: nat, loaded: bool, expired: bool)

  datatype Deployment = Deployment(image: string, env: Env, state: DeployState, hasNode: bool,
                                   revisions: seq<Revision>, tasks: map<TaskId, Task>)

  datatype Event =
    | Restart
    | Rollback(revision: Option<nat>)
    | UpdateEnv(env: Env)
    | DeleteEnv(key: string)
    | Push
    | Stop
    | Begin(task: TaskId)
    | Poll(task: TaskId)                  // the commit that shows the deployment as building
    | BuildDone(task: TaskId, built: string)
    | Finish(task: TaskId, started: string)
    | Fail(task: TaskId)

  // ---------------------------------------------------------------------------
  // Revisions
  // ---------------------------------------------------------------------------

  function Deactivated(revisions: seq<Revision>): (out: seq<Revision>)
    ensures |out| == |revisions|
    ensures forall i :: 0 <= i < |out| ==> out[i] == revisions[i].(active := false)
  {
    if revisions == [] then []
    else Deactivated(revisions[..|revisions| - 1]) + [revisions[|revisions| - 1].(active := false)]
  }

  /** Exactly one revision is active, and it is the latest. */
  predicate LatestActive(revisions: seq<Revision>) {
    revisions != [] && forall i :: 0 <= i < |revisions| ==> (revisions[i].active <==> i == |revisions| - 1)
  }

  /** The snapshot of an environment; an empty one is not kept. */
  function Snapshot(env: Env): Option<Env> {
    if env == map[] then None else Some(env)
  }

  /** A new active revision takes the place of the old ones. */
  function Redeployed(d: Deployment, image: Option<string>, status: DeployState, snapshot: Option<Env>): Deployment {
    d.(state := status, revisions := Deactivated(d.revisions) + [Revision(image, status, true, snapshot)])
  }

  /** The revisions a rollback without a target looks at. */
  predicate RollbackCandidate(r: Revision) {
    r.status.Running? && !r.active && r.image.Some?
  }

  predicate NewestCandidate(revisions: seq<Revision>, i: nat) {
    i < |revisions| && RollbackCandidate(revisions[i])
    && forall j :: i < j < |revisions| ==> !RollbackCandidate(revisions[j])
  }

  function LastCandidate(revisions: seq<Revision>): (r: Option<nat>)
    ensures match r
            case None => forall i :: 0 <= i < |revisions| ==> !RollbackCandidate(revisions[i])
            case Some(i) => NewestCandidate(revisions, i)
  {
    if revisions == [] then None
    else if RollbackCandidate(revisions[|revisions| - 1]) then Some(|revisions| - 1)
    else LastCandidate(revisions[..|revisions| - 1])
  }

  /** The revision to roll back to, or None where the endpoint refuses. */
  function RollbackTarget(revisions: seq<Revision>, chosen: Option<nat>): Option<nat> {
    match chosen
    case None => LastCandidate(revisions)
    case Some(i) => if i < |revisions| && revisions[i].image.Some? && revisions[i].image.value != "" then Some(i) else None
  }

  // ---------------------------------------------------------------------------
  // Steps
  // ---------------------------------------------------------------------------

  function RolledBack(d: Deployment, target: nat): Deployment
    requires target < |d.revisions|
  {
    var r := d.revisions[target];
    var env := if r.snapshot.Some? && r.snapshot.value != map[] then r.snapshot.value else d.env;
    Redeployed(d.(image := r.image.GetOr(d.image), env := env), r.image, Building, Snapshot(env))
  }

  function EnvChanged(d: Deployment, env: Env): Deployment {
    var e := d.(env := env);
    if d.state.Running? && d.hasNode then Redeployed(e, Some(d.image), Building, Some(env)) else e
  }

  function TaskFinished(d: Deployment, task: TaskId, image: string): Deployment
    requires task in d.tasks
  {
    var t := d.tasks[task];
    var after := d.(state := Running, tasks := d.tasks - {task});
    if t.revision >= |d.revisions| then after
    else
      var r := d.revisions[t.revision];
      var active := if t.expired || !t.loaded then true else r.active;
      after.(revisions := d.revisions[t.revision := r.(status := Running, image := Some(image), active := active)])
  }

  function TaskFailed(d: Deployment, task: TaskId): Deployment {
    var after := d.(state := Error, tasks := d.tasks - {task});
    if d.revisions == [] then after
    else
      var last := |d.revisions| - 1;
      after.(revisions := d.revisions[last := d.revisions[last].(status := Error)])
  }

  /** The deployment after an event; an event that is refused or impossible changes nothing. */
  function Apply(d: Deployment, e: Event): Deployment {
    match e
    case Restart => Redeployed(d, None, Building, Snapshot(d.env))
    case Rollback(chosen) =>
      (match RollbackTarget(d.revisions, chosen)
       case None => d
       case Some(i) => if i < |d.revisions| then RolledBack(d, i) else d)
    case UpdateEnv(env) => EnvChanged(d, env)
    case DeleteEnv(key) => if key in d.env then EnvChanged(d, d.env - {key}) else d
    case Push => Redeployed(d, None, Created, None)
    case Stop => d.(state := Suspended)
    case Begin(task) =>
      if task in d.tasks || d.revisions == [] then d
      else
        var last := |d.revisions| - 1;
        d.(tasks := d.tasks[task := Task(last, d.revisions[last].active, false)])
    case Poll(task) =>
      if task in d.tasks then d.(state := Building, tasks := d.tasks[task := d.tasks[task].(expired := true)]) else d
    case BuildDone(task, built) =>
      if task in d.tasks && d.tasks[task].revision < |d.revisions| then
        var i := d.tasks[task].revision;
        d.(image := built, tasks := d.tasks[task := d.tasks[task].(expired := true)],
           revisions := d.revisions[i := d.revisions[i].(image := Some(built), status := Building)])
      else d
    case Finish(task, started) => if task in d.tasks then TaskFinished(d, task, started) else d
    case Fail(task) => if task in d.tasks then TaskFailed(d, task) else d
  }

  function Run(d: Deployment, events: seq<Event>): Deployment {
    if events == [] then d else Apply(Run(d, events[..|events| - 1]), events[|events| - 1])
  }

  /** A task ends for a revision that is not the latest any more, after its session lost what it had loaded. */
  predicate StaleFinish(d: Deployment, e: Event) {
    e.Finish? && e.task in d.tasks && d.tasks[e.task].expired && d.tasks[e.task].revision + 1 < |d.revisions|
  }

  /** What a task loaded: some revision, which was active then. */
  ghost predicate TasksSound(d: Deployment) {
    forall t :: t in d.tasks ==> d.tasks[t].revision < |d.revisions| && d.tasks[t].loaded
  }

  /** Exactly the stale end of a provisioning task breaks the rule that the latest revision alone is active. */
  lemma EventKeepsLatestIff(d: Deployment, e: Event)
    requires LatestActive(d.revisions) && TasksSound(d)
    ensures LatestActive(Apply(d, e).revisions) <==> !StaleFinish(d, e)
    ensures TasksSound(Apply(d, e))
  {
    if StaleFinish(d, e) {
      var i := d.tasks[e.task].revision;
      assert Apply(d, e).revisions[i].active;
    }
  }

  /** Whatever the revisions were, the next deployment of any kind restores the rule. */
  lemma RedeployRestores(d: Deployment, e: Event)
    requires e.Restart? || e.Push?
             || (e.Rollback? && RollbackTarget(d.revisions, e.revision).Some?)
             || (e.UpdateEnv? && d.state.Running? && d.hasNode)
             || (e.DeleteEnv? && e.key in d.env && d.state.Running? && d.hasNode)
    ensures LatestActive(Apply(d, e).revisions)
  {
  }

  lemma RunStep(d: Deployment, events: seq<Event>, i: nat)
    requires i < |events|
    ensures Run(d, events[..i + 1]) == Apply(Run(d, events[..i]), events[i])
  {
    assert events[..i + 1][..i] == events[..i];
  }

  /** The rule holds after the first `k` events. */
  predicate HoldsAfter(d: Deployment, events: seq<Event>, k: nat)
    requires k <= |events|
  {
    LatestActive(Run(d, events[..k]).revisions)
  }

  /** The event with number `k` is the stale end of a task. */
  predicate StaleAt(d: Deployment, events: seq<Event>, k: nat)
    requires k < |events|
  {
    StaleFinish(Run(d, events[..k]), events[k])
  }

  lemma StepInRun(d: Deployment, events: seq<Event>, k: nat)
    requires k < |events| && HoldsAfter(d, events, k) && TasksSound(Run(d, events[..k]))
    ensures HoldsAfter(d, events, k + 1) <==> !StaleAt(d, events, k)
    ensures TasksSound(Run(d, events[..k + 1]))
  {
    hide Run, LatestActive, TasksSound, StaleFinish;
    RunStep(d, events, k);
    EventKeepsLatestIff(Run(d, events[..k]), events[k]);
  }

  lemma HoldsAtStart(d: Deployment, events: seq<Event>)
    requires LatestActive(d.revisions) && TasksSound(d)
    ensures HoldsAfter(d, events, 0) && TasksSound(Run(d, events[..0]))
  {
    assert events[..0] == [];
  }

  lemma {:induction false} RunKeepsLatest(d: Deployment, events: seq<Event>, i: nat)
    requires LatestActive(d.revisions) && TasksSound(d) && i <= |events|
    requires forall k :: 0 <= k < i ==> !StaleAt(d, events, k)
    ensures HoldsAfter(d, events, i) && TasksSound(Run(d, events[..i]))
  {
    hide *;
    if i == 0 {
      HoldsAtStart(d, events);
    } else {
      RunKeepsLatest(d, events, i - 1);
      StepInRun(d, events, i - 1);
    }
  }

  lemma {:induction false} RunWasNotStale(d: Deployment, events: seq<Event>, i: nat)
    requires LatestActive(d.revisions) && TasksSound(d) && i <= |events|
    requires forall k :: 0 <= k <= i ==> HoldsAfter(d, events, k)
    ensures TasksSound(Run(d, events[..i]))
    ensures forall k :: 0 <= k < i ==> !StaleAt(d, events, k)
  {
    hide *;
    if i == 0 {
      HoldsAtStart(d, events);
    } else {
      RunWasNotStale(d, events, i - 1);
      StepInRun(d, events, i - 1);
    }
  }

  /** The rule holds after every event of a run exactly if no provisioning task ends stale in it. */
  lemma RunKeepsLatestIff(d: Deployment, events: seq<Event>)
    requires LatestActive(d.revisions) && TasksSound(d)
    ensures (forall k :: 0 <= k <= |events| ==> HoldsAfter(d, events, k))
       <==> (forall k :: 0 <= k < |events| ==> !StaleAt(d, events, k))
  {
    hide StaleAt, HoldsAfter;
    if forall k :: 0 <= k < |events| ==> !StaleAt(d, events, k) {
      forall k | 0 <= k <= |events| ensures HoldsAfter(d, events, k) {
        RunKeepsLatest(d, events, k);
      }
    }
    if forall k :: 0 <= k <= |events| ==> HoldsAfter(d, events, k) {
      RunWasNotStale(d, events, |events|);
    }
  }

  /** A push while a build runs is enough: when the build's task ends, two revisions are active. */
  lemma BuildOvertaken(d: Deployment, task: TaskId, built: string)
    requires LatestActive(d.revisions) && TasksSound(d) && task !in d.tasks
    ensures var events := [Begin(task), BuildDone(task, built), Push, Finish(task, built)];
      !LatestActive(Run(d, events).revisions)
  {
    var d1 := Apply(d, Begin(task));
    var d2 := Apply(d1, BuildDone(task, built));
    var d3 := Apply(d2, Push);
    var events := [Begin(task), BuildDone(task, built), Push, Finish(task, built)];
    hide Apply;
    assert Run(d, []) == d;
    assert events[..1] == [] + [Begin(task)] && events[..1][..0] == [];
    RunStep(d, events, 0);
    RunStep(d, events, 1);
    RunStep(d, events, 2);
    RunStep(d, events, 3);
    assert events[..0] == [] && events[..4] == events;
    Overtaken(d, task, built);
  }

  lemma Overtaken(d: Deployment, task: TaskId, built: string)
    requires LatestActive(d.revisions) && TasksSound(d) && task !in d.tasks
    ensures var d3 := Apply(Apply(Apply(d, Begin(task)), BuildDone(task, built)), Push);
      !LatestActive(Apply(d3, Finish(task, built)).revisions)
  {
    var d1 := Apply(d, Begin(task));
    EventKeepsLatestIff(d, Begin(task));
    var d2 := Apply(d1, BuildDone(task, built));
    EventKeepsLatestIff(d1, BuildDone(task, built));
    var d3 := Apply(d2, Push);
    EventKeepsLatestIff(d2, Push);
    EventKeepsLatestIff(d3, Finish(task, built));
  }

  /** After a rollback the deployment has the target's image and, if it kept one, its environment, in a new latest revision. */
  lemma RollbackRestores(d: Deployment, chosen: Option<nat>)
    requires RollbackTarget(d.revisions, chosen).Some?
    ensures var i, after := RollbackTarget(d.revisions, chosen).value, Apply(d, Rollback(chosen));
      i < |d.revisions| && d.revisions[i].image.Some?
      && after.image == d.revisions[i].image.value
      && (d.revisions[i].snapshot.Some? && d.revisions[i].snapshot.value != map[] ==> after.env == d.revisions[i].snapshot.value)
      && (d.revisions[i].snapshot.None? || d.revisions[i].snapshot.value == map[] ==> after.env == d.env)
      && |after.revisions| == |d.revisions| + 1 && LatestActive(after.revisions)
      && after.revisions[|d.revisions|].image == Some(after.image)
      && after.revisions[|d.revisions|].snapshot == Snapshot(after.env)
    ensures chosen == None ==> NewestCandidate(d.revisions, RollbackTarget(d.revisions, chosen).value)
  {
  }

  /** The last revision is new; the ones before are as they were, but none of them is active. */
  predicate NewRevision(d: Deployment, after: Deployment, r: Revision) {
    |after.revisions| == |d.revisions| + 1 && after.revisions[|d.revisions|] == r
    && forall i :: 0 <= i < |d.revisions| ==> after.revisions[i] == d.revisions[i].(active := false)
  }

  /**
    New variables: a running placed deployment is redeployed with them and its current image, any
    other one just keeps them.
   */
  lemma UpdateRedeploys(d: Deployment, env: Env)
    ensures var after := Apply(d, UpdateEnv(env));
      after.env == env && after.image == d.image && after.tasks == d.tasks && after.hasNode == d.hasNode
      && if d.state.Running? && d.hasNode
         then after.state.Building? && NewRevision(d, after, Revision(Some(d.image), Building, true, Some(env)))
         else after.state == d.state && after.revisions == d.revisions
  {
  }

  /** Without one variable: the same, with the others as they were. */
  lemma DeleteRedeploys(d: Deployment, key: string)
    requires key in d.env
    ensures Apply(d, DeleteEnv(key)) == Apply(d, UpdateEnv(map k | k in d.env && k != key :: d.env[k]))
  {
    assert d.env - {key} == map k | k in d.env && k != key :: d.env[k];
  }

  /** A restart and a push add a revision whose image is still to be built; a restart keeps the variables. */
  lemma RestartAndPush(d: Deployment)
    ensures var after := Apply(d, Restart);
      after.state.Building? && after.env == d.env && after.image == d.image && after.tasks == d.tasks
      && NewRevision(d, after, Revision(None, Building, true, if d.env == map[] then None else Some(d.env)))
    ensures var after := Apply(d, Push);
      after.state.Created? && after.env == d.env && after.image == d.image && after.tasks == d.tasks
      && NewRevision(d, after, Revision(None, Created, true, None))
  {
  }

  /**
    A later rollback to the revision of an update, while it has that image and snapshot, restores
    the image, and the variables exactly unless they were empty and there are others now.
   */
  lemma UpdateThenRollback(d: Deployment, env: Env, later: Deployment)
    requires d.state.Running? && d.hasNode && d.image != "" && |d.revisions| < |later.revisions|
    requires var r := Apply(d, UpdateEnv(env)).revisions[|d.revisions|];
      later.revisions[|d.revisions|].image == r.image && later.revisions[|d.revisions|].snapshot == r.snapshot
    ensures var after := Apply(later, Rollback(Some(|d.revisions|)));
      after.image == d.image && (after.env == env <==> env != map[] || later.env == map[])
  {
    UpdateRedeploys(d, env);
    RollbackRestores(later, Some(|d.revisions|));
  }

  /** A finished task leaves its revision running with the image it started, a failed one marks the latest revision. */
  lemma TasksEnd(d: Deployment, task: TaskId, started: string)
    requires TasksSound(d) && task in d.tasks
    ensures var after, i := Apply(d, Finish(task, started)), d.tasks[task].revision;
      after.state.Running? && after.tasks == d.tasks - {task} && |after.revisions| == |d.revisions|
      && after.revisions[i].status.Running? && after.revisions[i].image == Some(started)
      && after.revisions[i].snapshot == d.revisions[i].snapshot
      && forall j :: 0 <= j < |d.revisions| && j != i ==> after.revisions[j] == d.revisions[j]
    ensures var after, last := Apply(d, Fail(task)), |d.revisions| - 1;
      after.state.Error? && after.tasks == d.tasks - {task}
      && after.revisions == d.revisions[last := d.revisions[last].(status := Error)]
  {
  }

  // ---------------------------------------------------------------------------
  // The endpoints
  // ---------------------------------------------------------------------------

  class AppDeployment {
    var d: Deployment

    constructor (image: string)
      ensures d == Deployment(image, map[], Created, true, [Revision(None, Created, true, None)], map[])
      ensures LatestActive(d.revisions) && TasksSound(d)
    {
      d := Deployment(image, map[], Created, true, [Revision(None, Created, true, None)], map[]);
    }

    /** `_deactivate_old_revisions`. */
    method DeactivateOldRevisions()
      modifies this
      ensures d == old(d).(revisions := Deactivated(old(d.revisions)))
    {
      ghost var before := d.revisions;
      for i := 0 to |d.revisions|
        invariant |d.revisions| == |before| && d == old(d).(revisions := d.revisions)
        invariant forall k :: 0 <= k < i ==> d.revisions[k] == before[k].(active := false)
        invariant forall k :: i <= k < |before| ==> d.revisions[k] == before[k]
      {
        if d.revisions[i].active {
          d := d.(revisions := d.revisions[i := d.revisions[i].(active := false)]);
        }
      }
      assert d.revisions == Deactivated(before);
    }

    /** `restart_deployment` up to its first commit. */
    method RestartDeployment()
      modifies this
      ensures d == Apply(old(d), Restart)
    {
      d := d.(state := Building);
      DeactivateOldRevisions();
      var snapshot := if d.env == map[] then None else Some(d.env);
      d := d.(revisions := d.revisions + [Revision(None, Building, true, snapshot)]);
    }

    /** `rollback_deployment`; false where it answers with an error. */
    method RollbackDeployment(chosen: Option<nat>) returns (ok: bool)
      modifies this
      ensures ok == RollbackTarget(old(d).revisions, chosen).Some? && d == Apply(old(d), Rollback(chosen))
    {
      var target := RollbackTarget(d.revisions, chosen);
      if target.None? {
        return false;
      }
      var r := d.revisions[target.value];
      d := d.(image := r.image.value, state := Building);
      if r.snapshot.Some? && r.snapshot.value != map[] {
        d := d.(env := r.snapshot.value);
      }
      DeactivateOldRevisions();
      var snapshot := if d.env == map[] then None else Some(d.env);
      d := d.(revisions := d.revisions + [Revision(r.image, Building, true, snapshot)]);
      ok := true;
    }

    /** `update_env_vars`. */
    method UpdateEnvVars(env: Env)
      modifies this
      ensures d == Apply(old(d), UpdateEnv(env))
    {
      d := d.(env := env);
      if d.state.Running? && d.hasNode {
        d := d.(state := Building);
        DeactivateOldRevisions();
        d := d.(revisions := d.revisions + [Revision(Some(d.image), Building, true, Some(env))]);
      }
    }

    /** `delete_env_var`; false when there is no such variable. */
    method DeleteEnvVar(key: string) returns (ok: bool)
      modifies this
      ensures ok == (key in old(d).env) && d == Apply(old(d), DeleteEnv(key))
    {
      if key !in d.env {
        return false;
      }
      UpdateEnvVars(d.env - {key});
      ok := true;
    }

    /** `github_webhook` for a push to the deployed branch. */
    method PushReceived()
      modifies this
      ensures d == Apply(old(d), Push)
    {
      DeactivateOldRevisions();
      d := d.(revisions := d.revisions + [Revision(None, Created, true, None)], state := Created);
    }
  }
}
