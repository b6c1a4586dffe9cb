/**
  Migration of a server to another node: stop, back up to S3, reassign, restore, start, purge.
  Nodes have disks of their own; any call to an agent may fail, before or after it took effect.
 */
module ServerMigration {
  import opened Wrappers

  type NodeId = nat

  /** A version of the world; it advances only while the server runs. */
  type Version = nat

  datatype Node = Node(id: NodeId, totalRam: int, usedRam: int)

  datatype Stage =
    | Begun        // nothing done yet, or stopping the server
    | BackedUp     // S3 holds the world
    | Reassigned   // the row names the new node, which does not hold the world
    | Restored     // the new node holds the world
    | Started      // the start returned
    | Returned     // the row names the old node again

  /** What can be seen between two steps. */
  datatype Moment = Moment(stage: Stage, node: Option<NodeId>, target: Option<NodeId>, copies: map<NodeId, Version>,
                           s3: Option<Version>, latest: Version)

  predicate Holds(copies: map<NodeId, Version>, n: NodeId, v: Version) {
    n in copies && copies[n] == v
  }

  /** Some complete copy of the newest world exists. */
  ghost predicate WorldExists(m: Moment) {
    m.s3 == Some(m.latest) || exists n :: Holds(m.copies, n, m.latest)
  }

  /** The committed row names a node that holds the newest world. */
  predicate NamesHolder(m: Moment) {
    m.node.Some? && Holds(m.copies, m.node.value, m.latest)
  }

  /**
    Which steps succeed: the stop, the backup, the commit of the new node, the restore, the commit
    that gives the server back, the check of the subscription, the commit of another node found at
    the start, the start itself, the commit that it runs, the deletion of the snapshot, and the purge.
   */
  datatype Calls = Calls(stop: bool, backup: bool, reassign: bool, restore: bool, giveBack: bool, paid: bool,
                         moveAgain: bool, start: bool, mark: bool, drop: bool, purge: bool)

  /** The start succeeds: an unfit node was left for another one, or, outside production, for none. */
  predicate Starts(calls: Calls, production: bool, unfit: bool, other: Option<NodeId>) {
    calls.paid && calls.start && (unfit ==> if other.Some? then calls.moveAgain else !production)
  }

  predicate SomeFits(candidates: seq<Node>, required: nat) {
    exists i :: 0 <= i < |candidates| && Fits(candidates[i], required)
  }

  datatype Outcome =
    | BackupFailed
    | NoNode
    | ReassignConflict    // the port is taken on the new node
    | RestoreFailed
    | RestoreFailedAndKept  // restoring failed, and the port had been taken on the old node meanwhile
    | StartFailed
    | Done(purged: bool)

  // ---------------------------------------------------------------------------
  // Choosing the node
  // ---------------------------------------------------------------------------

  function Free(n: Node): int {
    n.totalRam - n.usedRam
  }

  predicate Fits(n: Node, required: nat) {
    Free(n) >= required
  }

  /** The first of the candidates with most free memory that fit. */
  predicate Chosen(candidates: seq<Node>, required: nat, choice: Option<Node>) {
    match choice
    case None => forall i :: 0 <= i < |candidates| ==> !Fits(candidates[i], required)
    case Some(n) =>
      exists k :: 0 <= k < |candidates| && candidates[k] == n && Fits(n, required)
        && (forall i :: 0 <= i < |candidates| && Fits(candidates[i], required) ==> Free(candidates[i]) <= Free(n))
        && (forall i :: 0 <= i < k && Fits(candidates[i], required) ==> Free(candidates[i]) < Free(n))
  }

  method SelectNode(candidates: seq<Node>, required: nat) returns (choice: Option<Node>)
    ensures Chosen(candidates, required, choice)
    ensures choice.None? <==> forall n :: n in candidates ==> n.totalRam - n.usedRam < required
    ensures choice.Some? ==>
      choice.value in candidates && choice.value.totalRam - choice.value.usedRam >= required
      && forall n :: n in candidates ==> n.totalRam - n.usedRam <= choice.value.totalRam - choice.value.usedRam
  {
    choice := None;
    var bestFree := -1;
    ghost var k := 0;
    for i := 0 to |candidates|
      invariant choice.None? ==> bestFree == -1 && forall j :: 0 <= j < i ==> !Fits(candidates[j], required)
      invariant choice.Some? ==>
        (0 <= k < i && candidates[k] == choice.value && Fits(choice.value, required) && bestFree == Free(choice.value)
         && (forall j :: 0 <= j < i && Fits(candidates[j], required) ==> Free(candidates[j]) <= bestFree)
         && (forall j :: 0 <= j < k && Fits(candidates[j], required) ==> Free(candidates[j]) < bestFree))
    {
      var free := candidates[i].totalRam - candidates[i].usedRam;
      if free >= required && free > bestFree {
        bestFree := free;
        choice := Some(candidates[i]);
        k := i;
      }
    }
  }

  // ---------------------------------------------------------------------------
  // The protocol
  // ---------------------------------------------------------------------------

  /** The node a server is migrated from, and the copies of its world at the request. */
  datatype Origin = Origin(source: NodeId, copies: map<NodeId, Version>)

  /** A complete copy, at least as new as the world was at the request, is on the source, in S3 or on the target. */
  predicate CopyExists(m: Moment, o: Origin)
    requires o.source in o.copies
  {
    var base := o.copies[o.source];
    (o.source in m.copies && m.copies[o.source] >= base)
    || (m.s3.Some? && m.s3.value >= base)
    || (m.target.Some? && m.target.value in m.copies && m.copies[m.target.value] >= base)
  }

  /** Nodes other than the source and the target keep whatever copy they had. */
  ghost predicate OthersKept(m: Moment, o: Origin) {
    forall n :: n != o.source && Some(n) != m.target ==>
      (n in m.copies <==> n in o.copies) && (n in m.copies ==> m.copies[n] == o.copies[n])
  }

  /** S3 holds a copy from the backup up to the start. */
  predicate Saved(m: Moment, base: Version, stopped: bool) {
    m.stage.BackedUp? || m.stage.Reassigned? || m.stage.Restored? || m.stage.Returned? ==>
      m.s3.Some? && base <= m.s3.value && (stopped ==> m.s3.value == m.latest)
  }

  /** From the restore on the target has that copy. */
  predicate Carried(m: Moment, source: NodeId, base: Version, stopped: bool) {
    m.stage.Restored? || m.stage.Started? ==>
      m.target.Some? && m.target.value != source && m.target.value in m.copies
      && base <= m.copies[m.target.value]
      && (m.s3.Some? ==> m.s3.value == m.copies[m.target.value])
      && (stopped ==> m.copies[m.target.value] == m.latest)
  }

  /** Where the row points in each stage. */
  predicate Placed(m: Moment, source: NodeId) {
    (m.stage.Begun? || m.stage.BackedUp? ==> m.target.None?)
    && (m.stage.Begun? || m.stage.BackedUp? || m.stage.Returned? ==> m.node == Some(source))
    && (m.stage.Reassigned? ==> m.target.Some? && m.target.value != source && m.node == m.target)
  }

  /**
    What holds at every moment, whether the server was stopped or went on playing.  The source has
    the newest world as long as it has a copy, and it has one until the start returned.
   */
  ghost predicate Good(m: Moment, o: Origin, stopped: bool)
    requires o.source in o.copies
  {
    var base := o.copies[o.source];
    base <= m.latest
    && (!m.stage.Started? ==> o.source in m.copies)
    && (o.source in m.copies ==> m.copies[o.source] == m.latest)
    && Placed(m, o.source) && Saved(m, base, stopped) && Carried(m, o.source, base, stopped) && OthersKept(m, o)
  }

  /** Whichever call failed, a complete copy of the world exists at every moment. */
  lemma GoodHasCopy(m: Moment, o: Origin, stopped: bool)
    requires o.source in o.copies && Good(m, o, stopped)
    ensures CopyExists(m, o)
  {
  }

  /** A node besides the source and the target had the newest world all along. */
  ghost predicate HeldElsewhere(m: Moment, o: Origin) {
    exists n :: n != o.source && Some(n) != m.target && Holds(o.copies, n, m.latest)
  }

  /**
    The newest world exists at every moment before the start returned, and afterwards exactly if
    the source was not purged, the target has the newest copy, or another node had it all along.
   */
  lemma GoodKeepsWorldIff(m: Moment, o: Origin, stopped: bool)
    requires o.source in o.copies && Good(m, o, stopped)
    ensures !m.stage.Started? ==> WorldExists(m)
    ensures m.stage.Started? ==>
      (WorldExists(m) <==> o.source in m.copies || Holds(m.copies, m.target.value, m.latest) || HeldElsewhere(m, o))
    ensures stopped ==> WorldExists(m)
  {
    if o.source in m.copies {
      assert Holds(m.copies, o.source, m.latest);
    }
    if m.stage.Started? {
      if Holds(m.copies, m.target.value, m.latest) {
        assert WorldExists(m);
      }
      if n :| n != o.source && Some(n) != m.target && Holds(o.copies, n, m.latest) {
        assert Holds(m.copies, n, m.latest);
      }
      if n :| Holds(m.copies, n, m.latest) && n != o.source && Some(n) != m.target {
        assert Holds(o.copies, n, m.latest);
      }
    }
  }

  /**
    The row names a holder: always before the reassignment and after a return, and from the restore
    on exactly if the node it names is the target with the newest copy, the unpurged source, or a
    node that had the newest world all along.
   */
  lemma GoodNamesHolderIff(m: Moment, o: Origin, stopped: bool)
    requires o.source in o.copies && Good(m, o, stopped)
    ensures m.stage.Begun? || m.stage.BackedUp? || m.stage.Returned? ==> NamesHolder(m)
    ensures m.stage.Restored? || m.stage.Started? ==> (NamesHolder(m) <==> NamedHolder(m, o))
    ensures stopped && (m.stage.Restored? || m.stage.Started?) && m.node == m.target ==> NamesHolder(m)
  {
  }

  /** What the named node must be for the row to name a holder. */
  predicate NamedHolder(m: Moment, o: Origin)
    requires m.target.Some?
  {
    m.node.Some?
    && var n := m.node.value;
       if n == m.target.value then Holds(m.copies, n, m.latest)
       else if n == o.source then n in m.copies
       else Holds(o.copies, n, m.latest)
  }

  /** A migration from node 1 to node 2 whose stop failed: the server plays on behind the backup. */
  function LossTrail(): seq<Moment> {
    [Moment(Begun, Some(1), None, map[1 := 0], None, 0),
     Moment(BackedUp, Some(1), None, map[1 := 0], Some(0), 0),
     Moment(BackedUp, Some(1), None, map[1 := 1], Some(0), 1),
     Moment(Reassigned, Some(2), Some(2), map[1 := 1], Some(0), 1),
     Moment(Restored, Some(2), Some(2), map[1 := 1, 2 := 0], Some(0), 1),
     Moment(Started, Some(2), Some(2), map[1 := 1, 2 := 0], Some(0), 1),
     Moment(Started, Some(2), Some(2), map[1 := 1, 2 := 0], None, 1),
     Moment(Started, Some(2), Some(2), map[2 := 0], None, 1)]
  }

  lemma LossIsGood()
    ensures forall i :: 0 <= i < |LossTrail()| ==> Good(LossTrail()[i], Origin(1, map[1 := 0]), false)
  {
    var o := Origin(1, map[1 := 0]);
    SettledIsGood(Begun, map[1 := 0], None, 0, o);
    SettledIsGood(BackedUp, map[1 := 0], Some(0), 0, o);
    SettledIsGood(BackedUp, map[1 := 1], Some(0), 1, o);
    MovedIsGood(Reassigned, map[1 := 1], Some(0), o);
    MovedIsGood(Restored, map[1 := 1, 2 := 0], Some(0), o);
    MovedIsGood(Started, map[1 := 1, 2 := 0], Some(0), o);
    MovedIsGood(Started, map[1 := 1, 2 := 0], None, o);
    MovedIsGood(Started, map[2 := 0], None, o);
    hide Good;
  }

  lemma SettledIsGood(stage: Stage, copies: map<NodeId, Version>, s3: Option<Version>, latest: Version, o: Origin)
    requires o == Origin(1, map[1 := 0]) && copies == map[1 := latest]
    requires stage.Begun? || (stage.BackedUp? && s3 == Some(0))
    ensures Good(Moment(stage, Some(1), None, copies, s3, latest), o, false)
  {
  }

  lemma MovedIsGood(stage: Stage, copies: map<NodeId, Version>, s3: Option<Version>, o: Origin)
    requires o == Origin(1, map[1 := 0]) && (s3 == Some(0) || (s3.None? && stage.Started?))
    requires stage.Reassigned? || stage.Restored? || stage.Started?
    requires copies == (if stage.Reassigned? then map[1 := 1] else map[1 := 1, 2 := 0])
             || (stage.Started? && copies == map[2 := 0])
    ensures Good(Moment(stage, Some(2), Some(2), copies, s3, 1), o, false)
  {
  }

  /** Purging the source then loses what was played: every moment is a good one, and the last has no newest world. */
  lemma PurgeLosesWorld()
    ensures var trail, o := LossTrail(), Origin(1, map[1 := 0]);
      (forall i :: 0 <= i < |trail| ==> Good(trail[i], o, false))
      && (forall i :: 0 <= i < |trail| - 1 ==> WorldExists(trail[i])) && !WorldExists(trail[|trail| - 1])
  {
    var trail := LossTrail();
    LossIsGood();
    hide Good;
    forall i | 0 <= i < |trail| - 1 ensures WorldExists(trail[i]) {
      assert Holds(trail[i].copies, 1, trail[i].latest);
    }
    assert forall n :: !Holds(trail[7].copies, n, trail[7].latest);
  }

  /** A start that went to a third node, and a purged source: the row names a node without the world. */
  lemma ThirdNodeHasNoWorld()
    ensures var m := Moment(Started, Some(3), Some(2), map[2 := 0], None, 0);
      Good(m, Origin(1, map[1 := 0]), true) && WorldExists(m) && !NamesHolder(m)
  {
    assert Holds(map[2 := 0], 2, 0);
  }

  class Migration {
    const origin: Origin
    var stage: Stage
    var node: Option<NodeId>
    var target: Option<NodeId>
    var copies: map<NodeId, Version>
    var s3: Option<Version>
    var latest: Version
    var stopped: bool              // the call to stop the server returned
    ghost var trail: seq<Moment>

    constructor (source: NodeId, copies: map<NodeId, Version>, s3: Option<Version>)
      requires source in copies
      ensures Valid() && AllBegun() && !stopped && origin == Origin(source, copies) && trail == [Now()]
    {
      origin := Origin(source, copies);
      stage, node, target := Begun, Some(source), None;
      this.copies, this.s3, latest, stopped := copies, s3, copies[source], false;
      trail := [Moment(Begun, Some(source), None, copies, s3, copies[source])];
    }

    function Now(): Moment
      reads this
    {
      Moment(stage, node, target, copies, s3, latest)
    }

    /** Every recorded moment is good, and the last one is the present. */
    ghost predicate Valid()
      reads this
    {
      origin.source in origin.copies
      && trail != [] && trail[|trail| - 1] == Now() && forall i :: 0 <= i < |trail| ==> Good(trail[i], origin, stopped)
    }

    /** Records the moment between two steps. */
    ghost method Record()
      requires origin.source in origin.copies && Good(Now(), origin, stopped)
      requires forall i :: 0 <= i < |trail| ==> Good(trail[i], origin, stopped)
      modifies this`trail
      ensures Valid() && trail == old(trail) + [Now()]
    {
      trail := trail + [Now()];
    }

    ghost predicate AllBegun()
      reads this
    {
      stage.Begun? && forall i :: 0 <= i < |trail| ==> trail[i].stage.Begun?
    }

    /** A server that was not stopped goes on writing its world on the source. */
    method MayPlay()
      requires Valid()
      modifies this`copies, this`latest, this`trail
      ensures Valid() && (stopped ==> copies == old(copies) && latest == old(latest))
      ensures old(AllBegun()) ==> AllBegun()
    {
      var played: bool := *;
      Play(played);
    }

    /** A session of play makes a newer version on the source. */
    method Play(played: bool)
      requires Valid()
      modifies this`copies, this`latest, this`trail
      ensures Valid()
      ensures if played && !stopped && origin.source in old(copies)
              then latest == old(latest) + 1 && copies == old(copies)[origin.source := latest]
              else copies == old(copies) && latest == old(latest)
      ensures old(AllBegun()) ==> AllBegun()
    {
      if !stopped && played && origin.source in copies {
        latest := latest + 1;
        copies := copies[origin.source := latest];
        Record();
      }
    }

    /** Stopping the server on the source; a failure is ignored. */
    method StopServer(calls: Calls)
      requires Valid() && AllBegun() && !stopped
      modifies this`stopped
      ensures Valid() && AllBegun() && stopped == calls.stop
    {
      stopped := calls.stop;
    }

    /** `backup_to_s3`; a failed call may leave anything in S3. */
    method BackupToS3(calls: Calls) returns (ok: bool)
      requires Valid() && AllBegun()
      modifies this`stage, this`s3, this`trail
      ensures Valid() && ok == calls.backup && stage == if ok then BackedUp else Begun
      ensures ok ==> s3 == Some(latest)
    {
      ok := calls.backup;
      if ok {
        s3 := Some(copies[origin.source]);
        stage := BackedUp;
      } else {
        s3 := *;
      }
      Record();
    }

    /** The commit that gives the server to the chosen node; it fails when the port is taken there. */
    method Reassign(chosen: NodeId, calls: Calls) returns (ok: bool)
      requires Valid() && stage.BackedUp? && chosen != origin.source
      modifies this`stage, this`node, this`target, this`trail
      ensures Valid() && ok == calls.reassign
      ensures if ok then stage.Reassigned? && target == Some(chosen)
              else stage.BackedUp? && node == old(node) && target == old(target)
    {
      ok := calls.reassign;
      if ok {
        node, target := Some(chosen), Some(chosen);
        stage := Reassigned;
        Record();
      }
    }

    /** `restore_from_s3` on the new node; a failed call may leave a whole copy there or none. */
    method RestoreFromS3(calls: Calls) returns (ok: bool)
      requires Valid() && stage.Reassigned?
      modifies this`stage, this`copies, this`trail
      ensures Valid() && ok == calls.restore && stage == if ok then Restored else Reassigned
      ensures ok ==> copies == old(copies)[target.value := s3.value]
    {
      ok := calls.restore;
      var whole: bool := *;
      if ok || whole {
        copies := copies[target.value := s3.value];
      } else {
        copies := map n | n in copies && n != target.value :: copies[n];
      }
      if ok {
        stage := Restored;
      }
      Record();
    }

    /** The commit that gives the server back; it fails when the port was taken on the source meanwhile. */
    method Return(calls: Calls) returns (ok: bool)
      requires Valid() && stage.Reassigned?
      modifies this`stage, this`node, this`trail
      ensures Valid() && ok == calls.giveBack
      ensures if ok then stage.Returned? && node == Some(origin.source) else stage.Reassigned? && node == old(node)
    {
      ok := calls.giveBack;
      if ok {
        node := Some(origin.source);
        stage := Returned;
        Record();
      }
    }

    /**
      `_do_start_server`.  A node that is dead or full by now is left; `other` is the one found
      instead.  Without one a start fails in production and otherwise goes on without a node.
     */
    method StartServer(production: bool, unfit: bool, other: Option<NodeId>, calls: Calls) returns (ok: bool)
      requires Valid() && stage.Restored?
      modifies this`stage, this`node, this`trail
      ensures Valid() && stage == if ok then Started else Restored
      ensures ok <==> Starts(calls, production, unfit, other)
      ensures ok ==> node == (if unfit then other else old(node)) && (unfit && other.None? ==> !production)
      ensures node == old(node) || (unfit && node in {None, other})
    {
      if !calls.paid {
        return false;
      }
      if unfit {
        node := None;
        Record();
        if other.Some? {
          if !calls.moveAgain {
            return false;
          }
          node := other;
          Record();
        } else if production {
          return false;
        }
      }
      ok := calls.start;
      if ok {
        stage := Started;
        Record();
      }
    }

    /** Deleting the snapshot and the data of the source; failures are ignored, and may come after the effect. */
    method CleanUp(calls: Calls) returns (purged: bool)
      requires Valid() && stage.Started?
      modifies this`s3, this`copies, this`trail
      ensures Valid() && purged == calls.purge && s3 == if calls.drop then None else old(s3)
      ensures purged ==> origin.source !in copies
    {
      if calls.drop {
        s3 := None;
        Record();
      }
      purged := calls.purge;
      var gone: bool := *;
      if purged || gone {
        copies := map n | n in copies && n != origin.source :: copies[n];
        Record();
      }
    }

    /** The reassignment and the restore. */
    method TakeOver(chosen: NodeId, calls: Calls) returns (outcome: Option<Outcome>)
      requires Valid() && stage.BackedUp? && chosen != origin.source
      modifies this
      ensures Valid() && OutcomeOf(outcome) && stopped == old(stopped)
      ensures outcome == if !calls.reassign then Some(ReassignConflict)
                         else if calls.restore then None
                         else if calls.giveBack then Some(RestoreFailed) else Some(RestoreFailedAndKept)
      ensures calls.reassign ==> target == Some(chosen)
    {
      var reassigned := Reassign(chosen, calls);
      if !reassigned {
        return Some(ReassignConflict);
      }
      MayPlay();
      var restored := RestoreFromS3(calls);
      if !restored {
        var returned := Return(calls);
        return Some(if returned then RestoreFailed else RestoreFailedAndKept);
      }
      outcome := None;
    }

    /** How the row stands when the migration ended before the start, or is about to start. */
    ghost predicate OutcomeOf(outcome: Option<Outcome>)
      reads this
    {
      match outcome
      case None => stage.Restored? && node == target
      case Some(RestoreFailedAndKept) => stage.Reassigned?
      case Some(_) => stage.Begun? || stage.BackedUp? || stage.Returned?
    }

    /** `migrate_server` up to the restore; None when the new node holds the world. */
    method MoveWorld(candidates: seq<Node>, required: nat, calls: Calls) returns (outcome: Option<Outcome>)
      requires Valid() && AllBegun() && !stopped
      requires forall i :: 0 <= i < |candidates| ==> candidates[i].id != origin.source
      modifies this
      ensures Valid() && OutcomeOf(outcome) && stopped == calls.stop
      ensures outcome == if !calls.backup then Some(BackupFailed)
                         else if !SomeFits(candidates, required) then Some(NoNode)
                         else if !calls.reassign then Some(ReassignConflict)
                         else if calls.restore then None
                         else if calls.giveBack then Some(RestoreFailed) else Some(RestoreFailedAndKept)
      ensures calls.backup && calls.reassign && SomeFits(candidates, required) ==>
        exists n :: Chosen(candidates, required, Some(n)) && target == Some(n.id)
    {
      MayPlay();
      StopServer(calls);
      MayPlay();
      var backedUp := BackupToS3(calls);
      if !backedUp {
        return Some(BackupFailed);
      }
      MayPlay();
      var choice := SelectNode(candidates, required);
      if choice.None? {
        return Some(NoNode);
      }
      outcome := TakeOver(choice.value.id, calls);
    }

    /**
      `migrate_server`.  Whichever call fails, the stop included, a complete copy of the world
      exists at every moment of the run; the newest one exists throughout if the server was stopped.
      Up to the start the source keeps the newest world.  When the migration gives up before it,
      the row names the source, unless the row could not be given back.
     */
    method Migrate(candidates: seq<Node>, required: nat, production: bool, unfit: bool, other: Option<NodeId>, calls: Calls)
      returns (outcome: Outcome)
      requires Valid() && AllBegun() && !stopped
      requires forall i :: 0 <= i < |candidates| ==> candidates[i].id != origin.source
      modifies this
      ensures Valid() && stopped == calls.stop
      ensures outcome.BackupFailed? <==> !calls.backup
      ensures outcome.NoNode? <==> calls.backup && !SomeFits(candidates, required)
      ensures var moved := calls.backup && SomeFits(candidates, required);
        && (outcome.ReassignConflict? <==> moved && !calls.reassign)
        && (outcome.RestoreFailed? <==> moved && calls.reassign && !calls.restore && calls.giveBack)
        && (outcome.RestoreFailedAndKept? <==> moved && calls.reassign && !calls.restore && !calls.giveBack)
        && (outcome.StartFailed? <==>
              moved && calls.reassign && calls.restore && !(Starts(calls, production, unfit, other) && calls.mark))
        && (outcome.Done? <==>
              moved && calls.reassign && calls.restore && Starts(calls, production, unfit, other) && calls.mark)
      ensures outcome.RestoreFailed? || outcome.RestoreFailedAndKept? || outcome.StartFailed? || outcome.Done? ==>
        exists n :: Chosen(candidates, required, Some(n)) && target == Some(n.id)
      ensures outcome.Done? ==> outcome.purged == calls.purge
      ensures forall i :: 0 <= i < |trail| ==> CopyExists(trail[i], origin)
      ensures stopped ==> forall i :: 0 <= i < |trail| ==> WorldExists(trail[i])
      ensures forall i :: 0 <= i < |trail| && !trail[i].stage.Started? ==>
        Holds(trail[i].copies, origin.source, trail[i].latest)
      ensures outcome.BackupFailed? || outcome.NoNode? || outcome.ReassignConflict? || outcome.RestoreFailed? ==>
        node == Some(origin.source) && NamesHolder(Now())
      ensures outcome.RestoreFailedAndKept? ==> node == target && node != Some(origin.source)
      ensures outcome.StartFailed? ==> stage.Restored? || stage.Started?
      ensures outcome.Done? ==>
        stage.Started? && target.Some? && node == if unfit then other else target
      ensures outcome.Done? && outcome.purged ==> origin.source !in copies
      ensures outcome.Done? && calls.drop ==> s3 == None
      ensures outcome.Done? ==>
        (WorldExists(Now()) <==>
           origin.source in copies || Holds(copies, target.value, latest) || HeldElsewhere(Now(), origin))
        && (NamesHolder(Now()) <==> NamedHolder(Now(), origin))
    {
      var failed := MoveWorld(candidates, required, calls);
      if failed.Some? {
        outcome := failed.value;
      } else {
        outcome := Finish(production, unfit, other, calls);
      }
      forall i | 0 <= i < |trail|
        ensures CopyExists(trail[i], origin) && (stopped ==> WorldExists(trail[i]))
      {
        GoodHasCopy(trail[i], origin, stopped);
        GoodKeepsWorldIff(trail[i], origin, stopped);
      }
      GoodKeepsWorldIff(Now(), origin, stopped);
      GoodNamesHolderIff(Now(), origin, stopped);
    }

    /** The start and what follows it. */
    method Finish(production: bool, unfit: bool, other: Option<NodeId>, calls: Calls) returns (outcome: Outcome)
      requires Valid() && stage.Restored? && node == target
      modifies this
      ensures Valid() && target == old(target) && stopped == old(stopped)
      ensures outcome == if Starts(calls, production, unfit, other) && calls.mark then Done(calls.purge) else StartFailed
      ensures outcome.StartFailed? ==> stage.Restored? || stage.Started?
      ensures outcome.Done? ==> stage.Started? && node == if unfit then other else target
      ensures outcome.Done? && outcome.purged ==> origin.source !in copies
      ensures outcome.Done? && calls.drop ==> s3 == None
    {
      MayPlay();
      var started := StartServer(production, unfit, other, calls);
      if !started || !calls.mark {
        return StartFailed;
      }
      MayPlay();
      var purged := CleanUp(calls);
      outcome := Done(purged);
    }
  }
}
