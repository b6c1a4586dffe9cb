/** The `subscription.*` branch of the Paddle webhook over the subscription rows. */
module PaddleWebhook {
  import opened Wrappers
  import opened Sets

  type EventId = string
  type ProviderId = string
  type ResourceId = nat
  type RowId = nat

  datatype ResourceType = MinecraftServer | AppDeployment | DatabaseInstance

  type Resource = (ResourceType, ResourceId)

  datatype SubscriptionStatus = Active | GracePeriod | Suspended | Cancelled

  /** A subscription row; older rows of Minecraft servers may have only the server. */
  datatype Sub = Sub(resource: Option<Resource>, server: Option<ResourceId>, status: SubscriptionStatus,
                     provider: Option<ProviderId>, created: int)

  datatype ResourceRow = ResourceRow(owned: bool, stopped: bool)

  datatype State = State(processed: set<EventId>, subs: map<RowId, Sub>, resources: map<Resource, ResourceRow>,
                         queued: seq<Resource>)

  datatype EventKind = Created | Updated | Canceled

  /**
    An event with a valid signature; `canceled` says that its status is "canceled".  A subscription
    id or resource that is missing, empty or malformed is None.
   */
  datatype Event = Event(id: EventId, kind: EventKind, canceled: bool, subscription: Option<ProviderId>,
                         resource: Option<Resource>)

  // ---------------------------------------------------------------------------
  // Finding the row
  // ---------------------------------------------------------------------------

  predicate HasProvider(subs: map<RowId, Sub>, row: RowId, p: ProviderId) {
    row in subs && subs[row].provider == Some(p)
  }

  predicate OfResource(sub: Sub, r: Resource) {
    sub.resource == Some(r) || (r.0.MinecraftServer? && sub.server == Some(r.1))
  }

  predicate RowOf(subs: map<RowId, Sub>, row: RowId, r: Resource) {
    row in subs && OfResource(subs[row], r)
  }

  predicate NewestOf(subs: map<RowId, Sub>, row: RowId, r: Resource) {
    RowOf(subs, row, r) && forall other :: other in subs && OfResource(subs[other], r) ==> subs[other].created <= subs[row].created
  }

  /** The row an event is about: the one with its subscription id, else a newest one of its resource. */
  ghost predicate Concerns(subs: map<RowId, Sub>, p: ProviderId, r: Resource, found: Option<RowId>) {
    match found
    case None => forall row :: !HasProvider(subs, row, p) && !RowOf(subs, row, r)
    case Some(row) =>
      HasProvider(subs, row, p) || ((forall other :: !HasProvider(subs, other, p)) && NewestOf(subs, row, r))
  }

  predicate Effective(s: State, e: Event) {
    e.id !in s.processed && e.subscription.Some? && e.resource.Some?
    && e.resource.value in s.resources && s.resources[e.resource.value].owned
  }

  predicate Cancels(e: Event) {
    e.kind.Canceled? || e.canceled
  }

  // ---------------------------------------------------------------------------
  // The webhook
  // ---------------------------------------------------------------------------

  class Webhook {
    var processed: set<EventId>
    var subs: map<RowId, Sub>
    var resources: map<Resource, ResourceRow>
    var queued: seq<Resource>

    constructor (s: State)
      ensures View() == s
    {
      processed, subs, resources, queued := s.processed, s.subs, s.resources, s.queued;
    }

    function View(): State
      reads this
    {
      State(processed, subs, resources, queued)
    }

    /** Both queries of the row; an order by creation time leaves ties open. */
    method FindRow(p: ProviderId, r: Resource) returns (found: Option<RowId>)
      ensures Concerns(subs, p, r, found)
      ensures found.None? <==>
        forall row :: row in subs ==>
          subs[row].provider != Some(p) && subs[row].resource != Some(r)
          && !(r.0.MinecraftServer? && subs[row].server == Some(r.1))
      ensures found.Some? ==>
        found.value in subs
        && (subs[found.value].provider == Some(p)
            || subs[found.value].resource == Some(r) || (r.0.MinecraftServer? && subs[found.value].server == Some(r.1)))
        && ((exists row :: row in subs && subs[row].provider == Some(p)) ==> subs[found.value].provider == Some(p))
    {
      var byProvider := set row | row in subs && subs[row].provider == Some(p);
      if byProvider != {} {
        var row :| row in byProvider;
        assert HasProvider(subs, row, p);
        return Some(row);
      }
      assert forall row :: HasProvider(subs, row, p) ==> row in byProvider;
      assert forall row :: row in subs && subs[row].provider == Some(p) ==> row in byProvider;
      var ofResource := set row: RowId | row in subs && OfResource(subs[row], r);
      if ofResource == {} {
        assert forall row :: RowOf(subs, row, r) ==> row in ofResource;
        assert forall row :: row in subs && OfResource(subs[row], r) ==> row in ofResource;
        return None;
      }
      NewestExists(subs, ofResource);
      var row :| row in ofResource && forall other :: other in ofResource ==> subs[other].created <= subs[row].created;
      assert RowOf(subs, row, r);
      assert forall other :: other in subs && OfResource(subs[other], r) ==> other in ofResource;
      found := Some(row);
    }

    /**
      The subscription branch of `paddle_webhook`; `now` is the time, `planned` whether an active
      plan exists, and `newId` the id of a new row.
     */
    method Handle(e: Event, planned: bool, now: int, newId: RowId)
      requires newId !in subs
      modifies this
      ensures Handled(old(View()), e, planned, View())
    {
      if e.id in processed {
        return;
      }
      processed := processed + {e.id};
      if e.subscription.None? || e.resource.None? {
        return;
      }
      var p, r := e.subscription.value, e.resource.value;
      if r !in resources || !resources[r].owned {
        return;
      }
      var found := FindRow(p, r);
      if e.kind.Canceled? || e.canceled {
        if found.Some? {
          subs := subs[found.value := subs[found.value].(status := Cancelled, provider := Some(p))];
        }
        resources := resources[r := resources[r].(stopped := true)];
      } else if found.None? {
        if planned {
          var server := if r.0.MinecraftServer? then Some(r.1) else None;
          subs := subs[newId := Sub(Some(r), server, Active, Some(p), now)];
          queued := queued + [r];
          assert Added(old(subs), subs, newId, p, r);
        }
      } else {
        var wasActive := subs[found.value].status.Active?;
        subs := subs[found.value := subs[found.value].(status := Active, provider := Some(p))];
        if !wasActive {
          queued := queued + [r];
        }
      }
      assert Effective(old(View()), e) && HandledRow(old(View()), e, planned, View(), found);
    }
  }

  lemma NewestExists(subs: map<RowId, Sub>, pool: set<RowId>)
    requires pool != {} && forall row :: row in pool ==> row in subs
    ensures exists a :: a in pool && forall b :: b in pool ==> subs[b].created <= subs[a].created
  {
    var created := (row: RowId) => if row in subs then subs[row].created else 0;
    GreatestExists<RowId>(pool, created);
    var a :| a in pool && forall b :: b in pool ==> created(b) <= created(a);
    assert forall b :: b in pool ==> subs[b].created <= subs[a].created;
  }

  // ---------------------------------------------------------------------------
  // What one event does
  // ---------------------------------------------------------------------------

  /** The row `row` becomes active by the step. */
  predicate Activated(before: State, after: State, row: RowId) {
    row in after.subs && after.subs[row].status.Active? && (row in before.subs ==> !before.subs[row].status.Active?)
  }

  /** `row` is new: an active subscription `p` of the resource. */
  predicate Added(before: map<RowId, Sub>, after: map<RowId, Sub>, row: RowId, p: ProviderId, r: Resource) {
    row !in before && row in after && after == before[row := after[row]]
    && after[row].resource == Some(r) && after[row].status.Active? && after[row].provider == Some(p)
    && after[row].server == if r.0.MinecraftServer? then Some(r.1) else None
  }

  /** An effective event, with the row it found. */
  ghost predicate HandledRow(s: State, e: Event, planned: bool, t: State, found: Option<RowId>)
    requires Effective(s, e)
  {
    var p, r := e.subscription.value, e.resource.value;
    Concerns(s.subs, p, r, found)
    && t.processed == s.processed + {e.id}
    && (if Cancels(e) then
          t.queued == s.queued && t.resources == s.resources[r := s.resources[r].(stopped := true)]
          && (match found
              case None => t.subs == s.subs
              case Some(row) => row in s.subs && t.subs == s.subs[row := s.subs[row].(status := Cancelled, provider := Some(p))])
        else
          t.resources == s.resources
          && (match found
              case None =>
                if planned then
                  t.queued == s.queued + [r] && exists row :: Added(s.subs, t.subs, row, p, r)
                else t.subs == s.subs && t.queued == s.queued
              case Some(row) =>
                row in s.subs && t.subs == s.subs[row := s.subs[row].(status := Active, provider := Some(p))]
                && t.queued == if s.subs[row].status.Active? then s.queued else s.queued + [r]))
  }

  ghost predicate Handled(s: State, e: Event, planned: bool, t: State) {
    if e.id in s.processed then t == s
    else if !Effective(s, e) then t == s.(processed := s.processed + {e.id})
    else exists found :: HandledRow(s, e, planned, t, found)
  }

  // ---------------------------------------------------------------------------
  // Every run
  // ---------------------------------------------------------------------------

  /** The unique key of the table: no two rows share a subscription id. */
  ghost predicate ProvidersUnique(subs: map<RowId, Sub>) {
    forall a, b, p :: HasProvider(subs, a, p) && HasProvider(subs, b, p) ==> a == b
  }

  /** A resource has no more rows than before, or its first. */
  ghost predicate NoSecondRow(before: State, after: State) {
    forall row, r :: RowOf(after.subs, row, r) && row !in before.subs ==>
      (forall other :: RowOf(after.subs, other, r) ==> other == row)
  }

  ghost predicate Step(s: State, t: State) {
    ProvidersUnique(t.subs) && NoSecondRow(s, t) && s.processed <= t.processed
    && (forall row :: row in s.subs ==> row in t.subs && t.subs[row].resource == s.subs[row].resource
                                          && t.subs[row].server == s.subs[row].server)
  }

  lemma RowUpdated(s: State, t: State, p: ProviderId, r: Resource, row: RowId, status: SubscriptionStatus)
    requires ProvidersUnique(s.subs) && Concerns(s.subs, p, r, Some(row)) && row in s.subs
    requires t.subs == s.subs[row := s.subs[row].(status := status, provider := Some(p))] && s.processed <= t.processed
    ensures Step(s, t)
    ensures forall other :: Activated(s, t, other) <==> other == row && status.Active? && !s.subs[row].status.Active?
  {
    forall a, b, q | HasProvider(t.subs, a, q) && HasProvider(t.subs, b, q) ensures a == b {
      assert a != row ==> HasProvider(s.subs, a, q);
      assert b != row ==> HasProvider(s.subs, b, q);
      assert a == row || b == row ==> q == p;
    }
  }

  lemma RowAdded(s: State, t: State, p: ProviderId, r: Resource, row: RowId)
    requires ProvidersUnique(s.subs) && Concerns(s.subs, p, r, None)
    requires Added(s.subs, t.subs, row, p, r) && s.processed <= t.processed
    ensures Step(s, t)
    ensures forall other :: Activated(s, t, other) <==> other == row
  {
    forall a, b, q | HasProvider(t.subs, a, q) && HasProvider(t.subs, b, q) ensures a == b {
      assert a != row ==> HasProvider(s.subs, a, q);
      assert b != row ==> HasProvider(s.subs, b, q);
      assert a == row || b == row ==> q == p;
    }
    forall n, q | RowOf(t.subs, n, q) && n !in s.subs
      ensures forall other :: RowOf(t.subs, other, q) ==> other == n
    {
      assert n == row && q == r;
      assert forall other :: other in s.subs ==> !RowOf(s.subs, other, r);
    }
  }

  lemma NothingDone(s: State, t: State)
    requires ProvidersUnique(s.subs) && t.subs == s.subs && s.processed <= t.processed
    ensures Step(s, t) && forall row :: !Activated(s, t, row)
  {
  }

  /**
    Every event keeps the unique key, gives no resource a second row, and queues one provisioning
    task exactly when a row is created or turns active.
   */
  lemma EventKeepsRows(s: State, e: Event, planned: bool, t: State)
    requires ProvidersUnique(s.subs) && Handled(s, e, planned, t)
    ensures Step(s, t)
    ensures t.queued == s.queued || (e.resource.Some? && t.queued == s.queued + [e.resource.value])
    ensures t.queued != s.queued <==> exists row :: Activated(s, t, row)
  {
    hide Step, Activated, ProvidersUnique, Concerns;
    if e.id in s.processed || !Effective(s, e) {
      NothingDone(s, t);
    } else {
      var found :| HandledRow(s, e, planned, t, found);
      var p, r := e.subscription.value, e.resource.value;
      if found.Some? {
        RowUpdated(s, t, p, r, found.value, if Cancels(e) then Cancelled else Active);
        if !Cancels(e) && !s.subs[found.value].status.Active? {
          assert Activated(s, t, found.value);
        }
      } else if !Cancels(e) && planned {
        var row :| Added(s.subs, t.subs, row, p, r);
        RowAdded(s, t, p, r, row);
        assert Activated(s, t, row);
      } else {
        NothingDone(s, t);
      }
    }
  }

  /** The states of a run, one more than its events. */
  ghost predicate IsRun(states: seq<State>, events: seq<Event>, planned: seq<bool>) {
    |states| == |events| + 1 && |planned| == |events|
    && forall i :: 0 <= i < |events| ==> Handled(states[i], events[i], planned[i], states[i + 1])
  }

  ghost predicate OneRowEach(subs: map<RowId, Sub>) {
    forall a, b, r :: RowOf(subs, a, r) && RowOf(subs, b, r) ==> a == b
  }

  lemma StepKeepsOneRow(s: State, t: State)
    requires Step(s, t) && OneRowEach(s.subs)
    ensures OneRowEach(t.subs)
  {
    forall a, b, r | RowOf(t.subs, a, r) && RowOf(t.subs, b, r) ensures a == b {
      assert a in s.subs ==> RowOf(s.subs, a, r);
      assert b in s.subs ==> RowOf(s.subs, b, r);
    }
  }

  /** In every run the subscription ids stay unique, and a resource that had at most one row keeps at most one. */
  lemma {:induction false} RunKeepsRows(states: seq<State>, events: seq<Event>, planned: seq<bool>, i: nat)
    requires IsRun(states, events, planned) && ProvidersUnique(states[0].subs) && i < |states|
    ensures ProvidersUnique(states[i].subs)
    ensures OneRowEach(states[0].subs) ==> OneRowEach(states[i].subs)
    ensures forall j :: 0 <= j <= i ==> states[j].processed <= states[i].processed
  {
    hide ProvidersUnique, OneRowEach, Handled;
    if i > 0 {
      RunKeepsRows(states, events, planned, i - 1);
      EventKeepsRows(states[i - 1], events[i - 1], planned[i - 1], states[i]);
      StepBasics(states[i - 1], states[i]);
      if OneRowEach(states[i - 1].subs) {
        StepKeepsOneRow(states[i - 1], states[i]);
      }
    }
  }

  lemma StepBasics(s: State, t: State)
    requires Step(s, t)
    ensures ProvidersUnique(t.subs) && s.processed <= t.processed
  {
  }

  lemma EventIsProcessed(s: State, e: Event, planned: bool, t: State)
    requires Handled(s, e, planned, t)
    ensures e.id in t.processed
  {
  }

  /** However often an event is delivered, only its first delivery in a run does anything. */
  lemma RepeatsDoNothing(states: seq<State>, events: seq<Event>, planned: seq<bool>, i: nat, j: nat)
    requires IsRun(states, events, planned) && ProvidersUnique(states[0].subs)
    requires i < j < |events| && events[i].id == events[j].id
    ensures states[j + 1] == states[j]
  {
    RunKeepsRows(states, events, planned, j);
    EventIsProcessed(states[i], events[i], planned[i], states[i + 1]);
    assert states[i + 1].processed <= states[j].processed;
    assert Handled(states[j], events[j], planned[j], states[j + 1]);
  }

  /**
    A cancellation, or an update with the status "canceled", cancels the row it finds, stops the
    resource and queues nothing.
   */
  lemma CanceledStops(s: State, e: Event, planned: bool, t: State)
    requires Handled(s, e, planned, t) && Effective(s, e) && (e.kind.Canceled? || e.canceled)
    ensures t.queued == s.queued
    ensures t.resources == s.resources[e.resource.value := ResourceRow(true, true)]
    ensures (t.subs == s.subs && forall row :: !HasProvider(s.subs, row, e.subscription.value) && !RowOf(s.subs, row, e.resource.value))
            || exists row :: FoundAndSet(s, t, e, row, Cancelled)
  {
    var found :| HandledRow(s, e, planned, t, found);
    if found.Some? {
      assert FoundAndSet(s, t, e, found.value, Cancelled);
    }
  }

  /** The row an event is about gets its subscription id and this status; no other row changes. */
  ghost predicate FoundAndSet(s: State, t: State, e: Event, row: RowId, status: SubscriptionStatus)
    requires e.subscription.Some? && e.resource.Some?
  {
    Concerns(s.subs, e.subscription.value, e.resource.value, Some(row)) && row in s.subs
    && t.subs == s.subs[row := s.subs[row].(status := status, provider := Some(e.subscription.value))]
  }

  /**
    Any other effective event activates the row it finds, or adds one where a plan exists, and stops
    nothing.
   */
  lemma OthersActivate(s: State, e: Event, planned: bool, t: State)
    requires Handled(s, e, planned, t) && Effective(s, e) && !e.kind.Canceled? && !e.canceled
    ensures t.resources == s.resources
    ensures var p, r := e.subscription.value, e.resource.value;
      (exists row :: FoundAndSet(s, t, e, row, Active))
      || ((forall row :: !HasProvider(s.subs, row, p) && !RowOf(s.subs, row, r))
          && if planned then exists row :: Added(s.subs, t.subs, row, p, r) else t.subs == s.subs)
  {
    var found :| HandledRow(s, e, planned, t, found);
    if found.Some? {
      assert FoundAndSet(s, t, e, found.value, Active);
    }
  }

  /** The event rewrites a row that carried another subscription's id. */
  predicate TakesOver(s: State, t: State, e: Event, row: RowId) {
    row in s.subs && row in t.subs && s.subs[row].provider.Some? && s.subs[row].provider != e.subscription
    && t.subs[row] != s.subs[row]
  }

  /** The resource has no two newest rows of the same time. */
  ghost predicate NewestUnique(subs: map<RowId, Sub>, r: Resource) {
    forall a, b :: NewestOf(subs, a, r) && NewestOf(subs, b, r) ==> a == b
  }

  ghost predicate NoneHas(subs: map<RowId, Sub>, p: ProviderId) {
    forall row :: !HasProvider(subs, row, p)
  }

  /**
    An event about one subscription rewrites the row of another - a late cancellation then cancels a
    paid one - exactly when no row has its id and the newest row of the resource has a different one.
    Among several newest rows of one time, any may be the one that decides.
   */
  lemma TakesOverIff(s: State, e: Event, planned: bool, t: State)
    requires Handled(s, e, planned, t) && Effective(s, e)
    ensures var p, r := e.subscription.value, e.resource.value;
      (exists row :: TakesOver(s, t, e, row)) ==>
        NoneHas(s.subs, p) && exists row :: NewestOf(s.subs, row, r) && s.subs[row].provider.Some?
    ensures var p, r := e.subscription.value, e.resource.value;
      NoneHas(s.subs, p) && (exists row :: NewestOf(s.subs, row, r))
      && (forall row :: NewestOf(s.subs, row, r) ==> s.subs[row].provider.Some?) ==>
        exists row :: TakesOver(s, t, e, row)
    ensures var p, r := e.subscription.value, e.resource.value;
      NewestUnique(s.subs, r) ==>
        ((exists row :: TakesOver(s, t, e, row)) <==>
           NoneHas(s.subs, p) && exists row :: NewestOf(s.subs, row, r) && s.subs[row].provider.Some?)
    ensures Cancels(e) ==> forall row :: TakesOver(s, t, e, row) ==> t.subs[row].status.Cancelled?
  {
    var found :| HandledRow(s, e, planned, t, found);
    var p, r := e.subscription.value, e.resource.value;
    if row: RowId :| TakesOver(s, t, e, row) {
      assert found == Some(row);
      assert !HasProvider(s.subs, row, p);
      assert NewestOf(s.subs, row, r);
    }
    if NoneHas(s.subs, p) && exists row :: NewestOf(s.subs, row, r) {
      var row :| NewestOf(s.subs, row, r);
      assert RowOf(s.subs, row, r);
      assert found.Some? && NewestOf(s.subs, found.value, r);
      if s.subs[found.value].provider.Some? {
        assert !HasProvider(s.subs, found.value, p);
        assert TakesOver(s, t, e, found.value);
      }
    }
  }

  // A server's subscription is replaced, and the old one is cancelled late.

  const SERVER: Resource := (MinecraftServer, 1)

  function LateEvents(): seq<Event> {
    [Event("e0", Created, false, Some("old"), Some(SERVER)),
     Event("e1", Created, false, Some("new"), Some(SERVER)),
     Event("e2", Canceled, false, Some("old"), Some(SERVER))]
  }

  function OneSub(status: SubscriptionStatus, p: ProviderId): map<RowId, Sub> {
    map[0 := Sub(Some(SERVER), Some(1), status, Some(p), 0)]
  }

  function LateStates(): seq<State> {
    var owned := map[SERVER := ResourceRow(true, false)];
    [State({}, map[], owned, []),
     State({"e0"}, OneSub(Active, "old"), owned, [SERVER]),
     State({"e0", "e1"}, OneSub(Active, "new"), owned, [SERVER]),
     State({"e0", "e1", "e2"}, OneSub(Cancelled, "old"), map[SERVER := ResourceRow(true, true)], [SERVER])]
  }

  lemma OneSubIsFound(status: SubscriptionStatus, held: ProviderId, p: ProviderId)
    ensures Concerns(OneSub(status, held), p, SERVER, Some(0))
  {
  }

  /** A run of three events in which the late cancellation cancels the subscription that is paid for. */
  lemma LateCancellation()
    ensures IsRun(LateStates(), LateEvents(), [true, true, true]) && LateStates()[0].subs == map[]
    ensures LateStates()[2].subs[0] == Sub(Some(SERVER), Some(1), Active, Some("new"), 0)
    ensures TakesOver(LateStates()[2], LateStates()[3], LateEvents()[2], 0) && LateStates()[3].subs[0].status.Cancelled?
  {
    var states, events := LateStates(), LateEvents();
    assert Added(states[0].subs, states[1].subs, 0, "old", SERVER);
    assert HandledRow(states[0], events[0], true, states[1], None);
    OneSubIsFound(Active, "old", "new");
    assert HandledRow(states[1], events[1], true, states[2], Some(0));
    OneSubIsFound(Active, "new", "old");
    assert HandledRow(states[2], events[2], true, states[3], Some(0));
  }
}
