/**
  The server table over time: creation, failover, deletion, software switch and migration, with
  what every run keeps about the ports of the servers of one node.
 */
module ServerRegistry {
  import opened Wrappers
  import opened PortAllocation
  import opened PortCapacity

  /** The configured ranges; `proxy` is None when the proxy is disabled. */
  datatype Config = Config(bedrock: PortRange, java: PortRange, proxy: Option<PortRange>)

  function RangeOf(cfg: Config, flavor: Flavor): PortRange {
    if flavor.Bedrock? then cfg.bedrock else cfg.java
  }

  predicate RangesDisjoint(cfg: Config) {
    cfg.bedrock.end < cfg.java.start || cfg.java.end < cfg.bedrock.start
  }

  /** The steps that change the table; each one is a committed transaction. */
  datatype Event =
    | Create(id: ServerId, flavor: Flavor, placement: Option<NodeId>, busy: set<int>)
    | Detach(id: ServerId)
    | Assign(id: ServerId, node: NodeId, busy: set<int>)
    | Remove(id: ServerId)
    | Switch(id: ServerId, flavor: Flavor)
    | Migrate(id: ServerId, node: NodeId)

  // ---------------------------------------------------------------------------
  // The table as a function of the events
  // ---------------------------------------------------------------------------

  /** Some server has this proxy port. */
  predicate Held(t: Table, p: int) {
    exists id :: id in t && t[id].proxy == Some(p)
  }

  function ProxyPorts(t: Table, range: PortRange): set<int> {
    set id | id in t && t[id].proxy.Some? && range.start <= t[id].proxy.value <= range.end :: t[id].proxy.value
  }

  /** The proxy port of a new server, or None when the range is exhausted. */
  function AllocateProxy(t: Table, proxy: Option<PortRange>): Option<Option<int>> {
    if proxy.None? then Some(None)
    else match FirstSingle(proxy.value, ProxyPorts(t, proxy.value), {}, proxy.value.start)
         case None => None
         case Some(p) => Some(Some(p))
  }

  /** The database's unique key on (node_id, vm_port); rows without a node are exempt. */
  predicate KeyFree(t: Table, id: ServerId, node: Option<NodeId>, port: int) {
    node.Some? ==> forall other :: other in t && other != id && t[other].node == node ==> t[other].port != port
  }

  ghost function Apply(cfg: Config, t: Table, e: Event): Table {
    match e
    case Create(id, flavor, node, busy) =>
      (match (Allocate(t, RangeOf(cfg, flavor), flavor, node, busy), AllocateProxy(t, cfg.proxy))
       case (Some(port), Some(proxy)) =>
         if id !in t && KeyFree(t, id, node, port) then t[id := Row(node, port, flavor, proxy)] else t
       case (_, _) => t)
    case Detach(id) =>
      if id in t then t[id := t[id].(node := None)] else t
    case Assign(id, node, busy) =>
      if id !in t || t[id].node.Some? then t
      else (match Allocate(t, RangeOf(cfg, t[id].flavor), t[id].flavor, Some(node), busy)
            case None => t
            case Some(port) =>
              if KeyFree(t, id, Some(node), port) then t[id := t[id].(node := Some(node), port := port)] else t)
    case Remove(id) => t - {id}
    case Switch(id, flavor) =>
      if id in t && t[id].flavor.Bedrock? == flavor.Bedrock? then t[id := t[id].(flavor := flavor)] else t
    case Migrate(id, node) =>
      if id in t && t[id].node.Some? && KeyFree(t, id, Some(node), t[id].port)
      then t[id := t[id].(node := Some(node))] else t
  }

  ghost function Run(cfg: Config, events: seq<Event>): Table {
    if events == [] then map[] else Apply(cfg, Run(cfg, events[..|events| - 1]), events[|events| - 1])
  }

  // ---------------------------------------------------------------------------
  // Invariants
  // ---------------------------------------------------------------------------

  /** Every port lies in the range of its flavor, a Bedrock pair entirely. */
  ghost predicate InRange(cfg: Config, t: Table) {
    forall id :: id in t ==>
      && RangeOf(cfg, t[id].flavor).start <= t[id].port
      && (if t[id].flavor.Bedrock? then t[id].port + 1 else t[id].port) <= RangeOf(cfg, t[id].flavor).end
  }

  /** No two servers of one node bind a common port. */
  ghost predicate NodesDisjoint(t: Table) {
    forall a, b :: a in t && b in t && a != b && t[a].node.Some? && t[a].node == t[b].node ==>
      Footprint(t[a]) !! Footprint(t[b])
  }

  ghost predicate ProxiesDistinct(cfg: Config, t: Table) {
    && (forall id :: id in t && t[id].proxy.Some? ==>
          cfg.proxy.Some? && cfg.proxy.value.start <= t[id].proxy.value <= cfg.proxy.value.end)
    && (forall a, b :: a in t && b in t && a != b && t[a].proxy.Some? ==> t[a].proxy != t[b].proxy)
  }

  ghost predicate Inv(cfg: Config, t: Table) {
    InRange(cfg, t) && NodesDisjoint(t) && ProxiesDistinct(cfg, t)
  }

  predicate EvenOffset(cfg: Config, p: int) {
    (p - cfg.bedrock.start) % 2 == 0
  }

  /** Every Bedrock server sits on an even offset, also while it is detached. */
  ghost predicate Aligned(cfg: Config, t: Table) {
    forall id :: id in t && t[id].flavor.Bedrock? ==> EvenOffset(cfg, t[id].port)
  }

  /**
    In the Bedrock range, a busy even offset has its right partner busy too; busy whole pairs are a
    special case.  Nothing is asked of ports outside that range.
   */
  ghost predicate BusyInPairs(cfg: Config, busy: set<int>) {
    forall p :: p in busy && cfg.bedrock.start <= p < cfg.bedrock.end && EvenOffset(cfg, p) ==> p + 1 in busy
  }

  ghost predicate BusyOf(cfg: Config, e: Event) {
    match e
    case Create(_, flavor, _, busy) => flavor.Bedrock? ==> BusyInPairs(cfg, busy)
    case Assign(_, _, busy) => BusyInPairs(cfg, busy)
    case _ => true
  }

  // ---------------------------------------------------------------------------
  // One allocation, under the invariants
  // ---------------------------------------------------------------------------

  /** The rows of one node always pass `_validate_server_port_pairs`. */
  lemma NodeValidates(cfg: Config, t: Table, flavor: Flavor, node: NodeId)
    requires RangesDisjoint(cfg) && Inv(cfg, t)
    ensures PairsValid(t, RangeOf(cfg, flavor), Some(node))
  {
  }

  /** An allocated port collides with no server of the node it is meant for. */
  lemma AllocatedIsFree(cfg: Config, t: Table, flavor: Flavor, node: Option<NodeId>, busy: set<int>, other: ServerId)
    requires RangesDisjoint(cfg) && InRange(cfg, t)
    requires Allocate(t, RangeOf(cfg, flavor), flavor, node, busy).Some?
    requires other in t && (node.Some? ==> t[other].node == node)
    ensures var port := Allocate(t, RangeOf(cfg, flavor), flavor, node, busy).value;
            Footprint(Row(node, port, flavor, None)) !! Footprint(t[other])
  {
    var range := RangeOf(cfg, flavor);
    var port := Allocate(t, range, flavor, node, busy).value;
    var mine := Footprint(Row(node, port, flavor, None));
    assert mine !! Reserved(t, range, node);
    if other in Scope(t, range, node) {
      forall p | p in Footprint(t[other]) && p <= range.end ensures p in Reserved(t, range, node) {
        assert Occupies(t, range, other, p);
      }
    }
  }

  /** With even neighbours and busy ports in pairs, first fit picks an even offset. */
  lemma FirstFitIsEven(cfg: Config, t: Table, node: Option<NodeId>, busy: set<int>)
    requires RangesDisjoint(cfg) && InRange(cfg, t) && Aligned(cfg, t) && BusyInPairs(cfg, busy)
    requires Allocate(t, cfg.bedrock, Bedrock, node, busy).Some?
    ensures EvenOffset(cfg, Allocate(t, cfg.bedrock, Bedrock, node, busy).value)
  {
    var p := Allocate(t, cfg.bedrock, Bedrock, node, busy).value;
    if !EvenOffset(cfg, p) {
      EvenPartnerFree(cfg, t, node, busy, p);
    }
  }

  /** If a pair at an odd offset is free, so is the pair one to the left of it. */
  lemma EvenPartnerFree(cfg: Config, t: Table, node: Option<NodeId>, busy: set<int>, p: int)
    requires RangesDisjoint(cfg) && InRange(cfg, t) && Aligned(cfg, t) && BusyInPairs(cfg, busy)
    requires PairFree(cfg.bedrock, Reserved(t, cfg.bedrock, node), busy, p) && !EvenOffset(cfg, p)
    ensures PairFree(cfg.bedrock, Reserved(t, cfg.bedrock, node), busy, p - 1)
  {
    assert EvenOffset(cfg, p - 1);
    assert p in {p, p + 1};
    ReservedInPairs(cfg, t, node, p - 1);
  }

  lemma ReservedInPairs(cfg: Config, t: Table, node: Option<NodeId>, p: int)
    requires RangesDisjoint(cfg) && InRange(cfg, t) && Aligned(cfg, t) && EvenOffset(cfg, p)
    ensures p in Reserved(t, cfg.bedrock, node) ==> p + 1 in Reserved(t, cfg.bedrock, node)
  {
    if p in Reserved(t, cfg.bedrock, node) {
      var id :| id in Scope(t, cfg.bedrock, node) && Occupies(t, cfg.bedrock, id, p);
      assert t[id].flavor.Bedrock? && EvenOffset(cfg, t[id].port);
      assert Occupies(t, cfg.bedrock, id, p + 1);
    }
  }

  // ---------------------------------------------------------------------------
  // Every run
  // ---------------------------------------------------------------------------

  lemma ProxyIsFresh(cfg: Config, t: Table)
    requires ProxiesDistinct(cfg, t) && AllocateProxy(t, cfg.proxy).Some?
    ensures var proxy := AllocateProxy(t, cfg.proxy).value;
            proxy.Some? ==>
              && cfg.proxy.Some? && cfg.proxy.value.start <= proxy.value <= cfg.proxy.value.end
              && forall id :: id in t ==> t[id].proxy != proxy
  {
    if cfg.proxy.Some? {
      forall id | id in t && t[id].proxy.Some? ensures t[id].proxy.value in ProxyPorts(t, cfg.proxy.value) {
      }
    }
  }

  /** Storing a row keeps the invariant when the row collides with no other. */
  lemma PlacedKeepsInv(cfg: Config, t: Table, id: ServerId, row: Row)
    requires Inv(cfg, t)
    requires InRange(cfg, map[id := row])
    requires forall other :: other in t && other != id && row.node.Some? && t[other].node == row.node ==>
               Footprint(row) !! Footprint(t[other])
    requires row.proxy.Some? ==>
               && cfg.proxy.Some? && cfg.proxy.value.start <= row.proxy.value <= cfg.proxy.value.end
               && forall other :: other in t && other != id ==> t[other].proxy != row.proxy
    ensures Inv(cfg, t[id := row])
  {
    var t' := t[id := row];
    assert t'[id] == (map[id := row])[id];
    forall a, b | a in t' && b in t' && a != b && t'[a].node.Some? && t'[a].node == t'[b].node
      ensures Footprint(t'[a]) !! Footprint(t'[b])
    {
      if b == id {
        assert Footprint(row) !! Footprint(t[a]);
      }
    }
  }

  /** A freshly allocated row fits the range of its flavor and collides with nobody on its node. */
  lemma AllocatedRowFits(cfg: Config, t: Table, flavor: Flavor, node: Option<NodeId>, busy: set<int>, proxy: Option<int>)
    requires RangesDisjoint(cfg) && InRange(cfg, t)
    requires Allocate(t, RangeOf(cfg, flavor), flavor, node, busy).Some?
    ensures var row := Row(node, Allocate(t, RangeOf(cfg, flavor), flavor, node, busy).value, flavor, proxy);
            && (forall id :: InRange(cfg, map[id := row]))
            && (forall other :: other in t && node.Some? && t[other].node == node ==> Footprint(row) !! Footprint(t[other]))
  {
    var row := Row(node, Allocate(t, RangeOf(cfg, flavor), flavor, node, busy).value, flavor, proxy);
    forall other | other in t && node.Some? && t[other].node == node ensures Footprint(row) !! Footprint(t[other]) {
      AllocatedIsFree(cfg, t, flavor, node, busy, other);
    }
  }

  /** Everything except migration keeps the ports of a node disjoint, whatever the probes answer. */
  lemma StepKeepsInv(cfg: Config, t: Table, e: Event)
    requires RangesDisjoint(cfg) && Inv(cfg, t) && !e.Migrate?
    ensures Inv(cfg, Apply(cfg, t, e))
  {
    match e
    case Create(id, flavor, node, busy) =>
      var port, proxy := Allocate(t, RangeOf(cfg, flavor), flavor, node, busy), AllocateProxy(t, cfg.proxy);
      if port.Some? && proxy.Some? {
        ProxyIsFresh(cfg, t);
        AllocatedRowFits(cfg, t, flavor, node, busy, proxy.value);
        PlacedKeepsInv(cfg, t, id, Row(node, port.value, flavor, proxy.value));
      }
    case Assign(id, node, busy) =>
      if id in t && t[id].node.None? {
        var flavor := t[id].flavor;
        var port := Allocate(t, RangeOf(cfg, flavor), flavor, Some(node), busy);
        if port.Some? {
          AllocatedRowFits(cfg, t, flavor, Some(node), busy, t[id].proxy);
          PlacedKeepsInv(cfg, t, id, Row(Some(node), port.value, flavor, t[id].proxy));
        }
      }
    case Detach(id) =>
      if id in t {
        PlacedKeepsInv(cfg, t, id, t[id].(node := None));
      }
    case Switch(id, flavor) =>
      if id in t && t[id].flavor.Bedrock? == flavor.Bedrock? {
        PlacedKeepsInv(cfg, t, id, t[id].(flavor := flavor));
      }
    case Remove(_) =>
  }

  lemma StepKeepsAligned(cfg: Config, t: Table, e: Event)
    requires RangesDisjoint(cfg) && Inv(cfg, t) && Aligned(cfg, t) && BusyOf(cfg, e)
    ensures Aligned(cfg, Apply(cfg, t, e))
  {
    match e
    case Create(_, flavor, node, busy) =>
      if flavor.Bedrock? && Allocate(t, cfg.bedrock, flavor, node, busy).Some? {
        FirstFitIsEven(cfg, t, node, busy);
      }
    case Assign(id, node, busy) =>
      if id in t && t[id].flavor.Bedrock? && Allocate(t, cfg.bedrock, Bedrock, Some(node), busy).Some? {
        FirstFitIsEven(cfg, t, Some(node), busy);
      }
    case Detach(_) =>
    case Remove(_) =>
    case Switch(_, _) =>
    case Migrate(_, _) =>
  }

  /** Two Bedrock pairs that differ by one port. */
  predicate Overlapping(a: Row, b: Row) {
    a.flavor.Bedrock? && b.flavor.Bedrock? && (a.port == b.port - 1 || a.port == b.port + 1)
  }

  ghost predicate HasNeighbour(t: Table, id: ServerId, node: NodeId)
    requires id in t
  {
    exists other :: other in t && other != id && t[other].node == Some(node) && Overlapping(t[other], t[id])
  }

  /**
    A migration that the unique key admits keeps the ports of the nodes disjoint exactly when the
    target node has no Bedrock neighbour of the migrated pair.
   */
  lemma MigrationSafeIff(cfg: Config, t: Table, id: ServerId, node: NodeId)
    requires RangesDisjoint(cfg) && Inv(cfg, t)
    requires id in t && t[id].node.Some? && KeyFree(t, id, Some(node), t[id].port)
    ensures Inv(cfg, Apply(cfg, t, Migrate(id, node))) <==> !HasNeighbour(t, id, node)
  {
    hide Inv, HasNeighbour, Apply;
    if HasNeighbour(t, id, node) {
      NeighbourBreaks(cfg, t, id, node);
    } else {
      NoNeighbourKeeps(cfg, t, id, node);
    }
  }

  lemma NeighbourBreaks(cfg: Config, t: Table, id: ServerId, node: NodeId)
    requires id in t && t[id].node.Some? && KeyFree(t, id, Some(node), t[id].port) && HasNeighbour(t, id, node)
    ensures !Inv(cfg, Apply(cfg, t, Migrate(id, node)))
  {
    var t' := Apply(cfg, t, Migrate(id, node));
    var other :| other in t && other != id && t[other].node == Some(node) && Overlapping(t[other], t[id]);
    assert t[id].port in Footprint(t'[id]) && t[id].port + 1 in Footprint(t'[id]);
    assert t[other].port in Footprint(t'[other]) && t[other].port + 1 in Footprint(t'[other]);
    assert !NodesDisjoint(t');
  }

  lemma NoNeighbourKeeps(cfg: Config, t: Table, id: ServerId, node: NodeId)
    requires RangesDisjoint(cfg) && Inv(cfg, t)
    requires id in t && t[id].node.Some? && KeyFree(t, id, Some(node), t[id].port) && !HasNeighbour(t, id, node)
    ensures Inv(cfg, Apply(cfg, t, Migrate(id, node)))
  {
    var t' := Apply(cfg, t, Migrate(id, node));
    forall other | other in t && other != id && t[other].node == Some(node)
      ensures Footprint(t'[id]) !! Footprint(t'[other])
    {
    }
  }

  /** On even offsets the unique key alone makes a migration safe. */
  lemma MigrationKeepsInv(cfg: Config, t: Table, id: ServerId, node: NodeId)
    requires RangesDisjoint(cfg) && Inv(cfg, t) && Aligned(cfg, t)
    ensures Inv(cfg, Apply(cfg, t, Migrate(id, node)))
  {
    if id in t && t[id].node.Some? && KeyFree(t, id, Some(node), t[id].port) {
      AlignedHaveNoNeighbour(cfg, t, id, node);
      hide *;
      NoNeighbourKeeps(cfg, t, id, node);
    }
  }

  lemma AlignedHaveNoNeighbour(cfg: Config, t: Table, id: ServerId, node: NodeId)
    requires Aligned(cfg, t) && id in t && KeyFree(t, id, Some(node), t[id].port)
    ensures !HasNeighbour(t, id, node)
  {
  }

  /** Runs without migration keep the ports of every node disjoint, for any probes. */
  lemma {:induction false} RunKeepsInv(cfg: Config, events: seq<Event>)
    requires RangesDisjoint(cfg)
    requires forall e :: e in events ==> !e.Migrate?
    ensures Inv(cfg, Run(cfg, events))
  {
    if events != [] {
      var before := events[..|events| - 1];
      RunKeepsInv(cfg, before);
      StepKeepsInv(cfg, Run(cfg, before), events[|events| - 1]);
    }
  }

  /** Runs with migration keep them disjoint, and aligned, when busy ports come in pairs. */
  lemma {:induction false} RunKeepsAligned(cfg: Config, events: seq<Event>)
    requires RangesDisjoint(cfg)
    requires forall e :: e in events ==> BusyOf(cfg, e)
    ensures Inv(cfg, Run(cfg, events)) && Aligned(cfg, Run(cfg, events))
  {
    if events != [] {
      var before, e := events[..|events| - 1], events[|events| - 1];
      RunKeepsAligned(cfg, before);
      var t := Run(cfg, before);
      StepKeepsAligned(cfg, t, e);
      if e.Migrate? {
        MigrationKeepsInv(cfg, t, e.id, e.node);
      } else {
        StepKeepsInv(cfg, t, e);
      }
    }
  }

  /** A single busy even port is enough to lose it: two Bedrock servers end up sharing a port. */
  lemma LoneBusyPortBreaksMigration()
    ensures var cfg := Config(PortRange(19132, 19232), PortRange(25565, 25665), None);
            var events := [Create(0, Bedrock, Some(1), {19132}), Create(1, Bedrock, Some(2), {}), Migrate(0, 2)];
            !NodesDisjoint(Run(cfg, events))
  {
    var cfg := Config(PortRange(19132, 19232), PortRange(25565, 25665), None);
    var e0, e1, e2 := Create(0, Bedrock, Some(1), {19132}), Create(1, Bedrock, Some(2), {}), Migrate(0, 2);
    hide *;
    LoneBusySteps(cfg);
    RunNone(cfg);
    RunOne(cfg, [], e0);
    RunOne(cfg, [e0], e1);
    RunOne(cfg, [e0, e1], e2);
    assert [] + [e0] == [e0] && [e0] + [e1] == [e0, e1] && [e0, e1] + [e2] == [e0, e1, e2];
    PortShared();
  }

  lemma PortShared()
    ensures !NodesDisjoint(map[0 := Row(Some(2), 19133, Bedrock, None), 1 := Row(Some(2), 19132, Bedrock, None)])
  {
    var t: Table := map[0 := Row(Some(2), 19133, Bedrock, None), 1 := Row(Some(2), 19132, Bedrock, None)];
    assert 19133 in Footprint(t[0]) && 19133 in Footprint(t[1]);
  }

  lemma RunNone(cfg: Config)
    ensures Run(cfg, []) == map[]
  {
  }

  lemma RunOne(cfg: Config, before: seq<Event>, e: Event)
    ensures Run(cfg, before + [e]) == Apply(cfg, Run(cfg, before), e)
  {
    assert (before + [e])[..|before|] == before;
    hide Apply;
  }

  lemma LoneBusySteps(cfg: Config)
    requires cfg == Config(PortRange(19132, 19232), PortRange(25565, 25665), None)
    ensures var a, b := Row(Some(1), 19133, Bedrock, None), Row(Some(2), 19132, Bedrock, None);
      var t1: Table := map[0 := a];
      Apply(cfg, map[], Create(0, Bedrock, Some(1), {19132})) == t1
      && Apply(cfg, t1, Create(1, Bedrock, Some(2), {})) == t1[1 := b]
      && Apply(cfg, t1[1 := b], Migrate(0, 2)) == map[0 := a.(node := Some(2)), 1 := b]
  {
    var a, b := Row(Some(1), 19133, Bedrock, None), Row(Some(2), 19132, Bedrock, None);
    var t0: Table := map[];
    var t1: Table := map[0 := a];
    EmptyNodeAllocation(cfg, t0, 1, {19132}, 19133);
    EmptyNodeAllocation(cfg, t1, 2, {}, 19132);
    hide Allocate;
    assert t1[1 := b][0 := a.(node := Some(2))] == map[0 := a.(node := Some(2)), 1 := b];
  }

  lemma EmptyNodeAllocation(cfg: Config, t: Table, node: NodeId, busy: set<int>, p: int)
    requires forall id :: id in t ==> t[id].node != Some(node)
    requires PairFree(cfg.bedrock, {}, busy, p) && p <= cfg.bedrock.start + 1
    requires p == cfg.bedrock.start || cfg.bedrock.start in busy
    ensures Allocate(t, cfg.bedrock, Bedrock, Some(node), busy) == Some(p)
  {
    assert Scope(t, cfg.bedrock, Some(node)) == {};
    assert Reserved(t, cfg.bedrock, Some(node)) == {};
    assert cfg.bedrock.start in {cfg.bedrock.start, cfg.bedrock.start + 1};
  }

  // ---------------------------------------------------------------------------
  // Capacity
  // ---------------------------------------------------------------------------

  /** The number of whole pairs in the Bedrock range. */
  function PairCount(cfg: Config): int {
    (cfg.bedrock.end - cfg.bedrock.start + 1) / 2
  }

  function PairStart(cfg: Config, i: int): int {
    cfg.bedrock.start + 2 * i
  }

  /** Pair i holds a server of the node. */
  ghost predicate PairHeld(cfg: Config, t: Table, node: NodeId, i: int) {
    PortHeld(t, node, PairStart(cfg, i))
  }

  ghost predicate PortHeld(t: Table, node: NodeId, p: int) {
    exists id :: id in t && t[id].node == Some(node) && t[id].flavor.Bedrock? && t[id].port == p
  }

  predicate PairBusy(cfg: Config, busy: set<int>, i: int) {
    PairStart(cfg, i) in busy || PairStart(cfg, i) + 1 in busy
  }

  /** First fit never fragments: it fails only when every pair is held or busy. */
  lemma AllocationFailsIff(cfg: Config, t: Table, node: NodeId, busy: set<int>)
    requires RangesDisjoint(cfg) && Inv(cfg, t) && Aligned(cfg, t) && BusyInPairs(cfg, busy)
    requires cfg.bedrock.start <= cfg.bedrock.end
    ensures Allocate(t, cfg.bedrock, Bedrock, Some(node), busy).None? <==>
            forall i :: 0 <= i < PairCount(cfg) ==> PairHeld(cfg, t, node, i) || PairBusy(cfg, busy, i)
  {
    NodeValidates(cfg, t, Bedrock, node);
    var used := Reserved(t, cfg.bedrock, Some(node));
    var r := Allocate(t, cfg.bedrock, Bedrock, Some(node), busy);
    forall i | 0 <= i < PairCount(cfg)
      ensures PairFree(cfg.bedrock, used, busy, PairStart(cfg, i)) <==>
              !(PairHeld(cfg, t, node, i) || PairBusy(cfg, busy, i))
    {
      PairFreeIff(cfg, t, node, busy, i);
    }
    if r.Some? {
      FirstFitIsEven(cfg, t, Some(node), busy);
      var i := (r.value - cfg.bedrock.start) / 2;
      assert r.value == PairStart(cfg, i) && 0 <= i < PairCount(cfg);
    }
  }

  lemma PairFreeIff(cfg: Config, t: Table, node: NodeId, busy: set<int>, i: int)
    requires RangesDisjoint(cfg) && InRange(cfg, t) && Aligned(cfg, t) && 0 <= i < PairCount(cfg)
    ensures PairFree(cfg.bedrock, Reserved(t, cfg.bedrock, Some(node)), busy, PairStart(cfg, i)) <==>
            !(PairHeld(cfg, t, node, i) || PairBusy(cfg, busy, i))
  {
    var used, p := Reserved(t, cfg.bedrock, Some(node)), PairStart(cfg, i);
    assert EvenOffset(cfg, p);
    ReservedInPairs(cfg, t, Some(node), p);
    ReservedPairIsHeld(cfg, t, node, p);
    assert PairHeld(cfg, t, node, i) <==> PortHeld(t, node, p);
    assert {p, p + 1} !! used <==> p !in used && p + 1 !in used;
    assert {p, p + 1} !! busy <==> p !in busy && p + 1 !in busy;
  }

  lemma ReservedPairIsHeld(cfg: Config, t: Table, node: NodeId, p: int)
    requires RangesDisjoint(cfg) && InRange(cfg, t) && Aligned(cfg, t)
    requires cfg.bedrock.start <= p < cfg.bedrock.end && EvenOffset(cfg, p)
    ensures PortHeld(t, node, p) <==>
            p in Reserved(t, cfg.bedrock, Some(node)) || p + 1 in Reserved(t, cfg.bedrock, Some(node))
  {
    if PortHeld(t, node, p) {
      var id :| id in t && t[id].node == Some(node) && t[id].flavor.Bedrock? && t[id].port == p;
      assert id in Scope(t, cfg.bedrock, Some(node)) && Occupies(t, cfg.bedrock, id, p);
    }
    if p in Reserved(t, cfg.bedrock, Some(node)) {
      ReservedIsHeld(cfg, t, node, p, p);
    }
    if p + 1 in Reserved(t, cfg.bedrock, Some(node)) {
      ReservedIsHeld(cfg, t, node, p, p + 1);
    }
  }

  lemma ReservedIsHeld(cfg: Config, t: Table, node: NodeId, p: int, q: int)
    requires RangesDisjoint(cfg) && InRange(cfg, t) && Aligned(cfg, t) && (q == p || q == p + 1)
    requires cfg.bedrock.start <= p < cfg.bedrock.end && EvenOffset(cfg, p)
    requires q in Reserved(t, cfg.bedrock, Some(node))
    ensures PortHeld(t, node, p)
  {
    hide Reserved;
    var id :| id in Scope(t, cfg.bedrock, Some(node)) && Occupies(t, cfg.bedrock, id, q);
    assert t[id].flavor.Bedrock? && EvenOffset(cfg, t[id].port);
  }

  /** The Bedrock servers of a node. */
  function BedrockOn(t: Table, node: NodeId): set<ServerId> {
    set id | id in t && t[id].node == Some(node) && t[id].flavor.Bedrock?
  }

  /** Those of them that hold one of the first n pairs. */
  function BedrockBelow(cfg: Config, t: Table, node: NodeId, n: nat): set<ServerId> {
    set id | id in BedrockOn(t, node) && t[id].port < PairStart(cfg, n)
  }

  lemma BelowMeans(cfg: Config, t: Table, node: NodeId, n: nat, id: ServerId)
    ensures id in BedrockBelow(cfg, t, node, n) <==>
      id in t && t[id].node == Some(node) && t[id].flavor.Bedrock? && t[id].port < PairStart(cfg, n)
  {
  }

  /** The servers a further pair adds sit on its start. */
  lemma AddedByPair(cfg: Config, t: Table, node: NodeId, n: nat, id: ServerId)
    requires Aligned(cfg, t)
    ensures id in BedrockBelow(cfg, t, node, n + 1) <==>
      id in BedrockBelow(cfg, t, node, n)
      || (id in t && t[id].node == Some(node) && t[id].flavor.Bedrock? && t[id].port == PairStart(cfg, n))
    ensures id in BedrockBelow(cfg, t, node, n) ==> t[id].port < PairStart(cfg, n)
  {
    hide BedrockBelow;
    BelowMeans(cfg, t, node, n, id);
    BelowMeans(cfg, t, node, n + 1, id);
    if id in t && t[id].flavor.Bedrock? {
      assert EvenOffset(cfg, t[id].port);
    }
  }

  lemma OneServerPerPort(t: Table, node: NodeId, a: ServerId, b: ServerId)
    requires NodesDisjoint(t) && a in t && b in t && t[a].node == Some(node) == t[b].node
    requires t[a].port == t[b].port
    ensures a == b
  {
    assert t[a].port in Footprint(t[a]) && t[a].port in Footprint(t[b]);
  }

  /** One more pair holds at most one more server, and one exactly when it is held. */
  lemma BedrockBelowStep(cfg: Config, t: Table, node: NodeId, n: nat)
    requires NodesDisjoint(t) && Aligned(cfg, t)
    ensures |BedrockBelow(cfg, t, node, n + 1)| ==
            |BedrockBelow(cfg, t, node, n)| + if PairHeld(cfg, t, node, n) then 1 else 0
  {
    var less, more := BedrockBelow(cfg, t, node, n), BedrockBelow(cfg, t, node, n + 1);
    if PairHeld(cfg, t, node, n) {
      var id :| id in t && t[id].node == Some(node) && t[id].flavor.Bedrock? && t[id].port == PairStart(cfg, n);
      hide *;
      forall other ensures other in more <==> other in less + {id} {
        AddedByPair(cfg, t, node, n, other);
        AddedByPair(cfg, t, node, n, id);
        if other in t && t[other].node == Some(node) && t[other].port == t[id].port {
          OneServerPerPort(t, node, other, id);
        }
      }
      AddedByPair(cfg, t, node, n, id);
      assert more == less + {id} && id !in less;
    } else {
      NotHeld(cfg, t, node, n);
      hide *;
      forall other ensures other in more <==> other in less {
        AddedByPair(cfg, t, node, n, other);
      }
      assert more == less;
    }
  }

  lemma NotHeld(cfg: Config, t: Table, node: NodeId, n: nat)
    requires !PairHeld(cfg, t, node, n)
    ensures forall id :: id in t && t[id].node == Some(node) && t[id].flavor.Bedrock? ==> t[id].port != PairStart(cfg, n)
  {
  }

  lemma {:induction false} BedrockBelowCount(cfg: Config, t: Table, node: NodeId, n: nat)
    requires InRange(cfg, t) && NodesDisjoint(t) && Aligned(cfg, t)
    ensures |BedrockBelow(cfg, t, node, n)| <= n
    ensures |BedrockBelow(cfg, t, node, n)| == n <==> forall i :: 0 <= i < n ==> PairHeld(cfg, t, node, i)
  {
    if n == 0 {
      assert BedrockBelow(cfg, t, node, 0) == {};
    } else {
      BedrockBelowCount(cfg, t, node, n - 1);
      BedrockBelowStep(cfg, t, node, n - 1);
    }
  }

  /** So, with no busy port, a node holds exactly floor(N / 2) Bedrock servers before it refuses one. */
  lemma NodeHoldsEveryPair(cfg: Config, t: Table, node: NodeId)
    requires RangesDisjoint(cfg) && Inv(cfg, t) && Aligned(cfg, t) && cfg.bedrock.start <= cfg.bedrock.end
    ensures |BedrockOn(t, node)| <= PairCount(cfg)
    ensures Allocate(t, cfg.bedrock, Bedrock, Some(node), {}).None? <==> |BedrockOn(t, node)| == PairCount(cfg)
  {
    BedrockBelowCount(cfg, t, node, PairCount(cfg));
    assert BedrockBelow(cfg, t, node, PairCount(cfg)) == BedrockOn(t, node);
    AllocationFailsIff(cfg, t, node, {});
  }

  // ---------------------------------------------------------------------------
  // The table as the endpoints update it
  // ---------------------------------------------------------------------------

  class Registry {
    const cfg: Config
    var servers: Table

    constructor (cfg: Config)
      ensures this.cfg == cfg && servers == map[]
    {
      this.cfg := cfg;
      servers := map[];
    }

    method AllocateProxyPort() returns (r: Option<Option<int>>)
      ensures r == AllocateProxy(servers, cfg.proxy)
      ensures r == Some(None) <==> cfg.proxy.None?
      ensures r.None? <==> cfg.proxy.Some? && forall p :: cfg.proxy.value.start <= p <= cfg.proxy.value.end ==> Held(servers, p)
      ensures r.Some? && r.value.Some? ==>
                var range, port := cfg.proxy.value, r.value.value;
                && range.start <= port <= range.end && !Held(servers, port)
                && forall p :: range.start <= p < port ==> Held(servers, p)
    {
      if cfg.proxy.None? {
        return Some(None);
      }
      var range := cfg.proxy.value;
      var used := ProxyPorts(servers, range);
      var candidate := range.start;
      while candidate <= range.end
        invariant range.start <= candidate
        invariant forall p :: range.start <= p <= range.end ==> (p in used <==> Held(servers, p))
        invariant forall p :: range.start <= p < candidate ==> Held(servers, p)
        invariant forall p :: p < candidate ==> !SingleFree(range, used, {}, p)
      {
        if candidate !in used {
          assert SingleFree(range, used, {}, candidate);
          return Some(Some(candidate));
        }
        candidate := candidate + 1;
      }
      return None;
    }

    method CreateServer(id: ServerId, flavor: Flavor, node: Option<NodeId>, busy: set<int>) returns (ok: bool)
      requires id !in servers
      modifies this
      ensures servers == Apply(cfg, old(servers), Create(id, flavor, node, busy))
      ensures var port := Allocate(old(servers), RangeOf(cfg, flavor), flavor, node, busy);
              var proxy := AllocateProxy(old(servers), cfg.proxy);
              && (ok <==> port.Some? && proxy.Some? && KeyFree(old(servers), id, node, port.value))
              && servers == if ok then old(servers)[id := Row(node, port.value, flavor, proxy.value)] else old(servers)
    {
      var port := AllocatePort(servers, RangeOf(cfg, flavor), flavor, node, busy);
      if port.Failure? {
        return false;
      }
      var proxy := AllocateProxyPort();
      if proxy.None? {
        return false;
      }
      ok := KeyFree(servers, id, node, port.value);
      if ok {
        servers := servers[id := Row(node, port.value, flavor, proxy.value)];
      }
    }

    /** The placement part of a start; `target` is the node a failover found, if it needs one. */
    method StartServer(id: ServerId, deadOrFull: bool, target: Option<NodeId>, busy: set<int>) returns (ok: bool)
      requires id in servers
      modifies this
      ensures var needs := old(servers[id]).node.None? || deadOrFull;
              var detached := if needs then Apply(cfg, old(servers), Detach(id)) else old(servers);
              && servers == (if needs && target.Some? then Apply(cfg, detached, Assign(id, target.value, busy)) else detached)
              && (ok <==> id in servers && (needs && target.Some? ==> servers[id].node == target))
      ensures var needs := old(servers[id]).node.None? || deadOrFull;
              !needs ==> servers == old(servers) && ok
      ensures var row, needs := old(servers[id]).(node := None), old(servers[id]).node.None? || deadOrFull;
              var detached := old(servers)[id := row];
              needs ==>
                if target.None? then servers == detached && ok
                else
                  var port := Allocate(detached, RangeOf(cfg, row.flavor), row.flavor, target, busy);
                  && (ok <==> port.Some? && KeyFree(detached, id, target, port.value))
                  && servers == if ok then detached[id := row.(node := target, port := port.value)] else detached
    {
      var needsNode := servers[id].node.None?;
      if servers[id].node.Some? && deadOrFull {
        servers := servers[id := servers[id].(node := None)];
        needsNode := true;
      }
      assert needsNode ==> servers == Apply(cfg, old(servers), Detach(id));
      if needsNode && target.Some? {
        var flavor := servers[id].flavor;
        var port := AllocatePort(servers, RangeOf(cfg, flavor), flavor, target, busy);
        if port.Failure? {
          return false;
        }
        if !KeyFree(servers, id, target, port.value) {
          return false;
        }
        servers := servers[id := servers[id].(port := port.value)];
        servers := servers[id := servers[id].(node := target)];
      }
      return true;
    }

    method SwitchSoftware(id: ServerId, flavor: Flavor) returns (ok: bool)
      requires id in servers
      modifies this
      ensures servers == Apply(cfg, old(servers), Switch(id, flavor))
      ensures ok <==> old(servers[id]).flavor.Bedrock? == flavor.Bedrock?
      ensures servers == if ok then old(servers)[id := old(servers[id]).(flavor := flavor)] else old(servers)
    {
      if servers[id].flavor.Bedrock? != flavor.Bedrock? {
        return false;
      }
      servers := servers[id := servers[id].(flavor := flavor)];
      return true;
    }

    /** The reassignment step of a migration; the old port is carried along. */
    method ReassignNode(id: ServerId, node: NodeId) returns (ok: bool)
      requires id in servers && servers[id].node.Some?
      modifies this
      ensures servers == Apply(cfg, old(servers), Migrate(id, node))
      ensures ok <==> KeyFree(old(servers), id, Some(node), old(servers[id]).port)
      ensures servers == if ok then old(servers)[id := old(servers[id]).(node := Some(node))] else old(servers)
    {
      ok := KeyFree(servers, id, Some(node), servers[id].port);
      if ok {
        servers := servers[id := servers[id].(node := Some(node))];
      }
    }

    method DeleteServer(id: ServerId)
      requires id in servers
      modifies this
      ensures servers == Apply(cfg, old(servers), Remove(id)) == old(servers) - {id}
    {
      servers := servers - {id};
    }
  }
}
