/**
  The port allocator of one request: the free-port searches of `port_alloc.py` and the table
  scans of `servers.py` that run before them.  The probes of the operating system are an oracle:
  the set `busy` of ports that refuse a bind while the request runs.
 */
module PortAllocation {
  import opened Wrappers

  type NodeId = nat
  type ServerId = nat

  datatype Flavor = Bedrock | JavaVanilla | Paper | Purpur | Fabric | Forge | NeoForge

  datatype PortRange = PortRange(start: int, end: int)

  datatype PortError = InvalidRange | NoFreePort | InvalidAssignments

  /** The columns of a server row that port allocation reads or writes. */
  datatype Row = Row(node: Option<NodeId>, port: int, flavor: Flavor, proxy: Option<int>)

  type Table = map<ServerId, Row>

  /** The ports a server binds: Bedrock also takes the next port, for IPv6. */
  function Footprint(r: Row): set<int> {
    if r.flavor.Bedrock? then {r.port, r.port + 1} else {r.port}
  }

  // ---------------------------------------------------------------------------
  // Free-port searches
  // ---------------------------------------------------------------------------

  predicate PairFree(range: PortRange, used: set<int>, busy: set<int>, p: int) {
    range.start <= p && p + 1 <= range.end && {p, p + 1} !! used && {p, p + 1} !! busy
  }

  predicate SingleFree(range: PortRange, used: set<int>, busy: set<int>, p: int) {
    range.start <= p <= range.end && p !in used && p !in busy
  }

  /** The first free pair at or after `from`. */
  function FirstPair(range: PortRange, used: set<int>, busy: set<int>, from: int): (r: Option<int>)
    ensures r.Some? ==> from <= r.value && PairFree(range, used, busy, r.value)
    ensures forall q :: from <= q && PairFree(range, used, busy, q) ==> r.Some? && r.value <= q
    decreases range.end - from
  {
    if range.end < from then None
    else if PairFree(range, used, busy, from) then Some(from)
    else FirstPair(range, used, busy, from + 1)
  }

  /** The first free single port at or after `from`. */
  function FirstSingle(range: PortRange, used: set<int>, busy: set<int>, from: int): (r: Option<int>)
    ensures r.Some? ==> from <= r.value && SingleFree(range, used, busy, r.value)
    ensures forall q :: from <= q && SingleFree(range, used, busy, q) ==> r.Some? && r.value <= q
    decreases range.end - from
  {
    if range.end < from then None
    else if SingleFree(range, used, busy, from) then Some(from)
    else FirstSingle(range, used, busy, from + 1)
  }

  method PickFreeUdpPort(range: PortRange, used: set<int>, busy: set<int>)
    returns (r: Result<int, PortError>)
    ensures r == Failure(InvalidRange) <==> range.end < range.start
    ensures r.Failure? <==> forall p :: !PairFree(range, used, busy, p)
    ensures r.Success? ==> PairFree(range, used, busy, r.value)
    ensures r.Success? ==> forall p :: p < r.value ==> !PairFree(range, used, busy, p)
    ensures r.Failure? <==>
      forall p :: range.start <= p < range.end ==> p in used || p + 1 in used || p in busy || p + 1 in busy
    ensures r.Success? ==>
      && range.start <= r.value < range.end && {r.value, r.value + 1} !! used + busy
      && forall p :: range.start <= p < r.value ==> p in used || p + 1 in used || p in busy || p + 1 in busy
  {
    if range.end < range.start {
      return Failure(InvalidRange);
    }
    for port := range.start to range.end + 1
      invariant forall p :: p < port ==> !PairFree(range, used, busy, p)
      invariant forall p :: range.start <= p < port && p < range.end ==>
                  p in used || p + 1 in used || p in busy || p + 1 in busy
    {
      var ipv6Port := port + 1;
      if ipv6Port > range.end {
        continue;
      }
      if port in used || ipv6Port in used {
        continue;
      }
      if port in busy {
        continue;
      }
      if ipv6Port in busy {
        continue;
      }
      assert PairFree(range, used, busy, port);
      return Success(port);
    }
    return Failure(NoFreePort);
  }

  method PickFreeTcpPort(range: PortRange, used: set<int>, busy: set<int>)
    returns (r: Result<int, PortError>)
    ensures r == Failure(InvalidRange) <==> range.end < range.start
    ensures r.Failure? <==> forall p :: !SingleFree(range, used, busy, p)
    ensures r.Success? ==> SingleFree(range, used, busy, r.value)
    ensures r.Success? ==> forall p :: p < r.value ==> !SingleFree(range, used, busy, p)
    ensures r.Failure? <==> forall p :: range.start <= p <= range.end ==> p in used || p in busy
    ensures r.Success? ==>
      && range.start <= r.value <= range.end && r.value !in used + busy
      && forall p :: range.start <= p < r.value ==> p in used || p in busy
  {
    if range.end < range.start {
      return Failure(InvalidRange);
    }
    for port := range.start to range.end + 1
      invariant forall p :: p < port ==> !SingleFree(range, used, busy, p)
      invariant forall p :: range.start <= p < port ==> p in used || p in busy
    {
      if port in used {
        continue;
      }
      if port !in busy {
        assert SingleFree(range, used, busy, port);
        return Success(port);
      }
    }
    return Failure(NoFreePort);
  }

  // ---------------------------------------------------------------------------
  // Table scans
  // ---------------------------------------------------------------------------

  /** The rows a scan selects: port inside the range, and on the node when one is given. */
  predicate InScope(r: Row, range: PortRange, node: Option<NodeId>) {
    range.start <= r.port <= range.end && (node.Some? ==> r.node == node)
  }

  function Scope(t: Table, range: PortRange, node: Option<NodeId>): set<ServerId> {
    set id | id in t && InScope(t[id], range, node)
  }

  predicate Occupies(t: Table, range: PortRange, id: ServerId, p: int)
    requires id in t
  {
    p in Footprint(t[id]) && p <= range.end
  }

  /** The ports that the servers of a scope occupy inside the range. */
  function Reserved(t: Table, range: PortRange, node: Option<NodeId>): (used: set<int>)
    ensures forall p :: p in used <==>
              exists id :: id in Scope(t, range, node) && Occupies(t, range, id, p)
  {
    set id, p | id in Scope(t, range, node) && p in Footprint(t[id]) && Occupies(t, range, id, p) :: p
  }

  method CollectReservedPorts(t: Table, range: PortRange, node: Option<NodeId>) returns (reserved: set<int>)
    ensures reserved == Reserved(t, range, node)
  {
    reserved := {};
    var todo := Scope(t, range, node);
    while todo != {}
      invariant todo <= Scope(t, range, node)
      invariant forall p :: p in reserved <==>
                  exists id :: id in Scope(t, range, node) - todo && Occupies(t, range, id, p)
      decreases todo
    {
      var id :| id in todo;
      var row := t[id];
      reserved := reserved + {row.port};
      if row.flavor.Bedrock? && row.port + 1 <= range.end {
        reserved := reserved + {row.port + 1};
      }
      assert forall p :: Occupies(t, range, id, p) <==>
          p == row.port || (row.flavor.Bedrock? && p == row.port + 1 && p <= range.end);
      ghost var before := Scope(t, range, node) - todo;
      todo := todo - {id};
      assert Scope(t, range, node) - todo == before + {id};
    }
    assert Scope(t, range, node) - todo == Scope(t, range, node);
    assert forall p :: p in reserved <==> p in Reserved(t, range, node);
  }

  /** What `_validate_server_port_pairs` accepts. */
  ghost predicate PairsValid(t: Table, range: PortRange, node: Option<NodeId>) {
    && (forall id :: id in Scope(t, range, node) && t[id].flavor.Bedrock? ==> t[id].port != range.end)
    && (forall a, b :: a in Scope(t, range, node) && b in Scope(t, range, node) && a != b ==>
          Footprint(t[a]) !! Footprint(t[b]))
  }

  datatype Complaint =
    | OutsideRange(id: ServerId)
    | BeyondEnd(id: ServerId)
    | SharedPort(port: int, ids: seq<ServerId>)

  /** `owners` lists, for every port, the servers of `done` that occupy it, each once. */
  ghost predicate OwnersOf(t: Table, range: PortRange, done: set<ServerId>, owners: map<int, seq<ServerId>>)
    requires done <= t.Keys
  {
    && (forall id, p :: id in done && Occupies(t, range, id, p) ==> p in owners && id in owners[p])
    && (forall p, i :: p in owners && 0 <= i < |owners[p]| ==> owners[p][i] in done && Occupies(t, range, owners[p][i], p))
    && (forall p, i, j :: p in owners && 0 <= i < j < |owners[p]| ==> owners[p][i] != owners[p][j])
  }

  /** `port_map.setdefault(p, []).append(server_id)` */
  function Append(owners: map<int, seq<ServerId>>, p: int, id: ServerId): map<int, seq<ServerId>> {
    owners[p := (if p in owners then owners[p] else []) + [id]]
  }

  method ValidateServerPortPairs(t: Table, range: PortRange, node: Option<NodeId>) returns (ok: bool)
    ensures ok <==> PairsValid(t, range, node)
  {
    var owners: map<int, seq<ServerId>> := map[];
    var errors: seq<Complaint> := [];
    var scope := Scope(t, range, node);
    var todo := scope;
    while todo != {}
      invariant todo <= scope
      invariant OwnersOf(t, range, scope - todo, owners)
      invariant errors == [] <==>
                forall id :: id in scope - todo && t[id].flavor.Bedrock? ==> t[id].port != range.end
      decreases todo
    {
      var id :| id in todo;
      var port := t[id].port;
      if port < range.start || port > range.end {
        errors := errors + [OutsideRange(id)];
      }
      var portsToCheck := [port];
      if t[id].flavor.Bedrock? {
        var ipv6Port := port + 1;
        if ipv6Port > range.end {
          errors := errors + [BeyondEnd(id)];
        }
        portsToCheck := portsToCheck + [ipv6Port];
      }
      owners := RegisterOwner(t, range, scope - todo, id, portsToCheck, owners);
      assert scope - (todo - {id}) == scope - todo + {id};
      todo := todo - {id};
    }
    assert scope - todo == scope;
    var shared := SharedPorts(owners);
    ok := errors + shared == [];
    if errors == [] {
      SharedIffOverlapping(t, range, scope, owners);
    }
  }

  /** `r` is `owners` with one server entered under each of the ports inside the range. */
  ghost predicate Entered(owners: map<int, seq<ServerId>>, range: PortRange, ports: seq<int>, id: ServerId,
                          r: map<int, seq<ServerId>>)
  {
    (forall p :: p in owners || (p in ports && p <= range.end) <==> p in r)
    && (forall p :: p in r ==>
          r[p] == (if p in owners then owners[p] else []) + if p in ports && p <= range.end then [id] else [])
  }

  lemma EnteredOwns(t: Table, range: PortRange, done: set<ServerId>, owners: map<int, seq<ServerId>>, id: ServerId,
                    ports: seq<int>, r: map<int, seq<ServerId>>)
    requires id in t && id !in done && done <= t.Keys && OwnersOf(t, range, done, owners)
    requires forall p :: Occupies(t, range, id, p) <==> p in ports && p <= range.end
    requires Entered(owners, range, ports, id, r)
    ensures OwnersOf(t, range, done + {id}, r)
  {
    hide Occupies;
    forall other, p | other in done + {id} && Occupies(t, range, other, p) ensures p in r && other in r[p] {
      assert other in done ==> p in owners && other in owners[p];
    }
    forall p, i | p in r && 0 <= i < |r[p]| ensures r[p][i] in done + {id} && Occupies(t, range, r[p][i], p) {
      assert p in owners && i < |owners[p]| ==> r[p][i] == owners[p][i];
    }
    forall p, i, j | p in r && 0 <= i < j < |r[p]| ensures r[p][i] != r[p][j] {
      assert p in owners;
      assert r[p][i] == owners[p][i];
      assert j < |owners[p]| ==> r[p][j] == owners[p][j];
    }
  }

  lemma EnteredMore(owners: map<int, seq<ServerId>>, range: PortRange, ports: seq<int>, id: ServerId,
                    r: map<int, seq<ServerId>>, p: int)
    requires Entered(owners, range, ports, id, r) && p !in ports
    ensures Entered(owners, range, ports + [p], id, if p <= range.end then Append(r, p, id) else r)
  {
    var next := if p <= range.end then Append(r, p, id) else r;
    assert forall q :: q in ports + [p] <==> q in ports || q == p;
    forall q | q in next
      ensures next[q] == (if q in owners then owners[q] else []) + if q in ports + [p] && q <= range.end then [id] else []
    {
      assert q in r ==> r[q] == (if q in owners then owners[q] else []) + if q in ports && q <= range.end then [id] else [];
    }
  }

  /** The inner loop of the scan: enters one server under each of its ports inside the range. */
  method RegisterOwner(t: Table, range: PortRange, ghost done: set<ServerId>, id: ServerId,
                       ports: seq<int>, owners: map<int, seq<ServerId>>)
    returns (r: map<int, seq<ServerId>>)
    requires id in t && id !in done && done <= t.Keys
    requires OwnersOf(t, range, done, owners)
    requires ports == if t[id].flavor.Bedrock? then [t[id].port, t[id].port + 1] else [t[id].port]
    ensures OwnersOf(t, range, done + {id}, r)
  {
    assert forall p :: Occupies(t, range, id, p) <==> p in ports && p <= range.end;
    assert forall i, j :: 0 <= i < j < |ports| ==> ports[i] != ports[j];
    r := owners;
    assert Entered(owners, range, ports[..0], id, r);
    hide OwnersOf, Occupies, Entered, Append;
    for i := 0 to |ports|
      invariant Entered(owners, range, ports[..i], id, r)
    {
      EnteredMore(owners, range, ports[..i], id, r, ports[i]);
      assert ports[..i + 1] == ports[..i] + [ports[i]];
      if ports[i] <= range.end {
        r := Append(r, ports[i], id);
      }
    }
    assert ports[..|ports|] == ports;
    EnteredOwns(t, range, done, owners, id, ports, r);
  }

  method SharedPorts(owners: map<int, seq<ServerId>>) returns (errors: seq<Complaint>)
    ensures errors == [] <==> forall p :: p in owners ==> |owners[p]| <= 1
  {
    errors := [];
    var items := owners.Items;
    while items != {}
      invariant items <= owners.Items
      invariant errors == [] ==> forall p :: p in owners && (p, owners[p]) !in items ==> |owners[p]| <= 1
      invariant errors != [] ==> exists p :: p in owners && |owners[p]| > 1
      decreases items
    {
      var item :| item in items;
      assert item.0 in owners && owners[item.0] == item.1;
      if |item.1| > 1 {
        errors := errors + [SharedPort(item.0, item.1)];
      }
      items := items - {item};
    }
  }

  /** With no pair past the end, some port has two owners exactly when two footprints meet. */
  lemma SharedIffOverlapping(t: Table, range: PortRange, scope: set<ServerId>, owners: map<int, seq<ServerId>>)
    requires scope <= t.Keys && OwnersOf(t, range, scope, owners)
    requires forall id :: id in scope ==> t[id].port <= range.end
    requires forall id :: id in scope && t[id].flavor.Bedrock? ==> t[id].port != range.end
    ensures (forall p :: p in owners ==> |owners[p]| <= 1) <==>
            (forall a, b :: a in scope && b in scope && a != b ==> Footprint(t[a]) !! Footprint(t[b]))
  {
    if p :| p in owners && |owners[p]| > 1 {
      var a, b := owners[p][0], owners[p][1];
      assert p in Footprint(t[a]) && p in Footprint(t[b]);
    }
    if a, b :| a in scope && b in scope && a != b && !(Footprint(t[a]) !! Footprint(t[b])) {
      var p :| p in Footprint(t[a]) && p in Footprint(t[b]);
      assert Occupies(t, range, a, p) && Occupies(t, range, b, p);
    }
  }

  // ---------------------------------------------------------------------------
  // One allocation
  // ---------------------------------------------------------------------------

  /** The port `_allocate_port` returns, or None when it raises. */
  ghost function Allocate(t: Table, range: PortRange, flavor: Flavor, node: Option<NodeId>, busy: set<int>): Option<int> {
    if !PairsValid(t, range, node) || range.end < range.start then None
    else if flavor.Bedrock? then FirstPair(range, Reserved(t, range, node), busy, range.start)
    else FirstSingle(range, Reserved(t, range, node), busy, range.start)
  }

  /** A server of this flavor can bind here: a pair for Bedrock, a single port otherwise. */
  predicate Fits(range: PortRange, flavor: Flavor, used: set<int>, busy: set<int>, p: int) {
    if flavor.Bedrock? then PairFree(range, used, busy, p) else SingleFree(range, used, busy, p)
  }

  method AllocatePort(t: Table, range: PortRange, flavor: Flavor, node: Option<NodeId>, busy: set<int>)
    returns (r: Result<int, PortError>)
    ensures r.Failure? <==> Allocate(t, range, flavor, node, busy).None?
    ensures r.Success? ==> Allocate(t, range, flavor, node, busy) == Some(r.value)
    ensures r.Failure? <==>
              !PairsValid(t, range, node) || forall p :: !Fits(range, flavor, Reserved(t, range, node), busy, p)
    ensures r.Success? ==>
              && Fits(range, flavor, Reserved(t, range, node), busy, r.value)
              && forall p :: p < r.value ==> !Fits(range, flavor, Reserved(t, range, node), busy, p)
  {
    var ok := ValidateServerPortPairs(t, range, node);
    if !ok {
      return Failure(InvalidAssignments);
    }
    var used := CollectReservedPorts(t, range, node);
    if flavor.Bedrock? {
      assert forall p :: Fits(range, flavor, used, busy, p) <==> PairFree(range, used, busy, p);
      r := PickFreeUdpPort(range, used, busy);
      assert r.Success? ==> range.start <= r.value && PairFree(range, used, busy, r.value);
    } else {
      assert forall p :: Fits(range, flavor, used, busy, p) <==> SingleFree(range, used, busy, p);
      r := PickFreeTcpPort(range, used, busy);
      assert r.Success? ==> range.start <= r.value && SingleFree(range, used, busy, r.value);
    }
  }
}
