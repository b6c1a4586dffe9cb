/** The cache that says on which node a server's runtime is to be found. */
module NodeRouting {
  import opened Wrappers

  type ServerId = string
  type NodeId = nat

  datatype Runtime = Local | Agent(address: string, port: int)

  datatype Address = Address(ip: string, port: int)

  /** The rows the router looks at; an id that is not a UUID has no row. */
  datatype Database = Database(serverNode: map<ServerId, Option<NodeId>>, nodes: map<NodeId, Address>)

  const TTL: real := 10.0

  /** The lookup without the cache. */
  function Find(db: Database, id: ServerId): Runtime {
    if id !in db.serverNode || db.serverNode[id].None? then Local
    else
      var node := db.serverNode[id].value;
      if node !in db.nodes then Local else Agent(db.nodes[node].ip, db.nodes[node].port)
  }

  /** The node that a server's row names, if both rows exist. */
  predicate Placed(db: Database, id: ServerId, node: NodeId) {
    id in db.serverNode && db.serverNode[id] == Some(node) && node in db.nodes
  }

  /** A server whose row names a known node is found at that node's address and port, every other one locally. */
  lemma FindIsPlacement(db: Database, id: ServerId)
    ensures forall node :: Placed(db, id, node) ==> Find(db, id) == Agent(db.nodes[node].ip, db.nodes[node].port)
    ensures (forall node :: !Placed(db, id, node)) ==> Find(db, id) == Local
  {
    if id in db.serverNode && db.serverNode[id].Some? && db.serverNode[id].value in db.nodes {
      assert Placed(db, id, db.serverNode[id].value);
    }
  }

  type Cache = map<ServerId, (Runtime, real)>

  predicate Hit(cache: Cache, id: ServerId, now: real) {
    id in cache && now < cache[id].1
  }

  /** `_get_runtime`. */
  function Routed(cache: Cache, db: Database, id: ServerId, now: real): Runtime {
    if Hit(cache, id, now) then cache[id].0 else Find(db, id)
  }

  function CacheAfter(cache: Cache, db: Database, id: ServerId, now: real): Cache {
    if Hit(cache, id, now) then cache else cache[id := (Find(db, id), now + TTL)]
  }

  class NodeRouter {
    var cache: Cache

    constructor ()
      ensures cache == map[]
    {
      cache := map[];
    }

    method GetRuntime(db: Database, id: ServerId, now: real) returns (runtime: Runtime)
      modifies this
      ensures runtime == Routed(old(cache), db, id, now) && cache == CacheAfter(old(cache), db, id, now)
      ensures id in old(cache) && now < old(cache)[id].1 ==> runtime == old(cache)[id].0 && cache == old(cache)
      ensures !(id in old(cache) && now < old(cache)[id].1) ==>
        (cache == old(cache)[id := (runtime, now + 10.0)]
         && (forall node :: Placed(db, id, node) ==> runtime == Agent(db.nodes[node].ip, db.nodes[node].port))
         && ((forall node :: !Placed(db, id, node)) ==> runtime == Local))
    {
      FindIsPlacement(db, id);
      if id in cache {
        var (cached, expiry) := cache[id];
        if now < expiry {
          return cached;
        }
      }
      if id !in db.serverNode || db.serverNode[id].None? {
        runtime := Local;
      } else {
        var node := db.serverNode[id].value;
        if node !in db.nodes {
          runtime := Local;
        } else {
          runtime := Agent(db.nodes[node].ip, db.nodes[node].port);
        }
      }
      cache := cache[id := (runtime, now + TTL)];
    }

    method InvalidateServer(id: ServerId)
      modifies this
      ensures cache == old(cache) - {id}
    {
      cache := cache - {id};
    }

    /** Whatever the node, every entry goes. */
    method InvalidateNode(node: NodeId)
      modifies this
      ensures cache == map[]
    {
      cache := map[];
    }
  }

  // ---------------------------------------------------------------------------
  // Runs
  // ---------------------------------------------------------------------------

  datatype World = World(cache: Cache, db: Database, now: real)

  datatype Event =
    | Lookup(id: ServerId)
    | InvalidateServer(id: ServerId)
    | InvalidateNode(node: NodeId)
    | Commit(db: Database)          // any transaction of the program
    | Wait(seconds: real)

  function Step(w: World, e: Event): World {
    match e
    case Lookup(id) => w.(cache := CacheAfter(w.cache, w.db, id, w.now))
    case InvalidateServer(id) => w.(cache := w.cache - {id})
    case InvalidateNode(_) => w.(cache := map[])
    case Commit(db) => w.(db := db)
    case Wait(seconds) => if seconds > 0.0 then w.(now := w.now + seconds) else w
  }

  function Run(w: World, events: seq<Event>): World {
    if events == [] then w else Step(Run(w, events[..|events| - 1]), events[|events| - 1])
  }

  predicate Forgets(e: Event, id: ServerId) {
    e.InvalidateNode? || e == InvalidateServer(id)
  }

  predicate NotForgotten(events: seq<Event>, from: nat, id: ServerId)
    requires from <= |events|
  {
    forall i :: from <= i < |events| ==> !Forgets(events[i], id)
  }

  /** `runtime` is what the database said after the first `j` events, and `id` was not invalidated since. */
  ghost predicate FoundAt(w: World, events: seq<Event>, id: ServerId, runtime: Runtime, j: nat) {
    j <= |events| && Find(Run(w, events[..j]).db, id) == runtime && NotForgotten(events, j, id)
  }

  ghost predicate Entry(w: World, events: seq<Event>, id: ServerId, runtime: Runtime, expiry: real) {
    exists j: nat :: FoundAt(w, events, id, runtime, j) && expiry == Run(w, events[..j]).now + TTL
  }

  ghost predicate AllEntries(w: World, events: seq<Event>, cache: Cache) {
    forall id :: id in cache ==> Entry(w, events, id, cache[id].0, cache[id].1)
  }

  lemma EntryStays(w: World, before: seq<Event>, e: Event, id: ServerId, runtime: Runtime, expiry: real)
    requires Entry(w, before, id, runtime, expiry) && !Forgets(e, id)
    ensures Entry(w, before + [e], id, runtime, expiry)
  {
    hide Run, Find, Forgets;
    var j: nat :| FoundAt(w, before, id, runtime, j) && expiry == Run(w, before[..j]).now + TTL;
    var events := before + [e];
    assert events[..j] == before[..j];
    assert FoundAt(w, events, id, runtime, j);
  }

  lemma EntryMade(w: World, before: seq<Event>, id: ServerId)
    ensures var now := Run(w, before);
      Entry(w, before + [Lookup(id)], id, Find(now.db, id), now.now + TTL)
  {
    hide Run, Find;
    var events := before + [Lookup(id)];
    assert events[..|before|] == before;
    assert FoundAt(w, events, id, Find(Run(w, before).db, id), |before|);
  }

  /** What one event does to the entries: it keeps, forgets or makes them. */
  lemma StepOfCache(w: World, e: Event, id: ServerId)
    requires id in Step(w, e).cache
    ensures (id in w.cache && Step(w, e).cache[id] == w.cache[id] && !Forgets(e, id))
            || (e == Lookup(id) && Step(w, e).cache[id] == (Find(w.db, id), w.now + TTL))
  {
    hide Find;
  }

  /** Every entry of the cache is what the database said when it was made, and its server was not invalidated since. */
  lemma {:induction false} EntriesAreJustified(w: World, events: seq<Event>)
    requires w.cache == map[]
    ensures AllEntries(w, events, Run(w, events).cache)
  {
    if events != [] {
      var before, e := events[..|events| - 1], events[|events| - 1];
      assert events == before + [e];
      EntriesAreJustified(w, before);
      var prev := Run(w, before);
      assert Run(w, events) == Step(prev, e);
      hide Entry, Find, Run, Step, Forgets;
      forall id | id in Step(prev, e).cache
        ensures Entry(w, events, id, Step(prev, e).cache[id].0, Step(prev, e).cache[id].1)
      {
        StepOfCache(prev, e, id);
        if e == Lookup(id) {
          EntryMade(w, before, id);
        }
        if id in prev.cache && !Forgets(e, id) {
          assert Entry(w, before, id, prev.cache[id].0, prev.cache[id].1);
          EntryStays(w, before, e, id, prev.cache[id].0, prev.cache[id].1);
        }
      }
    }
  }

  /**
    In every run, a lookup returns what the database said at some moment less than ten seconds ago
    and not before the last invalidation of the server.
   */
  lemma LookupIsRecent(w: World, events: seq<Event>, id: ServerId)
    requires w.cache == map[]
    ensures var now := Run(w, events);
      exists j: nat :: FoundAt(w, events, id, Routed(now.cache, now.db, id, now.now), j)
                       && now.now - Run(w, events[..j]).now < TTL
  {
    hide Run, Find;
    var now := Run(w, events);
    var runtime := Routed(now.cache, now.db, id, now.now);
    if Hit(now.cache, id, now.now) {
      EntriesAreJustified(w, events);
      assert Entry(w, events, id, runtime, now.cache[id].1);
      var j: nat :| FoundAt(w, events, id, runtime, j) && now.cache[id].1 == Run(w, events[..j]).now + TTL;
    } else {
      assert events[..|events|] == events;
      assert FoundAt(w, events, id, runtime, |events|);
    }
  }

  /** Once a change is committed and the server then invalidated, no lookup goes by the rows before. */
  lemma InvalidatedLookupIsNew(w: World, events: seq<Event>, id: ServerId, i: nat)
    requires w.cache == map[] && i < |events| && Forgets(events[i], id)
    ensures var now := Run(w, events);
      exists j: nat :: i < j && FoundAt(w, events, id, Routed(now.cache, now.db, id, now.now), j)
  {
    hide Run, Routed;
    LookupIsRecent(w, events, id);
    var now := Run(w, events);
    var runtime := Routed(now.cache, now.db, id, now.now);
    var j: nat :| FoundAt(w, events, id, runtime, j) && now.now - Run(w, events[..j]).now < TTL;
    assert NotForgotten(events, j, id);
  }

  lemma RunNext(w: World, events: seq<Event>, i: nat)
    requires i < |events|
    ensures Run(w, events[..i + 1]) == Step(Run(w, events[..i]), events[i])
  {
    assert events[..i + 1][..i] == events[..i];
  }

  lemma {:induction false} ClockGoesOn(w: World, events: seq<Event>, a: nat, b: nat)
    requires a <= b <= |events|
    ensures Run(w, events[..a]).now <= Run(w, events[..b]).now
  {
    if a < b {
      ClockGoesOn(w, events, a, b - 1);
      RunNext(w, events, b - 1);
      hide Run;
    }
  }

  /** Ten seconds after any commit no lookup goes by the rows before, invalidated or not. */
  lemma WaitedLookupIsNew(w: World, events: seq<Event>, id: ServerId, i: nat, seconds: real)
    requires w.cache == map[] && i < |events| && events[i] == Wait(seconds) && seconds >= 10.0
    ensures var now := Run(w, events);
      exists j: nat :: i < j && FoundAt(w, events, id, Routed(now.cache, now.db, id, now.now), j)
  {
    hide Run, Routed;
    LookupIsRecent(w, events, id);
    var now := Run(w, events);
    var runtime := Routed(now.cache, now.db, id, now.now);
    var j: nat :| FoundAt(w, events, id, runtime, j) && now.now - Run(w, events[..j]).now < TTL;
    assert events[..|events|] == events;
    if j <= i {
      ClockGoesOn(w, events, j, i);
      RunNext(w, events, i);
      ClockGoesOn(w, events, i + 1, |events|);
      assert false;
    }
  }
}
