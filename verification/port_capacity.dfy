/**
  How much room the free-port search leaves: a pigeonhole bound that needs no alignment, and
  the size of the set of reserved ports.
 */
module PortCapacity {
  import opened Wrappers
  import opened Sets
  import opened PortAllocation

  // ---------------------------------------------------------------------------
  // Enumerations and intervals
  // ---------------------------------------------------------------------------

  /** The elements of a set of server ids, each once, in some order. */
  ghost function Listing(ids: set<ServerId>): (s: seq<ServerId>)
    ensures |s| == |ids|
    ensures forall id :: id in s <==> id in ids
    ensures forall i, j :: 0 <= i < j < |s| ==> s[i] != s[j]
  {
    if ids == {} then [] else
      var id :| id in ids;
      [id] + Listing(ids - {id})
  }

  function Interval(lo: int, hi: int): (s: set<int>)
    ensures forall p :: p in s <==> lo <= p < hi
    ensures |s| == if lo <= hi then hi - lo else 0
    decreases hi - lo
  {
    if hi <= lo then {} else Interval(lo, hi - 1) + {hi - 1}
  }

  /** The number of busy ports in [lo, hi). */
  function BusyCount(busy: set<int>, lo: int, hi: int): nat
    decreases hi - lo
  {
    if hi <= lo then 0 else BusyCount(busy, lo, hi - 1) + if hi - 1 in busy then 1 else 0
  }

  function BedrockCount(t: Table, s: seq<ServerId>): (k: nat)
    requires forall id :: id in s ==> id in t
    ensures k <= |s|
  {
    if s == [] then 0 else (if t[s[0]].flavor.Bedrock? then 1 else 0) + BedrockCount(t, s[1..])
  }

  // ---------------------------------------------------------------------------
  // The pigeonhole bound
  // ---------------------------------------------------------------------------

  /** The start ports that one server makes unusable for a new pair. */
  function Shadow(r: Row): set<int> {
    if r.flavor.Bedrock? then {r.port - 1, r.port, r.port + 1} else {r.port - 1, r.port}
  }

  function Shadows(t: Table, s: seq<ServerId>): (r: set<int>)
    requires forall id :: id in s ==> id in t
    ensures |r| <= 2 * |s| + BedrockCount(t, s)
    ensures forall id, p :: id in s && p in Shadow(t[id]) ==> p in r
  {
    if s == [] then {} else
      var rest := Shadows(t, s[1..]);
      UnionSize(Shadow(t[s[0]]), rest);
      Shadow(t[s[0]]) + rest
  }

  /** The start ports that the busy ports of [lo, hi) make unusable. */
  function BusyShadow(busy: set<int>, lo: int, hi: int): (r: set<int>)
    ensures |r| <= 2 * BusyCount(busy, lo, hi)
    ensures forall q :: lo <= q < hi && q in busy ==> q in r && q - 1 in r
    decreases hi - lo
  {
    if hi <= lo then {} else
      var rest := BusyShadow(busy, lo, hi - 1);
      UnionSize(rest, {hi - 1, hi - 2});
      if hi - 1 in busy then rest + {hi - 1, hi - 2} else rest
  }

  lemma UnionSize(a: set<int>, b: set<int>)
    ensures |a + b| <= |a| + |b|
  {
    assert |a + b| == |a| + |b| - |a * b|;
  }

  /** Each pair blocks at most three start ports, each single or busy port at most two. */
  lemma PigeonholeBound(t: Table, range: PortRange, node: Option<NodeId>, busy: set<int>)
    requires range.start <= range.end && PairsValid(t, range, node)
    requires var all := Listing(Scope(t, range, node));
             var k := BedrockCount(t, all);
             var j := |all| - k;
             var b := BusyCount(busy, range.start, range.end + 1);
             3 * k + 2 * j + 2 * b < range.end - range.start
    ensures Allocate(t, range, Bedrock, node, busy).Some?
  {
    var all := Listing(Scope(t, range, node));
    var blocked := Shadows(t, all) + BusyShadow(busy, range.start, range.end + 1);
    UnionSize(Shadows(t, all), BusyShadow(busy, range.start, range.end + 1));
    if Allocate(t, range, Bedrock, node, busy).None? {
      forall p | p in Interval(range.start, range.end) ensures p in blocked {
        NotFreeIsBlocked(t, range, node, busy, p);
      }
      SubsetSize(Interval(range.start, range.end), blocked);
    }
  }

  lemma NotFreeIsBlocked(t: Table, range: PortRange, node: Option<NodeId>, busy: set<int>, p: int)
    requires range.start <= p < range.end
    requires !PairFree(range, Reserved(t, range, node), busy, p)
    ensures p in Shadows(t, Listing(Scope(t, range, node))) + BusyShadow(busy, range.start, range.end + 1)
  {
    var used := Reserved(t, range, node);
    hide Shadows, Listing, Scope, Reserved;
    if p in used || p + 1 in used {
      hide BusyShadow, PairFree;
      ReservedIsShadowed(t, range, node, if p in used then p else p + 1, p);
    } else {
      assert p in busy || p + 1 in busy;
    }
  }

  lemma ReservedIsShadowed(t: Table, range: PortRange, node: Option<NodeId>, q: int, p: int)
    requires range.start <= p < range.end && q in Reserved(t, range, node) && (q == p || q == p + 1)
    ensures p in Shadows(t, Listing(Scope(t, range, node)))
  {
    var id :| id in Scope(t, range, node) && Occupies(t, range, id, q);
    assert p in Shadow(t[id]);
  }

  // ---------------------------------------------------------------------------
  // The reserved set
  // ---------------------------------------------------------------------------

  function Footprints(t: Table, s: seq<ServerId>): (r: set<int>)
    requires forall id :: id in s ==> id in t
    ensures forall p :: p in r <==> exists id :: id in s && p in Footprint(t[id])
  {
    if s == [] then {} else
      assert forall id :: id in s <==> id == s[0] || id in s[1..];
      Footprint(t[s[0]]) + Footprints(t, s[1..])
  }

  lemma FootprintSize(r: Row)
    ensures |Footprint(r)| == if r.flavor.Bedrock? then 2 else 1
  {
  }

  lemma FootprintsStep(t: Table, s: seq<ServerId>)
    requires s != [] && forall id :: id in s ==> id in t
    ensures Footprints(t, s) == Footprint(t[s[0]]) + Footprints(t, s[1..])
    ensures BedrockCount(t, s) == (if t[s[0]].flavor.Bedrock? then 1 else 0) + BedrockCount(t, s[1..])
  {
    hide Footprint;
  }

  /** No two servers of the listing share a port. */
  ghost predicate AllApart(t: Table, s: seq<ServerId>)
    requires forall id :: id in s ==> id in t
  {
    forall i, j :: 0 <= i < j < |s| ==> Footprint(t[s[i]]) !! Footprint(t[s[j]])
  }

  lemma {:induction false} FootprintsSize(t: Table, s: seq<ServerId>)
    requires (forall id :: id in s ==> id in t) && AllApart(t, s)
    ensures |Footprints(t, s)| == |s| + BedrockCount(t, s)
  {
    if s != [] {
      RestApart(t, s);
      FirstIsApart(t, s);
      hide *;
      FootprintsSize(t, s[1..]);
      FootprintsStep(t, s);
      FootprintSize(t[s[0]]);
      DisjointUnionSize(Footprint(t[s[0]]), Footprints(t, s[1..]));
    }
  }

  lemma RestApart(t: Table, s: seq<ServerId>)
    requires s != [] && (forall id :: id in s ==> id in t) && AllApart(t, s)
    ensures AllApart(t, s[1..])
  {
    hide Footprint;
  }

  lemma FirstIsApart(t: Table, s: seq<ServerId>)
    requires s != [] && (forall id :: id in s ==> id in t) && AllApart(t, s)
    ensures Footprint(t[s[0]]) !! Footprints(t, s[1..])
  {
    hide Footprint;
    forall p | p in Footprints(t, s[1..]) ensures p !in Footprint(t[s[0]]) {
      var id :| id in s[1..] && p in Footprint(t[id]);
      var j :| 0 < j < |s| && s[j] == id;
      assert Footprint(t[s[0]]) !! Footprint(t[s[j]]);
    }
  }

  lemma DisjointUnionSize(a: set<int>, b: set<int>)
    requires a !! b
    ensures |a + b| == |a| + |b|
  {
  }

  /** A scope that validates reserves two ports for every Bedrock server and one for every other. */
  lemma ReservedSize(t: Table, range: PortRange, node: Option<NodeId>)
    requires PairsValid(t, range, node)
    ensures var all := Listing(Scope(t, range, node));
            |Reserved(t, range, node)| == |all| + BedrockCount(t, all)
  {
    var all := Listing(Scope(t, range, node));
    FootprintsSize(t, all);
    forall p ensures p in Reserved(t, range, node) <==> p in Footprints(t, all) {
      ReservedMember(t, range, node, p);
    }
    assert Reserved(t, range, node) == Footprints(t, all);
  }

  lemma ReservedMember(t: Table, range: PortRange, node: Option<NodeId>, p: int)
    requires PairsValid(t, range, node)
    ensures p in Reserved(t, range, node) <==> p in Footprints(t, Listing(Scope(t, range, node)))
  {
    var all := Listing(Scope(t, range, node));
    if p in Footprints(t, all) {
      var id :| id in all && p in Footprint(t[id]);
      InsideRange(t, range, node, id, p);
    }
    hide Footprint, PairsValid, Scope, Reserved, Footprints;
    if p in Reserved(t, range, node) {
      var id :| id in Scope(t, range, node) && Occupies(t, range, id, p);
      assert id in all && p in Footprint(t[id]);
    }
  }

  lemma InsideRange(t: Table, range: PortRange, node: Option<NodeId>, id: ServerId, p: int)
    requires PairsValid(t, range, node) && id in Scope(t, range, node) && p in Footprint(t[id])
    ensures Occupies(t, range, id, p) && p in Reserved(t, range, node)
  {
    assert Occupies(t, range, id, p);
  }
}
