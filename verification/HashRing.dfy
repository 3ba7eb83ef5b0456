/** Distances on the hash ring, the neighbourhood of a key and its two edge nodes. */
module HashRing {

  /** The largest 256-bit number is both the last position and the size of the ring: 0 and it are the same place. */
  const RING_SIZE: nat := 0xFFFF_FFFF_FFFF_FFFF_FFFF_FFFF_FFFF_FFFF_FFFF_FFFF_FFFF_FFFF_FFFF_FFFF_FFFF_FFFF

  type Position = p: nat | p <= RING_SIZE

  datatype Peer = Peer(peerId: string, position: Position)
  datatype Neighbour = Neighbour(peer: Peer, distance: nat)

  // ----- The metric -----

  function Direct(peer: Position, key: Position): nat {
    if peer > key then peer - key else key - peer
  }

  function RingDistance(peer: Position, key: Position): (d: nat)
    ensures d <= RING_SIZE / 2
  {
    var directDistance := Direct(peer, key);
    var wraparoundDistance := RING_SIZE - directDistance;
    if directDistance < wraparoundDistance then directDistance else wraparoundDistance
  }

  predicate SamePlace(p: Position, q: Position) {
    p == q || (p == 0 && q == RING_SIZE) || (p == RING_SIZE && q == 0)
  }

  lemma DistanceIsPseudometric(p: Position, q: Position, r: Position)
    ensures RingDistance(p, q) == RingDistance(q, p)
    ensures RingDistance(p, q) == 0 <==> SamePlace(p, q)
    ensures RingDistance(p, r) <= RingDistance(p, q) + RingDistance(q, r)
  {
  }

  /** Going `k` steps clockwise from `p`, `turns` times past the end of the ring, leads to `q`. */
  predicate Leads(p: Position, k: nat, turns: int, q: Position) {
    p + k == q + turns * RING_SIZE
  }

  /** The distance is the fewest steps that lead from one position to the other, either way round the ring. */
  lemma DistanceIsFewestSteps(p: Position, q: Position) returns (turns: int)
    ensures Leads(p, RingDistance(p, q), turns, q) || Leads(q, RingDistance(p, q), turns, p)
    ensures forall k: nat, t: int :: Leads(p, k, t, q) || Leads(q, k, t, p) ==> RingDistance(p, q) <= k
  {
    turns := if RingDistance(p, q) == Direct(p, q) then 0 else 1;
    forall k: nat, t: int | Leads(p, k, t, q) || Leads(q, k, t, p)
      ensures RingDistance(p, q) <= k
    {
    }
  }

  /** How far clockwise of the key a position is, counted negatively if the way back is shorter. */
  function Offset(p: Position, key: Position): int {
    var clockwise := if key <= p then p - key else RING_SIZE - (key - p);
    if clockwise <= RING_SIZE - clockwise then clockwise else clockwise - RING_SIZE
  }

  lemma OffsetIsSignedDistance(p: Position, key: Position)
    ensures RingDistance(p, key) == if Offset(p, key) >= 0 then Offset(p, key) else -Offset(p, key)
  {
  }

  // ----- Neighbourhoods -----

  function WithDistances(peers: seq<Peer>, key: Position): seq<Neighbour> {
    seq(|peers|, i requires 0 <= i < |peers| => Neighbour(peers[i], RingDistance(peers[i].position, key)))
  }

  predicate SortedByDistance(ns: seq<Neighbour>) {
    forall i, j :: 0 <= i < j < |ns| ==> ns[i].distance <= ns[j].distance
  }

  /** Behind all neighbours that are not farther, as a stable sort keeps it. */
  function InsertSorted(ns: seq<Neighbour>, n: Neighbour): seq<Neighbour> {
    if ns != [] && n.distance < ns[|ns| - 1].distance then InsertSorted(ns[..|ns| - 1], n) + [ns[|ns| - 1]]
    else ns + [n]
  }

  function SortByDistance(ns: seq<Neighbour>): seq<Neighbour> {
    if ns == [] then [] else InsertSorted(SortByDistance(ns[..|ns| - 1]), ns[|ns| - 1])
  }

  /** The neighbours at one distance, in their order. */
  function AtDistance(ns: seq<Neighbour>, d: nat): seq<Neighbour> {
    if ns == [] then []
    else AtDistance(ns[..|ns| - 1], d) + if ns[|ns| - 1].distance == d then [ns[|ns| - 1]] else []
  }

  lemma AtDistanceAppend(ns: seq<Neighbour>, n: Neighbour, d: nat)
    ensures AtDistance(ns + [n], d) == AtDistance(ns, d) + if n.distance == d then [n] else []
  {
    assert (ns + [n])[..|ns|] == ns;
  }

  lemma {:induction false} InsertSortedSorts(ns: seq<Neighbour>, n: Neighbour)
    requires SortedByDistance(ns)
    ensures SortedByDistance(InsertSorted(ns, n))
    ensures multiset(InsertSorted(ns, n)) == multiset(ns) + multiset{n}
  {
    if ns != [] && n.distance < ns[|ns| - 1].distance {
      var front, last := ns[..|ns| - 1], ns[|ns| - 1];
      assert ns == front + [last];
      InsertSortedSorts(front, n);
      var inserted := InsertSorted(front, n);
      assert InsertSorted(ns, n) == inserted + [last];
      hide InsertSorted;
      forall i | 0 <= i < |inserted|
        ensures inserted[i].distance <= last.distance
      {
        assert inserted[i] in multiset(inserted);
        assert inserted[i] == n || inserted[i] in front;
      }
    }
  }

  lemma {:induction false} InsertSortedIsStable(ns: seq<Neighbour>, n: Neighbour, d: nat)
    ensures AtDistance(InsertSorted(ns, n), d) == AtDistance(ns, d) + if n.distance == d then [n] else []
  {
    if ns != [] && n.distance < ns[|ns| - 1].distance {
      var front, last := ns[..|ns| - 1], ns[|ns| - 1];
      assert ns == front + [last];
      InsertSortedIsStable(front, n, d);
      AtDistanceAppend(InsertSorted(front, n), last, d);
      AtDistanceAppend(front, last, d);
    } else {
      AtDistanceAppend(ns, n, d);
    }
  }

  lemma {:induction false} SortKeepsOrderAt(ns: seq<Neighbour>, d: nat)
    ensures AtDistance(SortByDistance(ns), d) == AtDistance(ns, d)
  {
    if ns != [] {
      SortKeepsOrderAt(ns[..|ns| - 1], d);
      InsertSortedIsStable(SortByDistance(ns[..|ns| - 1]), ns[|ns| - 1], d);
      hide InsertSorted;
    }
  }

  /** The sort orders by distance, keeps all elements, and keeps the order of equally distant ones. */
  lemma {:induction false} SortIsStable(ns: seq<Neighbour>)
    ensures SortedByDistance(SortByDistance(ns))
    ensures multiset(SortByDistance(ns)) == multiset(ns)
    ensures forall d: nat :: AtDistance(SortByDistance(ns), d) == AtDistance(ns, d)
  {
    hide AtDistance, InsertSorted, SortedByDistance;
    if ns != [] {
      var front, last := ns[..|ns| - 1], ns[|ns| - 1];
      SortIsStable(front);
      InsertSortedSorts(SortByDistance(front), last);
      assert ns == front + [last];
    } else {
      NothingToSort();
    }
    forall d: nat
      ensures AtDistance(SortByDistance(ns), d) == AtDistance(ns, d)
    {
      SortKeepsOrderAt(ns, d);
    }
  }

  lemma NothingToSort()
    ensures SortedByDistance([])
  {
  }

  /** `sortPeers`. */
  function SortPeers(peers: seq<Peer>, key: Position, count: nat): seq<Neighbour> {
    var sorted := SortByDistance(WithDistances(peers, key));
    if count < |sorted| then sorted[..count] else sorted
  }

  ghost predicate IsNeighbourhood(ns: seq<Neighbour>, key: Position) {
    && SortedByDistance(ns)
    && forall i :: 0 <= i < |ns| ==> ns[i].distance == RingDistance(ns[i].peer.position, key)
  }

  /** The result is the sorted list of the `count` nearest peers: nobody left out is nearer than anybody chosen. */
  lemma SortPeersChoosesNearest(peers: seq<Peer>, key: Position, count: nat) returns (rest: seq<Neighbour>)
    ensures var ns := SortPeers(peers, key, count);
      && IsNeighbourhood(ns, key)
      && |ns| == (if count < |peers| then count else |peers|)
      && multiset(ns) + multiset(rest) == multiset(WithDistances(peers, key))
      && forall i, j :: 0 <= i < |ns| && 0 <= j < |rest| ==> ns[i].distance <= rest[j].distance
  {
    var all := WithDistances(peers, key);
    var sorted := SortByDistance(all);
    SortIsStable(all);
    hide SortByDistance, AtDistance;
    assert |multiset(sorted)| == |multiset(all)|;
    var ns := SortPeers(peers, key, count);
    rest := sorted[|ns|..];
    assert sorted == ns + rest;
    forall i | 0 <= i < |ns|
      ensures ns[i].distance == RingDistance(ns[i].peer.position, key)
    {
      assert sorted[i] in multiset(sorted);
      assert sorted[i] in all;
    }
  }

  // ----- Edge nodes -----

  /** Comparing the direct way with the largest distance of the neighbourhood picks the shorter arc. */
  lemma TestPicksShorterArc(p: Position, key: Position, maxDistance: nat)
    requires RingDistance(p, key) <= maxDistance <= RING_SIZE / 2
    ensures Direct(p, key) <= maxDistance <==> Direct(p, key) <= RING_SIZE - Direct(p, key)
    ensures Offset(p, key) ==
      if (key <= p) == (Direct(p, key) <= maxDistance) then RingDistance(p, key) else 0 - RingDistance(p, key)
  {
  }

  predicate InRingOrder(ns: seq<Neighbour>, key: Position) {
    forall i, j :: 0 <= i < j < |ns| ==> Offset(ns[i].peer.position, key) <= Offset(ns[j].peer.position, key)
  }

  function Extended(hashRing: seq<Neighbour>, n: Neighbour, right: bool): seq<Neighbour> {
    if right then hashRing + [n] else [n] + hashRing
  }

  /** A neighbour that is at least as far as all in the deque extends it at the end on its own side. */
  lemma ExtendKeepsOrder(hashRing: seq<Neighbour>, n: Neighbour, key: Position, right: bool)
    requires InRingOrder(hashRing, key)
    requires forall j :: 0 <= j < |hashRing| ==>
      0 - n.distance <= Offset(hashRing[j].peer.position, key) <= n.distance
    requires Offset(n.peer.position, key) == if right then n.distance else 0 - n.distance
    ensures InRingOrder(Extended(hashRing, n, right), key)
    ensures multiset(Extended(hashRing, n, right)) == multiset(hashRing) + multiset{n}
  {
    hide Offset;
  }

  /** The elements of the deque come from the prefix, whose neighbours are no farther than the next one. */
  lemma NotFarther(neighbourhood: seq<Neighbour>, key: Position, i: nat, hashRing: seq<Neighbour>)
    requires IsNeighbourhood(neighbourhood, key) && i < |neighbourhood|
    requires multiset(hashRing) == multiset(neighbourhood[..i])
    ensures forall j :: 0 <= j < |hashRing| ==>
      0 - neighbourhood[i].distance <= Offset(hashRing[j].peer.position, key) <= neighbourhood[i].distance
  {
    forall j | 0 <= j < |hashRing|
      ensures 0 - neighbourhood[i].distance <= Offset(hashRing[j].peer.position, key) <= neighbourhood[i].distance
    {
      assert hashRing[j] in multiset(neighbourhood[..i]);
      assert hashRing[j] in neighbourhood[..i];
      OffsetIsSignedDistance(hashRing[j].peer.position, key);
    }
  }

  /** The deque of the neighbourhood: in ring order around the key, with every neighbour once. */
  method BuildHashRing(neighbourhood: seq<Neighbour>, key: Position) returns (hashRing: seq<Neighbour>)
    requires neighbourhood != [] && IsNeighbourhood(neighbourhood, key)
    ensures multiset(hashRing) == multiset(neighbourhood)
    ensures InRingOrder(hashRing, key)
  {
    hashRing := [];
    var maxDistance := RingDistance(neighbourhood[|neighbourhood| - 1].peer.position, key);
    var i := 0;
    while i < |neighbourhood|
      invariant 0 <= i <= |neighbourhood|
      invariant multiset(hashRing) == multiset(neighbourhood[..i])
      invariant InRingOrder(hashRing, key)
    {
      var neighbour := neighbourhood[i];
      var position := neighbour.peer.position;
      TestPicksShorterArc(position, key, maxDistance);
      NotFarther(neighbourhood, key, i, hashRing);
      ExtendKeepsOrder(hashRing, neighbour, key, (key <= position) == (Direct(position, key) <= maxDistance));
      hide Offset, InRingOrder;
      assert neighbourhood[..i + 1] == neighbourhood[..i] + [neighbour];
      if key <= position {
        if position - key <= maxDistance {
          hashRing := hashRing + [neighbour];
        } else {
          hashRing := [neighbour] + hashRing;
        }
      } else if key > position {
        if key - position <= maxDistance {
          hashRing := [neighbour] + hashRing;
        } else {
          hashRing := hashRing + [neighbour];
        }
      }
      i := i + 1;
    }
    assert neighbourhood[..i] == neighbourhood;
  }

  datatype Edges = Edges(leftEdge: Neighbour, rightEdge: Neighbour)

  /** `leftEdge` and `rightEdge` are the extremes of the neighbourhood around the key. */
  method GetNeighbourhoodEdgeNodes(neighbourhood: seq<Neighbour>, key: Position) returns (edges: Edges)
    requires neighbourhood != [] && IsNeighbourhood(neighbourhood, key)
    ensures edges.leftEdge in neighbourhood && edges.rightEdge in neighbourhood
    ensures forall i :: 0 <= i < |neighbourhood| ==>
      Offset(edges.leftEdge.peer.position, key) <= Offset(neighbourhood[i].peer.position, key)
        <= Offset(edges.rightEdge.peer.position, key)
  {
    var hashRing := BuildHashRing(neighbourhood, key);
    assert neighbourhood[0] in multiset(hashRing);
    edges := Edges(hashRing[0], hashRing[|hashRing| - 1]);
    assert hashRing[0] in multiset(neighbourhood) && hashRing[|hashRing| - 1] in multiset(neighbourhood);
    forall i | 0 <= i < |neighbourhood|
      ensures exists j :: 0 <= j < |hashRing| && hashRing[j] == neighbourhood[i]
    {
      assert neighbourhood[i] in multiset(hashRing);
    }
  }

  /** The distance by which `calculateScore` normalizes. */
  function MaxNeighbourhoodDistance(edges: Edges): nat {
    if edges.leftEdge.distance > edges.rightEdge.distance then edges.leftEdge.distance else edges.rightEdge.distance
  }

  /** The larger edge distance is the largest distance of the whole neighbourhood. */
  lemma LargerEdgeIsMaximum(neighbourhood: seq<Neighbour>, key: Position, edges: Edges)
    requires IsNeighbourhood(neighbourhood, key)
    requires edges.leftEdge in neighbourhood && edges.rightEdge in neighbourhood
    requires forall i :: 0 <= i < |neighbourhood| ==>
      Offset(edges.leftEdge.peer.position, key) <= Offset(neighbourhood[i].peer.position, key)
        <= Offset(edges.rightEdge.peer.position, key)
    ensures forall i :: 0 <= i < |neighbourhood| ==> neighbourhood[i].distance <= MaxNeighbourhoodDistance(edges)
    ensures MaxNeighbourhoodDistance(edges) == neighbourhood[|neighbourhood| - 1].distance
  {
    OffsetIsSignedDistance(edges.leftEdge.peer.position, key);
    OffsetIsSignedDistance(edges.rightEdge.peer.position, key);
    forall i | 0 <= i < |neighbourhood|
      ensures neighbourhood[i].distance <= MaxNeighbourhoodDistance(edges)
    {
      OffsetIsSignedDistance(neighbourhood[i].peer.position, key);
    }
  }
}
