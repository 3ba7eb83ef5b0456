/** A triple store repository on values: links from asset names to assertion ids, and one graph per stored assertion. */
module TripleStore {

  /** Names and hashes are opaque: only their identity matters. */
  type Ual = int
  type AssertionId = int
  /** The n-quads of an assertion. */
  type Assertion = seq<string>

  /** Assets are written under two names: `oldUal` lacks the chain id of the blockchain. */
  datatype Asset = Asset(ual: Ual, oldUal: Ual)
  {
    function Names(): set<Ual> { {ual, oldUal} }
  }

  datatype Link = Link(ual: Ual, assertion: AssertionId)

  datatype Repo = Repo(links: set<Link>, graphs: map<AssertionId, Assertion>)

  /** The count query returns links; the service means to halve numbers above one, but compares a list with a number,
      so that the raw count reaches its callers.  Both readings are kept. */
  datatype CountReading = RawCount | HalvedCount

  // ----- Operations -----

  function LinksTo(repo: Repo, id: AssertionId): set<Link> {
    set l | l in repo.links && l.assertion == id
  }

  function AssetsCount(reading: CountReading, repo: Repo, id: AssertionId): nat {
    var count := |LinksTo(repo, id)|;
    if reading.HalvedCount? && count > 1 then (count + 1) / 2 else count
  }

  function LinkedIds(repo: Repo, a: Asset): set<AssertionId> {
    set l | l in repo.links && l.ual == a.ual :: l.assertion
  }

  function GetAssertion(repo: Repo, id: AssertionId): Assertion {
    if id in repo.graphs then repo.graphs[id] else []
  }

  /** `localStoreAsset`: an existing graph is kept, and no triples make no graph. */
  function StoreAsset(repo: Repo, a: Asset, id: AssertionId, assertion: Assertion): Repo {
    Repo(repo.links + {Link(a.ual, id), Link(a.oldUal, id)},
         if id in repo.graphs || assertion == [] then repo.graphs else repo.graphs[id := assertion])
  }

  datatype Pair = Pair(from: Repo, to: Repo)

  function MoveAsset(reading: CountReading, p: Pair, a: Asset, id: AssertionId): Pair {
    Pair(if AssetsCount(reading, p.from, id) <= 1 then p.from.(graphs := p.from.graphs - {id}) else p.from,
         StoreAsset(p.to, a, id, GetAssertion(p.from, id)))
  }

  function MoveAll(reading: CountReading, p: Pair, a: Asset, ids: seq<AssertionId>): Pair
    decreases |ids|
  {
    if ids == [] then p else MoveAll(reading, MoveAsset(reading, p, a, ids[0]), a, ids[1..])
  }

  function DropLinks(repo: Repo, a: Asset): Repo {
    repo.(links := set l | l in repo.links && l.ual !in a.Names())
  }

  function DeleteAssetMetadata(reading: CountReading, repo: Repo, a: Asset): Repo {
    var dropped := DropLinks(repo, a);
    dropped.(graphs := dropped.graphs - set id | id in LinkedIds(repo, a) && AssetsCount(reading, dropped, id) == 0)
  }

  // ----- Consistency -----

  predicate IsLinked(repo: Repo, id: AssertionId) {
    exists l :: l in repo.links && l.assertion == id
  }

  /** No garbage and no dangling links: a graph is stored iff some asset links it. */
  ghost predicate Tidy(repo: Repo) {
    forall id :: id in repo.graphs <==> IsLinked(repo, id)
  }

  /** Links come under both names of an asset of `assets`, or not at all. */
  ghost predicate Paired(repo: Repo, assets: set<Asset>) {
    && (forall l :: l in repo.links ==> exists a :: a in assets && l.ual in a.Names())
    && (forall a, id :: a in assets ==> (Link(a.ual, id) in repo.links <==> Link(a.oldUal, id) in repo.links))
  }

  /** No name belongs to two assets, which is what injectivity of the chain-less form means for the repository.  Halving
      also needs two different names for each asset. */
  ghost predicate ProperNames(reading: CountReading, assets: set<Asset>) {
    && (forall a, b :: a in assets && b in assets && a != b ==> a.Names() !! b.Names())
    && (reading.HalvedCount? ==> forall a :: a in assets ==> a.ual != a.oldUal)
  }

  /** Content is determined by the id, which is its Merkle root; stored graphs are not empty. */
  ghost predicate Faithful(repo: Repo, merkle: AssertionId -> Assertion) {
    forall id :: id in repo.graphs ==> repo.graphs[id] == merkle(id) != []
  }

  ghost predicate Consistent(repo: Repo, assets: set<Asset>, merkle: AssertionId -> Assertion) {
    Tidy(repo) && Paired(repo, assets) && Faithful(repo, merkle)
  }

  // ----- Storing -----

  /** Storing keeps a tidy repository tidy exactly if there is something to store or it is there already. */
  lemma StoreKeepsTidyIff(repo: Repo, a: Asset, id: AssertionId, assertion: Assertion)
    requires Tidy(repo)
    ensures Tidy(StoreAsset(repo, a, id, assertion)) <==> id in repo.graphs || assertion != []
  {
    var repo' := StoreAsset(repo, a, id, assertion);
    assert Link(a.ual, id) in repo'.links && IsLinked(repo', id);
    forall x | x != id
      ensures IsLinked(repo', x) <==> IsLinked(repo, x)
    {
      if IsLinked(repo, x) {
        var l :| l in repo.links && l.assertion == x;
        assert l in repo'.links;
      }
    }
  }

  lemma StoreKeepsConsistent(
      repo: Repo, assets: set<Asset>, merkle: AssertionId -> Assertion, a: Asset, id: AssertionId, assertion: Assertion)
    requires Consistent(repo, assets, merkle) && a in assets && ProperNames(RawCount, assets)
    requires id in repo.graphs || assertion == merkle(id) != []
    ensures Consistent(StoreAsset(repo, a, id, assertion), assets, merkle)
  {
    StoreKeepsTidyIff(repo, a, id, assertion);
    hide Tidy;
    var repo' := StoreAsset(repo, a, id, assertion);
    forall b, x | b in assets
      ensures Link(b.ual, x) in repo'.links <==> Link(b.oldUal, x) in repo'.links
    {
      if b != a {
        assert a.ual in a.Names() && a.oldUal in a.Names() && b.ual in b.Names() && b.oldUal in b.Names();
      }
    }
    assert a.ual in a.Names() && a.oldUal in a.Names();
  }

  /** Storing adds the two links, and never replaces the content of a stored graph. */
  lemma StoreNeverOverwrites(repo: Repo, a: Asset, id: AssertionId, assertion: Assertion)
    ensures var repo' := StoreAsset(repo, a, id, assertion);
      && (forall l :: l in repo'.links <==> l in repo.links || (l.assertion == id && l.ual in a.Names()))
      && (forall x :: x in repo.graphs ==> x in repo'.graphs && repo'.graphs[x] == repo.graphs[x])
      && (forall x :: x in repo'.graphs && x !in repo.graphs ==> x == id && repo'.graphs[x] == assertion != [])
  {
    forall l
      ensures l in StoreAsset(repo, a, id, assertion).links <==>
        l in repo.links || (l.assertion == id && l.ual in a.Names())
    {
      assert l == Link(l.ual, l.assertion);
    }
  }

  // ----- Counting -----

  predicate LinkedElsewhere(repo: Repo, a: Asset, id: AssertionId) {
    exists l :: l in repo.links && l.assertion == id && l.ual !in a.Names()
  }

  lemma SubsetSize<T>(a: set<T>, b: set<T>)
    requires a <= b
    ensures |a| <= |b|
  {
    assert b == a + (b - a);
  }

  function LinksOf(a: Asset, id: AssertionId): set<Link> {
    {Link(a.ual, id), Link(a.oldUal, id)}
  }

  lemma LinksOfSize(a: Asset, id: AssertionId)
    ensures |LinksOf(a, id)| == if a.ual == a.oldUal then 1 else 2
  {
    if a.ual == a.oldUal {
      assert LinksOf(a, id) == {Link(a.ual, id)};
    }
  }

  /** Two assets that link the same assertion make at least one link each, two each under different names. */
  lemma TwoAssetsCount(repo: Repo, a: Asset, b: Asset, id: AssertionId)
    requires a.Names() !! b.Names() && LinksOf(a, id) <= repo.links && LinksOf(b, id) <= repo.links
    ensures |LinksTo(repo, id)| >= 2
    ensures a.ual != a.oldUal && b.ual != b.oldUal ==> |LinksTo(repo, id)| >= 4
  {
    var own, other := LinksOf(a, id), LinksOf(b, id);
    forall l | l in own
      ensures l !in other
    {
      assert l.ual in a.Names();
      assert l.ual !in b.Names();
    }
    assert own !! other;
    assert own + other <= LinksTo(repo, id);
    SubsetSize(own + other, LinksTo(repo, id));
    LinksOfSize(a, id);
    LinksOfSize(b, id);
  }

  ghost function AllLinks(some: set<Asset>, id: AssertionId): set<Link> {
    set a, l | a in some && l in LinksOf(a, id) :: l
  }

  lemma {:induction false} AllLinksCount(some: set<Asset>, id: AssertionId)
    requires ProperNames(HalvedCount, some)
    ensures |AllLinks(some, id)| == 2 * |some|
    decreases |some|
  {
    if some == {} {
      assert AllLinks(some, id) == {};
    } else {
      var a :| a in some;
      var rest := some - {a};
      AllLinksCount(rest, id);
      LinksOfSize(a, id);
      forall l | l in LinksOf(a, id)
        ensures l !in AllLinks(rest, id)
      {
        assert l.ual in a.Names();
        if b :| b in rest && l in LinksOf(b, id) {
          assert l.ual in b.Names();
        }
      }
      assert AllLinks(some, id) == LinksOf(a, id) + AllLinks(rest, id);
    }
  }

  /** The two readings of the count: halved, it is the number of assets that link the assertion; raw, it is twice
      that. */
  lemma CountsAssets(repo: Repo, assets: set<Asset>, id: AssertionId)
    requires Paired(repo, assets) && ProperNames(HalvedCount, assets)
    ensures AssetsCount(HalvedCount, repo, id) == |set a | a in assets && Link(a.ual, id) in repo.links|
    ensures AssetsCount(RawCount, repo, id) == 2 * |set a | a in assets && Link(a.ual, id) in repo.links|
  {
    var linkers := set a | a in assets && Link(a.ual, id) in repo.links;
    AllLinksCount(linkers, id);
    forall l
      ensures l in LinksTo(repo, id) <==> l in AllLinks(linkers, id)
    {
      if l in LinksTo(repo, id) {
        var a :| a in assets && l.ual in a.Names();
        assert l == Link(l.ual, id) && a in linkers && l in LinksOf(a, id);
      }
    }
    assert LinksTo(repo, id) == AllLinks(linkers, id);
  }

  /** A count of zero means that nobody links the assertion. */
  lemma CountZero(reading: CountReading, repo: Repo, id: AssertionId)
    ensures AssetsCount(reading, repo, id) == 0 <==> !IsLinked(repo, id)
  {
    if IsLinked(repo, id) {
      var l :| l in repo.links && l.assertion == id;
      assert l in LinksTo(repo, id);
    } else {
      assert LinksTo(repo, id) == {};
    }
  }

  /** A count of one means that no asset but the one that links it does. */
  lemma CountOne(reading: CountReading, repo: Repo, assets: set<Asset>, a: Asset, id: AssertionId)
    requires Paired(repo, assets) && ProperNames(reading, assets) && a in assets && id in LinkedIds(repo, a)
    requires AssetsCount(reading, repo, id) <= 1
    ensures !LinkedElsewhere(repo, a, id)
  {
    if LinkedElsewhere(repo, a, id) {
      var l :| l in repo.links && l.assertion == id && l.ual !in a.Names();
      var b :| b in assets && l.ual in b.Names();
      assert Link(l.ual, id) == l;
      assert Link(a.ual, id) in repo.links;
      TwoAssetsCount(repo, a, b, id);
    }
  }

  // ----- Moving -----

  /** A move on its own leaves dangling links behind exactly if it deletes the graph. */
  lemma MoveAloneKeepsTidyIff(reading: CountReading, p: Pair, a: Asset, id: AssertionId)
    requires Tidy(p.from) && id in LinkedIds(p.from, a)
    ensures Tidy(MoveAsset(reading, p, a, id).from) <==> AssetsCount(reading, p.from, id) > 1
  {
    var from := MoveAsset(reading, p, a, id).from;
    SameCounts(reading, p.from, from);
    var l :| l in p.from.links && l.ual == a.ual && l.assertion == id;
    assert IsLinked(from, id);
  }

  ghost function Elements(ids: seq<AssertionId>): set<AssertionId> {
    set id | id in ids
  }

  /** `to` with both links of each id and every graph it did not have yet. */
  ghost function Carried(from: Repo, to: Repo, a: Asset, ids: set<AssertionId>): Repo {
    Repo(to.links + (set id | id in ids :: Link(a.ual, id)) + (set id | id in ids :: Link(a.oldUal, id)),
         (map id | id in ids && id in from.graphs && from.graphs[id] != [] && id !in to.graphs :: from.graphs[id])
           + to.graphs)
  }

  ghost function Thinned(reading: CountReading, from: Repo, ids: set<AssertionId>): Repo {
    from.(graphs :=
      map id | id in from.graphs && !(id in ids && AssetsCount(reading, from, id) <= 1) :: from.graphs[id])
  }

  lemma LinksOneMore(from: Repo, next: Repo, to: Repo, a: Asset, id: AssertionId, rest: set<AssertionId>)
    ensures Carried(next, StoreAsset(to, a, id, GetAssertion(from, id)), a, rest).links
      == Carried(from, to, a, {id} + rest).links
  {
  }

  lemma GraphsOneMore(from: Repo, next: Repo, to: Repo, a: Asset, id: AssertionId, rest: set<AssertionId>)
    requires id !in rest
    requires forall x :: x in rest ==>
      (x in next.graphs <==> x in from.graphs) && (x in from.graphs ==> next.graphs[x] == from.graphs[x])
    ensures Carried(next, StoreAsset(to, a, id, GetAssertion(from, id)), a, rest).graphs
      == Carried(from, to, a, {id} + rest).graphs
  {
    var stored := StoreAsset(to, a, id, GetAssertion(from, id));
    var left, right := Carried(next, stored, a, rest).graphs, Carried(from, to, a, {id} + rest).graphs;
    forall x
      ensures x in left <==> x in right
      ensures x in left ==> left[x] == right[x]
    {
      assert x != id ==> (x in stored.graphs <==> x in to.graphs);
      assert x != id && x in to.graphs ==> stored.graphs[x] == to.graphs[x];
    }
    hide Carried, StoreAsset;
    assert left == right;
  }

  lemma CarryOneMore(from: Repo, next: Repo, to: Repo, a: Asset, id: AssertionId, rest: set<AssertionId>)
    requires id !in rest
    requires forall x :: x in rest ==>
      (x in next.graphs <==> x in from.graphs) && (x in from.graphs ==> next.graphs[x] == from.graphs[x])
    ensures Carried(next, StoreAsset(to, a, id, GetAssertion(from, id)), a, rest) == Carried(from, to, a, {id} + rest)
  {
    hide Carried, StoreAsset, GetAssertion;
    LinksOneMore(from, next, to, a, id, rest);
    GraphsOneMore(from, next, to, a, id, rest);
  }

  lemma ThinOneMore(reading: CountReading, from: Repo, id: AssertionId, rest: set<AssertionId>)
    ensures var next := if AssetsCount(reading, from, id) <= 1 then from.(graphs := from.graphs - {id}) else from;
      Thinned(reading, next, rest) == Thinned(reading, from, {id} + rest)
  {
    var next := if AssetsCount(reading, from, id) <= 1 then from.(graphs := from.graphs - {id}) else from;
    SameCounts(reading, from, next);
    hide AssetsCount;
    assert Thinned(reading, next, rest).graphs == Thinned(reading, from, {id} + rest).graphs;
  }

  lemma SameCounts(reading: CountReading, r: Repo, s: Repo)
    requires r.links == s.links
    ensures forall x :: AssetsCount(reading, r, x) == AssetsCount(reading, s, x)
    ensures forall x :: IsLinked(r, x) <==> IsLinked(s, x)
  {
    forall x
      ensures AssetsCount(reading, r, x) == AssetsCount(reading, s, x)
    {
      assert LinksTo(r, x) == LinksTo(s, x);
    }
  }

  /** The moves of one asset commute: their joint effect depends on the set of ids only. */
  lemma {:induction false} MoveAllIsOrderFree(reading: CountReading, p: Pair, a: Asset, ids: seq<AssertionId>)
    requires forall i, j :: 0 <= i < j < |ids| ==> ids[i] != ids[j]
    ensures MoveAll(reading, p, a, ids)
      == Pair(Thinned(reading, p.from, Elements(ids)), Carried(p.from, p.to, a, Elements(ids)))
    decreases |ids|
  {
    var all := Elements(ids);
    if ids == [] {
      assert Thinned(reading, p.from, all).graphs == p.from.graphs;
      assert Carried(p.from, p.to, a, all).links == p.to.links;
      assert Carried(p.from, p.to, a, all).graphs == p.to.graphs;
    } else {
      var id, rest := ids[0], Elements(ids[1..]);
      var next := MoveAsset(reading, p, a, id);
      MoveAllIsOrderFree(reading, next, a, ids[1..]);
      assert all == {id} + rest && id !in rest;
      CarryOneMore(p.from, next.from, p.to, a, id, rest);
      ThinOneMore(reading, p.from, id, rest);
    }
  }

  // ----- Moves that interleave -----

  /** How far the move of one id is.  While it stores, the two links and the graph are written in any order. */
  datatype Phase =
    | Waiting
    | Storing(assertion: Assertion, linkedUal: bool, linkedOldUal: bool, copied: bool)
    | Counted(count: nat)
    | Moved
  {
    predicate WroteUal() { if Storing? then linkedUal else !Waiting? }
    predicate WroteOldUal() { if Storing? then linkedOldUal else !Waiting? }
    predicate WroteGraph() { if Storing? then copied else !Waiting? }
  }

  datatype Action = Read | LinkUal | LinkOldUal | CopyGraph | Count | Finish

  datatype Moving = Moving(from: Repo, to: Repo, phases: map<AssertionId, Phase>)

  predicate CanAct(m: Moving, id: AssertionId, action: Action) {
    id in m.phases &&
    match action
    case Read => m.phases[id].Waiting?
    case LinkUal | LinkOldUal | CopyGraph => m.phases[id].Storing?
    case Count => m.phases[id].Storing? && m.phases[id].WroteUal() && m.phases[id].WroteOldUal() && m.phases[id].copied
    case Finish => m.phases[id].Counted?
  }

  function NextPhase(reading: CountReading, m: Moving, id: AssertionId, action: Action): Phase
    requires CanAct(m, id, action)
  {
    var phase := m.phases[id];
    match action
    case Read => Storing(GetAssertion(m.from, id), false, false, false)
    case LinkUal => phase.(linkedUal := true)
    case LinkOldUal => phase.(linkedOldUal := true)
    case CopyGraph => phase.(copied := true)
    case Count => Counted(AssetsCount(reading, m.from, id))
    case Finish => Moved
  }

  function AddGraph(repo: Repo, id: AssertionId, assertion: Assertion): Repo {
    if id in repo.graphs || assertion == [] then repo else repo.(graphs := repo.graphs[id := assertion])
  }

  /** One step of the move of `id`. */
  function MoveStep(reading: CountReading, m: Moving, a: Asset, id: AssertionId, action: Action): Moving
    requires CanAct(m, id, action)
  {
    var phase := m.phases[id];
    var from := if action.Finish? && phase.count <= 1 then m.from.(graphs := m.from.graphs - {id}) else m.from;
    var to :=
      match action
      case LinkUal => m.to.(links := m.to.links + {Link(a.ual, id)})
      case LinkOldUal => m.to.(links := m.to.links + {Link(a.oldUal, id)})
      case CopyGraph => AddGraph(m.to, id, phase.assertion)
      case _ => m.to;
    Moving(from, to, m.phases[id := NextPhase(reading, m, id, action)])
  }

  predicate CanMove(reading: CountReading, m: Moving, a: Asset, steps: seq<(AssertionId, Action)>)
    decreases |steps|
  {
    steps == [] ||
    (CanAct(m, steps[0].0, steps[0].1)
     && CanMove(reading, MoveStep(reading, m, a, steps[0].0, steps[0].1), a, steps[1..]))
  }

  function Move(reading: CountReading, m: Moving, a: Asset, steps: seq<(AssertionId, Action)>): Moving
    requires CanMove(reading, m, a, steps)
    decreases |steps|
  {
    if steps == [] then m else Move(reading, MoveStep(reading, m, a, steps[0].0, steps[0].1), a, steps[1..])
  }

  function StartMoving(p: Pair, ids: set<AssertionId>): Moving {
    Moving(p.from, p.to, map id | id in ids :: Waiting)
  }

  function PhaseOf(m: Moving, id: AssertionId): Phase {
    if id in m.phases then m.phases[id] else Waiting
  }

  /** Source and target hold what the phase of each id says, whatever was done for the other ids. */
  ghost predicate MovingInv(reading: CountReading, p: Pair, a: Asset, m: Moving) {
    && m.from.links == p.from.links
    && (forall l :: l in m.to.links <==> l in p.to.links || LinkedBy(m, a, l))
    && (forall id :: FromAt(reading, p, m, id) && ToAt(p, m, id) && PhaseInv(reading, p, m, id))
  }

  predicate LinkedBy(m: Moving, a: Asset, l: Link) {
    || (l.ual == a.ual && PhaseOf(m, l.assertion).WroteUal())
    || (l.ual == a.oldUal && PhaseOf(m, l.assertion).WroteOldUal())
  }

  predicate FromAt(reading: CountReading, p: Pair, m: Moving, id: AssertionId) {
    && (id in m.from.graphs <==>
          id in p.from.graphs && !(PhaseOf(m, id).Moved? && AssetsCount(reading, p.from, id) <= 1))
    && (id in m.from.graphs ==> m.from.graphs[id] == p.from.graphs[id])
  }

  predicate ToAt(p: Pair, m: Moving, id: AssertionId) {
    var copied := PhaseOf(m, id).WroteGraph() && GetAssertion(p.from, id) != [];
    && (id in m.to.graphs <==> id in p.to.graphs || copied)
    && (id in m.to.graphs ==>
          m.to.graphs[id] == if id in p.to.graphs then p.to.graphs[id] else GetAssertion(p.from, id))
  }

  predicate PhaseInv(reading: CountReading, p: Pair, m: Moving, id: AssertionId) {
    && (PhaseOf(m, id).Storing? ==> PhaseOf(m, id).assertion == GetAssertion(p.from, id))
    && (PhaseOf(m, id).Counted? ==> PhaseOf(m, id).count == AssetsCount(reading, p.from, id))
  }

  lemma MoveStepAt(reading: CountReading, p: Pair, a: Asset, m: Moving, id: AssertionId, action: Action, x: AssertionId)
    requires MovingInv(reading, p, a, m) && CanAct(m, id, action)
    ensures var m' := MoveStep(reading, m, a, id, action);
      FromAt(reading, p, m', x) && ToAt(p, m', x) && PhaseInv(reading, p, m', x)
  {
    SameCounts(reading, p.from, m.from);
    hide AssetsCount;
    assert FromAt(reading, p, m, x) && ToAt(p, m, x) && PhaseInv(reading, p, m, x);
    assert FromAt(reading, p, m, id) && PhaseInv(reading, p, m, id);
  }

  lemma MoveStepKeepsInv(reading: CountReading, p: Pair, a: Asset, m: Moving, id: AssertionId, action: Action)
    requires MovingInv(reading, p, a, m) && CanAct(m, id, action)
    ensures MovingInv(reading, p, a, MoveStep(reading, m, a, id, action))
  {
    var m' := MoveStep(reading, m, a, id, action);
    forall x
      ensures FromAt(reading, p, m', x) && ToAt(p, m', x) && PhaseInv(reading, p, m', x)
    {
      MoveStepAt(reading, p, a, m, id, action, x);
    }
    hide FromAt, ToAt, PhaseInv, AssetsCount;
    forall l
      ensures l in m'.to.links <==> l in p.to.links || LinkedBy(m', a, l)
    {
      assert l in m.to.links <==> l in p.to.links || LinkedBy(m, a, l);
      assert l == Link(l.ual, l.assertion);
    }
  }

  lemma {:induction false} MoveKeepsInv(
      reading: CountReading, p: Pair, a: Asset, m: Moving, steps: seq<(AssertionId, Action)>)
    requires MovingInv(reading, p, a, m) && CanMove(reading, m, a, steps)
    ensures MovingInv(reading, p, a, Move(reading, m, a, steps))
    ensures Move(reading, m, a, steps).phases.Keys == m.phases.Keys
    decreases |steps|
  {
    hide MovingInv;
    if steps != [] {
      MoveStepKeepsInv(reading, p, a, m, steps[0].0, steps[0].1);
      MoveKeepsInv(reading, p, a, MoveStep(reading, m, a, steps[0].0, steps[0].1), steps[1..]);
    }
  }

  /** However the steps of the moves interleave: once all moves are finished, they have the joint effect of moving the
      ids one after the other. */
  lemma InterleavedMoves(
      reading: CountReading, p: Pair, a: Asset, ids: seq<AssertionId>, steps: seq<(AssertionId, Action)>)
    requires forall i, j :: 0 <= i < j < |ids| ==> ids[i] != ids[j]
    requires CanMove(reading, StartMoving(p, Elements(ids)), a, steps)
    ensures var m := Move(reading, StartMoving(p, Elements(ids)), a, steps);
      (forall id :: id in m.phases ==> m.phases[id].Moved?) ==> Pair(m.from, m.to) == MoveAll(reading, p, a, ids)
  {
    var start := StartMoving(p, Elements(ids));
    var m := Move(reading, start, a, steps);
    MoveKeepsInv(reading, p, a, start, steps);
    MoveAllIsOrderFree(reading, p, a, ids);
    hide Move, MoveAll, CanMove;
    if forall id :: id in m.phases ==> m.phases[id].Moved? {
      FinishedMoves(reading, p, a, m, Elements(ids));
    }
  }

  lemma FinishedMoves(reading: CountReading, p: Pair, a: Asset, m: Moving, ids: set<AssertionId>)
    requires MovingInv(reading, p, a, m) && m.phases.Keys == ids
    requires forall id :: id in m.phases ==> m.phases[id].Moved?
    ensures Pair(m.from, m.to) == Pair(Thinned(reading, p.from, ids), Carried(p.from, p.to, a, ids))
  {
    hide AssetsCount;
    var thinned, carried := Thinned(reading, p.from, ids), Carried(p.from, p.to, a, ids);
    forall id
      ensures id in m.from.graphs <==> id in thinned.graphs
      ensures id in m.from.graphs ==> m.from.graphs[id] == thinned.graphs[id]
      ensures id in m.to.graphs <==> id in carried.graphs
      ensures id in m.to.graphs ==> m.to.graphs[id] == carried.graphs[id]
    {
      assert FromAt(reading, p, m, id) && ToAt(p, m, id) && PhaseInv(reading, p, m, id);
    }
    assert m.from.graphs == thinned.graphs;
    assert m.to.graphs == carried.graphs;
    forall l
      ensures l in m.to.links <==> l in carried.links
    {
      assert l == Link(l.ual, l.assertion);
    }
  }

  /** The repository without an asset: its links are gone, and so are the graphs that only it linked. */
  ghost function Purged(repo: Repo, a: Asset): Repo {
    DropLinks(repo, a).(graphs := map id | id in repo.graphs && IsLinked(DropLinks(repo, a), id) :: repo.graphs[id])
  }

  /** An id that the asset does not link keeps its links when the asset goes. */
  lemma StaysLinked(repo: Repo, assets: set<Asset>, a: Asset, id: AssertionId)
    requires Paired(repo, assets) && a in assets && IsLinked(repo, id)
    ensures id !in LinkedIds(repo, a) ==> IsLinked(DropLinks(repo, a), id)
    ensures LinkedElsewhere(repo, a, id) <==> IsLinked(DropLinks(repo, a), id)
  {
    var l :| l in repo.links && l.assertion == id;
    if id !in LinkedIds(repo, a) {
      assert Link(a.ual, id) !in repo.links && Link(a.oldUal, id) !in repo.links;
      assert l == Link(l.ual, id);
      assert l in DropLinks(repo, a).links;
    }
    if LinkedElsewhere(repo, a, id) {
      var m :| m in repo.links && m.assertion == id && m.ual !in a.Names();
      assert m in DropLinks(repo, a).links;
    }
  }

  lemma PurgeAt(reading: CountReading, repo: Repo, assets: set<Asset>, a: Asset, id: AssertionId)
    requires Tidy(repo) && Paired(repo, assets) && ProperNames(reading, assets) && a in assets && id in repo.graphs
    ensures var thinned := Thinned(reading, repo, LinkedIds(repo, a));
      id in DeleteAssetMetadata(reading, thinned, a).graphs <==> IsLinked(DropLinks(repo, a), id)
  {
    var thinned := Thinned(reading, repo, LinkedIds(repo, a));
    var dropped := DropLinks(thinned, a);
    assert LinkedIds(thinned, a) == LinkedIds(repo, a);
    assert IsLinked(repo, id);
    StaysLinked(repo, assets, a, id);
    CountZero(reading, dropped, id);
    SameCounts(reading, dropped, DropLinks(repo, a));
    if id in LinkedIds(repo, a) && AssetsCount(reading, repo, id) <= 1 {
      CountOne(reading, repo, assets, a, id);
    }
    hide AssetsCount, IsLinked, LinkedElsewhere, Tidy, Paired, ProperNames;
  }

  /** Moving may already have deleted graphs that are still linked; deleting the metadata afterwards leaves exactly the
      repository without the asset, whatever the reading of the counts. */
  lemma MoveThenDeleteIsPurge(reading: CountReading, repo: Repo, assets: set<Asset>, a: Asset)
    requires Tidy(repo) && Paired(repo, assets) && ProperNames(reading, assets) && a in assets
    ensures DeleteAssetMetadata(reading, Thinned(reading, repo, LinkedIds(repo, a)), a) == Purged(repo, a)
  {
    var result := DeleteAssetMetadata(reading, Thinned(reading, repo, LinkedIds(repo, a)), a);
    forall id | id in repo.graphs
      ensures id in result.graphs <==> IsLinked(DropLinks(repo, a), id)
    {
      PurgeAt(reading, repo, assets, a, id);
    }
    hide AssetsCount, IsLinked, Tidy, Paired, ProperNames;
    assert result.graphs == Purged(repo, a).graphs;
  }

  lemma PurgeKeepsConsistent(repo: Repo, assets: set<Asset>, merkle: AssertionId -> Assertion, a: Asset)
    requires Consistent(repo, assets, merkle) && ProperNames(RawCount, assets) && a in assets
    ensures Consistent(Purged(repo, a), assets, merkle)
    ensures LinkedIds(Purged(repo, a), a) == {}
  {
    var purged := Purged(repo, a);
    forall id | IsLinked(purged, id)
      ensures id in repo.graphs
    {
      var l :| l in purged.links && l.assertion == id;
      assert l in repo.links;
    }
    forall b, x | b in assets
      ensures Link(b.ual, x) in purged.links <==> Link(b.oldUal, x) in purged.links
    {
      assert b.ual in b.Names() && b.oldUal in b.Names();
    }
    assert a.ual in a.Names();
  }

  lemma CarryKeepsTidy(from: Repo, to: Repo, merkle: AssertionId -> Assertion, a: Asset)
    requires Tidy(from) && Faithful(from, merkle) && Tidy(to) && Faithful(to, merkle)
    ensures Tidy(Carried(from, to, a, LinkedIds(from, a))) && Faithful(Carried(from, to, a, LinkedIds(from, a)), merkle)
  {
    var ids := LinkedIds(from, a);
    var to' := Carried(from, to, a, ids);
    forall id | id in ids
      ensures id in from.graphs && from.graphs[id] == merkle(id) != [] && IsLinked(to', id)
    {
      assert Link(a.ual, id) in from.links && IsLinked(from, id);
      assert Link(a.ual, id) in to'.links;
    }
    forall id
      ensures id in to'.graphs <==> IsLinked(to', id)
    {
      if IsLinked(to, id) {
        var l :| l in to.links && l.assertion == id;
        assert l in to'.links;
      }
      if id !in ids && IsLinked(to', id) {
        var l :| l in to'.links && l.assertion == id;
        assert l in to.links;
      }
    }
  }

  lemma CarryKeepsPaired(from: Repo, to: Repo, assets: set<Asset>, a: Asset)
    requires Paired(to, assets) && ProperNames(RawCount, assets) && a in assets
    ensures Paired(Carried(from, to, a, LinkedIds(from, a)), assets)
  {
    var to' := Carried(from, to, a, LinkedIds(from, a));
    assert a.ual in a.Names() && a.oldUal in a.Names();
    forall b, x | b in assets
      ensures Link(b.ual, x) in to'.links <==> Link(b.oldUal, x) in to'.links
    {
      assert b.ual in b.Names() && b.oldUal in b.Names();
    }
  }

  lemma CarryKeepsConsistent(from: Repo, to: Repo, assets: set<Asset>, merkle: AssertionId -> Assertion, a: Asset)
    requires Consistent(from, assets, merkle) && Consistent(to, assets, merkle)
    requires ProperNames(RawCount, assets) && a in assets
    ensures Consistent(Carried(from, to, a, LinkedIds(from, a)), assets, merkle)
  {
    hide Tidy, Paired, Faithful, Carried;
    CarryKeepsTidy(from, to, merkle, a);
    CarryKeepsPaired(from, to, assets, a);
  }
}
