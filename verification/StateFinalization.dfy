/** What a StateFinalized event does to a current repository, its history repository and its pending storage. */
module StateFinalization {
  import opened Common
  import opened TripleStore

  /** A file of the pending storage, named by the public assertion id. */
  datatype Cached = Cached(public: Option<Assertion>, private: Option<Assertion>, privateId: Option<AssertionId>)
  {
    predicate HasPrivate() { private.Some? && privateId.Some? }
  }

  /** Folders by asset, files by assertion id. */
  type Pending = map<Asset, map<AssertionId, Cached>>

  datatype Store = Store(current: Repo, history: Repo, pending: Pending)

  datatype Event = Event(asset: Asset, state: AssertionId)

  function GetCached(pending: Pending, a: Asset, id: AssertionId): Option<Cached> {
    if a in pending && id in pending[a] then Some(pending[a][id]) else None
  }

  /** Removes the file, and the folder with its last file. */
  function RemoveCached(pending: Pending, a: Asset, id: AssertionId): Pending {
    if a !in pending then pending
    else if pending[a] - {id} == map[] then pending - {a}
    else pending[a := pending[a] - {id}]
  }

  function StorePublic(repo: Repo, e: Event, c: Option<Cached>): Repo {
    if c.Some? && c.value.public.Some? then StoreAsset(repo, e.asset, e.state, c.value.public.value) else repo
  }

  function StorePrivate(repo: Repo, e: Event, c: Option<Cached>): Repo {
    if c.Some? && c.value.HasPrivate() then StoreAsset(repo, e.asset, c.value.privateId.value, c.value.private.value)
    else repo
  }

  predicate AlreadyHandled(s: Store, e: Event) {
    e.state in LinkedIds(s.current, e.asset)
  }

  /** `moveAndDeletePendingState` in one expression: old state carried to history, asset purged, pending state
      stored. */
  ghost function Finalized(s: Store, e: Event): Store {
    if AlreadyHandled(s, e) then s
    else
      var c := GetCached(s.pending, e.asset, e.state);
      Store(StorePrivate(StorePublic(Purged(s.current, e.asset), e, c), e, c),
            Carried(s.current, s.history, e.asset, LinkedIds(s.current, e.asset)),
            if c.Some? then RemoveCached(s.pending, e.asset, e.state) else s.pending)
  }

  /** Cached assertions are not empty and hash to the ids they are stored under. */
  ghost predicate FaithfulPending(pending: Pending, merkle: AssertionId -> Assertion) {
    forall a, id :: a in pending && id in pending[a] ==>
      var c := pending[a][id];
      && (c.public.Some? ==> c.public.value == merkle(id) != [])
      && (c.HasPrivate() ==> c.private.value == merkle(c.privateId.value) != [])
  }

  ghost predicate ConsistentStore(s: Store, assets: set<Asset>, merkle: AssertionId -> Assertion) {
    && Consistent(s.current, assets, merkle)
    && Consistent(s.history, assets, merkle)
    && FaithfulPending(s.pending, merkle)
    && ProperNames(RawCount, assets)
  }

  // ----- One event -----

  lemma RemoveCachedFaithful(pending: Pending, merkle: AssertionId -> Assertion, a: Asset, id: AssertionId)
    requires FaithfulPending(pending, merkle)
    ensures FaithfulPending(RemoveCached(pending, a, id), merkle)
  {
    var pending' := RemoveCached(pending, a, id);
    forall b, x | b in pending' && x in pending'[b]
      ensures b in pending && x in pending[b] && pending'[b][x] == pending[b][x]
    {
    }
  }

  /** The file is gone, all other files are still there, and no empty folder is left behind. */
  lemma RemoveCachedRemovesOne(pending: Pending, a: Asset, id: AssertionId)
    requires forall b :: b in pending ==> pending[b] != map[]
    ensures var pending' := RemoveCached(pending, a, id);
      && (forall b, x :: GetCached(pending', b, x) == if b == a && x == id then None else GetCached(pending, b, x))
      && (forall b :: b in pending' ==> pending'[b] != map[])
  {
    if a in pending {
      var rest := pending[a] - {id};
      forall x
        ensures x in rest <==> x in pending[a] && x != id
      {
      }
    }
  }

  lemma FinalizeKeepsConsistent(s: Store, assets: set<Asset>, merkle: AssertionId -> Assertion, e: Event)
    requires ConsistentStore(s, assets, merkle) && e.asset in assets
    ensures ConsistentStore(Finalized(s, e), assets, merkle)
  {
    if !AlreadyHandled(s, e) {
      var c := GetCached(s.pending, e.asset, e.state);
      PurgeKeepsConsistent(s.current, assets, merkle, e.asset);
      CarryKeepsConsistent(s.current, s.history, assets, merkle, e.asset);
      RemoveCachedFaithful(s.pending, merkle, e.asset, e.state);
      hide Consistent, ProperNames, Purged, Carried, StoreAsset, RemoveCached;
      var purged := Purged(s.current, e.asset);
      var public := StorePublic(purged, e, c);
      if public != purged {
        StoreKeepsConsistent(purged, assets, merkle, e.asset, e.state, c.value.public.value);
      }
      if StorePrivate(public, e, c) != public {
        StoreKeepsConsistent(public, assets, merkle, e.asset, c.value.privateId.value, c.value.private.value);
      }
    }
  }

  /** Afterwards the asset links exactly the new state and its private part, as far as they were cached. */
  lemma FinalizedLinks(s: Store, e: Event)
    requires !AlreadyHandled(s, e)
    ensures var c := GetCached(s.pending, e.asset, e.state);
      LinkedIds(Finalized(s, e).current, e.asset)
        == (if c.Some? && c.value.public.Some? then {e.state} else {})
         + (if c.Some? && c.value.HasPrivate() then {c.value.privateId.value} else {})
  {
    var c := GetCached(s.pending, e.asset, e.state);
    assert e.asset.ual in e.asset.Names();
    var current := Finalized(s, e).current;
    var public := if c.Some? && c.value.public.Some? then {e.state} else {};
    var private := if c.Some? && c.value.HasPrivate() then {c.value.privateId.value} else {};
    forall id
      ensures id in LinkedIds(current, e.asset) <==> id in public + private
    {
      assert id in LinkedIds(current, e.asset) <==> Link(e.asset.ual, id) in current.links;
    }
  }

  /** Other assets keep their links in both repositories, and every graph they link keeps its content. */
  lemma OthersUnchanged(s: Store, assets: set<Asset>, merkle: AssertionId -> Assertion, e: Event, b: Asset)
    requires ConsistentStore(s, assets, merkle) && e.asset in assets && b in assets && b != e.asset
    ensures var s' := Finalized(s, e);
      && LinkedIds(s'.current, b) == LinkedIds(s.current, b)
      && LinkedIds(s'.history, b) == LinkedIds(s.history, b)
      && (forall id :: id in LinkedIds(s.current, b) ==>
            id in s.current.graphs && id in s'.current.graphs && s'.current.graphs[id] == s.current.graphs[id])
      && (forall id :: id in LinkedIds(s.history, b) ==>
            id in s.history.graphs && id in s'.history.graphs && s'.history.graphs[id] == s.history.graphs[id])
  {
    var s' := Finalized(s, e);
    FinalizeKeepsConsistent(s, assets, merkle, e);
    assert b.ual in b.Names() && e.asset.ual in e.asset.Names() && e.asset.oldUal in e.asset.Names();
    assert b.Names() !! e.asset.Names();
    forall id
      ensures Link(b.ual, id) in s'.current.links <==> Link(b.ual, id) in s.current.links
      ensures Link(b.ual, id) in s'.history.links <==> Link(b.ual, id) in s.history.links
    {
    }
    hide Finalized;
    LinkedMeansStored(s.current, b);
    LinkedMeansStored(s.history, b);
    LinkedMeansStored(s'.current, b);
    LinkedMeansStored(s'.history, b);
    LinkedIdsByName(s.current, s'.current, b);
    LinkedIdsByName(s.history, s'.history, b);
  }

  lemma LinkedIdsByName(r: Repo, r': Repo, b: Asset)
    requires forall id :: Link(b.ual, id) in r'.links <==> Link(b.ual, id) in r.links
    ensures LinkedIds(r', b) == LinkedIds(r, b)
  {
    forall id
      ensures id in LinkedIds(r', b) <==> id in LinkedIds(r, b)
    {
      assert id in LinkedIds(r, b) <==> Link(b.ual, id) in r.links;
      assert id in LinkedIds(r', b) <==> Link(b.ual, id) in r'.links;
    }
  }

  lemma LinkedMeansStored(r: Repo, b: Asset)
    requires Tidy(r)
    ensures forall id :: id in LinkedIds(r, b) ==> id in r.graphs
  {
    forall id | id in LinkedIds(r, b)
      ensures IsLinked(r, id)
    {
    }
  }

  ghost function Known(s: Store, a: Asset): set<AssertionId> {
    LinkedIds(s.current, a) + LinkedIds(s.history, a)
  }

  /** What an asset links, now or in history, it will still link, now or in history; history only grows. */
  lemma NothingIsForgotten(s: Store, assets: set<Asset>, merkle: AssertionId -> Assertion, e: Event, b: Asset)
    requires ConsistentStore(s, assets, merkle) && e.asset in assets && b in assets
    ensures Known(s, b) <= Known(Finalized(s, e), b)
    ensures LinkedIds(s.history, b) <= LinkedIds(Finalized(s, e).history, b)
  {
    if b != e.asset {
      OthersUnchanged(s, assets, merkle, e, b);
    } else if !AlreadyHandled(s, e) {
      var history := Finalized(s, e).history;
      forall id | id in Known(s, b)
        ensures id in LinkedIds(history, b)
      {
        assert Link(b.ual, id) in history.links;
      }
    }
  }

  // ----- Runs -----

  ghost function Run(s: Store, es: seq<Event>): Store
    decreases |es|
  {
    if es == [] then s else Run(Finalized(s, es[0]), es[1..])
  }

  lemma RunUnrolled(s: Store, es: seq<Event>, i: nat)
    requires i <= |es|
    ensures i < |es| ==> Run(s, es[i..]) == Run(Finalized(s, es[i]), es[i + 1..])
    ensures i == |es| ==> Run(s, es[i..]) == s
  {
    if i < |es| {
      assert es[i..][1..] == es[i + 1..];
    }
  }

  /** The pending state of each event is cached when the event arrives, unless it is linked already. */
  ghost predicate AllCached(s: Store, es: seq<Event>)
    decreases |es|
  {
    es != [] ==> Deliverable(s, es[0]) && AllCached(Finalized(s, es[0]), es[1..])
  }

  ghost predicate Deliverable(s: Store, e: Event) {
    var c := GetCached(s.pending, e.asset, e.state);
    AlreadyHandled(s, e) || (c.Some? && c.value.public.Some?)
  }

  /** All assertions that are linked as current by the asset at some point of the run. */
  ghost function EverCurrent(s: Store, es: seq<Event>, a: Asset): set<AssertionId>
    decreases |es|
  {
    LinkedIds(s.current, a) + if es == [] then {} else EverCurrent(Finalized(s, es[0]), es[1..], a)
  }

  function LastState(es: seq<Event>, a: Asset): Option<AssertionId>
    decreases |es|
  {
    if es == [] then None
    else if es[|es| - 1].asset == a then Some(es[|es| - 1].state)
    else LastState(es[..|es| - 1], a)
  }

  lemma {:induction false} LastStateOfTail(es: seq<Event>, a: Asset)
    requires es != []
    ensures LastState(es, a) ==
      if LastState(es[1..], a).Some? then LastState(es[1..], a)
      else if es[0].asset == a then Some(es[0].state) else None
    decreases |es|
  {
    if |es| > 1 {
      assert es[1..][..|es| - 2] == es[..|es| - 1][1..];
      LastStateOfTail(es[..|es| - 1], a);
    }
  }

  lemma {:induction false} RunFrom(
      s: Store, assets: set<Asset>, merkle: AssertionId -> Assertion, es: seq<Event>, a: Asset)
    requires ConsistentStore(s, assets, merkle) && a in assets
    requires forall i :: 0 <= i < |es| ==> es[i].asset in assets
    ensures var s' := Run(s, es);
      && ConsistentStore(s', assets, merkle)
      && Known(s, a) <= Known(s', a)
      && EverCurrent(s, es, a) <= Known(s', a)
      && (LastState(es, a).None? ==> LinkedIds(s'.current, a) == LinkedIds(s.current, a))
      && (AllCached(s, es) && LastState(es, a).Some? ==> LastState(es, a).value in LinkedIds(s'.current, a))
    decreases |es|
  {
    hide ConsistentStore, LinkedIds, Finalized;
    if es != [] {
      var next := Finalized(s, es[0]);
      FinalizeKeepsConsistent(s, assets, merkle, es[0]);
      NothingIsForgotten(s, assets, merkle, es[0], a);
      RunFrom(next, assets, merkle, es[1..], a);
      LastStateOfTail(es, a);
      if es[0].asset != a {
        OthersUnchanged(s, assets, merkle, es[0], a);
      } else if AlreadyHandled(s, es[0]) {
        HandledIsKept(s, es[0]);
      } else {
        FinalizedLinks(s, es[0]);
      }
    }
  }

  // ----- The current links at the end of a run -----

  /** What is installed for a state: its id, and the id of the private assertion that is cached with it. */
  function Installed(pending: Pending, a: Asset, state: AssertionId): set<AssertionId> {
    var c := GetCached(pending, a, state);
    {state} + if c.Some? && c.value.HasPrivate() then {c.value.privateId.value} else {}
  }

  /** The links an asset ends with if `state` is the last one it gets: what it has already, or what is installed. */
  function LinksWith(s: Store, a: Asset, state: AssertionId): set<AssertionId> {
    if state in LinkedIds(s.current, a) then LinkedIds(s.current, a) else Installed(s.pending, a, state)
  }

  /** No state of the asset has the id of a private assertion that is cached with another state, and a state that is
      linked at the start although it is also cached is linked as it would be installed. */
  ghost predicate ProperStates(s: Store, es: seq<Event>, a: Asset) {
    forall i :: 0 <= i < |es| && es[i].asset == a ==> ProperState(s, a, es[i].state)
  }

  ghost predicate ProperState(s: Store, a: Asset, state: AssertionId) {
    && (forall id :: id != state ==> state !in Installed(s.pending, a, id))
    && (state in LinkedIds(s.current, a) && GetCached(s.pending, a, state).Some? ==>
          LinkedIds(s.current, a) == Installed(s.pending, a, state))
  }

  lemma HandledIsKept(s: Store, e: Event)
    requires AlreadyHandled(s, e)
    ensures Finalized(s, e) == s && e.state in LinkedIds(s.current, e.asset)
  {
  }

  /** One event removes its own file only. */
  lemma PendingAfter(s: Store, e: Event, a: Asset, id: AssertionId)
    ensures var c := GetCached(Finalized(s, e).pending, a, id);
      && (c.Some? ==> c == GetCached(s.pending, a, id))
      && (a != e.asset || id != e.state ==> c == GetCached(s.pending, a, id))
      && (a == e.asset && id == e.state && !AlreadyHandled(s, e) ==> c.None?)
  {
    hide LinkedIds, Carried, Purged, StorePublic, StorePrivate;
    if e.asset in s.pending {
      assert id != e.state ==> (id in s.pending[e.asset] <==> id in s.pending[e.asset] - {e.state});
    }
  }

  /** An installed event leaves exactly what is installed for its state. */
  lemma InstalledLinks(s: Store, e: Event)
    requires !AlreadyHandled(s, e)
    requires GetCached(s.pending, e.asset, e.state).Some? && GetCached(s.pending, e.asset, e.state).value.public.Some?
    ensures LinkedIds(Finalized(s, e).current, e.asset) == Installed(s.pending, e.asset, e.state)
  {
    FinalizedLinks(s, e);
  }

  lemma ProperAfter(s: Store, assets: set<Asset>, merkle: AssertionId -> Assertion, e: Event, a: Asset, x: AssertionId)
    requires ConsistentStore(s, assets, merkle) && e.asset in assets && a in assets
    requires Deliverable(s, e) && ProperState(s, a, x) && (e.asset == a ==> ProperState(s, a, e.state))
    ensures ProperState(Finalized(s, e), a, x)
    ensures x !in LinkedIds(s.current, a) && (e.asset != a || e.state != x) ==>
      x !in LinkedIds(Finalized(s, e).current, a)
    ensures e.asset != a ==> LinksWith(Finalized(s, e), a, x) == LinksWith(s, a, x)
    ensures e.asset == a && !AlreadyHandled(s, e) ==>
      && LinkedIds(Finalized(s, e).current, a) == Installed(s.pending, a, e.state) == LinksWith(s, a, e.state)
      && LinksWith(Finalized(s, e), a, x) == Installed(s.pending, a, x)
  {
    hide Finalized, ConsistentStore, LinkedIds, GetCached;
    InstalledAfter(s, e, a);
    if e.asset != a {
      OthersUnchanged(s, assets, merkle, e, a);
    } else if AlreadyHandled(s, e) {
      HandledIsKept(s, e);
    } else {
      InstalledLinks(s, e);
      PendingAfter(s, e, a, x);
    }
  }

  lemma InstalledAfter(s: Store, e: Event, a: Asset)
    ensures var s' := Finalized(s, e);
      forall id ::
        && Installed(s'.pending, a, id) <= Installed(s.pending, a, id)
        && (a != e.asset || id != e.state ==> GetCached(s'.pending, a, id) == GetCached(s.pending, a, id))
  {
    hide Finalized, GetCached;
    forall id
      ensures Installed(Finalized(s, e).pending, a, id) <= Installed(s.pending, a, id)
      ensures a != e.asset || id != e.state ==> GetCached(Finalized(s, e).pending, a, id) == GetCached(s.pending, a, id)
    {
      PendingAfter(s, e, a, id);
    }
  }

  /** A state that is not linked when the run starts must be cached then. */
  lemma {:induction false} MustBeCached(
      s: Store, assets: set<Asset>, merkle: AssertionId -> Assertion, es: seq<Event>, a: Asset, i: nat)
    requires ConsistentStore(s, assets, merkle) && a in assets
    requires forall i :: 0 <= i < |es| ==> es[i].asset in assets
    requires AllCached(s, es) && ProperStates(s, es, a)
    requires i < |es| && es[i].asset == a && es[i].state !in LinkedIds(s.current, a)
    ensures GetCached(s.pending, a, es[i].state).Some?
    decreases |es|
  {
    var x := es[i].state;
    hide Finalized, ConsistentStore, LinkedIds, GetCached, ProperState;
    if es[0].asset != a || es[0].state != x {
      var next := Finalized(s, es[0]);
      AfterHead(s, assets, merkle, es, a);
      PendingAfter(s, es[0], a, x);
      ProperAfter(s, assets, merkle, es[0], a, x);
      assert es[1..][i - 1] == es[i];
      MustBeCached(next, assets, merkle, es[1..], a, i - 1);
    }
  }

  lemma AfterHead(s: Store, assets: set<Asset>, merkle: AssertionId -> Assertion, es: seq<Event>, a: Asset)
    requires ConsistentStore(s, assets, merkle) && a in assets && es != []
    requires forall i :: 0 <= i < |es| ==> es[i].asset in assets
    requires AllCached(s, es) && ProperStates(s, es, a)
    ensures var next := Finalized(s, es[0]);
      && ConsistentStore(next, assets, merkle) && AllCached(next, es[1..]) && ProperStates(next, es[1..], a)
      && Deliverable(s, es[0]) && (es[0].asset == a ==> ProperState(s, a, es[0].state))
  {
    var e, next := es[0], Finalized(s, es[0]);
    FinalizeKeepsConsistent(s, assets, merkle, e);
    hide Finalized, ConsistentStore, LinkedIds, GetCached, ProperState;
    forall i | 0 <= i < |es[1..]| && es[1..][i].asset == a
      ensures ProperState(next, a, es[1..][i].state)
    {
      assert es[1..][i] == es[i + 1];
      ProperAfter(s, assets, merkle, e, a, es[i + 1].state);
    }
  }

  /** The current links of the asset after the run: untouched if it has no event, and otherwise those that belong to the
      state of its last event. */
  lemma {:induction false} CurrentLinksAre(
      s: Store, assets: set<Asset>, merkle: AssertionId -> Assertion, es: seq<Event>, a: Asset)
    requires ConsistentStore(s, assets, merkle) && a in assets
    requires forall i :: 0 <= i < |es| ==> es[i].asset in assets
    requires AllCached(s, es) && ProperStates(s, es, a)
    ensures LinkedIds(Run(s, es).current, a) ==
      if LastState(es, a).Some? then LinksWith(s, a, LastState(es, a).value) else LinkedIds(s.current, a)
    decreases |es|
  {
    if es != [] {
      var e, next := es[0], Finalized(s, es[0]);
      AfterHead(s, assets, merkle, es, a);
      CurrentLinksAre(next, assets, merkle, es[1..], a);
      LastStateOfTail(es, a);
      if LastState(es[1..], a).Some? {
        var i := LastIndex(es[1..], a);
        LaterState(s, assets, merkle, es, a, i);
      } else if e.asset != a {
        OthersUnchanged(s, assets, merkle, e, a);
      } else if AlreadyHandled(s, e) {
        HandledIsKept(s, e);
      } else {
        ProperAfter(s, assets, merkle, e, a, e.state);
      }
    }
  }

  lemma LaterState(s: Store, assets: set<Asset>, merkle: AssertionId -> Assertion, es: seq<Event>, a: Asset, i: nat)
    requires ConsistentStore(s, assets, merkle) && a in assets
    requires forall i :: 0 <= i < |es| ==> es[i].asset in assets
    requires AllCached(s, es) && ProperStates(s, es, a)
    requires i < |es| - 1 && es[1..][i].asset == a
    ensures LinksWith(Finalized(s, es[0]), a, es[1..][i].state) == LinksWith(s, a, es[1..][i].state)
  {
    var e, next, x := es[0], Finalized(s, es[0]), es[1..][i].state;
    assert es[1..][i] == es[i + 1] && ProperState(s, a, x);
    AfterHead(s, assets, merkle, es, a);
    ProperAfter(s, assets, merkle, e, a, x);
    if e.asset == a && AlreadyHandled(s, e) {
      HandledIsKept(s, e);
    } else if e.asset == a && x in LinkedIds(s.current, a) {
      assert x != e.state;
      PendingAfter(s, e, a, x);
      MustBeCached(next, assets, merkle, es[1..], a, i);
    }
  }

  lemma {:induction false} LastIndex(es: seq<Event>, a: Asset) returns (i: nat)
    requires LastState(es, a).Some?
    ensures i < |es| && es[i].asset == a && LastState(es, a) == Some(es[i].state)
    decreases |es|
  {
    if es[|es| - 1].asset == a {
      i := |es| - 1;
    } else {
      i := LastIndex(es[..|es| - 1], a);
    }
  }

  ghost predicate NoPrivate(pending: Pending, a: Asset) {
    forall id :: GetCached(pending, a, id).Some? ==> !GetCached(pending, a, id).value.HasPrivate()
  }

  lemma ProperWithoutPrivate(s: Store, a: Asset, state: AssertionId)
    requires NoPrivate(s.pending, a)
    requires forall x, y :: x in LinkedIds(s.current, a) && y in LinkedIds(s.current, a) ==> x == y
    ensures ProperState(s, a, state) && LinksWith(s, a, state) == {state}
  {
    hide GetCached;
    forall id
      ensures Installed(s.pending, a, id) == {id}
    {
    }
    if state in LinkedIds(s.current, a) {
      assert LinkedIds(s.current, a) == {state};
    }
  }

  /** A repository without private assertions, and with at most one current link of the asset, ends with exactly one:
      the state of the asset's last event. */
  lemma CurrentLinkIsLastState(
      s: Store, assets: set<Asset>, merkle: AssertionId -> Assertion, es: seq<Event>, a: Asset)
    requires ConsistentStore(s, assets, merkle) && a in assets
    requires forall i :: 0 <= i < |es| ==> es[i].asset in assets
    requires AllCached(s, es)
    requires NoPrivate(s.pending, a)
    requires forall x, y :: x in LinkedIds(s.current, a) && y in LinkedIds(s.current, a) ==> x == y
    ensures LinkedIds(Run(s, es).current, a) ==
      if LastState(es, a).Some? then {LastState(es, a).value} else LinkedIds(s.current, a)
  {
    hide ConsistentStore, LinkedIds, NoPrivate, Run, AllCached, LinksWith, ProperState;
    forall i | 0 <= i < |es| && es[i].asset == a
      ensures ProperState(s, a, es[i].state)
    {
      ProperWithoutPrivate(s, a, es[i].state);
    }
    CurrentLinksAre(s, assets, merkle, es, a);
    if LastState(es, a).Some? {
      ProperWithoutPrivate(s, a, LastState(es, a).value);
    }
  }

  /** Assets without an event in the run keep all their links, current and historical, and the content behind them. */
  lemma {:induction false} UntouchedByRun(
      s: Store, assets: set<Asset>, merkle: AssertionId -> Assertion, es: seq<Event>, b: Asset)
    requires ConsistentStore(s, assets, merkle) && b in assets
    requires forall i :: 0 <= i < |es| ==> es[i].asset in assets && es[i].asset != b
    ensures var s' := Run(s, es);
      && LinkedIds(s'.current, b) == LinkedIds(s.current, b)
      && LinkedIds(s'.history, b) == LinkedIds(s.history, b)
      && (forall id :: id in LinkedIds(s.current, b) ==>
            id in s.current.graphs && id in s'.current.graphs && s'.current.graphs[id] == s.current.graphs[id])
      && (forall id :: id in LinkedIds(s.history, b) ==>
            id in s.history.graphs && id in s'.history.graphs && s'.history.graphs[id] == s.history.graphs[id])
    decreases |es|
  {
    if es == [] {
      LinkedMeansStored(s.current, b);
      LinkedMeansStored(s.history, b);
    } else {
      FinalizeKeepsConsistent(s, assets, merkle, es[0]);
      OthersUnchanged(s, assets, merkle, es[0], b);
      hide ConsistentStore, LinkedIds, Finalized;
      UntouchedByRun(Finalized(s, es[0]), assets, merkle, es[1..], b);
    }
  }

  /** Over any run of finalizations whose pending states are cached: the asset's current links are those of its last
      state, every assertion that was ever current is linked with its content in current or history, and both
      repositories stay tidy. */
  lemma RunsAreSafe(s: Store, assets: set<Asset>, merkle: AssertionId -> Assertion, es: seq<Event>, a: Asset)
    requires ConsistentStore(s, assets, merkle) && a in assets
    requires forall i :: 0 <= i < |es| ==> es[i].asset in assets
    ensures var s' := Run(s, es);
      && Tidy(s'.current) && Tidy(s'.history)
      && (LastState(es, a).None? ==> LinkedIds(s'.current, a) == LinkedIds(s.current, a))
      && (LastState(es, a).Some? && AllCached(s, es) ==>
            && LastState(es, a).value in LinkedIds(s'.current, a)
            && (ProperStates(s, es, a) ==> LinkedIds(s'.current, a) == LinksWith(s, a, LastState(es, a).value)))
      && forall id :: id in EverCurrent(s, es, a) ==>
           || (id in LinkedIds(s'.current, a) && id in s'.current.graphs && s'.current.graphs[id] == merkle(id))
           || (id in LinkedIds(s'.history, a) && id in s'.history.graphs && s'.history.graphs[id] == merkle(id))
  {
    RunFrom(s, assets, merkle, es, a);
    if AllCached(s, es) && ProperStates(s, es, a) {
      CurrentLinksAre(s, assets, merkle, es, a);
    }
    hide LinkedIds, Run, LinksWith, EverCurrent, Finalized;
    var s' := Run(s, es);
    LinkedMeansStored(s'.current, a);
    LinkedMeansStored(s'.history, a);
  }

  // ----- The history at the end of a run -----

  /** What an event adds to the history of its asset: the assertions that were current, and nothing else. */
  lemma HistoryAfter(s: Store, assets: set<Asset>, merkle: AssertionId -> Assertion, e: Event)
    requires ConsistentStore(s, assets, merkle) && e.asset in assets
    ensures var moved := if e.state in LinkedIds(s.current, e.asset) then {} else LinkedIds(s.current, e.asset);
      var history := Finalized(s, e).history;
      && LinkedIds(history, e.asset) == LinkedIds(s.history, e.asset) + moved
      && (forall id :: id in history.graphs <==> id in s.history.graphs || id in moved)
      && (forall id :: id in history.graphs ==> history.graphs[id] == merkle(id))
  {
    FinalizeKeepsConsistent(s, assets, merkle, e);
    LinkedMeansStored(s.current, e.asset);
    if !AlreadyHandled(s, e) {
      CarriedLinks(s.current, s.history, e.asset, LinkedIds(s.current, e.asset));
    }
    hide LinkedIds, Tidy, Paired, ProperNames, FaithfulPending;
  }

  lemma CarriedLinks(from: Repo, to: Repo, a: Asset, ids: set<AssertionId>)
    ensures LinkedIds(Carried(from, to, a, ids), a) == LinkedIds(to, a) + ids
  {
    var carried := Carried(from, to, a, ids);
    forall id
      ensures id in LinkedIds(carried, a) <==> id in LinkedIds(to, a) || id in ids
    {
      assert id in LinkedIds(carried, a) <==> Link(a.ual, id) in carried.links;
      assert id in LinkedIds(to, a) <==> Link(a.ual, id) in to.links;
    }
  }

  /** The assertions that events of the run take out of the current links of the asset. */
  ghost function Displaced(s: Store, es: seq<Event>, a: Asset): set<AssertionId>
    decreases |es|
  {
    if es == [] then {}
    else
      (if es[0].asset == a && es[0].state !in LinkedIds(s.current, a) then LinkedIds(s.current, a) else {}) +
      Displaced(Finalized(s, es[0]), es[1..], a)
  }

  /** The history of an asset is what it was and what the run displaced, exactly; current and history together are what
      they were and what ever became current, exactly. */
  lemma {:induction false} HistoryIsExact(
      s: Store, assets: set<Asset>, merkle: AssertionId -> Assertion, es: seq<Event>, a: Asset)
    requires ConsistentStore(s, assets, merkle) && a in assets
    requires forall i :: 0 <= i < |es| ==> es[i].asset in assets
    ensures LinkedIds(Run(s, es).history, a) == LinkedIds(s.history, a) + Displaced(s, es, a)
    ensures LinkedIds(Run(s, es).history, a) + LinkedIds(Run(s, es).current, a)
      == LinkedIds(s.history, a) + EverCurrent(s, es, a)
    decreases |es|
  {
    hide ConsistentStore, LinkedIds, Finalized;
    if es != [] {
      var next := Finalized(s, es[0]);
      FinalizeKeepsConsistent(s, assets, merkle, es[0]);
      HistoryIsExact(next, assets, merkle, es[1..], a);
      if es[0].asset != a {
        OthersUnchanged(s, assets, merkle, es[0], a);
        CurrentIsEver(next, es[1..], a);
      } else {
        HistoryAfter(s, assets, merkle, es[0]);
        CurrentIsEver(next, es[1..], a);
        if AlreadyHandled(s, es[0]) {
          HandledIsKept(s, es[0]);
        }
      }
    }
  }

  lemma CurrentIsEver(s: Store, es: seq<Event>, a: Asset)
    ensures LinkedIds(s.current, a) <= EverCurrent(s, es, a)
  {
  }

  // ----- Redelivery -----

  /** Is a second delivery of the event without effect?  Only a cached entry with a private assertion of another id and
      no public assertion spoils it. */
  predicate Repeatable(s: Store, e: Event) {
    AlreadyHandled(s, e) ||
    var c := GetCached(s.pending, e.asset, e.state);
    c.None? || c.value.public.Some? || !c.value.HasPrivate() || c.value.privateId.value == e.state
  }

  lemma PurgedTwice(repo: Repo, a: Asset)
    requires LinkedIds(repo, a) == {} && Tidy(repo)
    requires forall id :: Link(a.ual, id) in repo.links <==> Link(a.oldUal, id) in repo.links
    ensures Purged(repo, a) == repo
  {
    forall l | l in repo.links
      ensures l.ual !in a.Names()
    {
      assert l.assertion !in LinkedIds(repo, a);
      assert Link(a.ual, l.assertion) !in repo.links;
      assert l == Link(l.ual, l.assertion);
    }
    assert DropLinks(repo, a).links == repo.links;
    assert DropLinks(repo, a) == repo;
  }

  lemma RedeliveryIsIdempotentIff(s: Store, assets: set<Asset>, merkle: AssertionId -> Assertion, e: Event)
    requires ConsistentStore(s, assets, merkle) && e.asset in assets
    ensures Finalized(Finalized(s, e), e) == Finalized(s, e) <==> Repeatable(s, e)
  {
    var s1 := Finalized(s, e);
    if !AlreadyHandled(s, e) {
      FinalizedLinks(s, e);
      FinalizeKeepsConsistent(s, assets, merkle, e);
      PendingAfter(s, e, e.asset, e.state);
      hide Purged, Carried, StorePublic, StorePrivate, RemoveCached, ConsistentStore, LinkedIds, GetCached;
      var c := GetCached(s.pending, e.asset, e.state);
      if !AlreadyHandled(s1, e) {
        FinalizedLinks(s1, e);
        if LinkedIds(s1.current, e.asset) == {} {
          hide Finalized;
          SecondDelivery(s1, assets, merkle, e);
        }
      }
    }
  }

  lemma SecondDelivery(s: Store, assets: set<Asset>, merkle: AssertionId -> Assertion, e: Event)
    requires ConsistentStore(s, assets, merkle) && e.asset in assets
    requires LinkedIds(s.current, e.asset) == {} && GetCached(s.pending, e.asset, e.state).None?
    ensures Finalized(s, e) == s
  {
    PurgedTwice(s.current, e.asset);
    var carried := Carried(s.current, s.history, e.asset, {});
    assert carried.links == s.history.links;
    assert carried.graphs == s.history.graphs;
  }

  const ASSET: Asset := Asset(1, 2)

  function Content(id: AssertionId): Assertion { ["quad"] }

  /** A file under state 7 with a private assertion of id 8 and no public one. */
  function PrivateOnly(): Store {
    Store(Repo({}, map[]), Repo({}, map[]), map[ASSET := map[7 := Cached(None, Some(Content(8)), Some(8))]])
  }

  lemma PrivateOnlyIsConsistent()
    ensures ConsistentStore(PrivateOnly(), {ASSET}, Content)
  {
  }

  lemma PrivateOnlyFile()
    ensures GetCached(PrivateOnly().pending, ASSET, 7) == Some(Cached(None, Some(Content(8)), Some(8)))
    ensures LinkedIds(PrivateOnly().current, ASSET) == {}
  {
  }

  /** Redelivery spoils such a store: the first delivery installs the private assertion, the second one moves it to
      history and leaves the asset without a current link. */
  lemma RedeliveryCanSpoil()
    ensures ConsistentStore(PrivateOnly(), {ASSET}, Content) && !Repeatable(PrivateOnly(), Event(ASSET, 7))
    ensures var s1 := Finalized(PrivateOnly(), Event(ASSET, 7));
      LinkedIds(s1.current, ASSET) == {8} && LinkedIds(Finalized(s1, Event(ASSET, 7)).current, ASSET) == {}
  {
    hide Finalized, GetCached, LinkedIds, ConsistentStore, PrivateOnly;
    PrivateOnlyIsConsistent();
    PrivateOnlyFile();
    var s, e := PrivateOnly(), Event(ASSET, 7);
    FinalizedLinks(s, e);
    PendingAfter(s, e, ASSET, 7);
    FinalizedLinks(Finalized(s, e), e);
  }

  /** It never happens to stores whose files all hold a public assertion, as both writers of the pending storage
      ensure. */
  lemma PublicFilesAreRepeatable(s: Store, assets: set<Asset>, merkle: AssertionId -> Assertion, e: Event)
    requires ConsistentStore(s, assets, merkle) && e.asset in assets
    requires AllPublic(s.pending)
    ensures Finalized(Finalized(s, e), e) == Finalized(s, e) && AllPublic(Finalized(s, e).pending)
  {
    assert GetCached(s.pending, e.asset, e.state).Some? ==> GetCached(s.pending, e.asset, e.state).value.public.Some?;
    RedeliveryIsIdempotentIff(s, assets, merkle, e);
    forall a, id
      ensures GetCached(Finalized(s, e).pending, a, id).Some? ==>
        GetCached(Finalized(s, e).pending, a, id).value.public.Some?
    {
      PendingAfter(s, e, a, id);
    }
  }

  ghost predicate AllPublic(pending: Pending) {
    forall a, id :: GetCached(pending, a, id).Some? ==> GetCached(pending, a, id).value.public.Some?
  }

  // ----- The steps of the code -----

  function Step(reading: CountReading, s: Store, e: Event, order: seq<AssertionId>): Store {
    if AlreadyHandled(s, e) then s
    else
      var moved := MoveAll(reading, Pair(s.current, s.history), e.asset, order);
      var cleared := DeleteAssetMetadata(reading, moved.from, e.asset);
      var c := GetCached(s.pending, e.asset, e.state);
      Store(StorePrivate(StorePublic(cleared, e, c), e, c), moved.to,
            if c.Some? then RemoveCached(s.pending, e.asset, e.state) else s.pending)
  }

  /** The sequence of moves, counts, deletions and insertions of the code has the effect of `Finalized`, in whatever
      order the moves run and whichever way the links are counted. */
  lemma StepsRefineFinalized(reading: CountReading, s: Store, assets: set<Asset>, e: Event, order: seq<AssertionId>)
    requires Tidy(s.current) && Paired(s.current, assets) && ProperNames(reading, assets) && e.asset in assets
    requires forall i, j :: 0 <= i < j < |order| ==> order[i] != order[j]
    requires forall id :: id in order <==> id in LinkedIds(s.current, e.asset)
    ensures Step(reading, s, e, order) == Finalized(s, e)
  {
    if !AlreadyHandled(s, e) {
      assert Elements(order) == LinkedIds(s.current, e.asset) by {
        forall id
          ensures id in Elements(order) <==> id in LinkedIds(s.current, e.asset)
        {
        }
      }
      MoveAllIsOrderFree(reading, Pair(s.current, s.history), e.asset, order);
      MoveThenDeleteIsPurge(reading, s.current, assets, e.asset);
    }
  }
}
