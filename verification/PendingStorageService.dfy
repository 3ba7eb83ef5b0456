/** Finalization events handled over repositories and a pending folder that are updated in place. */
module PendingStorageServices {
  import opened Common
  import opened TripleStore
  import opened StateFinalization
  import opened TripleStoreServices

  class PendingStorageService {
    const tripleStoreService: TripleStoreService
    var files: Pending

    constructor (tripleStoreService: TripleStoreService)
      ensures this.tripleStoreService == tripleStoreService && files == map[]
    {
      this.tripleStoreService := tripleStoreService;
      files := map[];
    }

    method GetCachedAssertion(a: Asset, id: AssertionId) returns (c: Option<Cached>)
      ensures c == GetCached(files, a, id)
    {
      if a in files && id in files[a] {
        return Some(files[a][id]);
      }
      return None;
    }

    method RemoveCachedAssertion(a: Asset, id: AssertionId)
      modifies this
      ensures files == RemoveCached(old(files), a, id)
    {
      if a in files {
        files := files[a := files[a] - {id}];
        if files[a] == map[] {
          files := files - {a};
        }
      }
    }

    /** The moves to history run in the order of the query result; `StepsRefineFinalized` shows that any order would do,
        and `InterleavedMoves` that their steps may overlap. */
    method MoveAndDeletePendingState(current: Repository, history: Repository, e: Event, ghost assets: set<Asset>)
      requires current != history
      requires Tidy(current.View()) && Paired(current.View(), assets) && e.asset in assets
      requires ProperNames(tripleStoreService.reading, assets)
      modifies this, current, history
      ensures Store(current.View(), history.View(), files)
        == Finalized(old(Store(current.View(), history.View(), files)), e)
    {
      ghost var reading := tripleStoreService.reading;
      ghost var before := Store(current.View(), history.View(), files);
      var storedAssertionIds := tripleStoreService.GetAssetAssertionLinks(current, e.asset);
      if e.state in storedAssertionIds {
        return;
      }
      StepsRefineFinalized(reading, before, assets, e, storedAssertionIds);

      ghost var start := Pair(current.View(), history.View());
      var i := 0;
      while i < |storedAssertionIds|
        invariant 0 <= i <= |storedAssertionIds|
        invariant MoveAll(reading, Pair(current.View(), history.View()), e.asset, storedAssertionIds[i..])
          == MoveAll(reading, start, e.asset, storedAssertionIds)
        invariant files == before.pending
      {
        assert storedAssertionIds[i..][1..] == storedAssertionIds[i + 1..];
        tripleStoreService.MoveAsset(current, history, e.asset, storedAssertionIds[i]);
        i := i + 1;
      }
      tripleStoreService.DeleteAssetMetadata(current, e.asset);

      var cachedData := GetCachedAssertion(e.asset, e.state);
      if cachedData.Some? && cachedData.value.public.Some? {
        tripleStoreService.LocalStoreAsset(current, e.asset, e.state, cachedData.value.public.value);
      }
      if cachedData.Some? && cachedData.value.private.Some? && cachedData.value.privateId.Some? {
        tripleStoreService.LocalStoreAsset(
          current, e.asset, cachedData.value.privateId.value, cachedData.value.private.value);
      }
      if cachedData.Some? {
        RemoveCachedAssertion(e.asset, e.state);
      }
      assert Store(current.View(), history.View(), files) == Step(reading, before, e, storedAssertionIds);
    }
  }

  /** The public and the private side of the node. */
  class FinalizationHandler {
    const publicPending: PendingStorageService
    const privatePending: PendingStorageService
    const publicCurrent: Repository
    const publicHistory: Repository
    const privateCurrent: Repository
    const privateHistory: Repository

    ghost predicate Separate() {
      && publicPending != privatePending
      && publicCurrent != publicHistory && publicCurrent != privateCurrent && publicCurrent != privateHistory
      && publicHistory != privateCurrent && publicHistory != privateHistory && privateCurrent != privateHistory
    }

    constructor (publicPending: PendingStorageService, privatePending: PendingStorageService,
                 publicCurrent: Repository, publicHistory: Repository,
                 privateCurrent: Repository, privateHistory: Repository)
      ensures this.publicPending == publicPending && this.privatePending == privatePending
      ensures this.publicCurrent == publicCurrent && this.publicHistory == publicHistory
      ensures this.privateCurrent == privateCurrent && this.privateHistory == privateHistory
    {
      this.publicPending, this.privatePending := publicPending, privatePending;
      this.publicCurrent, this.publicHistory := publicCurrent, publicHistory;
      this.privateCurrent, this.privateHistory := privateCurrent, privateHistory;
    }

    ghost function PublicStore(): Store
      reads publicCurrent, publicHistory, publicPending
    {
      Store(publicCurrent.View(), publicHistory.View(), publicPending.files)
    }

    ghost function PrivateStore(): Store
      reads privateCurrent, privateHistory, privatePending
    {
      Store(privateCurrent.View(), privateHistory.View(), privatePending.files)
    }

    method HandleStateFinalizedEvents(
        blockEvents: seq<Event>, ghost assets: set<Asset>, ghost merkle: AssertionId -> Assertion)
      requires Separate()
      requires ConsistentStore(PublicStore(), assets, merkle) && ConsistentStore(PrivateStore(), assets, merkle)
      requires ProperNames(publicPending.tripleStoreService.reading, assets)
      requires ProperNames(privatePending.tripleStoreService.reading, assets)
      requires forall i :: 0 <= i < |blockEvents| ==> blockEvents[i].asset in assets
      modifies publicPending, privatePending, publicCurrent, publicHistory, privateCurrent, privateHistory
      ensures PublicStore() == Run(old(PublicStore()), blockEvents)
      ensures PrivateStore() == Run(old(PrivateStore()), blockEvents)
      ensures ConsistentStore(PublicStore(), assets, merkle) && ConsistentStore(PrivateStore(), assets, merkle)
    {
      hide Run, Finalized, Tidy, Paired, Faithful, FaithfulPending, ProperNames;
      ghost var publicStart, privateStart := PublicStore(), PrivateStore();
      assert blockEvents[0..] == blockEvents;
      var i := 0;
      while i < |blockEvents|
        invariant 0 <= i <= |blockEvents|
        invariant Run(PublicStore(), blockEvents[i..]) == Run(publicStart, blockEvents)
        invariant Run(PrivateStore(), blockEvents[i..]) == Run(privateStart, blockEvents)
        invariant ConsistentStore(PublicStore(), assets, merkle) && ConsistentStore(PrivateStore(), assets, merkle)
      {
        var event := blockEvents[i];
        RunUnrolled(PublicStore(), blockEvents, i);
        RunUnrolled(PrivateStore(), blockEvents, i);
        FinalizeKeepsConsistent(PublicStore(), assets, merkle, event);
        FinalizeKeepsConsistent(PrivateStore(), assets, merkle, event);
        publicPending.MoveAndDeletePendingState(publicCurrent, publicHistory, event, assets);
        privatePending.MoveAndDeletePendingState(privateCurrent, privateHistory, event, assets);
        i := i + 1;
      }
      RunUnrolled(PublicStore(), blockEvents, i);
      RunUnrolled(PrivateStore(), blockEvents, i);
    }
  }
}
