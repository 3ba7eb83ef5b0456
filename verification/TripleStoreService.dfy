/** The triple store service over repositories that are updated in place. */
module TripleStoreServices {
  import opened TripleStore

  class Repository {
    var links: set<Link>
    var graphs: map<AssertionId, Assertion>

    constructor ()
      ensures View() == Repo({}, map[])
    {
      links, graphs := {}, map[];
    }

    ghost function View(): Repo
      reads this
    {
      Repo(links, graphs)
    }

    method InsertMetadata(link: Link)
      modifies this`links
      ensures links == old(links) + {link}
    {
      links := links + {link};
    }

    method InsertAssertion(id: AssertionId, assertion: Assertion)
      modifies this`graphs
      ensures graphs == if id in old(graphs) || assertion == [] then old(graphs) else old(graphs)[id := assertion]
    {
      if id !in graphs && assertion != [] {
        graphs := graphs[id := assertion];
      }
    }

    method DeleteAssertion(id: AssertionId)
      modifies this`graphs
      ensures graphs == old(graphs) - {id}
    {
      graphs := graphs - {id};
    }

    method DeleteMetadata(ual: Ual)
      modifies this`links
      ensures links == set l | l in old(links) && l.ual != ual
    {
      links := set l | l in links && l.ual != ual;
    }

    /** The query for the assertions of a name: each once, in some order. */
    method AssertionLinks(ual: Ual) returns (ids: seq<AssertionId>)
      ensures forall i, j :: 0 <= i < j < |ids| ==> ids[i] != ids[j]
      ensures forall id :: id in ids <==> Link(ual, id) in links
    {
      ids := [];
      var left := set l | l in links && l.ual == ual;
      while left != {}
        invariant forall l :: l in left ==> l in links && l.ual == ual && l.assertion !in ids
        invariant forall i, j :: 0 <= i < j < |ids| ==> ids[i] != ids[j]
        invariant forall id :: id in ids || Link(ual, id) in left <==> Link(ual, id) in links
        decreases |left|
      {
        var l :| l in left;
        assert l == Link(ual, l.assertion);
        ids := ids + [l.assertion];
        left := left - {l};
      }
    }
  }

  class TripleStoreService {
    const reading: CountReading

    constructor (reading: CountReading)
      ensures this.reading == reading
    {
      this.reading := reading;
    }

    method LocalStoreAsset(repository: Repository, a: Asset, id: AssertionId, assertion: Assertion)
      modifies repository
      ensures repository.View() == StoreAsset(old(repository.View()), a, id, assertion)
    {
      repository.InsertMetadata(Link(a.ual, id));
      repository.InsertMetadata(Link(a.oldUal, id));
      repository.InsertAssertion(id, assertion);
      assert repository.links == old(repository.links) + {Link(a.ual, id), Link(a.oldUal, id)};
    }

    method CountAssetsWithAssertionId(repository: Repository, id: AssertionId) returns (count: nat)
      ensures count == AssetsCount(reading, repository.View(), id)
    {
      count := |set l | l in repository.links && l.assertion == id|;
      assert LinksTo(repository.View(), id) == set l | l in repository.links && l.assertion == id;
      if reading.HalvedCount? && count > 1 {
        count := (count + 1) / 2;
      }
    }

    method GetAssetAssertionLinks(repository: Repository, a: Asset) returns (ids: seq<AssertionId>)
      ensures forall i, j :: 0 <= i < j < |ids| ==> ids[i] != ids[j]
      ensures forall id :: id in ids <==> id in LinkedIds(repository.View(), a)
    {
      ids := repository.AssertionLinks(a.ual);
      forall id
        ensures id in ids <==> id in LinkedIds(repository.View(), a)
      {
        assert id in LinkedIds(repository.View(), a) <==> Link(a.ual, id) in repository.links;
      }
    }

    method MoveAsset(from: Repository, to: Repository, a: Asset, id: AssertionId)
      requires from != to
      modifies from, to
      ensures Pair(from.View(), to.View()) == TripleStore.MoveAsset(reading, old(Pair(from.View(), to.View())), a, id)
    {
      var assertion := if id in from.graphs then from.graphs[id] else [];
      LocalStoreAsset(to, a, id, assertion);
      var count := CountAssetsWithAssertionId(from, id);
      if count <= 1 {
        from.DeleteAssertion(id);
      }
    }

    method DeleteAssetMetadata(repository: Repository, a: Asset)
      modifies repository
      ensures repository.View() == TripleStore.DeleteAssetMetadata(reading, old(repository.View()), a)
    {
      ghost var before := repository.View();
      var linkedAssertionIds := GetAssetAssertionLinks(repository, a);
      repository.DeleteMetadata(a.ual);
      repository.DeleteMetadata(a.oldUal);
      ghost var dropped := DropLinks(before, a);
      assert repository.View() == dropped;
      var i := 0;
      while i < |linkedAssertionIds|
        invariant 0 <= i <= |linkedAssertionIds|
        invariant repository.links == dropped.links
        invariant repository.graphs == before.graphs - Unlinked(dropped, linkedAssertionIds[..i])
      {
        var id := linkedAssertionIds[i];
        SameCounts(reading, repository.View(), dropped);
        var count := CountAssetsWithAssertionId(repository, id);
        if count == 0 {
          repository.DeleteAssertion(id);
        }
        i := i + 1;
      }
      assert Unlinked(dropped, linkedAssertionIds[..i])
        == set id | id in LinkedIds(before, a) && AssetsCount(reading, dropped, id) == 0;
    }

    ghost function Unlinked(repo: Repo, ids: seq<AssertionId>): set<AssertionId> {
      set id | id in ids && AssetsCount(reading, repo, id) == 0
    }
  }
}
