/** Reading the sharding table of the blockchain, a linked list, page by page. */
module ShardingTablePull {
  import opened Common

  const PAGE_SIZE := 10
  /** The node id of an entry that is not used. */
  const NO_NODE := "0x"
  const NO_IDENTITY := 0

  datatype NodeInfo = NodeInfo(nodeId: string, identityId: nat)

  /** Identities are not the null identity and not used twice, and every node has an id. */
  ghost predicate IsTable(chain: seq<NodeInfo>) {
    && (forall i :: 0 <= i < |chain| ==> chain[i].identityId != NO_IDENTITY && chain[i].nodeId != NO_NODE)
    && (forall i, j :: 0 <= i < j < |chain| ==> chain[i].identityId != chain[j].identityId)
  }

  function IndexOf(chain: seq<NodeInfo>, identityId: nat): nat {
    if chain == [] || chain[0].identityId == identityId then 0 else 1 + IndexOf(chain[1..], identityId)
  }

  lemma {:induction false} IndexOfAt(chain: seq<NodeInfo>, i: nat)
    requires IsTable(chain) && i < |chain|
    ensures IndexOf(chain, chain[i].identityId) == i
  {
    if i > 0 {
      assert chain[0].identityId != chain[i].identityId;
      assert chain[1..][i - 1] == chain[i];
      IndexOfAt(chain[1..], i - 1);
    }
  }

  /** A page of the contract: the nodes from the starting identity on, padded with unused entries. */
  function Page(chain: seq<NodeInfo>, startingIdentityId: nat): seq<NodeInfo>
    requires IndexOf(chain, startingIdentityId) <= |chain|
  {
    var rest := chain[IndexOf(chain, startingIdentityId)..];
    seq(PAGE_SIZE, i requires 0 <= i < PAGE_SIZE => if i < |rest| then rest[i] else NodeInfo(NO_NODE, NO_IDENTITY))
  }

  function Used(nodes: seq<NodeInfo>): seq<NodeInfo> {
    if nodes == [] then []
    else (if nodes[0].nodeId != NO_NODE then [nodes[0]] else []) + Used(nodes[1..])
  }

  lemma {:induction false} UsedIsPrefix(nodes: seq<NodeInfo>, k: nat)
    requires k <= |nodes|
    requires forall i :: 0 <= i < k ==> nodes[i].nodeId != NO_NODE
    requires forall i :: k <= i < |nodes| ==> nodes[i].nodeId == NO_NODE
    ensures Used(nodes) == nodes[..k]
    decreases |nodes|
  {
    if nodes != [] {
      UsedIsPrefix(nodes[1..], if k == 0 then 0 else k - 1);
      if k > 0 {
        assert nodes[..k] == [nodes[0]] + nodes[1..][..k - 1];
      }
    }
  }

  /** What one round of the loop reads: the nodes after the first `k`, as many as fit. */
  lemma PageAfter(chain: seq<NodeInfo>, k: nat)
    requires IsTable(chain) && k < |chain|
    ensures var first := if k == 0 then 0 else k - 1;
      var id := chain[first].identityId;
      var slice := if k == 0 then 0 else 1;
      && IndexOf(chain, id) <= |chain| && |Page(chain, id)| == PAGE_SIZE
      && Used(Page(chain, id)[slice..]) == chain[k..Min(first + PAGE_SIZE, |chain|)]
      && (first + PAGE_SIZE <= |chain| ==> Page(chain, id)[PAGE_SIZE - 1] == chain[first + PAGE_SIZE - 1])
  {
    var first := if k == 0 then 0 else k - 1;
    var id := chain[first].identityId;
    IndexOfAt(chain, first);
    PageAt(chain, first);
    hide Page, IndexOf, Used;
    var end := Min(first + PAGE_SIZE, |chain|);
    var nodes := Page(chain, id)[k - first..];
    assert forall i :: 0 <= i < |nodes| ==> nodes[i] == Page(chain, id)[i + (k - first)];
    UsedIsPrefix(nodes, end - k);
    assert nodes[..end - k] == chain[k..end];
  }

  /** The entries of a page that starts at a node of the list. */
  lemma PageAt(chain: seq<NodeInfo>, first: nat)
    requires IsTable(chain) && first < |chain| && IndexOf(chain, chain[first].identityId) == first
    ensures var page := Page(chain, chain[first].identityId);
      && |page| == PAGE_SIZE
      && forall i :: 0 <= i < PAGE_SIZE ==>
           page[i] == if first + i < |chain| then chain[first + i] else NodeInfo(NO_NODE, NO_IDENTITY)
  {
  }

  /** The loop ends and reads every node of the list once, in order. */
  method PullBlockchainShardingTable(chain: seq<NodeInfo>) returns (shardingTable: seq<NodeInfo>)
    requires IsTable(chain)
    ensures shardingTable == chain
  {
    var shardingTableLength := |chain|;
    var startingIdentityId := if chain == [] then NO_IDENTITY else chain[0].identityId;
    shardingTable := [];
    var sliceIndex := 0;
    while |shardingTable| < shardingTableLength
      invariant |shardingTable| <= |chain| && shardingTable == chain[..|shardingTable|]
      invariant sliceIndex == if shardingTable == [] then 0 else 1
      invariant |shardingTable| < |chain| ==>
        startingIdentityId == chain[if shardingTable == [] then 0 else |shardingTable| - 1].identityId
      decreases |chain| - |shardingTable|
    {
      ghost var k := |shardingTable|;
      PageAfter(chain, k);
      var nodes := Page(chain, startingIdentityId);
      shardingTable := shardingTable + Used(nodes[sliceIndex..]);
      sliceIndex := 1;
      startingIdentityId := nodes[|nodes| - 1].identityId;
    }
  }
}
