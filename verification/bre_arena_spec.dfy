/** The arena of scope-history nodes as values: who points at whom, which nodes
    are live, and the history each live node stands for. */
module BreArenaSpec {
  import opened BreProgram

  /** A slot: the previous event, how many references there are, the next free
      slot, and the event with its opening serial. */
  datatype Node = Node(prev: nat, refs: nat, free: nat, closed: bool, key: nat, pos: nat, open: nat, order: nat)

  predicate Live(nodes: seq<Node>, id: nat) {
    id < |nodes| && nodes[id].refs > 0
  }

  predicate PointsAt(n: Node, id: nat) {
    n.refs > 0 && n.prev == id
  }

  /** Live nodes whose previous event is `id`. */
  function Successors(nodes: seq<Node>, id: nat): nat {
    if nodes == [] then 0
    else Successors(nodes[..|nodes| - 1], id) + if PointsAt(nodes[|nodes| - 1], id) then 1 else 0
  }

  lemma {:induction false} SuccessorsUpdate(nodes: seq<Node>, k: nat, n: Node, id: nat)
    requires k < |nodes|
    ensures Successors(nodes[k := n], id) ==
            Successors(nodes, id) - (if PointsAt(nodes[k], id) then 1 else 0) + if PointsAt(n, id) then 1 else 0
  {
    var last := |nodes| - 1;
    if k < last {
      SuccessorsUpdate(nodes[..last], k, n, id);
      assert nodes[k := n][..last] == nodes[..last][k := n];
    } else {
      assert nodes[k := n][..last] == nodes[..last];
    }
  }

  lemma {:induction false} SuccessorsFound(nodes: seq<Node>, k: nat, id: nat)
    requires k < |nodes| && PointsAt(nodes[k], id)
    ensures Successors(nodes, id) > 0
  {
    var last := |nodes| - 1;
    if k < last {
      SuccessorsFound(nodes[..last], k, id);
    }
  }

  lemma {:induction false} SuccessorsPush(nodes: seq<Node>, n: Node, id: nat)
    ensures Successors(nodes + [n], id) == Successors(nodes, id) + if PointsAt(n, id) then 1 else 0
  {
    assert (nodes + [n])[..|nodes|] == nodes;
  }

  /** Reference counts are exact: roots plus live successors. */
  ghost predicate CountsOk(nodes: seq<Node>, roots: multiset<nat>) {
    && (forall id :: id in roots ==> id < |nodes|)
    && (forall id :: 0 <= id < |nodes| ==> nodes[id].refs == roots[id] + Successors(nodes, id))
  }

  /** A live node's chain is its predecessor's and itself; serials grow along it,
      and a close names an opening further up. */
  ghost predicate NodeOk(nodes: seq<Node>, chains: seq<seq<nat>>, id: nat)
    requires |chains| == |nodes| && id < |nodes|
  {
    var n := nodes[id];
    && chains[id] != [] && chains[id][|chains[id]| - 1] == id
    && (var before := chains[id][..|chains[id]| - 1];
        && (if n.prev == NONE then before == []
            else Live(nodes, n.prev) && before == chains[n.prev]
                 && nodes[n.prev].order < n.order)
        && (n.closed ==> n.open < |nodes| && n.open in before && !nodes[n.open].closed))
  }

  ghost predicate NodesOk(nodes: seq<Node>, chains: seq<seq<nat>>) {
    |chains| == |nodes| && forall id {:trigger NodeOk(nodes, chains, id)} :: 0 <= id < |nodes| && Live(nodes, id) ==>
                             NodeOk(nodes, chains, id)
  }

  /** Following the free links from `head` visits `ids`. */
  ghost predicate FreeChain(nodes: seq<Node>, head: nat, ids: seq<nat>)
    decreases |ids|
  {
    if ids == [] then head == NONE
    else head == ids[0] && head < |nodes| && FreeChain(nodes, nodes[head].free, ids[1..])
  }

  /** The free list runs through exactly the dead slots, each once. */
  ghost predicate FreeOk(nodes: seq<Node>, head: nat, ids: seq<nat>) {
    && FreeChain(nodes, head, ids)
    && (forall j, k :: 0 <= j < k < |ids| ==> ids[j] != ids[k])
    && (forall id :: 0 <= id < |nodes| ==> (nodes[id].refs == 0 <==> id in ids))
  }

  /** Every node on a live node's chain is live, and its own chain is the part up to it. */
  lemma {:induction false} ChainLive(nodes: seq<Node>, chains: seq<seq<nat>>, id: nat, k: nat)
    requires NodesOk(nodes, chains) && Live(nodes, id) && k < |chains[id]|
    ensures Live(nodes, chains[id][k]) && chains[chains[id][k]] == chains[id][..k + 1]
    decreases |chains[id]|
  {
    assert NodeOk(nodes, chains, id);
    if k + 1 < |chains[id]| {
      var p := nodes[id].prev;
      ChainLive(nodes, chains, p, k);
      assert chains[p] == chains[id][..|chains[id]| - 1];
      assert chains[p][..k + 1] == chains[id][..k + 1];
    } else {
      assert chains[id][..k + 1] == chains[id];
    }
  }

  /** Serials grow along a chain. */
  lemma {:induction false} ChainOrdered(nodes: seq<Node>, chains: seq<seq<nat>>, id: nat, j: nat, k: nat)
    requires NodesOk(nodes, chains) && Live(nodes, id) && j < k < |chains[id]|
    ensures Live(nodes, chains[id][j]) && Live(nodes, chains[id][k])
    ensures nodes[chains[id][j]].order < nodes[chains[id][k]].order
    decreases |chains[id]|
  {
    assert NodeOk(nodes, chains, id);
    var p := nodes[id].prev;
    ChainLive(nodes, chains, id, j);
    ChainLive(nodes, chains, id, k);
    assert chains[p] == chains[id][..|chains[id]| - 1];
    assert NodeOk(nodes, chains, p);
    if k + 1 < |chains[id]| {
      ChainOrdered(nodes, chains, p, j, k);
    } else if j + 1 < k {
      ChainOrdered(nodes, chains, p, j, k - 1);
    }
  }

  // ---------- the history a node stands for ----------

  function ChainOf(chains: seq<seq<nat>>, id: nat): seq<nat> {
    if id < |chains| then chains[id] else []
  }

  /** Where on its chain a node stands. */
  function Level(chains: seq<seq<nat>>, id: nat): nat {
    if ChainOf(chains, id) == [] then 0 else |ChainOf(chains, id)| - 1
  }

  ghost function EventOf(nodes: seq<Node>, chains: seq<seq<nat>>, id: nat): Event {
    if id < |nodes| && nodes[id].closed then Closed(Level(chains, nodes[id].open), nodes[id].pos)
    else if id < |nodes| then Opened(nodes[id].key, nodes[id].pos)
    else Opened(0, 0)
  }

  /** The events along a chain. */
  ghost function Log(nodes: seq<Node>, chains: seq<seq<nat>>, chain: seq<nat>): (h: seq<Event>)
    ensures |h| == |chain| && forall k :: 0 <= k < |chain| ==> h[k] == EventOf(nodes, chains, chain[k])
  {
    seq(|chain|, k requires 0 <= k < |chain| => EventOf(nodes, chains, chain[k]))
  }

  /** The history of a state that holds `id`. */
  ghost function History(nodes: seq<Node>, chains: seq<seq<nat>>, id: nat): seq<Event> {
    Log(nodes, chains, ChainOf(chains, id))
  }

  /** Nodes that stay live are what they were. */
  ghost predicate Preserved(nodes: seq<Node>, chains: seq<seq<nat>>, nodes': seq<Node>, chains': seq<seq<nat>>) {
    |chains| == |nodes| <= |nodes'| == |chains'| &&
    forall id :: 0 <= id < |nodes| && Live(nodes, id) && Live(nodes', id) ==>
      chains'[id] == chains[id] && nodes'[id] == nodes[id].(refs := nodes'[id].refs, free := nodes'[id].free)
  }

  /** The opening a live close names is live, on its chain, and an opening. */
  lemma {:induction false} OpenLive(nodes: seq<Node>, chains: seq<seq<nat>>, id: nat)
    requires NodesOk(nodes, chains) && Live(nodes, id) && nodes[id].closed
    ensures var o := nodes[id].open;
            && Live(nodes, o) && !nodes[o].closed && 0 < |chains[o]| < |chains[id]|
            && chains[id][|chains[o]| - 1] == o && chains[o] == chains[id][..|chains[o]|]
  {
    assert NodeOk(nodes, chains, id);
    var o := nodes[id].open;
    var k :| 0 <= k < |chains[id]| - 1 && chains[id][..|chains[id]| - 1][k] == o;
    ChainLive(nodes, chains, id, k);
  }

  lemma {:induction false} EventPreserved(nodes: seq<Node>, chains: seq<seq<nat>>, nodes': seq<Node>,
                                          chains': seq<seq<nat>>, id: nat)
    requires NodesOk(nodes, chains) && NodesOk(nodes', chains') && Preserved(nodes, chains, nodes', chains')
    requires Live(nodes, id) && Live(nodes', id)
    ensures EventOf(nodes', chains', id) == EventOf(nodes, chains, id)
  {
    if nodes'[id].closed {
      OpenLive(nodes, chains, id);
      OpenLive(nodes', chains', id);
    }
  }

  lemma {:induction false} HistoryPreserved(nodes: seq<Node>, chains: seq<seq<nat>>, nodes': seq<Node>,
                                            chains': seq<seq<nat>>, id: nat)
    requires NodesOk(nodes, chains) && NodesOk(nodes', chains') && Preserved(nodes, chains, nodes', chains')
    requires Live(nodes, id) && Live(nodes', id)
    ensures History(nodes', chains', id) == History(nodes, chains, id)
  {
    var chain := chains[id];
    forall k | 0 <= k < |chain|
      ensures EventOf(nodes', chains', chain[k]) == EventOf(nodes, chains, chain[k])
    {
      ChainLive(nodes, chains, id, k);
      ChainLive(nodes', chains', id, k);
      EventPreserved(nodes, chains, nodes', chains', chain[k]);
    }
  }

  // ---------- the three operations ----------

  /** Changing only reference counts and free links, and nobody's life. */
  lemma {:induction false} SameLiving(nodes: seq<Node>, chains: seq<seq<nat>>, nodes': seq<Node>)
    requires NodesOk(nodes, chains) && |nodes'| == |nodes|
    requires forall k :: 0 <= k < |nodes| ==>
               nodes'[k] == nodes[k].(refs := nodes'[k].refs, free := nodes'[k].free)
                   && (Live(nodes', k) <==> Live(nodes, k))
    ensures NodesOk(nodes', chains)
  {
    forall k | 0 <= k < |nodes'| && Live(nodes', k)
      ensures NodeOk(nodes', chains, k)
    {
      assert NodeOk(nodes, chains, k);
    }
  }

  lemma {:induction false} FreeChainSame(nodes: seq<Node>, head: nat, ids: seq<nat>, nodes': seq<Node>)
    requires FreeChain(nodes, head, ids) && |nodes| <= |nodes'|
    requires forall k :: 0 <= k < |ids| && ids[k] < |nodes| ==> nodes'[ids[k]].free == nodes[ids[k]].free
    ensures FreeChain(nodes', head, ids)
    decreases |ids|
  {
    if ids != [] {
      forall k | 0 <= k < |ids[1..]| && ids[1..][k] < |nodes|
        ensures nodes'[ids[1..][k]].free == nodes[ids[1..][k]].free
      {
        assert ids[1..][k] == ids[k + 1];
      }
      FreeChainSame(nodes, nodes[head].free, ids[1..], nodes');
    }
  }

  lemma {:induction false} FreeSame(nodes: seq<Node>, head: nat, ids: seq<nat>, nodes': seq<Node>)
    requires FreeOk(nodes, head, ids) && |nodes'| == |nodes|
    requires forall k :: 0 <= k < |nodes| ==>
              nodes'[k].free == nodes[k].free
              && (nodes'[k].refs == 0 <==> nodes[k].refs == 0)
    ensures FreeOk(nodes', head, ids)
  {
    FreeChainSame(nodes, head, ids, nodes');
  }

  /** A live node's count moves with the roots. */
  lemma {:induction false} CountsMove(nodes: seq<Node>, roots: multiset<nat>, id: nat, refs: nat, roots': multiset<nat>)
    requires CountsOk(nodes, roots) && Live(nodes, id) && refs > 0
    requires forall k :: k in roots' ==> k < |nodes|
    requires forall k: nat :: k < |nodes| ==>
               roots'[k] + (if k == id then nodes[id].refs else 0) == roots[k] + if k == id then refs else 0
    ensures CountsOk(nodes[id := nodes[id].(refs := refs)], roots')
  {
    var nodes' := nodes[id := nodes[id].(refs := refs)];
    forall k | 0 <= k < |nodes'|
      ensures nodes'[k].refs == roots'[k] + Successors(nodes', k)
    {
      SuccessorsUpdate(nodes, id, nodes'[id], k);
    }
  }

  /** One more reference. */
  lemma {:induction false} RetainKeeps(nodes: seq<Node>, chains: seq<seq<nat>>, head: nat, ids: seq<nat>,
                                       roots: multiset<nat>, id: nat)
    requires NodesOk(nodes, chains) && CountsOk(nodes, roots) && FreeOk(nodes, head, ids) && Live(nodes, id)
    ensures var nodes' := nodes[id := nodes[id].(refs := nodes[id].refs + 1)];
            && NodesOk(nodes', chains) && CountsOk(nodes', roots + multiset{id}) && FreeOk(nodes', head, ids)
            && Preserved(nodes, chains, nodes', chains)
  {
    var nodes' := nodes[id := nodes[id].(refs := nodes[id].refs + 1)];
    SameLiving(nodes, chains, nodes');
    FreeSame(nodes, head, ids, nodes');
    CountsMove(nodes, roots, id, nodes[id].refs + 1, roots + multiset{id});
  }

  /** One reference less, others left. */
  lemma {:induction false} ReleaseKeeps(nodes: seq<Node>, chains: seq<seq<nat>>, head: nat, ids: seq<nat>,
                                        roots: multiset<nat>, id: nat)
    requires NodesOk(nodes, chains) && CountsOk(nodes, roots + multiset{id}) && FreeOk(nodes, head, ids)
    requires id < |nodes| && nodes[id].refs > 1
    ensures var nodes' := nodes[id := nodes[id].(refs := nodes[id].refs - 1)];
            && NodesOk(nodes', chains) && CountsOk(nodes', roots) && FreeOk(nodes', head, ids)
            && Preserved(nodes, chains, nodes', chains)
  {
    var nodes' := nodes[id := nodes[id].(refs := nodes[id].refs - 1)];
    SameLiving(nodes, chains, nodes');
    FreeSame(nodes, head, ids, nodes');
    assert forall k :: k in roots ==> k in roots + multiset{id};
    CountsMove(nodes, roots + multiset{id}, id, nodes[id].refs - 1, roots);
  }

  /** The last reference gone: the slot is freed and its predecessor loses one in turn. */
  lemma {:induction false} FreeKeeps(nodes: seq<Node>, chains: seq<seq<nat>>, head: nat, ids: seq<nat>,
                                     roots: multiset<nat>, id: nat)
    requires NodesOk(nodes, chains) && CountsOk(nodes, roots + multiset{id}) && FreeOk(nodes, head, ids)
    requires id < |nodes| < NONE && nodes[id].refs == 1
    ensures var nodes' := nodes[id := nodes[id].(refs := 0, free := head)]; var p := nodes[id].prev;
            && NodesOk(nodes', chains) && FreeOk(nodes', id, [id] + ids)
            && CountsOk(nodes', if p == NONE then roots else roots + multiset{p})
            && (p != NONE ==> Live(nodes', p)) && Preserved(nodes, chains, nodes', chains)
  {
    var nodes' := nodes[id := nodes[id].(refs := 0, free := head)];
    assert roots[id] == 0 && Successors(nodes, id) == 0;
    assert NodeOk(nodes, chains, id);
    FreeCounts(nodes, roots, id, nodes');
    FreeLiving(nodes, chains, id, nodes');
    FreePush(nodes, head, ids, id, nodes');
    if nodes[id].prev == id {
      SuccessorsFound(nodes, id, id);
    }
  }

  /** Nobody points at a node without successors, so the others are what they were. */
  lemma {:induction false} FreeLiving(nodes: seq<Node>, chains: seq<seq<nat>>, id: nat, nodes': seq<Node>)
    requires NodesOk(nodes, chains) && id < |nodes| < NONE && Successors(nodes, id) == 0
    requires |nodes'| == |nodes| && nodes' == nodes[id := nodes'[id]] && nodes'[id].refs == 0
    ensures NodesOk(nodes', chains)
  {
    forall k | 0 <= k < |nodes'| && Live(nodes', k)
      ensures NodeOk(nodes', chains, k)
    {
      assert NodeOk(nodes, chains, k);
      if nodes[k].prev == id {
        SuccessorsFound(nodes, k, id);
      }
      if nodes[k].closed {
        OpenLive(nodes, chains, k);
        OpenNotFreed(nodes, chains, k, id);
      }
    }
  }

  /** A node further up a live chain has a live successor. */
  lemma {:induction false} OpenNotFreed(nodes: seq<Node>, chains: seq<seq<nat>>, k: nat, id: nat)
    requires NodesOk(nodes, chains) && Live(nodes, k) && k != id && id < NONE && Successors(nodes, id) == 0
    ensures id !in chains[k]
    decreases |chains[k]|
  {
    assert NodeOk(nodes, chains, k);
    var p := nodes[k].prev;
    if p == id {
      SuccessorsFound(nodes, k, id);
    } else if p != NONE {
      OpenNotFreed(nodes, chains, p, id);
    }
    assert chains[k] == chains[k][..|chains[k]| - 1] + [k];
  }

  lemma {:induction false} FreeCounts(nodes: seq<Node>, roots: multiset<nat>, id: nat, nodes': seq<Node>)
    requires CountsOk(nodes, roots + multiset{id}) && id < |nodes| < NONE && nodes[id].refs == 1
    requires |nodes'| == |nodes| && nodes' == nodes[id := nodes'[id]] && nodes'[id].refs == 0
    requires nodes[id].prev == NONE || nodes[id].prev < |nodes|
    ensures var p := nodes[id].prev; CountsOk(nodes', if p == NONE then roots else roots + multiset{p})
  {
    var p := nodes[id].prev;
    var roots' := if p == NONE then roots else roots + multiset{p};
    assert forall k :: k in roots + multiset{id} ==> k < |nodes|;
    forall k | k in roots'
      ensures k < |nodes'|
    {
      assert k == p || k in roots;
      assert k in roots ==> k in roots + multiset{id};
    }
    forall k | 0 <= k < |nodes'|
      ensures nodes'[k].refs == roots'[k] + Successors(nodes', k)
    {
      SuccessorsUpdate(nodes, id, nodes'[id], k);
    }
  }

  lemma {:induction false} FreePush(nodes: seq<Node>, head: nat, ids: seq<nat>, id: nat, nodes': seq<Node>)
    requires FreeOk(nodes, head, ids) && id < |nodes| && nodes[id].refs > 0
    requires nodes' == nodes[id := nodes[id].(refs := 0, free := head)]
    ensures FreeOk(nodes', id, [id] + ids)
  {
    var ids' := [id] + ids;
    assert id !in ids;
    FreeChainSame(nodes, head, ids, nodes');
    assert ids'[1..] == ids;
  }

  /** Taking the first free slot. */
  lemma {:induction false} FreePop(nodes: seq<Node>, head: nat, ids: seq<nat>, n: Node)
    requires FreeOk(nodes, head, ids) && ids != [] && n.refs > 0
    ensures head < |nodes| && nodes[head].refs == 0 && FreeOk(nodes[head := n], nodes[head].free, ids[1..])
  {
    var rest := ids[1..];
    var nodes' := nodes[head := n];
    assert ids[0] in ids && ids == [ids[0]] + rest;
    assert head !in rest;
    FreeChainSame(nodes, nodes[head].free, rest, nodes');
    forall x | 0 <= x < |nodes'|
      ensures nodes'[x].refs == 0 <==> x in rest
    {
      assert x in ids <==> x == ids[0] || x in rest;
    }
  }

  /** A new slot at the end. */
  lemma {:induction false} FreeGrow(nodes: seq<Node>, head: nat, ids: seq<nat>, n: Node)
    requires FreeOk(nodes, head, ids) && n.refs > 0
    ensures FreeOk(nodes + [n], head, ids)
  {
    FreeChainSame(nodes, head, ids, nodes + [n]);
    FreeChainInside(nodes, head, ids);
  }

  lemma {:induction false} FreeChainInside(nodes: seq<Node>, head: nat, ids: seq<nat>)
    requires FreeChain(nodes, head, ids)
    ensures forall k :: 0 <= k < |ids| ==> ids[k] < |nodes|
    decreases |ids|
  {
    if ids != [] {
      FreeChainInside(nodes, nodes[head].free, ids[1..]);
    }
  }

  /** A state's history grows by one event: its reference moves to the new node. */
  ghost predicate Grafted(nodes: seq<Node>, chains: seq<seq<nat>>, h: nat, id: nat, n: Node, nodes': seq<Node>,
                          chains': seq<seq<nat>>) {
    && |chains| == |nodes| && |chains'| == |nodes'| && (h == NONE || Live(nodes, h))
    && n.prev == h && n.refs == 1 && (h != NONE ==> nodes[h].order < n.order)
    && (n.closed ==> Live(nodes, n.open) && n.open in ChainOf(chains, h) && !nodes[n.open].closed)
    && (if id < |nodes| then nodes[id].refs == 0 && nodes' == nodes[id := n]
        && chains' == chains[id := ChainOf(chains, h) + [id]]
        else id == |nodes| && nodes' == nodes + [n] && chains' == chains + [ChainOf(chains, h) + [id]])
  }

  lemma {:induction false} GraftKeeps(nodes: seq<Node>, chains: seq<seq<nat>>, h: nat, id: nat, n: Node,
                                      nodes': seq<Node>, chains': seq<seq<nat>>)
    requires NodesOk(nodes, chains) && |nodes| < NONE && Grafted(nodes, chains, h, id, n, nodes', chains')
    ensures NodesOk(nodes', chains') && Preserved(nodes, chains, nodes', chains')
    ensures Live(nodes', id) && chains'[id] == ChainOf(chains, h) + [id]
  {
    forall k | 0 <= k < |nodes'| && Live(nodes', k)
      ensures NodeOk(nodes', chains', k)
    {
      if k == id {
        assert chains'[id][..|chains'[id]| - 1] == ChainOf(chains, h);
      } else {
        assert NodeOk(nodes, chains, k);
        if nodes[k].closed {
          OpenLive(nodes, chains, k);
        }
      }
    }
  }

  lemma {:induction false} GraftCounts(nodes: seq<Node>, chains: seq<seq<nat>>, h: nat, id: nat, n: Node,
                                       nodes': seq<Node>, chains': seq<seq<nat>>, roots: multiset<nat>)
    requires NodesOk(nodes, chains) && CountsOk(nodes, roots) && |nodes| < NONE
    requires Grafted(nodes, chains, h, id, n, nodes', chains') && (h == NONE || h in roots)
    ensures CountsOk(nodes', roots - Root(h) + Root(id))
  {
    var roots' := roots - Root(h) + Root(id);
    forall k | k in roots'
      ensures k < |nodes'|
    {
      assert k == id || k in roots;
    }
    forall k | 0 <= k < |nodes'|
      ensures nodes'[k].refs == roots'[k] + Successors(nodes', k)
    {
      if id < |nodes| {
        SuccessorsUpdate(nodes, id, n, k);
        assert nodes[id].refs == roots[id] + Successors(nodes, id);
      } else {
        SuccessorsPush(nodes, n, k);
        NobodyPointsPast(nodes, chains, id);
      }
      assert k < |nodes| ==> nodes[k].refs == roots[k] + Successors(nodes, k);
    }
  }

  lemma {:induction false} NoSuccessors(nodes: seq<Node>, id: nat)
    requires forall k :: 0 <= k < |nodes| ==> !PointsAt(nodes[k], id)
    ensures Successors(nodes, id) == 0
  {
    if nodes != [] {
      NoSuccessors(nodes[..|nodes| - 1], id);
    }
  }

  lemma {:induction false} NobodyPointsPast(nodes: seq<Node>, chains: seq<seq<nat>>, id: nat)
    requires |nodes| <= id < NONE && NodesOk(nodes, chains)
    ensures Successors(nodes, id) == 0
  {
    forall k | 0 <= k < |nodes|
      ensures !PointsAt(nodes[k], id)
    {
      assert Live(nodes, k) ==> NodeOk(nodes, chains, k);
    }
    NoSuccessors(nodes, id);
  }

  /** Without roots nothing is live: the newest live node would have no successor. */
  lemma {:induction false} NoRootsNoNodes(nodes: seq<Node>, chains: seq<seq<nat>>)
    requires NodesOk(nodes, chains) && CountsOk(nodes, multiset{}) && |nodes| < NONE
    ensures forall id :: 0 <= id < |nodes| ==> nodes[id].refs == 0
  {
    forall id | 0 <= id < |nodes|
      ensures nodes[id].refs == 0
    {
      if nodes[id].refs > 0 {
        var top := Newest(nodes, id);
        NewestHasNoSuccessor(nodes, chains, top);
      }
    }
  }

  lemma {:induction false} NewestHasNoSuccessor(nodes: seq<Node>, chains: seq<seq<nat>>, top: nat)
    requires NodesOk(nodes, chains) && Live(nodes, top) && |nodes| < NONE
    requires forall k :: 0 <= k < |nodes| && Live(nodes, k) ==> nodes[k].order <= nodes[top].order
    ensures Successors(nodes, top) == 0
  {
    forall k | 0 <= k < |nodes|
      ensures !PointsAt(nodes[k], top)
    {
      assert Live(nodes, k) ==> NodeOk(nodes, chains, k);
    }
    NoSuccessors(nodes, top);
  }

  lemma {:induction false} Newest(nodes: seq<Node>, id: nat) returns (top: nat)
    requires Live(nodes, id)
    ensures Live(nodes, top) && forall k :: 0 <= k < |nodes| && Live(nodes, k) ==> nodes[k].order <= nodes[top].order
  {
    top := id;
    for i := 0 to |nodes|
      invariant Live(nodes, top) && forall k :: 0 <= k < i && Live(nodes, k) ==> nodes[k].order <= nodes[top].order
    {
      if Live(nodes, i) && nodes[i].order > nodes[top].order {
        top := i;
      }
    }
  }

  // ---------- the whole arena ----------

  function Root(id: nat): multiset<nat> {
    if id == NONE then multiset{} else multiset{id}
  }

  ghost predicate ArenaOk(nodes: seq<Node>, chains: seq<seq<nat>>, head: nat, ids: seq<nat>, order: nat,
                          roots: multiset<nat>) {
    && |nodes| < NONE && NodesOk(nodes, chains) && CountsOk(nodes, roots) && FreeOk(nodes, head, ids)
    && forall id :: 0 <= id < |nodes| ==> nodes[id].order <= order
  }

  /** Nothing comes to life, and what stays live stays as it is. */
  ghost predicate OnlyDies(nodes: seq<Node>, chains: seq<seq<nat>>, nodes': seq<Node>, chains': seq<seq<nat>>) {
    Preserved(nodes, chains, nodes', chains') && |nodes'| == |nodes|
        && forall k :: 0 <= k < |nodes| && Live(nodes', k) ==> Live(nodes, k)
  }

  lemma {:induction false} OnlyDiesBoth(nodes: seq<Node>, chains: seq<seq<nat>>, nodes1: seq<Node>,
                                        chains1: seq<seq<nat>>, nodes2: seq<Node>, chains2: seq<seq<nat>>)
    requires OnlyDies(nodes, chains, nodes1, chains1) && OnlyDies(nodes1, chains1, nodes2, chains2)
    ensures OnlyDies(nodes, chains, nodes2, chains2)
  {
  }

  function Retained(nodes: seq<Node>, id: nat): seq<Node>
    requires id < |nodes|
  {
    nodes[id := nodes[id].(refs := nodes[id].refs + 1)]
  }

  function Released(nodes: seq<Node>, id: nat): seq<Node>
    requires Live(nodes, id)
  {
    nodes[id := nodes[id].(refs := nodes[id].refs - 1)]
  }

  /** The last reference released and the slot put in front of the free list. */
  function Freed(nodes: seq<Node>, id: nat, head: nat): seq<Node>
    requires Live(nodes, id)
  {
    Released(nodes, id)[id := Released(nodes, id)[id].(free := head)]
  }

  lemma {:induction false} RetainOk(nodes: seq<Node>, chains: seq<seq<nat>>, head: nat, ids: seq<nat>, order: nat,
                                    roots: multiset<nat>, id: nat)
    requires ArenaOk(nodes, chains, head, ids, order, roots) && Live(nodes, id)
    ensures ArenaOk(Retained(nodes, id), chains, head, ids, order, roots + Root(id))
    ensures OnlyDies(nodes, chains, Retained(nodes, id), chains)
  {
    RetainKeeps(nodes, chains, head, ids, roots, id);
  }

  /** A reference that is given up was counted. */
  lemma {:induction false} RootLive(nodes: seq<Node>, roots: multiset<nat>, id: nat)
    requires CountsOk(nodes, roots) && id in roots
    ensures Live(nodes, id)
  {
    assert nodes[id].refs == roots[id] + Successors(nodes, id);
  }

  lemma {:induction false} ReleaseOk(nodes: seq<Node>, chains: seq<seq<nat>>, head: nat, ids: seq<nat>, order: nat,
                                     rest: multiset<nat>, id: nat)
    requires ArenaOk(nodes, chains, head, ids, order, rest + multiset{id}) && id < |nodes| && nodes[id].refs > 1
    ensures ArenaOk(Released(nodes, id), chains, head, ids, order, rest + Root(NONE))
    ensures OnlyDies(nodes, chains, Released(nodes, id), chains)
  {
    ReleaseKeeps(nodes, chains, head, ids, rest, id);
    assert rest + Root(NONE) == rest;
  }

  lemma {:induction false} FreeIsOk(nodes: seq<Node>, chains: seq<seq<nat>>, head: nat, ids: seq<nat>, order: nat,
                                    rest: multiset<nat>, id: nat)
    requires ArenaOk(nodes, chains, head, ids, order, rest + multiset{id}) && id < |nodes| && nodes[id].refs == 1
    ensures var nodes' := Freed(nodes, id, head); var p := nodes[id].prev;
            && ArenaOk(nodes', chains, id, [id] + ids, order, rest + Root(p)) && OnlyDies(nodes, chains, nodes', chains)
            && (p == NONE || (p < |nodes| && nodes[p].order < nodes[id].order))
  {
    FreeKeeps(nodes, chains, head, ids, rest, id);
    assert NodeOk(nodes, chains, id);
    assert Freed(nodes, id, head) == nodes[id := nodes[id].(refs := 0, free := head)];
    assert rest + Root(NONE) == rest;
  }

  lemma {:induction false} GraftOk(nodes: seq<Node>, chains: seq<seq<nat>>, head: nat, ids: seq<nat>, order: nat,
                                   roots: multiset<nat>, h: nat, id: nat, n: Node, nodes': seq<Node>,
                                       chains': seq<seq<nat>>, head': nat, ids': seq<nat>)
    requires ArenaOk(nodes, chains, head, ids, order, roots) && (h == NONE || h in roots) && |nodes'| < NONE
    requires Grafted(nodes, chains, h, id, n, nodes', chains') && FreeOk(nodes', head', ids') && n.order == order + 1
    ensures ArenaOk(nodes', chains', head', ids', order + 1, roots - Root(h) + Root(id))
    ensures Preserved(nodes, chains, nodes', chains') && Live(nodes', id) && chains'[id] == ChainOf(chains, h) + [id]
    ensures h != NONE ==> Live(nodes', h)
  {
    GraftKeeps(nodes, chains, h, id, n, nodes', chains');
    GraftCounts(nodes, chains, h, id, n, nodes', chains', roots);
  }

  /** The event of the new node. */
  lemma {:induction false} GraftEvent(nodes: seq<Node>, chains: seq<seq<nat>>, h: nat, id: nat, n: Node,
                                      nodes': seq<Node>, chains': seq<seq<nat>>)
    requires NodesOk(nodes, chains) && NodesOk(nodes', chains') && Grafted(nodes, chains, h, id, n, nodes', chains')
    requires Preserved(nodes, chains, nodes', chains') && Live(nodes', id)
    ensures EventOf(nodes', chains', id) == if n.closed then Closed(Level(chains, n.open), n.pos)
            else Opened(n.key, n.pos)
  {
    if n.closed {
      OpenLive(nodes', chains', id);
    }
  }

  /** The history of the new node: the old one and the new event. */
  lemma {:induction false} GraftHistory(nodes: seq<Node>, chains: seq<seq<nat>>, h: nat, id: nat, n: Node,
                                        nodes': seq<Node>, chains': seq<seq<nat>>)
    requires NodesOk(nodes, chains) && NodesOk(nodes', chains') && |nodes| < NONE
    requires Grafted(nodes, chains, h, id, n, nodes', chains')
    requires Preserved(nodes, chains, nodes', chains') && Live(nodes', id) && chains'[id] == ChainOf(chains, h) + [id]
    ensures History(nodes', chains', id) ==
            History(nodes, chains, h) + [if n.closed then Closed(Level(chains, n.open), n.pos)
                                         else Opened(n.key, n.pos)]
  {
    GraftEvent(nodes, chains, h, id, n, nodes', chains');
    GraftOld(nodes, chains, h, id, n, nodes', chains');
    LogPush(nodes', chains', ChainOf(chains, h), id);
  }

  lemma {:induction false} LogPush(nodes: seq<Node>, chains: seq<seq<nat>>, chain: seq<nat>, id: nat)
    ensures Log(nodes, chains, chain + [id]) == Log(nodes, chains, chain) + [EventOf(nodes, chains, id)]
  {
  }

  lemma {:induction false} GraftOld(nodes: seq<Node>, chains: seq<seq<nat>>, h: nat, id: nat, n: Node,
                                    nodes': seq<Node>, chains': seq<seq<nat>>)
    requires NodesOk(nodes, chains) && NodesOk(nodes', chains') && |nodes| < NONE
    requires Grafted(nodes, chains, h, id, n, nodes', chains')
    requires Preserved(nodes, chains, nodes', chains')
    ensures Log(nodes', chains', ChainOf(chains, h)) == History(nodes, chains, h)
  {
    if h != NONE {
      assert Live(nodes', h);
      HistoryPreserved(nodes, chains, nodes', chains', h);
    }
  }

  /** What an operation on behalf of one reference does for all the others: a
      history reached from a root is left alone. */
  ghost predicate RootsKept(nodes: seq<Node>, chains: seq<seq<nat>>, nodes': seq<Node>, chains': seq<seq<nat>>,
                            roots: multiset<nat>) {
    forall id :: id in roots ==>
      ChainOf(chains', id) == ChainOf(chains, id) && History(nodes', chains', id) == History(nodes, chains, id)
  }

  lemma {:induction false} PreservedRoots(nodes: seq<Node>, chains: seq<seq<nat>>, nodes': seq<Node>,
                                          chains': seq<seq<nat>>, roots: multiset<nat>, roots': multiset<nat>,
                                              kept: multiset<nat>)
    requires NodesOk(nodes, chains) && CountsOk(nodes, roots) && NodesOk(nodes', chains') && CountsOk(nodes', roots')
    requires Preserved(nodes, chains, nodes', chains') && kept <= roots && kept <= roots'
    ensures RootsKept(nodes, chains, nodes', chains', kept)
  {
    forall id | id in kept
      ensures ChainOf(chains', id) == ChainOf(chains, id) && History(nodes', chains', id) == History(nodes, chains, id)
    {
      assert id in roots && id in roots';
      RootLive(nodes, roots, id);
      RootLive(nodes', roots', id);
      HistoryPreserved(nodes, chains, nodes', chains', id);
    }
  }

  lemma {:induction false} RootsKeptBoth(nodes: seq<Node>, chains: seq<seq<nat>>, nodes1: seq<Node>,
                                         chains1: seq<seq<nat>>, nodes2: seq<Node>, chains2: seq<seq<nat>>,
                                             roots: multiset<nat>, more: multiset<nat>)
    requires RootsKept(nodes, chains, nodes1, chains1, roots) && RootsKept(nodes1, chains1, nodes2, chains2, more)
    requires roots <= more
    ensures RootsKept(nodes, chains, nodes2, chains2, roots)
  {
    forall id | id in roots
      ensures ChainOf(chains2, id) == ChainOf(chains, id) && History(nodes2, chains2, id) == History(nodes, chains, id)
    {
      assert id in more;
    }
  }
}
