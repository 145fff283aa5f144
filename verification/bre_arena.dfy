/** Scope histories as the executor keeps them: reference-counted nodes in a
    growing arena with a free list, read back to rank two matches. */
module BreArena {
  import opened Folding
  import opened BreProgram
  import opened BreBudget
  import opened BreArenaSpec

  class Arena {
    var nodes: seq<Node>
    var capacity: nat
    var freeHead: nat
    var order: nat
    ghost var chains: seq<seq<nat>>
    ghost var freeIds: seq<nat>

    /** The arena with exactly these outside references. */
    ghost predicate Valid(roots: multiset<nat>)
      reads this
    {
      |nodes| <= capacity <= NONE / 4 && ArenaOk(nodes, chains, freeHead, freeIds, order, roots)
    }

    /** The history behind a reference. */
    ghost function Past(id: nat): seq<Event>
      reads this
    {
      History(nodes, chains, id)
    }

    constructor ()
      ensures Valid(multiset{}) && nodes == []
    {
      nodes, capacity, freeHead, order := [], 0, NONE, 0;
      chains, freeIds := [], [];
    }

    method Retain(id: nat, ghost roots: multiset<nat>)
      requires Valid(roots) && (id == NONE || Live(nodes, id))
      modifies this`nodes
      ensures Valid(roots + Root(id)) && OnlyDies(old(nodes), old(chains), nodes, chains)
    {
      if id != NONE {
        RetainOk(nodes, chains, freeHead, freeIds, order, roots, id);
        nodes := nodes[id := nodes[id].(refs := nodes[id].refs + 1)];
      }
    }

    /** Takes one reference away. A node that loses its last one is freed, and
        `next` is the node that loses a reference with it. */
    method Release(id: nat, ghost rest: multiset<nat>) returns (next: nat)
      requires Valid(rest + multiset{id})
      modifies this`nodes, this`freeHead, this`freeIds
      ensures Valid(rest + Root(next)) && OnlyDies(old(nodes), old(chains), nodes, chains)
      ensures next != NONE ==> id < |nodes| && next < |nodes| && nodes[next].order < old(nodes)[id].order
    {
      RootLive(nodes, rest + multiset{id}, id);
      ghost var before := nodes;
      nodes := nodes[id := nodes[id].(refs := nodes[id].refs - 1)];
      if nodes[id].refs > 0 {
        ReleaseOk(before, chains, freeHead, freeIds, order, rest, id);
        return NONE;
      }
      FreeIsOk(before, chains, freeHead, freeIds, order, rest, id);
      next := nodes[id].prev;
      nodes := nodes[id := nodes[id].(free := freeHead)];
      freeHead := id;
      freeIds := [id] + freeIds;
    }

    /** A reference to `at` is still to be given up; `serial` is its node's. */
    ghost predicate Dropping(at: nat, rest: multiset<nat>, before: seq<Node>, serial: nat)
      reads this
    {
      forall k: nat {:trigger Shown(k)} :: Shown(k) ==>
        && Valid(rest + Root(at)) && OnlyDies(before, chains, nodes, chains)
        && (at != NONE ==> at < |nodes| && nodes[at].order == serial)
    }

    method DropOne(id: nat, ghost rest: multiset<nat>, ghost before: seq<Node>, ghost serial: nat)
      returns (next: nat, ghost order: nat)
      requires id != NONE && Dropping(id, rest, before, serial)
      modifies this`nodes, this`freeHead, this`freeIds
      ensures Dropping(next, rest, before, order) && (next != NONE ==> order < serial)
    {
      assert Shown(0);
      ghost var here := nodes;
      next := Release(id, rest);
      order := if next == NONE then 0 else nodes[next].order;
      OnlyDiesBoth(before, chains, here, chains, nodes, chains);
    }

    /** Gives up a reference, freeing every node that loses its last one. */
    method Drop(id: nat, ghost roots: multiset<nat>)
      requires Valid(roots) && (id == NONE || id in roots)
      modifies this`nodes, this`freeHead, this`freeIds
      ensures Valid(roots - Root(id)) && OnlyDies(old(nodes), old(chains), nodes, chains)
    {
      ghost var rest := roots - Root(id);
      assert rest + Root(id) == roots;
      var at: nat := id;
      ghost var serial: nat := if at == NONE then 0 else nodes[at].order;
      while at != NONE
        invariant Dropping(at, rest, old(nodes), serial)
        decreases at != NONE, serial
      {
        at, serial := DropOne(at, rest, old(nodes), serial);
      }
      assert Shown(0) && rest + Root(NONE) == rest;
    }

    /** A slot for a node: the first free one, or a new one if memory is granted. */
    method Slot(budget: Budget, ghost n: Node) returns (report: Report, id: nat)
      requires |nodes| <= capacity <= NONE / 4 && |chains| == |nodes| && FreeOk(nodes, freeHead, freeIds) && n.refs > 0
      modifies this`nodes, this`capacity, this`freeHead, this`freeIds, this`chains, budget`refused
      ensures budget.refused <==> old(budget.refused) || report.Failed?
      ensures report.Failed? ==> report.error == Limit || report.error == NoMemory
      ensures report.Failed? ==>
                nodes == old(nodes) && chains == old(chains) && freeHead == old(freeHead)
                && freeIds == old(freeIds)
      ensures |nodes| <= capacity <= NONE / 4 && |chains| == |nodes|
      ensures report == Fine ==> id < |nodes| && FreeOk(nodes[id := n], freeHead, freeIds)
      ensures report == Fine ==>
                if id < |old(nodes)| then old(nodes)[id].refs == 0 && nodes == old(nodes) && chains == old(chains)
                else id == |old(nodes)| && nodes[id := n] == old(nodes) + [n] && nodes[..id] == old(nodes)
                     && chains == old(chains) + [[]]
    {
      report := Fine;
      id := freeHead;
      if freeHead != NONE {
        FreePop(nodes, freeHead, freeIds, n);
        freeHead := nodes[id].free;
        freeIds := freeIds[1..];
        return;
      }
      if |nodes| == capacity {
        var size := if capacity > 0 then capacity * 2 else 32;
        report := budget.Reserve(size <= NONE / 4);
        if report.Failed? {
          return;
        }
        capacity := size;
      }
      id := |nodes|;
      FreeGrow(nodes, freeHead, freeIds, n);
      ghost var before := nodes;
      nodes := nodes + [Node(NONE, 1, NONE, false, 0, 0, 0, 0)];
      assert nodes[id := n] == before + [n];
      chains := chains + [[]];
    }

    method FindSlot(budget: Budget, ghost n: Node, ghost roots: multiset<nat>) returns (report: Report, id: nat)
      requires Valid(roots) && n.refs > 0
      modifies this`nodes, this`capacity, this`freeHead, this`freeIds, this`chains, budget`refused
      ensures budget.refused <==> old(budget.refused) || report.Failed?
      ensures report.Failed? ==> report.error == Limit || report.error == NoMemory
      ensures report.Failed? ==> Valid(roots) && nodes == old(nodes) && chains == old(chains)
      ensures report == Fine ==>
                Slotted(old(nodes), old(chains), id, n, nodes, chains, freeHead, freeIds)
                && |nodes| <= capacity <= NONE / 4
    {
      report, id := Slot(budget, n);
    }

    /** Gives the holder of `h` a new history, one event longer. A history that
        others still hold is shared, not copied. */
    method Place(budget: Budget, h: nat, closed: bool, key: nat, pos: nat, open: nat, ghost roots: multiset<nat>)
      returns (report: Report, id: nat)
      requires Valid(roots) && (h == NONE || h in roots)
      requires closed ==> Live(nodes, open) && open in ChainOf(chains, h) && !nodes[open].closed
      modifies this, budget`refused
      ensures budget.refused <==> old(budget.refused) || report.Failed?
      ensures report.Failed? ==> report.error == Limit || report.error == NoMemory
      ensures report.Failed? ==> Valid(roots) && nodes == old(nodes) && chains == old(chains)
      ensures report == Fine ==>
                && Valid(roots - Root(h) + Root(id)) && id < |nodes| && (h == NONE || Live(nodes, h))
                && Preserved(old(nodes), old(chains), nodes, chains)
                   && ChainOf(chains, id) == ChainOf(old(chains), h) + [id]
                && Past(id) == old(Past(h)) + [if closed then Closed(Level(old(chains), open), pos)
                                               else Opened(key, pos)]
    {
      ghost var before, was, head, ids := nodes, chains, freeHead, freeIds;
      ghost var n := Node(h, 1, NONE, closed, key, pos, open, order + 1);
      if h != NONE {
        RootLive(nodes, roots, h);
      }
      report, id := FindSlot(budget, n, roots);
      if report == Fine {
        Store(h, id, closed, key, pos, open, before, was, head, ids, roots);
      }
    }

    /** Writes the node into its slot. */
    method Store(h: nat, id: nat, closed: bool, key: nat, pos: nat, open: nat, ghost before: seq<Node>,
                 ghost was: seq<seq<nat>>, ghost head: nat, ghost ids: seq<nat>, ghost roots: multiset<nat>)
      requires ArenaOk(before, was, head, ids, order, roots) && (h == NONE || (h in roots && Live(before, h)))
      requires Slotted(before, was, id, Node(h, 1, NONE, closed, key, pos, open, order + 1), nodes, chains, freeHead,
                       freeIds)
      requires closed ==> Live(before, open) && open in ChainOf(was, h) && !before[open].closed
      requires |nodes| <= capacity <= NONE / 4
      modifies this`nodes, this`chains, this`order
      ensures Valid(roots - Root(h) + Root(id)) && id < |nodes| && (h == NONE || Live(nodes, h))
      ensures Preserved(before, was, nodes, chains) && ChainOf(chains, id) == ChainOf(was, h) + [id]
      ensures Past(id) == History(before, was, h) + [if closed then Closed(Level(was, open), pos) else Opened(key, pos)]
    {
      ghost var slotted, chained := nodes, chains;
      order := order + 1;
      nodes := nodes[id := Node(h, 1, NONE, closed, key, pos, open, order)];
      chains := chains[id := ChainOf(was, h) + [id]];
      GraftedThere(before, was, head, ids, order - 1, roots, h, id, slotted, chained, freeHead, freeIds, nodes[id]);
    }

    /** The new node keeps its predecessor: one reference more, and the holder's own given up. */
    method Hand(h: nat, ghost roots: multiset<nat>)
      requires Valid(roots) && (h == NONE || Live(nodes, h))
      modifies this`nodes, this`freeHead, this`freeIds
      ensures Valid(roots) && OnlyDies(old(nodes), old(chains), nodes, chains)
    {
      Retain(h, roots);
      ghost var before := nodes;
      assert h == NONE || h in roots + Root(h);
      Drop(h, roots + Root(h));
      OnlyDiesBoth(old(nodes), old(chains), before, chains, nodes, chains);
      assert roots + Root(h) - Root(h) == roots;
    }

    /** Logs an event on behalf of the holder of `h`, whose reference moves to the new node. */
    method Tag(budget: Budget, h: nat, closed: bool, key: nat, pos: nat, open: nat, ghost roots: multiset<nat>)
      returns (report: Report, id: nat)
      requires Valid(roots) && budget.Valid() && (h == NONE || h in roots)
      requires closed ==> Live(nodes, open) && open in ChainOf(chains, h) && !nodes[open].closed
      modifies this, budget
      ensures budget.Valid() && (old(budget.refused) ==> budget.refused)
      ensures budget.Charged(old(budget.steps), 1, report == Fine)
      ensures report == Fine || report == Failed(Limit) || (report == Failed(NoMemory) && budget.refused)
      ensures report.Failed? ==> Valid(roots) && nodes == old(nodes) && chains == old(chains)
      ensures report == Fine ==>
                && Valid(roots - Root(h) + Root(id)) && id < |nodes|
                && RootsKept(old(nodes), old(chains), nodes, chains, roots - Root(h))
                && ChainOf(chains, id) == ChainOf(old(chains), h) + [id]
                && Past(id) == old(Past(h)) + [if closed then Closed(Level(old(chains), open), pos)
                                               else Opened(key, pos)]
    {
      id := NONE;
      var ok := budget.Tick(1);
      if !ok {
        return Failed(Limit), id;
      }
      report, id := Place(budget, h, closed, key, pos, open, roots);
      if report == Fine {
        ghost var placed, freed, ids := nodes, freeHead, freeIds;
        Hand(h, roots - Root(h) + Root(id));
        TagKept(old(nodes), old(chains), old(freeHead), old(freeIds), old(order), roots, h, id,
                placed, chains, freed, ids, order, nodes, chains, freeHead, freeIds);
      }
    }
  }

  /** Placing a node and then handing a reference over leaves all other histories alone. */
  lemma {:induction false} TagKept(nodes: seq<Node>, chains: seq<seq<nat>>, head: nat, ids: seq<nat>, order: nat,
                                   roots: multiset<nat>, h: nat, id: nat, nodes1: seq<Node>, chains1: seq<seq<nat>>,
                                       head1: nat, ids1: seq<nat>, order1: nat, nodes2: seq<Node>,
                                           chains2: seq<seq<nat>>, head2: nat, ids2: seq<nat>)
    requires ArenaOk(nodes, chains, head, ids, order, roots) && id != NONE
    requires ArenaOk(nodes1, chains1, head1, ids1, order1, roots - Root(h) + Root(id))
    requires ArenaOk(nodes2, chains2, head2, ids2, order1, roots - Root(h) + Root(id))
    requires Preserved(nodes, chains, nodes1, chains1) && OnlyDies(nodes1, chains1, nodes2, chains2)
    ensures RootsKept(nodes, chains, nodes2, chains2, roots - Root(h))
    ensures ChainOf(chains2, id) == ChainOf(chains1, id) && History(nodes2, chains2, id) == History(nodes1, chains1, id)
    ensures id < |nodes2|
  {
    var now := roots - Root(h);
    var all := now + Root(id);
    PreservedRoots(nodes, chains, nodes1, chains1, roots, all, now);
    PreservedRoots(nodes1, chains1, nodes2, chains2, all, all, all);
    RootsKeptBoth(nodes, chains, nodes1, chains1, nodes2, chains2, now, all);
    assert id in all;
  }

  /** A slot was found for the node. Kept folded. */
  ghost predicate Slotted(was: seq<Node>, chained: seq<seq<nat>>, id: nat, n: Node, nodes: seq<Node>,
                          chains: seq<seq<nat>>, head: nat, ids: seq<nat>)
  {
    && id < |nodes| == |chains|
    && forall k: nat {:trigger Shown(k)} :: Shown(k) ==>
         && FreeOk(nodes[id := n], head, ids)
         && if id < |was| then was[id].refs == 0 && nodes == was && chains == chained
            else id == |was| && nodes[id := n] == was + [n] && nodes[..id] == was && chains == chained + [[]]
  }

  /** The node in its slot, with the longer chain. */
  lemma {:induction false} GraftedThere(was: seq<Node>, chained: seq<seq<nat>>, head: nat, ids: seq<nat>, order: nat,
                                        roots: multiset<nat>, h: nat, id: nat, nodes: seq<Node>, chains: seq<seq<nat>>,
                                            head': nat, ids': seq<nat>, n: Node)
    requires ArenaOk(was, chained, head, ids, order, roots) && (h == NONE || (h in roots && Live(was, h)))
    requires |nodes| < NONE
    requires Slotted(was, chained, id, n, nodes, chains, head', ids')
    requires n == Node(h, 1, NONE, n.closed, n.key, n.pos, n.open, order + 1)
    requires n.closed ==> Live(was, n.open) && n.open in ChainOf(chained, h) && !was[n.open].closed
    ensures var nodes', chains' := nodes[id := n], chains[id := ChainOf(chained, h) + [id]];
            && ArenaOk(nodes', chains', head', ids', order + 1, roots - Root(h) + Root(id))
               && Preserved(was, chained, nodes', chains')
            && ChainOf(chains', id) == ChainOf(chained, h) + [id] && (h == NONE || Live(nodes', h))
            && History(nodes', chains', id) ==
               History(was, chained, h) + [if n.closed then Closed(Level(chained, n.open), n.pos)
                                           else Opened(n.key, n.pos)]
  {
    assert Shown(0);
    PlaceOk(was, chained, head, ids, order, roots, h, id, n, nodes[id := n], chains[id := ChainOf(chained, h) + [id]],
            head', ids');
  }

  lemma {:induction false} PlaceOk(nodes: seq<Node>, chains: seq<seq<nat>>, head: nat, ids: seq<nat>, order: nat,
                                   roots: multiset<nat>, h: nat, id: nat, n: Node, nodes': seq<Node>,
                                       chains': seq<seq<nat>>, head': nat, ids': seq<nat>)
    requires ArenaOk(nodes, chains, head, ids, order, roots) && (h == NONE || h in roots) && |nodes'| < NONE
    requires Grafted(nodes, chains, h, id, n, nodes', chains') && FreeOk(nodes', head', ids') && n.order == order + 1
    ensures ArenaOk(nodes', chains', head', ids', order + 1, roots - Root(h) + Root(id))
    ensures Preserved(nodes, chains, nodes', chains') && id < |nodes'|
    ensures ChainOf(chains', id) == ChainOf(chains, h) + [id]
    ensures h == NONE || Live(nodes', h)
    ensures History(nodes', chains', id) ==
            History(nodes, chains, h) + [if n.closed then Closed(Level(chains, n.open), n.pos)
                                         else Opened(n.key, n.pos)]
  {
    GraftOk(nodes, chains, head, ids, order, roots, h, id, n, nodes', chains', head', ids');
    GraftHistory(nodes, chains, h, id, n, nodes', chains');
  }
}
