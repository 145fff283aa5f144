/** What the node array says about its tree: how many groups and rules there are,
    how deep groups nest, and which references are legal. */
module BreTotals {
  import opened Folding
  import opened BreSyntax
  import opened BreLowerSpec
  import opened BreLowerCorrect
  import opened BreLowerBounds
  import opened BreNodes

  /** The same nodes, apart from group numbers. */
  ghost predicate Alike(nodes: seq<BreNode>, nodes': seq<BreNode>) {
    |nodes| == |nodes'| && forall k :: 0 <= k < |nodes| ==>
        nodes'[k].kind == nodes[k].kind && nodes'[k].parent == nodes[k].parent && nodes'[k].end == nodes[k].end
  }

  lemma {:induction false} DepthSame(nodes: seq<BreNode>, nodes': seq<BreNode>, i: int)
    requires Alike(nodes, nodes')
    ensures DepthAt(nodes', i) == DepthAt(nodes, i)
    decreases i
  {
    if 0 <= i < |nodes| && nodes[i].parent < i {
      DepthSame(nodes, nodes', nodes[i].parent);
    }
  }

  lemma {:induction false} MaxDepthSame(nodes: seq<BreNode>, nodes': seq<BreNode>, i: nat)
    requires Alike(nodes, nodes') && i <= |nodes|
    ensures MaxDepth(nodes', i) == MaxDepth(nodes, i)
  {
    if i > 0 {
      MaxDepthSame(nodes, nodes', i - 1);
      DepthSame(nodes, nodes', i - 1);
    }
  }

  // ---------- totals ----------

  /** The deeper of what came before and the groups of a tree below `outer` others. */
  function Deeper(before: nat, outer: nat, depth: nat): nat {
    Larger(before, if depth == 0 then 0 else outer + depth)
  }

  lemma {:induction false} MaxDepthTree(nodes: seq<BreNode>, s: Syntax, at: nat, parent: int, g: nat)
    requires Mirrors(nodes, s, at, parent, g) && -1 <= parent < at
    ensures MaxDepth(nodes, at + NodeCount(s)) == Deeper(MaxDepth(nodes, at), DepthAt(nodes, parent), GroupDepth(s))
    decreases s
  {
    assert DepthAt(nodes, at) == (if s.kind.GroupNode? then 1 else 0) + DepthAt(nodes, parent);
    MaxDepthForest(nodes, s.kids, at + 1, at, if s.kind.GroupNode? then g + 1 else g);
  }

  lemma {:induction false} MaxDepthForest(nodes: seq<BreNode>, ns: Nodes, at: nat, parent: int, g: nat)
    requires MirrorsAll(nodes, ns, at, parent, g) && -1 <= parent < at
    ensures MaxDepth(nodes, at + NodeCounts(ns)) == Deeper(MaxDepth(nodes, at), DepthAt(nodes, parent), GroupDepths(ns))
    decreases ns
  {
    if ns.More? {
      MaxDepthTree(nodes, ns.head, at, parent, g);
      MaxDepthForest(nodes, ns.tail, at + NodeCount(ns.head), parent, g + Groups(ns.head));
    }
  }

  lemma {:induction false} EffortTree(nodes: seq<BreNode>, s: Syntax, at: nat, parent: int, g: nat)
    requires Mirrors(nodes, s, at, parent, g)
    ensures EffortFrom(nodes, at) == Effort(s) + EffortFrom(nodes, at + NodeCount(s))
    decreases s
  {
    EffortForest(nodes, s.kids, at + 1, at, if s.kind.GroupNode? then g + 1 else g);
  }

  lemma {:induction false} EffortForest(nodes: seq<BreNode>, ns: Nodes, at: nat, parent: int, g: nat)
    requires MirrorsAll(nodes, ns, at, parent, g)
    ensures EffortFrom(nodes, at) == EffortAll(ns) + EffortFrom(nodes, at + NodeCounts(ns))
    decreases ns
  {
    if ns.More? {
      EffortTree(nodes, ns.head, at, parent, g);
      EffortForest(nodes, ns.tail, at + NodeCount(ns.head), parent, g + Groups(ns.head));
    }
  }

  ghost predicate SupportedIn(nodes: seq<BreNode>, at: nat, end: nat) {
    end <= |nodes| && forall k :: at <= k < end ==> !nodes[k].kind.UnsupportedNode?
  }

  lemma {:induction false} SupportedTree(nodes: seq<BreNode>, s: Syntax, at: nat, parent: int, g: nat)
    requires Mirrors(nodes, s, at, parent, g)
    ensures Supported(s) <==> SupportedIn(nodes, at, at + NodeCount(s))
    decreases s
  {
    SupportedForest(nodes, s.kids, at + 1, at, if s.kind.GroupNode? then g + 1 else g);
  }

  lemma {:induction false} SupportedForest(nodes: seq<BreNode>, ns: Nodes, at: nat, parent: int, g: nat)
    requires MirrorsAll(nodes, ns, at, parent, g)
    ensures SupportedAll(ns) <==> SupportedIn(nodes, at, at + NodeCounts(ns))
    decreases ns
  {
    if ns.More? {
      SupportedTree(nodes, ns.head, at, parent, g);
      SupportedForest(nodes, ns.tail, at + NodeCount(ns.head), parent, g + Groups(ns.head));
    }
  }

  /** Every one of the nodes is of the sort. Kept folded. */
  ghost predicate EveryIn(nodes: seq<BreNode>, at: nat, end: nat, p: Trait) {
    end <= |nodes| && forall z: nat {:trigger Shown(z)} :: Shown(z) ==> forall k :: at <= k < end ==> p(nodes[k].kind)
  }

  lemma {:induction false} EveryTree(nodes: seq<BreNode>, s: Syntax, at: nat, parent: int, g: nat, p: Trait)
    requires Mirrors(nodes, s, at, parent, g)
    ensures Every(s, p) <==> EveryIn(nodes, at, at + NodeCount(s), p)
    decreases s
  {
    EveryForest(nodes, s.kids, at + 1, at, if s.kind.GroupNode? then g + 1 else g, p);
    EveryParts(nodes, at, at + 1, at + NodeCount(s), p);
    EveryOne(nodes, at, p);
  }

  lemma {:induction false} EveryForest(nodes: seq<BreNode>, ns: Nodes, at: nat, parent: int, g: nat, p: Trait)
    requires MirrorsAll(nodes, ns, at, parent, g)
    ensures EveryAll(ns, p) <==> EveryIn(nodes, at, at + NodeCounts(ns), p)
    decreases ns
  {
    if ns.More? {
      EveryTree(nodes, ns.head, at, parent, g, p);
      EveryForest(nodes, ns.tail, at + NodeCount(ns.head), parent, g + Groups(ns.head), p);
      EveryParts(nodes, at, at + NodeCount(ns.head), at + NodeCounts(ns), p);
    }
  }

  lemma {:induction false} EveryOne(nodes: seq<BreNode>, at: nat, p: Trait)
    requires at < |nodes|
    ensures EveryIn(nodes, at, at + 1, p) <==> p(nodes[at].kind)
  {
    assert Shown(0);
  }

  lemma {:induction false} EveryParts(nodes: seq<BreNode>, at: nat, mid: nat, end: nat, p: Trait)
    requires at <= mid <= end
    ensures EveryIn(nodes, at, end, p) <==> EveryIn(nodes, at, mid, p) && EveryIn(nodes, mid, end, p)
  {
    assert Shown(0);
  }

  // ---------- references ----------

  /** No range starting inside a tree's leaves it. */
  lemma {:induction false} EndsInside(nodes: seq<BreNode>, s: Syntax, at: nat, parent: int, g: nat, k: nat)
    requires Mirrors(nodes, s, at, parent, g) && at <= k < at + NodeCount(s)
    ensures nodes[k].end <= at + NodeCount(s)
    decreases s
  {
    if k > at {
      EndsInsideForest(nodes, s.kids, at + 1, at, if s.kind.GroupNode? then g + 1 else g, k);
    }
  }

  lemma {:induction false} EndsInsideForest(nodes: seq<BreNode>, ns: Nodes, at: nat, parent: int, g: nat, k: nat)
    requires MirrorsAll(nodes, ns, at, parent, g) && at <= k < at + NodeCounts(ns)
    ensures nodes[k].end <= at + NodeCounts(ns)
    decreases ns
  {
    var mid := at + NodeCount(ns.head);
    if k < mid {
      EndsInside(nodes, ns.head, at, parent, g, k);
    } else {
      EndsInsideForest(nodes, ns.tail, mid, parent, g + Groups(ns.head), k);
    }
  }

  /** Of the groups numbered before `at`, those in `open` reach to `end` and the others have ended. */
  ghost predicate Standing(env: Env, nodes: seq<BreNode>, at: nat, end: nat, g: nat, open: set<nat>) {
    && EnvOk(env, nodes) && at <= |nodes| && g == GroupCount(nodes, at)
    && forall k :: 1 <= k <= env.groups ==>
         && (k <= g && k !in open ==> nodes[env.positions[k]].end <= at)
         && (k in open ==> nodes[env.positions[k]].end >= end)
  }

  /** Groups are placed in order. */
  lemma {:induction false} PlaceOrder(env: Env, nodes: seq<BreNode>, at: nat, k: nat)
    requires EnvOk(env, nodes) && at <= |nodes| && 1 <= k <= env.groups
    ensures k <= GroupCount(nodes, at) <==> env.positions[k] < at
  {
    var x := env.positions[k];
    if x < at {
      GroupCountGrows(nodes, x + 1, at);
    } else {
      GroupCountGrows(nodes, at, x);
    }
  }

  lemma {:induction false} StandingInside(env: Env, nodes: seq<BreNode>, s: Syntax, at: nat, parent: int, g: nat,
                                          open: set<nat>)
    requires Mirrors(nodes, s, at, parent, g) && Standing(env, nodes, at, at + NodeCount(s), g, open)
    ensures Standing(env, nodes, at + 1, at + NodeCount(s), InnerGroups(s, g), if s.kind.GroupNode? then open + {g + 1}
                     else open)
  {
    forall k | 1 <= k <= env.groups
      ensures k == g + 1 && s.kind.GroupNode? ==> env.positions[k] == at
    {
      PlaceOrder(env, nodes, at, k);
      PlaceOrder(env, nodes, at + 1, k);
    }
  }

  lemma {:induction false} StandingAfter(env: Env, nodes: seq<BreNode>, s: Syntax, at: nat, end: nat, parent: int,
                                         g: nat, open: set<nat>)
    requires Mirrors(nodes, s, at, parent, g) && Standing(env, nodes, at, end, g, open) && at + NodeCount(s) <= end
    ensures Standing(env, nodes, at + NodeCount(s), end, g + Groups(s), open)
  {
    var mid := at + NodeCount(s);
    GroupCountTree(nodes, s, at, parent, g);
    forall k | 1 <= k <= env.groups && g < k <= g + Groups(s)
      ensures nodes[env.positions[k]].end <= mid
    {
      PlaceOrder(env, nodes, at, k);
      PlaceOrder(env, nodes, mid, k);
      EndsInside(nodes, s, at, parent, g, env.positions[k]);
    }
  }

  ghost predicate RefsOkIn(env: Env, nodes: seq<BreNode>, at: nat, end: nat)
    requires |env.positions| > env.groups
  {
    end <= |nodes| && forall i :: at <= i < end && nodes[i].kind.UnitNode? && nodes[i].kind.op.Ref? ==>
                        ReferenceOk(env, nodes, i, nodes[i].kind.a)
  }

  /** A reference is accepted exactly when its group is complete. */
  lemma {:induction false} RefMatches(env: Env, nodes: seq<BreNode>, at: nat, end: nat, g: nat, open: set<nat>, a: nat)
    requires RangesOk(nodes) && Standing(env, nodes, at, end, g, open) && at < end
    ensures ReferenceOk(env, nodes, at, a) <==> 1 <= a <= g && a !in open
  {
    GroupCountGrows(nodes, at, |nodes|);
    if 1 <= a <= env.groups {
      PlaceOrder(env, nodes, at, a);
    }
  }

  lemma {:induction false} RefsTree(env: Env, nodes: seq<BreNode>, s: Syntax, at: nat, parent: int, g: nat,
                                    open: set<nat>)
    requires RangesOk(nodes) && Mirrors(nodes, s, at, parent, g) && Standing(env, nodes, at, at + NodeCount(s), g, open)
    ensures RefsClosed(s, g, open) <==> RefsOkIn(env, nodes, at, at + NodeCount(s))
    decreases s
  {
    StandingInside(env, nodes, s, at, parent, g, open);
    if s.kind.UnitNode? {
      RefMatches(env, nodes, at, at + NodeCount(s), g, open, s.kind.a);
    }
    RefsForest(env, nodes, s.kids, at + 1, at, InnerGroups(s, g), if s.kind.GroupNode? then open + {g + 1} else open);
    assert RefsOkIn(env, nodes, at, at + NodeCount(s)) <==>
           (s.kind.UnitNode? && s.kind.op.Ref? ==> ReferenceOk(env, nodes, at, s.kind.a))
               && RefsOkIn(env, nodes, at + 1, at + NodeCount(s));
  }

  lemma {:induction false} RefsForest(env: Env, nodes: seq<BreNode>, ns: Nodes, at: nat, parent: int, g: nat,
                                      open: set<nat>)
    requires RangesOk(nodes) && MirrorsAll(nodes, ns, at, parent, g)
    requires Standing(env, nodes, at, at + NodeCounts(ns), g, open)
    ensures RefsClosedAll(ns, g, open) <==> RefsOkIn(env, nodes, at, at + NodeCounts(ns))
    decreases ns
  {
    if ns.More? {
      var mid := at + NodeCount(ns.head);
      var end := at + NodeCounts(ns);
      StandingAfter(env, nodes, ns.head, at, end, parent, g, open);
      RefsTree(env, nodes, ns.head, at, parent, g, open);
      RefsForest(env, nodes, ns.tail, mid, parent, g + Groups(ns.head), open);
      assert RefsOkIn(env, nodes, at, end) <==> RefsOkIn(env, nodes, at, mid) && RefsOkIn(env, nodes, mid, end);
    }
  }
}
