/** The one status that compiling a tree comes to: the first pass ends at the first
    node it refuses, the second, which runs backwards, at the last. */
module BreVerdict {
  import opened BreProgram
  import opened BreSyntax
  import opened BreStatus
  import opened BreLayout
  import opened BreLowerSpec
  import opened BreLowerCorrect
  import opened BreNodes
  import opened BreTotals

  /** What the caller and the pattern's length allow. */
  datatype Room = Room(code: nat, ranges: nat, limits: CompileLimits) {
    predicate Ok() {
      code < NONE && limits.Ok()
    }
  }

  /** A child of node `i` is a quantifier. */
  ghost predicate Quantified(nodes: seq<BreNode>, i: nat)
    requires i < |nodes|
  {
    exists j :: i < j < nodes[i].end && QuantifierOn(nodes, i, j)
  }

  ghost predicate QuantifierOn(nodes: seq<BreNode>, i: nat, j: nat) {
    j < |nodes| && nodes[j].parent == i && nodes[j].kind.Quantifier?
  }

  /** How many instructions a node adds to those of its children. */
  ghost function OwnSize(nodes: seq<BreNode>, i: nat): nat
    requires i < |nodes|
  {
    match nodes[i].kind
    case UnitNode(_, _, _, _, _) => 1
    case GroupNode => 2
    case PieceNode(_) => if Quantified(nodes, i) then 2 else 0
    case _ => 0
  }

  /** The instructions of the nodes from `i` on. */
  ghost function SizeFrom(nodes: seq<BreNode>, i: nat): nat
    requires i <= |nodes|
    decreases |nodes| - i
  {
    if i == |nodes| then 0 else SizeFrom(nodes, i + 1) + OwnSize(nodes, i)
  }

  /** Group `a` has ended before node `i`. */
  ghost predicate Complete(nodes: seq<BreNode>, i: nat, a: nat) {
    exists k :: 0 <= k < i && EndedGroup(nodes, i, a, k)
  }

  ghost predicate EndedGroup(nodes: seq<BreNode>, i: nat, a: nat, k: nat) {
    k < |nodes| && nodes[k].kind.GroupNode? && GroupCount(nodes, k) + 1 == a && nodes[k].end <= i
  }

  /** What the second pass says about node `i`, the later nodes being lowered. */
  ghost function NodeStatus(nodes: seq<BreNode>, room: Room, i: nat): Status
    requires i < |nodes|
  {
    var k := nodes[i].kind;
    if k.Terminal? then Ok
    else if |nodes| + EffortFrom(nodes, i) > room.limits.maxSteps then Limit
    else if !Within(room.ranges)(k) then Limit
    else if FaultOf(k) != Ok then FaultOf(k)
    else if k.UnitNode? && k.op.Ref? && !Complete(nodes, i, k.a) then BadPattern
    else if OwnSize(nodes, i) > 0 && SizeFrom(nodes, i) > room.code then Limit
    else Ok
  }

  /** The second pass over the nodes from `end - 1` down to `at`: it ends at the last node that is refused. */
  ghost function LastFault(nodes: seq<BreNode>, room: Room, at: nat, end: nat): Status
    requires end <= |nodes|
    decreases end - at
  {
    if at >= end then Ok
    else
      var later := LastFault(nodes, room, at + 1, end);
      if later != Ok then later else NodeStatus(nodes, room, at)
  }

  /** Both passes and the final instruction. */
  ghost function Verdict(nodes: seq<BreNode>, room: Room): Status {
    if Survey(nodes, room.limits, 0) != Ok then Survey(nodes, room.limits, 0)
    else if LastFault(nodes, room, 0, |nodes|) != Ok then LastFault(nodes, room, 0, |nodes|)
    else if SizeFrom(nodes, 0) >= room.code then Limit
    else Ok
  }

  /** The status of compiling a tree. */
  ghost function StatusOf(s: Syntax, room: Room): Status {
    Verdict(Flatten(s, 0, -1), room)
  }

  // ---------- group numbers play no part ----------

  lemma {:induction false} QuantifiedSame(nodes: seq<BreNode>, nodes': seq<BreNode>, i: nat)
    requires Alike(nodes, nodes') && i < |nodes|
    ensures Quantified(nodes', i) == Quantified(nodes, i)
  {
    if Quantified(nodes, i) {
      var j :| i < j < nodes[i].end && QuantifierOn(nodes, i, j);
      assert QuantifierOn(nodes', i, j);
    }
    if Quantified(nodes', i) {
      var j :| i < j < nodes'[i].end && QuantifierOn(nodes', i, j);
      assert QuantifierOn(nodes, i, j);
    }
  }

  lemma {:induction false} SizeSame(nodes: seq<BreNode>, nodes': seq<BreNode>, i: nat)
    requires Alike(nodes, nodes') && i <= |nodes|
    ensures SizeFrom(nodes', i) == SizeFrom(nodes, i)
    decreases |nodes| - i
  {
    if i < |nodes| {
      QuantifiedSame(nodes, nodes', i);
      SizeSame(nodes, nodes', i + 1);
    }
  }

  lemma {:induction false} CompleteSame(nodes: seq<BreNode>, nodes': seq<BreNode>, i: nat, a: nat)
    requires Alike(nodes, nodes') && Complete(nodes, i, a)
    ensures Complete(nodes', i, a)
  {
    var k :| 0 <= k < i && EndedGroup(nodes, i, a, k);
    GroupCountSame(nodes, nodes', k);
    assert EndedGroup(nodes', i, a, k);
  }

  lemma {:induction false} StatusSame(nodes: seq<BreNode>, nodes': seq<BreNode>, room: Room, i: nat)
    requires Alike(nodes, nodes') && i < |nodes|
    ensures NodeStatus(nodes', room, i) == NodeStatus(nodes, room, i)
  {
    EffortLike(nodes, nodes', i);
    SizeSame(nodes, nodes', i);
    QuantifiedSame(nodes, nodes', i);
    var k := nodes[i].kind;
    if k.UnitNode? {
      if Complete(nodes, i, k.a) {
        CompleteSame(nodes, nodes', i, k.a);
      } else if Complete(nodes', i, k.a) {
        CompleteSame(nodes', nodes, i, k.a);
      }
    }
  }

  lemma {:induction false} LastFaultSame(nodes: seq<BreNode>, nodes': seq<BreNode>, room: Room, at: nat, end: nat)
    requires Alike(nodes, nodes') && end <= |nodes|
    ensures LastFault(nodes', room, at, end) == LastFault(nodes, room, at, end)
    decreases end - at
  {
    if at < end {
      LastFaultSame(nodes, nodes', room, at + 1, end);
      StatusSame(nodes, nodes', room, at);
    }
  }

  lemma {:induction false} SurveySame(nodes: seq<BreNode>, nodes': seq<BreNode>, limits: CompileLimits, i: nat)
    requires Alike(nodes, nodes') && i <= |nodes|
    ensures Survey(nodes', limits, i) == Survey(nodes, limits, i)
    decreases |nodes| - i
  {
    if i < |nodes| {
      GroupCountSame(nodes, nodes', i);
      DepthSame(nodes, nodes', i);
      SurveySame(nodes, nodes', limits, i + 1);
    }
  }

  lemma {:induction false} VerdictSame(nodes: seq<BreNode>, nodes': seq<BreNode>, room: Room)
    requires Alike(nodes, nodes')
    ensures Verdict(nodes', room) == Verdict(nodes, room)
  {
    SurveySame(nodes, nodes', room.limits, 0);
    LastFaultSame(nodes, nodes', room, 0, |nodes|);
    SizeSame(nodes, nodes', 0);
  }

  // ---------- sizes ----------

  lemma {:induction false} SizeGrows(nodes: seq<BreNode>, i: nat)
    requires i <= |nodes|
    ensures SizeFrom(nodes, i) <= SizeFrom(nodes, 0)
    decreases i
  {
    if i > 0 {
      SizeGrows(nodes, i - 1);
    }
  }

  /** Parents of a tree's inner nodes are inside the tree. */
  lemma {:induction false} ParentsInside(nodes: seq<BreNode>, s: Syntax, at: nat, parent: int, g: nat, k: nat)
    requires Mirrors(nodes, s, at, parent, g) && at < k < at + NodeCount(s)
    ensures nodes[k].parent >= at
    decreases s
  {
    ParentsInsideForest(nodes, s.kids, at + 1, at, InnerGroups(s, g), k);
  }

  lemma {:induction false} ParentsInsideForest(nodes: seq<BreNode>, ns: Nodes, at: nat, parent: int, g: nat, k: nat)
    requires MirrorsAll(nodes, ns, at, parent, g) && at <= k < at + NodeCounts(ns)
    ensures nodes[k].parent == parent || nodes[k].parent >= at
    decreases ns
  {
    var mid := at + NodeCount(ns.head);
    if at < k < mid {
      ParentsInside(nodes, ns.head, at, parent, g, k);
    } else if mid <= k {
      ParentsInsideForest(nodes, ns.tail, mid, parent, g + Groups(ns.head), k);
    }
  }

  ghost predicate QuantifiedIn(nodes: seq<BreNode>, i: nat, at: nat, end: nat) {
    exists j :: at <= j < end && QuantifierOn(nodes, i, j)
  }

  lemma {:induction false} QuantifiedForest(nodes: seq<BreNode>, ns: Nodes, at: nat, i: nat, g: nat)
    requires MirrorsAll(nodes, ns, at, i, g) && i < at
    ensures QuantifiedIn(nodes, i, at, at + NodeCounts(ns)) <==> QuantifierOf(ns).Quantifier?
    decreases ns
  {
    if ns.More? {
      var mid := at + NodeCount(ns.head);
      QuantifiedForest(nodes, ns.tail, mid, i, g + Groups(ns.head));
      forall j | at < j < mid
        ensures nodes[j].parent != i
      {
        ParentsInside(nodes, ns.head, at, i, g, j);
      }
      if ns.head.kind.Quantifier? {
        assert QuantifierOn(nodes, i, at);
      }
      if QuantifiedIn(nodes, i, mid, at + NodeCounts(ns)) {
        var j :| mid <= j < at + NodeCounts(ns) && QuantifierOn(nodes, i, j);
        assert QuantifierOn(nodes, i, j);
      }
    }
  }

  lemma {:induction false} QuantifiedTree(nodes: seq<BreNode>, s: Syntax, at: nat, parent: int, g: nat)
    requires Mirrors(nodes, s, at, parent, g)
    ensures Quantified(nodes, at) <==> QuantifierOf(s.kids).Quantifier?
  {
    QuantifiedForest(nodes, s.kids, at + 1, at, InnerGroups(s, g));
    if Quantified(nodes, at) {
      var j :| at < j < nodes[at].end && QuantifierOn(nodes, at, j);
      assert QuantifiedIn(nodes, at, at + 1, at + 1 + NodeCounts(s.kids));
    }
    if QuantifiedIn(nodes, at, at + 1, at + 1 + NodeCounts(s.kids)) {
      var j :| at + 1 <= j < at + 1 + NodeCounts(s.kids) && QuantifierOn(nodes, at, j);
      assert QuantifierOn(nodes, at, j);
    }
  }

  /** The nodes of a tree have the size of its code. */
  lemma {:induction false} SizeTree(nodes: seq<BreNode>, s: Syntax, at: nat, parent: int, g: nat)
    requires Mirrors(nodes, s, at, parent, g) && ShapeOk(s)
    ensures SizeFrom(nodes, at) == CodeSize(Elaborate(s, at, g)) + SizeFrom(nodes, at + NodeCount(s))
    decreases s
  {
    SizeForest(nodes, s.kids, at + 1, at, InnerGroups(s, g));
    QuantifiedTree(nodes, s, at, parent, g);
    if s.kind.UnitNode? {
      InertHasNoCode(s.kids, at + 1, g);
    }
  }

  lemma {:induction false} SizeForest(nodes: seq<BreNode>, ns: Nodes, at: nat, parent: int, g: nat)
    requires MirrorsAll(nodes, ns, at, parent, g) && ShapesOk(ns)
    ensures SizeFrom(nodes, at) == CodeSizes(ElaborateAll(ns, at, g)) + SizeFrom(nodes, at + NodeCounts(ns))
    decreases ns
  {
    if ns.More? {
      SizeTree(nodes, ns.head, at, parent, g);
      SizeForest(nodes, ns.tail, at + NodeCount(ns.head), parent, g + Groups(ns.head));
    }
  }

  // ---------- references ----------

  /** Looking a group up by its number finds the group that has ended, if there is one. */
  lemma {:induction false} CompleteIs(env: Env, nodes: seq<BreNode>, i: nat, a: nat)
    requires EnvOk(env, nodes) && RangesOk(nodes) && i < |nodes|
    ensures ReferenceOk(env, nodes, i, a) <==> Complete(nodes, i, a)
  {
    if ReferenceOk(env, nodes, i, a) {
      assert EndedGroup(nodes, i, a, env.positions[a]);
    }
    if Complete(nodes, i, a) {
      var k :| 0 <= k < i && EndedGroup(nodes, i, a, k);
      GroupCountGrows(nodes, k + 1, |nodes|);
      PlaceUnique(nodes, k, env.positions[a]);
    }
  }

  lemma {:induction false} PlaceUnique(nodes: seq<BreNode>, x: nat, y: nat)
    requires x < |nodes| && y < |nodes| && nodes[x].kind.GroupNode? && nodes[y].kind.GroupNode?
    requires GroupCount(nodes, x) == GroupCount(nodes, y)
    ensures x == y
  {
    if x < y {
      GroupCountGrows(nodes, x + 1, y);
    } else if y < x {
      GroupCountGrows(nodes, y + 1, x);
    }
  }

  /** The node of the k-th group among the first `i` nodes. */
  ghost function PlaceOf(nodes: seq<BreNode>, i: nat, k: nat): (r: nat)
    requires i <= |nodes| && 1 <= k <= GroupCount(nodes, i)
    ensures r < i && nodes[r].kind.GroupNode? && GroupCount(nodes, r) == k - 1
  {
    if GroupCount(nodes, i - 1) >= k then PlaceOf(nodes, i - 1, k) else i - 1
  }

  /** The groups of any node array can be listed. */
  lemma {:induction false} PlacesExist(nodes: seq<BreNode>) returns (env: Env)
    ensures EnvOk(env, nodes)
  {
    var groups := GroupCount(nodes, |nodes|);
    var positions := seq(groups + 1, k requires 0 <= k <= groups => if k == 0 then 0 else PlaceOf(nodes, |nodes|, k));
    env := Env(groups, positions, 0, 0, 0);
  }

  // ---------- what the passes say ----------

  lemma {:induction false} LastFaultSplit(nodes: seq<BreNode>, room: Room, at: nat, mid: nat, end: nat)
    requires at <= mid <= end <= |nodes|
    ensures LastFault(nodes, room, at, end) == if LastFault(nodes, room, mid, end) != Ok
            then LastFault(nodes, room, mid, end) else LastFault(nodes, room, at, mid)
    decreases mid - at
  {
    if at < mid {
      LastFaultSplit(nodes, room, at + 1, mid, end);
    }
  }

  /** A fault is that of one node. */
  lemma {:induction false} FaultSomewhere(nodes: seq<BreNode>, room: Room, at: nat, end: nat) returns (i: nat)
    requires end <= |nodes| && LastFault(nodes, room, at, end) != Ok
    ensures at <= i < end && NodeStatus(nodes, room, i) == LastFault(nodes, room, at, end)
    decreases end - at
  {
    if LastFault(nodes, room, at + 1, end) != Ok {
      i := FaultSomewhere(nodes, room, at + 1, end);
    } else {
      i := at;
    }
  }

  /** Without a fault every node is accepted. */
  lemma {:induction false} FaultNowhere(nodes: seq<BreNode>, room: Room, at: nat, end: nat)
    requires end <= |nodes| && LastFault(nodes, room, at, end) == Ok
    ensures forall i :: at <= i < end ==> NodeStatus(nodes, room, i) == Ok
    decreases end - at
  {
    if at < end {
      FaultNowhere(nodes, room, at + 1, end);
    }
  }

  /** The work of accepted nodes stays within the limit. */
  lemma {:induction false} FaultlessWork(nodes: seq<BreNode>, room: Room, at: nat)
    requires at <= |nodes| <= room.limits.maxSteps && LastFault(nodes, room, at, |nodes|) == Ok
    ensures |nodes| + EffortFrom(nodes, at) <= room.limits.maxSteps
    decreases |nodes| - at
  {
    if at < |nodes| {
      FaultlessWork(nodes, room, at + 1);
    }
  }

  /** The first pass accepts when there are not too many nodes, groups or levels and everything is supported. */
  lemma {:induction false} SurveyOk(nodes: seq<BreNode>, limits: CompileLimits, i: nat)
    requires i <= |nodes| && Survey(nodes, limits, i) == Ok && i <= limits.maxSteps
    requires GroupCount(nodes, i) <= limits.maxCaptures && MaxDepth(nodes, i) <= limits.maxParseDepth
    ensures !TooMuch(nodes, limits) && forall k :: i <= k < |nodes| ==> !nodes[k].kind.UnsupportedNode?
    decreases |nodes| - i
  {
    if i < |nodes| {
      SurveyOk(nodes, limits, i + 1);
    }
  }

  lemma {:induction false} SurveyFails(nodes: seq<BreNode>, limits: CompileLimits, i: nat)
    requires i <= |nodes| && Survey(nodes, limits, i) != Ok
    ensures var status := Survey(nodes, limits, i);
            || (status == Unsupported && !AllSupported(nodes))
            || (status == Limit && TooMuch(nodes, limits))
    decreases |nodes| - i
  {
    if NodeSurvey(nodes, limits, i) == Ok {
      SurveyFails(nodes, limits, i + 1);
    } else if nodes[i].kind.GroupNode? {
      GroupCountGrows(nodes, i + 1, |nodes|);
      MaxDepthGrows(nodes, i + 1, |nodes|);
    }
  }
}
