/** The node array as lowering sees it: what never changes, what the first pass
    records, and what a node says about the code emitted so far. */
module BreNodes {
  import opened Folding
  import opened BreProgram
  import opened BreSyntax
  import opened BreStatus
  import opened BreLowerSpec
  import opened BreLowerCorrect
  import opened BreLowerBounds
  import opened BreOperands
  import BreGrammar

  /** Caller limits that lowering checks. */
  datatype CompileLimits = CompileLimits(maxCaptures: nat, maxParseDepth: nat, maxSteps: nat) {
    predicate Ok() {
      maxCaptures < SLOTS && maxParseDepth < SLOTS
    }
  }

  /** The kinds that decoding gives the nodes. */
  ghost predicate KindsOf(d: Source, kinds: seq<Kind>) {
    d.Ok() && |kinds| == |d.nodes| && forall k: nat {:trigger kinds[k]} :: k < |kinds| ==> IsKind(d, k, kinds[k])
  }

  /** A node of the parse, with a role in place of its kind. */
  ghost predicate RoughNode(d: Source, kinds: seq<Kind>, k: nat, n: BreNode)
    requires k < |kinds| == |d.nodes|
  {
    && SameSort(n.kind, kinds[k]) && n.end == d.nodes[k].end && n.parent == d.nodes[k].parent
    && (n.kind.Quantifier? <==> d.Is(k, BreGrammar.QUANTIFIER)) && (kinds[k].UnitNode? ==> IsUnit(kinds[k].op))
       && k < n.end <= |kinds| && -1 <= n.parent < k
  }

  /** The nodes of the parse with their roles: what never changes in the array.
      The statement is kept folded until `SettledAt` is asked for a node. */
  ghost predicate Settled(d: Source, kinds: seq<Kind>, nodes: seq<BreNode>) {
    && |nodes| == |kinds| == |d.nodes|
    && forall z: nat {:trigger Shown(z)} :: Shown(z) ==>
         KindsOf(d, kinds) && forall k: nat {:trigger RoughNode(d, kinds, k, nodes[k])} :: k < |nodes| ==>
                                RoughNode(d, kinds, k, nodes[k])
  }

  lemma {:induction false} SettledAt(d: Source, kinds: seq<Kind>, nodes: seq<BreNode>, i: nat)
    requires Settled(d, kinds, nodes) && i < |nodes|
    ensures RoughNode(d, kinds, i, nodes[i]) && d.Ok() && IsKind(d, i, kinds[i])
  {
    assert Shown(0);
  }

  lemma {:induction false} SettledUpdate(d: Source, kinds: seq<Kind>, nodes: seq<BreNode>, i: nat, n: BreNode)
    requires Settled(d, kinds, nodes) && i < |nodes|
    requires n.kind == nodes[i].kind && n.end == nodes[i].end && n.parent == nodes[i].parent
    ensures Settled(d, kinds, nodes[i := n])
  {
    assert Shown(0);
    var nodes' := nodes[i := n];
    forall k: nat {:trigger RoughNode(d, kinds, k, nodes'[k])} | k < |nodes|
      ensures RoughNode(d, kinds, k, nodes'[k])
    {
      assert RoughNode(d, kinds, k, nodes[k]);
    }
  }

  lemma {:induction false} SettledRanges(d: Source, kinds: seq<Kind>, nodes: seq<BreNode>)
    requires Settled(d, kinds, nodes)
    ensures RangesOk(Dressed(nodes, kinds)) && ParentsOk(Dressed(nodes, kinds))
  {
    var r := Dressed(nodes, kinds);
    forall k | 0 <= k < |nodes|
      ensures k < r[k].end <= |nodes| && -1 <= r[k].parent < k
    {
      SettledAt(d, kinds, nodes, k);
    }
  }

  /** The nodes with their kinds in place of roles. */
  ghost function Dressed(nodes: seq<BreNode>, kinds: seq<Kind>): (r: seq<BreNode>)
    requires |nodes| == |kinds|
    ensures |r| == |nodes| && forall k :: 0 <= k < |r| ==> r[k] == nodes[k].(kind := kinds[k])
  {
    seq(|nodes|, k requires 0 <= k < |nodes| => nodes[k].(kind := kinds[k]))
  }

  lemma {:induction false} DressedUpdate(nodes: seq<BreNode>, kinds: seq<Kind>, i: nat, n: BreNode)
    requires |nodes| == |kinds| && i < |nodes|
    ensures Dressed(nodes[i := n], kinds) == Dressed(nodes, kinds)[i := n.(kind := kinds[i])]
  {
  }

  /** A parse with its kinds, before anything is numbered or lowered. */
  ghost predicate Parsed(d: Source, kinds: seq<Kind>, source: seq<BreNode>) {
    && KindsOf(d, kinds) && |source| == |kinds|
    && forall k :: 0 <= k < |source| ==>
         source[k] == BreNode(kinds[k], d.nodes[k].end, d.nodes[k].parent, NONE, NONE, 0)
  }

  /** Groups a node is inside of, counting itself when it is one. */
  ghost function DepthAt(nodes: seq<BreNode>, i: int): nat
    decreases i
  {
    if i < 0 || i >= |nodes| then 0
    else
      (if nodes[i].kind.GroupNode? then 1 else 0) +
      (if nodes[i].parent < i then DepthAt(nodes, nodes[i].parent) else 0)
  }

  /** The deepest group among the first `i` nodes. */
  ghost function MaxDepth(nodes: seq<BreNode>, i: nat): nat
    requires i <= |nodes|
  {
    if i == 0 then 0
    else if nodes[i - 1].kind.GroupNode? && DepthAt(nodes, i - 1) > MaxDepth(nodes, i - 1) then DepthAt(nodes, i - 1)
    else MaxDepth(nodes, i - 1)
  }

  lemma {:induction false} MaxDepthGrows(nodes: seq<BreNode>, i: nat, j: nat)
    requires i <= j <= |nodes|
    ensures MaxDepth(nodes, i) <= MaxDepth(nodes, j)
    decreases j
  {
    if i < j {
      MaxDepthGrows(nodes, i, j - 1);
    }
  }

  /** More nodes, groups or nesting than the limits of the first pass allow. */
  ghost predicate TooMuch(nodes: seq<BreNode>, limits: CompileLimits) {
    limits.maxSteps < |nodes| || GroupCount(nodes, |nodes|) > limits.maxCaptures
        || MaxDepth(nodes, |nodes|) > limits.maxParseDepth
  }

  /** What the first pass says about node `i`. */
  ghost function NodeSurvey(nodes: seq<BreNode>, limits: CompileLimits, i: nat): Status
    requires i < |nodes|
  {
    if i >= limits.maxSteps then Limit
    else if nodes[i].kind.UnsupportedNode? then Unsupported
    else if !nodes[i].kind.GroupNode? then Ok
    else if GroupCount(nodes, i) >= limits.maxCaptures || DepthAt(nodes, i) > limits.maxParseDepth then Limit
    else Ok
  }

  /** The first pass from node `i` on: it ends at the first node that is refused. */
  ghost function Survey(nodes: seq<BreNode>, limits: CompileLimits, i: nat): Status
    requires i <= |nodes|
    decreases |nodes| - i
  {
    if i == |nodes| then Ok
    else if NodeSurvey(nodes, limits, i) != Ok then NodeSurvey(nodes, limits, i)
    else Survey(nodes, limits, i + 1)
  }

  ghost predicate AllSupported(nodes: seq<BreNode>) {
    forall k :: 0 <= k < |nodes| ==> !nodes[k].kind.UnsupportedNode?
  }

  /** The array is the source, apart from group numbers. */
  ghost predicate Unnumbered(source: seq<BreNode>, nodes: seq<BreNode>) {
    |nodes| == |source| && forall k :: 0 <= k < |source| ==> nodes[k] == source[k].(group := nodes[k].group)
  }

  /** The groups among the first `i` nodes carry their numbers. */
  ghost predicate GroupsSet(source: seq<BreNode>, nodes: seq<BreNode>, i: nat) {
    && Unnumbered(source, nodes) && i <= |source|
    && forall k :: 0 <= k < i && source[k].kind.GroupNode? ==> nodes[k].group == GroupCount(source, k) + 1
  }

  /** `positions` holds the nodes of the first `groups` groups. */
  ghost predicate PlacesOf(source: seq<BreNode>, i: nat, groups: nat, positions: seq<nat>) {
    && i <= |source| && groups < |positions|
    && forall k :: 1 <= k <= groups ==>
        positions[k] < i && source[positions[k]].kind.GroupNode?
        && GroupCount(source, positions[k]) == k - 1
  }

  lemma {:induction false} RoughAtFirst(d: Source, kinds: seq<Kind>, nodes: seq<BreNode>)
    requires KindsOf(d, kinds) && |nodes| == |d.nodes|
    requires forall k :: 0 <= k < |d.nodes| ==> -1 <= d.nodes[k].parent < k
    requires forall k :: 0 <= k < |nodes| ==>
               nodes[k] == BreNode(BlankAt(d, k), d.nodes[k].end, d.nodes[k].parent, NONE, NONE, 0)
    ensures Settled(d, kinds, nodes) && Parsed(d, kinds, Dressed(nodes, kinds))
  {
    forall k: nat | k < |nodes|
      ensures RoughNode(d, kinds, k, nodes[k])
    {
      SameSorts(d, k);
      assert Shown(0) && IsKind(d, k, kinds[k]);
    }
  }

  ghost predicate ParentsOk(nodes: seq<BreNode>) {
    forall i :: 0 <= i < |nodes| ==> -1 <= nodes[i].parent < i
  }

  // ---------- the first pass ----------

  /** The first `i` nodes of `source` have been seen: their groups are numbered in
      order, with their places, and nothing else changed. Kept folded. */
  ghost predicate Seen(source: seq<BreNode>, i: nat, groups: nat, positions: seq<nat>, nodes: seq<BreNode>) {
    && i <= |source| == |nodes| && groups == GroupCount(source, i) < |positions|
    && forall z: nat {:trigger Shown(z)} :: Shown(z) ==>
        PlacesOf(source, i, groups, positions)
        && GroupsSet(source, nodes, i)
  }

  lemma {:induction false} SeenNothing(source: seq<BreNode>, positions: seq<nat>)
    requires |positions| > 0
    ensures Seen(source, 0, 0, positions, source)
  {
  }

  lemma {:induction false} SeenAt(source: seq<BreNode>, i: nat, groups: nat, positions: seq<nat>, nodes: seq<BreNode>,
                                  k: nat)
    requires Seen(source, i, groups, positions, nodes) && k < |source|
    ensures nodes[k] == source[k].(group := nodes[k].group)
  {
    assert Shown(0);
  }

  lemma {:induction false} SeenAll(source: seq<BreNode>, groups: nat, positions: seq<nat>, nodes: seq<BreNode>)
    requires Seen(source, |source|, groups, positions, nodes)
    ensures PlacesOf(source, |source|, groups, positions) && GroupsSet(source, nodes, |source|)
  {
    assert Shown(0);
  }

  lemma {:induction false} SeenMore(source: seq<BreNode>, i: nat, groups: nat, positions: seq<nat>, nodes: seq<BreNode>)
    requires Seen(source, i, groups, positions, nodes) && i < |source| && !source[i].kind.GroupNode?
    ensures Seen(source, i + 1, groups, positions, nodes)
  {
    assert Shown(0);
  }

  lemma {:induction false} SeenGroup(source: seq<BreNode>, i: nat, groups: nat, positions: seq<nat>,
                                     nodes: seq<BreNode>)
    requires Seen(source, i, groups, positions, nodes) && i < |source| && source[i].kind.GroupNode?
    requires groups + 1 < |positions|
    ensures Seen(source, i + 1, groups + 1, positions[groups + 1 := i], nodes[i := nodes[i].(group := groups + 1)])
  {
    assert Shown(0);
  }

  // ---------- the second pass ----------

  /** Numbered groups point into the array, and every recorded tail is emitted
      code, recorded together with an entry. Kept folded. */
  ghost predicate Tied(nodes: seq<BreNode>, groups: nat, positions: seq<nat>, emitted: nat) {
    && groups < |positions|
    && forall z: nat {:trigger Shown(z)} :: Shown(z) ==>
         && (forall k :: 1 <= k <= groups ==> positions[k] < |nodes|)
         && (forall k :: 0 <= k < |nodes| && nodes[k].kind.GroupNode? ==> 1 <= nodes[k].group <= groups)
         && (forall k :: 0 <= k < |nodes| ==> (nodes[k].entry == NONE <==> nodes[k].tail == NONE))
         && (forall k :: 0 <= k < |nodes| && nodes[k].entry != NONE ==> nodes[k].tail < emitted)
  }

  /** Numbered groups and nothing lowered yet. */
  lemma {:induction false} TiedAtFirst(d: Source, kinds: seq<Kind>, nodes: seq<BreNode>, groups: nat,
                                       positions: seq<nat>)
    requires Settled(d, kinds, nodes) && groups < |positions| && forall k :: 1 <= k <= groups ==> positions[k] < |nodes|
    requires var view := Dressed(nodes, kinds);
             && (forall k :: 0 <= k < |view| ==> view[k].entry == NONE && view[k].tail == NONE)
             && (forall k :: 0 <= k < |view| && view[k].kind.GroupNode? ==> 1 <= view[k].group <= groups)
    ensures Tied(nodes, groups, positions, 0)
  {
    var view := Dressed(nodes, kinds);
    forall k | 0 <= k < |nodes|
      ensures nodes[k].entry == NONE && nodes[k].tail == NONE
      ensures (nodes[k].kind.GroupNode? ==> 1 <= nodes[k].group <= groups)
    {
      SettledAt(d, kinds, nodes, k);
      assert view[k] == nodes[k].(kind := kinds[k]);
    }
  }

  lemma {:induction false} TiedAt(nodes: seq<BreNode>, groups: nat, positions: seq<nat>, emitted: nat, k: nat)
    requires Tied(nodes, groups, positions, emitted) && k < |nodes|
    ensures nodes[k].kind.GroupNode? ==> 1 <= nodes[k].group <= groups
    ensures (nodes[k].entry == NONE <==> nodes[k].tail == NONE) && (nodes[k].entry != NONE ==> nodes[k].tail < emitted)
    ensures forall g :: 1 <= g <= groups ==> positions[g] < |nodes|
  {
    assert Shown(0);
  }

  lemma {:induction false} TiedEmit(nodes: seq<BreNode>, groups: nat, positions: seq<nat>, emitted: nat, more: nat)
    requires Tied(nodes, groups, positions, emitted) && emitted <= more
    ensures Tied(nodes, groups, positions, more)
  {
    assert Shown(0);
  }

  lemma {:induction false} TiedRecord(nodes: seq<BreNode>, groups: nat, positions: seq<nat>, emitted: nat, i: nat,
                                      entry: nat, tail: nat)
    requires Tied(nodes, groups, positions, emitted) && i < |nodes|
    requires (entry != NONE ==> tail < emitted) && (entry == NONE <==> tail == NONE)
    ensures Tied(nodes[i := nodes[i].(entry := entry, tail := tail)], groups, positions, emitted)
  {
    assert Shown(0);
  }

  /** Linking the children of node `i` on from `j` gives `whole`, with the last
      quantifier found by decoding. Kept folded. */
  ghost predicate Links(d: Source, nodes: seq<BreNode>, i: nat, j: nat, chain: Chain, whole: Chain)
    requires RangesOk(nodes) && i < |nodes| == |d.nodes| && d.Ok()
  {
    forall z: nat {:trigger Shown(z)} :: Shown(z) ==>
      Link(nodes, i, j, chain) == whole && LastQuantifier(d, i, j, chain.quantifier) == whole.quantifier
  }

  lemma {:induction false} LinksFirst(d: Source, nodes: seq<BreNode>, i: nat, code: seq<Instruction>)
    returns (whole: Chain)
    requires RangesOk(nodes) && i < |nodes| == |d.nodes| && d.Ok()
    requires forall k: nat {:trigger nodes[k]} :: k < |nodes| ==> LikeParsed(d, k, nodes[k])
    ensures whole == Link(nodes, i, i + 1, Chain(code, NONE, NONE, NONE))
    ensures whole.quantifier == LastQuantifier(d, i, i + 1, NONE)
    ensures Links(d, nodes, i, i + 1, Chain(code, NONE, NONE, NONE), whole)
  {
    whole := Link(nodes, i, i + 1, Chain(code, NONE, NONE, NONE));
    SameQuantifier(d, nodes, i, i + 1, Chain(code, NONE, NONE, NONE));
  }

  /** A node with the parse's range, parent, and quantifiers. */
  ghost predicate LikeParsed(d: Source, k: nat, n: BreNode)
    requires k < |d.nodes|
  {
    n.end == d.nodes[k].end && n.parent == d.nodes[k].parent && (n.kind.Quantifier? <==> d.Is(k, BreGrammar.QUANTIFIER))
  }

  lemma {:induction false} SameQuantifier(d: Source, nodes: seq<BreNode>, i: nat, j: nat, chain: Chain)
    requires RangesOk(nodes) && i < |nodes| == |d.nodes| && d.Ok()
    requires forall k: nat {:trigger nodes[k]} :: k < |nodes| ==> LikeParsed(d, k, nodes[k])
    ensures Link(nodes, i, j, chain).quantifier == LastQuantifier(d, i, j, chain.quantifier)
    decreases |nodes| - j
  {
    if j < nodes[i].end {
      assert LikeParsed(d, j, nodes[j]) && LikeParsed(d, i, nodes[i]);
      SameQuantifier(d, nodes, i, nodes[j].end, if nodes[j].parent != i then chain else LinkOne(chain, nodes[j], j));
    }
  }

  lemma {:induction false} LinksOn(d: Source, nodes: seq<BreNode>, i: nat, j: nat, chain: Chain, next: Chain,
                                   whole: Chain)
    requires RangesOk(nodes) && i < |nodes| == |d.nodes| && d.Ok() && j < nodes[i].end && LikeParsed(d, j, nodes[j])
    requires LikeParsed(d, i, nodes[i])
    requires Links(d, nodes, i, j, chain, whole) && next == if nodes[j].parent != i then chain
             else LinkOne(chain, nodes[j], j)
    ensures Links(d, nodes, i, nodes[j].end, next, whole)
  {
    assert Shown(0);
  }

  lemma {:induction false} LinksLast(d: Source, nodes: seq<BreNode>, i: nat, j: nat, chain: Chain, whole: Chain)
    requires RangesOk(nodes) && i < |nodes| == |d.nodes| && d.Ok() && j >= nodes[i].end
    requires Links(d, nodes, i, j, chain, whole)
    ensures whole == chain
  {
    assert Shown(0);
  }

  /** What lowering node `i` comes to. Kept folded. */
  ghost predicate Becomes(env: Env, nodes: seq<BreNode>, code: seq<Instruction>, i: nat, r: Lowered)
    requires RangesOk(nodes) && i < |nodes| && |env.positions| > env.groups
  {
    forall z: nat {:trigger Shown(z)} :: Shown(z) ==> Process(env, nodes, code, i) == r
  }

  /** What lowering the nodes from the last one down to `i` comes to. Kept folded. */
  ghost predicate Reaches(p: Processor, nodes: seq<BreNode>, code: seq<Instruction>, i: nat, r: Lowered) {
    i <= |nodes| && forall z: nat {:trigger Shown(z)} :: Shown(z) ==> ProcessDown(p, nodes, code, |nodes|, i) == r
  }

  lemma {:induction false} ReachesStart(p: Processor, nodes: seq<BreNode>, code: seq<Instruction>)
    ensures Reaches(p, nodes, code, |nodes|, Lowered(nodes, code))
  {
  }

  /** One node further down; a failure is the end of it. */
  lemma {:induction false} ReachesNext(env: Env, p: Processor, nodes: seq<BreNode>, code: seq<Instruction>, i: nat,
                                       here: seq<BreNode>, soFar: seq<Instruction>, r: Lowered)
    requires IsProcessor(env, p) && i < |nodes| && RangesOk(here) && i < |here|
    requires Reaches(p, nodes, code, i + 1, Lowered(here, soFar)) && Becomes(env, here, soFar, i, r)
    ensures Reaches(p, nodes, code, i, r) && (r.Failed? ==> Reaches(p, nodes, code, 0, r))
  {
    assert Shown(0);
    ProcessOne(env, p, here, soFar, i);
    ProcessSplit(p, nodes, code, |nodes|, i + 1, i);
    ProcessSplit(p, nodes, code, |nodes|, i, 0);
  }

  lemma {:induction false} ReachesEnd(p: Processor, nodes: seq<BreNode>, code: seq<Instruction>, i: nat, r: Lowered)
    requires Reaches(p, nodes, code, i, r)
    ensures ProcessDown(p, nodes, code, |nodes|, i) == r
  {
    assert Shown(0);
  }

  /** The largest bound once node `i` is lowered. Kept folded. */
  ghost predicate Raises(nodes: seq<BreNode>, code: seq<Instruction>, i: nat, b: nat, b': nat)
    requires RangesOk(nodes) && i < |nodes|
  {
    forall z: nat {:trigger Shown(z)} :: Shown(z) ==>
      b' == if nodes[i].kind.Terminal? || nodes[i].kind.UnitNode? then b
            else NextBound(nodes, i, Link(nodes, i, i + 1, Chain(code, NONE, NONE, NONE)).quantifier, b)
  }

  /** A node that links its children. */
  lemma {:induction false} BecomesChained(env: Env, nodes: seq<BreNode>, code: seq<Instruction>, i: nat, chain: Chain,
                                          r: Lowered)
    requires RangesOk(nodes) && i < |nodes| && |env.positions| > env.groups
    requires !nodes[i].kind.Terminal? && !nodes[i].kind.UnitNode? && EffortFrom(nodes, i) <= env.work
    requires chain == Link(nodes, i, i + 1, Chain(code, NONE, NONE, NONE))
    requires r == if FaultOf(nodes[i].kind) != Ok then Failed(FaultOf(nodes[i].kind))
             else if nodes[i].kind.GroupNode? then LowerGroup(env, nodes, i, chain)
             else if nodes[i].kind.PieceNode? && chain.quantifier != NONE then LowerLoop(env, nodes, i, chain)
             else Finish(nodes, chain.code, i, chain.entry, chain.tail)
    ensures Becomes(env, nodes, code, i, r)
  {
  }

  lemma {:induction false} RaisesChained(nodes: seq<BreNode>, code: seq<Instruction>, i: nat, chain: Chain, b: nat,
                                         b': nat)
    requires RangesOk(nodes) && i < |nodes| && !nodes[i].kind.Terminal? && !nodes[i].kind.UnitNode?
    requires chain == Link(nodes, i, i + 1, Chain(code, NONE, NONE, NONE))
    requires b' == NextBound(nodes, i, chain.quantifier, b)
    ensures Raises(nodes, code, i, b, b')
  {
  }

  lemma {:induction false} BecomesBounded(env: Env, nodes: seq<BreNode>, code: seq<Instruction>, i: nat, r: Lowered,
                                          b: nat, b': nat)
    requires RangesOk(nodes) && i < |nodes| < NONE && |env.positions| > env.groups
    requires nodes[i].kind.UnitNode? ==> IsUnit(nodes[i].kind.op)
    requires Becomes(env, nodes, code, i, r) && r.Lowered? && Raises(nodes, code, i, b, b')
    ensures BoundedBy(code, b) ==> BoundedBy(r.code, b')
  {
    assert Shown(0);
    if BoundedBy(code, b) {
      ProcessBounds(env, nodes, code, i, b);
    }
  }

  lemma {:induction false} EffortGrows(nodes: seq<BreNode>, i: nat)
    requires i <= |nodes|
    ensures EffortFrom(nodes, i) <= EffortFrom(nodes, 0)
    decreases i
  {
    if i > 0 {
      EffortGrows(nodes, i - 1);
    }
  }

  lemma {:induction false} EffortLike(nodes: seq<BreNode>, nodes': seq<BreNode>, i: nat)
    requires i <= |nodes| == |nodes'| && forall k :: 0 <= k < |nodes| ==> nodes'[k].kind == nodes[k].kind
    ensures EffortFrom(nodes', i) == EffortFrom(nodes, i)
    decreases |nodes| - i
  {
    if i < |nodes| {
      EffortLike(nodes, nodes', i + 1);
    }
  }
}
