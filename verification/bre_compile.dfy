/** From the node array of a syntax tree to a program that is its expression. */
module BreCompile {
  import opened Folding
  import opened BreProgram
  import opened BreSyntax
  import opened BreStatus
  import opened BreLayout
  import opened BreLowerSpec
  import opened BreLowerCorrect
  import opened BreLowerComplete
  import opened BreLowerBounds
  import opened BreOperands
  import opened BreNodes
  import opened BreLower
  import opened BreTotals
  import opened BreVerdict
  import opened BrePaths
  import opened BreMachine
  import opened BreCorrect
  import opened Search

  /** Code that is a tree followed by ACCEPT. */
  ghost predicate Compiled(code: seq<Instruction>, entry: nat, t: Tree) {
    var accept := CodeSize(t);
    && |code| == accept + 1 && Placed(code, t, 0) && code[accept].op == Accept
    && entry == (if HasCode(t) then EntryOf(t, 0) else accept)
    && (HasCode(t) ==> code[TailOf(t, 0)].next == accept)
  }

  /** The array holds a tree's nodes, groups numbered in order. */
  ghost predicate Numbering(nodes: seq<BreNode>) {
    forall k :: 0 <= k < |nodes| && nodes[k].kind.GroupNode? ==> nodes[k].group == GroupCount(nodes, k) + 1
  }

  ghost predicate SameBut(a: BreNode, b: BreNode) {
    a == b.(group := a.group)
  }

  lemma {:induction false} FlattenMirrors(nodes: seq<BreNode>, s: Syntax, at: nat, parent: int)
    requires Numbering(nodes) && at + NodeCount(s) <= |nodes|
    requires forall k :: 0 <= k < NodeCount(s) ==> SameBut(nodes[at + k], Flatten(s, at, parent)[k])
    ensures Mirrors(nodes, s, at, parent, GroupCount(nodes, at))
    decreases s
  {
    var kids := FlattenAll(s.kids, at + 1, at);
    assert SameBut(nodes[at + 0], Flatten(s, at, parent)[0]);
    forall k | 0 <= k < NodeCounts(s.kids)
      ensures SameBut(nodes[at + 1 + k], kids[k])
    {
      assert SameBut(nodes[at + (k + 1)], Flatten(s, at, parent)[k + 1]);
    }
    FlattenAllMirrors(nodes, s.kids, at + 1, at);
  }

  lemma {:induction false} FlattenAllMirrors(nodes: seq<BreNode>, ns: Nodes, at: nat, parent: int)
    requires Numbering(nodes) && at + NodeCounts(ns) <= |nodes|
    requires forall k :: 0 <= k < NodeCounts(ns) ==> SameBut(nodes[at + k], FlattenAll(ns, at, parent)[k])
    ensures MirrorsAll(nodes, ns, at, parent, GroupCount(nodes, at))
    decreases ns
  {
    if ns.More? {
      var all := FlattenAll(ns, at, parent);
      var head := Flatten(ns.head, at, parent);
      var mid := at + NodeCount(ns.head);
      var tail := FlattenAll(ns.tail, mid, parent);
      assert all == head + tail;
      forall k | 0 <= k < NodeCount(ns.head)
        ensures SameBut(nodes[at + k], head[k])
      {
        assert SameBut(nodes[at + k], all[k]);
      }
      forall k | 0 <= k < NodeCounts(ns.tail)
        ensures SameBut(nodes[mid + k], tail[k])
      {
        assert SameBut(nodes[at + (NodeCount(ns.head) + k)], all[NodeCount(ns.head) + k]);
      }
      FlattenMirrors(nodes, ns.head, at, parent);
      FlattenAllMirrors(nodes, ns.tail, mid, parent);
      GroupCountTree(nodes, ns.head, at, parent, GroupCount(nodes, at));
    }
  }

  /** A flattened tree has consistent ranges and parents, and nothing lowered yet. */
  lemma {:induction false} FlattenRanges(s: Syntax, at: nat, parent: int)
    requires -1 <= parent < at
    ensures forall k :: 0 <= k < NodeCount(s) ==> var n := Flatten(s, at, parent)[k];
              at + k < n.end <= at + NodeCount(s) && -1 <= n.parent < at + k && n.entry == NONE && n.tail == NONE
    decreases s
  {
    FlattenAllRanges(s.kids, at + 1, at);
  }

  lemma {:induction false} FlattenAllRanges(ns: Nodes, at: nat, parent: int)
    requires -1 <= parent < at
    ensures forall k :: 0 <= k < NodeCounts(ns) ==> var n := FlattenAll(ns, at, parent)[k];
              at + k < n.end <= at + NodeCounts(ns) && -1 <= n.parent < at + k && n.entry == NONE && n.tail == NONE
    decreases ns
  {
    if ns.More? {
      FlattenRanges(ns.head, at, parent);
      FlattenAllRanges(ns.tail, at + NodeCount(ns.head), parent);
    }
  }

  // ---------- what success says about the tree ----------

  /** A lowered range holds only references to groups that ended before them. */
  lemma {:induction false} ReferencesChecked(env: Env, p: Processor, nodes: seq<BreNode>, code: seq<Instruction>,
                                             hi: nat, lo: nat)
    requires IsProcessor(env, p) && RangesOk(nodes) && lo <= hi <= |nodes|
    requires ProcessDown(p, nodes, code, hi, lo).Lowered?
    ensures forall i :: lo <= i < hi && nodes[i].kind.UnitNode? && nodes[i].kind.op.Ref? ==>
              ReferenceOk(env, nodes, i, nodes[i].kind.a)
    decreases hi - lo
  {
    if lo < hi {
      var r := Process(env, nodes, code, hi - 1);
      assert p(nodes, code, hi - 1) == r;
      ProcessKeepsShape(env, nodes, code, hi - 1);
      ReferencesChecked(env, p, r.nodes, r.code, hi - 1, lo);
      forall i | lo <= i < hi && nodes[i].kind.UnitNode? && nodes[i].kind.op.Ref?
        ensures ReferenceOk(env, nodes, i, nodes[i].kind.a)
      {
        assert i < hi - 1 ==> r.nodes[i].kind == nodes[i].kind;
      }
    }
  }

  /** References and classes stay inside the groups and ranges there are. */
  ghost predicate OperandsOk(s: Syntax, groups: nat, ranges: nat) {
    && (s.kind.UnitNode? && s.kind.op.Ref? ==> 1 <= s.kind.a <= groups)
    && (s.kind.UnitNode? && (s.kind.op.Class? || s.kind.op.NotClass?) ==> s.kind.a + s.kind.b <= ranges)
    && OperandsAllOk(s.kids, groups, ranges)
  }

  ghost predicate OperandsAllOk(ns: Nodes, groups: nat, ranges: nat) {
    ns.More? ==> OperandsOk(ns.head, groups, ranges) && OperandsAllOk(ns.tail, groups, ranges)
  }

  lemma {:induction false} OperandsFromNodes(env: Env, nodes: seq<BreNode>, s: Syntax, at: nat, parent: int, g: nat,
                                             ranges: nat)
    requires Mirrors(nodes, s, at, parent, g) && Every(s, Within(ranges)) && |env.positions| > env.groups
    requires forall i :: at <= i < at + NodeCount(s) && nodes[i].kind.UnitNode? && nodes[i].kind.op.Ref? ==>
               ReferenceOk(env, nodes, i, nodes[i].kind.a)
    ensures OperandsOk(s, env.groups, ranges)
    decreases s
  {
    OperandsAllFromNodes(env, nodes, s.kids, at + 1, at, if s.kind.GroupNode? then g + 1 else g, ranges);
  }

  lemma {:induction false} OperandsAllFromNodes(env: Env, nodes: seq<BreNode>, ns: Nodes, at: nat, parent: int, g: nat,
                                                ranges: nat)
    requires MirrorsAll(nodes, ns, at, parent, g) && EveryAll(ns, Within(ranges)) && |env.positions| > env.groups
    requires forall i :: at <= i < at + NodeCounts(ns) && nodes[i].kind.UnitNode? && nodes[i].kind.op.Ref? ==>
               ReferenceOk(env, nodes, i, nodes[i].kind.a)
    ensures OperandsAllOk(ns, env.groups, ranges)
    decreases ns
  {
    if ns.More? {
      OperandsFromNodes(env, nodes, ns.head, at, parent, g, ranges);
      OperandsAllFromNodes(env, nodes, ns.tail, at + NodeCount(ns.head), parent, g + Groups(ns.head), ranges);
    }
  }

  /** A lowered tree satisfies everything the machine relies on. */
  lemma {:induction false} ElaborateOk(m: Machine, s: Syntax, at: nat, g: nat, lo: nat)
    requires ShapeOk(s) && OperandsOk(s, SLOTS - 1, |m.ranges|) && g + Groups(s) < SLOTS
    requires Placed(m.code, Elaborate(s, at, g), lo)
    ensures TreeOk(m, Elaborate(s, at, g))
    decreases s
  {
    if !s.kind.UnitNode? {
      ElaborateAllOk(m, s.kids, at + 1, if s.kind.GroupNode? then g + 1 else g, lo);
      ElaborateNumbered(s, at, g);
    }
  }

  lemma {:induction false} ElaborateAllOk(m: Machine, ns: Nodes, at: nat, g: nat, lo: nat)
    requires ShapesOk(ns) && OperandsAllOk(ns, SLOTS - 1, |m.ranges|) && g + GroupsAll(ns) < SLOTS
    requires PlacedAll(m.code, ElaborateAll(ns, at, g), lo)
    ensures ForestOk(m, ElaborateAll(ns, at, g))
    decreases ns
  {
    if ns.More? {
      var rest := ElaborateAll(ns.tail, at + NodeCount(ns.head), g + Groups(ns.head));
      ElaborateOk(m, ns.head, at, g, lo + CodeSizes(rest));
      ElaborateAllOk(m, ns.tail, at + NodeCount(ns.head), g + Groups(ns.head), lo);
    }
  }

  lemma {:induction false} OperandsWiden(s: Syntax, few: nat, many: nat, ranges: nat)
    requires OperandsOk(s, few, ranges) && few <= many
    ensures OperandsOk(s, many, ranges)
    decreases s
  {
    OperandsAllWiden(s.kids, few, many, ranges);
  }

  lemma {:induction false} OperandsAllWiden(ns: Nodes, few: nat, many: nat, ranges: nat)
    requires OperandsAllOk(ns, few, ranges) && few <= many
    ensures OperandsAllOk(ns, many, ranges)
    decreases ns
  {
    if ns.More? {
      OperandsWiden(ns.head, few, many, ranges);
      OperandsAllWiden(ns.tail, few, many, ranges);
    }
  }

  // ---------- the compiled program ----------

  /** The states at ACCEPT with the given cores. */
  ghost function AtAccept(accept: nat, cs: seq<Core>): (r: seq<State>)
    ensures |r| == |cs| && forall i :: 0 <= i < |cs| ==> r[i] == State(accept, [], cs[i])
  {
    seq(|cs|, i requires 0 <= i < |cs| => State(accept, [], cs[i]))
  }

  lemma {:induction false} FlatMapAccept(k: Core -> seq<State>, accept: nat, cs: seq<Core>)
    requires forall c :: k(c) == [State(accept, [], c)]
    ensures FlatMap(k, cs) == AtAccept(accept, cs)
  {
    if cs != [] {
      FlatMapAccept(k, accept, cs[1..]);
      assert [cs[0]] + cs[1..] == cs;
    }
  }

  /** Compiled code accepts exactly the paths of its expression, in order: its
      search is finite, meets no internal error, and ends with no loop active. */
  lemma {:induction false} CompiledRuns(m: Machine, t: Tree, entry: nat, c: Core)
    requires Compiled(m.code, entry, t) && TreeOk(m, t) && m.CoreOk(c)
    requires |m.input| <= MAX_INPUT && LoopDepth(t) <= SLOTS
    ensures Yields(StepOf(m), State(entry, [], c), AtAccept(CodeSize(t), Paths(m, t, c)))
  {
    var accept := CodeSize(t);
    var step := StepOf(m);
    var k := (d: Core) => [State(accept, [], d)];
    var paths := Paths(m, t, c);
    forall i | 0 <= i < |paths|
      ensures Yields(step, State(accept, [], paths[i]), k(paths[i]))
    {
      assert Ahead(m, c, paths[i]);
      YieldsHere(step, State(accept, [], paths[i]));
    }
    FlatMapAccept(k, accept, paths);
    if HasCode(t) {
      RunTree(step, m, t, 0, [], c, k);
    } else {
      NoCodePath(m, t, c);
      YieldsHere(step, State(accept, [], c));
    }
  }

  datatype Program =
    Program(code: seq<Instruction>, ranges: seq<Range>, entry: nat, groups: nat, depth: nat, repeatBound: nat)

  /** The program is the expression of the syntax tree. */
  ghost predicate ProgramOf(p: Program, s: Syntax) {
    && Compiled(p.code, p.entry, Elaborate(s, 0, 0))
    && p.groups == Groups(s) < SLOTS
    && p.depth == GroupDepth(s) < SLOTS
    && BoundedBy(p.code, p.repeatBound)
    && OperandsOk(s, p.groups, |p.ranges|)
  }

  /** A limit that the tree exceeds. */
  ghost predicate OverLimits(s: Syntax, room: Room) {
    || Groups(s) > room.limits.maxCaptures
    || GroupDepth(s) > room.limits.maxParseDepth
    || NodeCount(s) + Effort(s) > room.limits.maxSteps
    || CodeSize(Elaborate(s, 0, 0)) + 1 > room.code
    || !Every(s, Within(room.ranges))
  }

  ghost predicate Compilable(s: Syntax, room: Room) {
    Supported(s) && Every(s, Readable()) && RefsClosed(s, 0, {}) && !OverLimits(s, room)
  }

  /** A status has its reason in the tree. */
  ghost predicate Justified(s: Syntax, status: Status, room: Room) {
    if status == Ok then Compilable(s, room)
    else
      || !Every(s, Unlike(status))
      || (status == BadPattern && !RefsClosed(s, 0, {}))
      || (status == Limit && OverLimits(s, room))
      || (status == Unsupported && !Supported(s))
  }

  lemma {:induction false} JustifiedFailure(s: Syntax, status: Status, room: Room)
    requires Justified(s, status, room) && status != Ok
    ensures !Compilable(s, room)
  {
    if Every(s, Readable()) {
      EveryWider(s, Readable(), Unlike(status));
    }
  }

  /** A numbered copy of a flattened tree is ready to be lowered. */
  lemma {:induction false} NumberedReady(env: Env, source: seq<BreNode>, nodes: seq<BreNode>, s: Syntax)
    requires source == Flatten(s, 0, -1) && |nodes| == |source|
             && forall k :: 0 <= k < |source| ==> SameBut(nodes[k], source[k])
    requires Numbering(nodes)
    ensures RangesOk(nodes) && Mirrors(nodes, s, 0, -1, 0) && Untouched(nodes, 0, NodeCount(s))
    ensures GroupCount(nodes, |nodes|) == Groups(s)
  {
    SameRanges(source, nodes, s);
    FlattenMirrors(nodes, s, 0, -1);
    GroupCountTree(nodes, s, 0, -1, 0);
  }

  lemma {:induction false} SameRanges(source: seq<BreNode>, nodes: seq<BreNode>, s: Syntax)
    requires source == Flatten(s, 0, -1) && |nodes| == |source|
             && forall k :: 0 <= k < |source| ==> SameBut(nodes[k], source[k])
    ensures RangesOk(nodes) && Untouched(nodes, 0, NodeCount(s))
    ensures forall k :: 0 <= k < NodeCount(s) ==> SameBut(nodes[0 + k], Flatten(s, 0, -1)[k])
  {
    FlattenRanges(s, 0, -1);
    forall k | 0 <= k < |nodes|
      ensures k < nodes[k].end <= |nodes| && nodes[k].entry == NONE && nodes[k].tail == NONE
    {
      assert SameBut(nodes[k], source[k]);
    }
  }

  /** What the second pass leaves behind. */
  lemma {:induction false} LoweredProgram(env: Env, p: Processor, nodes: seq<BreNode>, r: Lowered, s: Syntax,
                                          ranges: nat)
    requires RangesOk(nodes) && EnvOk(env, nodes) && |nodes| == NodeCount(s) <= NONE && Mirrors(nodes, s, 0, -1, 0)
    requires Untouched(nodes, 0, NodeCount(s)) && ShapeOk(s) && Every(s, Within(ranges))
    requires IsProcessor(env, p) && r.Lowered? && ProcessDown(p, nodes, [], |nodes|, 0) == r
    ensures Placed(r.code, Elaborate(s, 0, 0), 0) && |r.code| == CodeSize(Elaborate(s, 0, 0)) < NONE
    ensures |r.nodes| > 0 && Recorded(r.nodes[0], Elaborate(s, 0, 0), 0) && OperandsOk(s, env.groups, ranges)
  {
    LowerTree(env, p, nodes, [], s, 0, |nodes|, -1, 0, r);
    ReferencesChecked(env, p, nodes, [], |nodes|, 0);
    OperandsFromNodes(env, nodes, s, 0, -1, 0, ranges);
  }

  /** The source with its groups numbered. */
  ghost function NumberedCopy(source: seq<BreNode>): (r: seq<BreNode>)
    ensures |r| == |source| && Numbering(r) && Alike(source, r)
    ensures forall k :: 0 <= k < |source| ==> r[k] == source[k].(group := GroupCount(source, k) + 1)
  {
    var r := seq(|source|, k requires 0 <= k < |source| => source[k].(group := GroupCount(source, k) + 1));
    NumberedCopyCounts(source, r);
    r
  }

  lemma {:induction false} NumberedCopyCounts(source: seq<BreNode>, r: seq<BreNode>)
    requires |r| == |source| && forall k :: 0 <= k < |source| ==> r[k] == source[k].(group := GroupCount(source, k) + 1)
    ensures Numbering(r)
  {
    forall k | 0 <= k < |r| && r[k].kind.GroupNode?
      ensures r[k].group == GroupCount(r, k) + 1
    {
      GroupCountSame(source, r, k);
    }
  }

  /** What the first pass counts is the tree's. */
  lemma {:induction false} SourceTotals(source: seq<BreNode>, s: Syntax)
    requires source == Flatten(s, 0, -1)
    ensures GroupCount(source, |source|) == Groups(s) && MaxDepth(source, |source|) == GroupDepth(s)
    ensures EffortFrom(source, 0) == Effort(s) && (AllSupported(source) <==> Supported(s))
  {
    var nodes := NumberedCopy(source);
    SameRanges(source, nodes, s);
    FlattenMirrors(nodes, s, 0, -1);
    MirrorTotals(nodes, s);
    AlikeTotals(source, nodes);
  }

  lemma {:induction false} MirrorTotals(nodes: seq<BreNode>, s: Syntax)
    requires Mirrors(nodes, s, 0, -1, 0) && |nodes| == NodeCount(s)
    ensures GroupCount(nodes, |nodes|) == Groups(s) && MaxDepth(nodes, |nodes|) == GroupDepth(s)
    ensures EffortFrom(nodes, 0) == Effort(s) && (AllSupported(nodes) <==> Supported(s))
  {
    GroupCountTree(nodes, s, 0, -1, 0);
    MaxDepthTree(nodes, s, 0, -1, 0);
    MirrorEffort(nodes, s);
  }

  lemma {:induction false} MirrorEffort(nodes: seq<BreNode>, s: Syntax)
    requires Mirrors(nodes, s, 0, -1, 0) && |nodes| == NodeCount(s)
    ensures EffortFrom(nodes, 0) == Effort(s) && (AllSupported(nodes) <==> Supported(s))
  {
    EffortTree(nodes, s, 0, -1, 0);
    SupportedTree(nodes, s, 0, -1, 0);
  }

  lemma {:induction false} AlikeTotals(source: seq<BreNode>, nodes: seq<BreNode>)
    requires Alike(source, nodes)
    ensures GroupCount(nodes, |nodes|) == GroupCount(source, |source|)
    ensures MaxDepth(nodes, |nodes|) == MaxDepth(source, |source|)
    ensures EffortFrom(nodes, 0) == EffortFrom(source, 0) && (AllSupported(nodes) <==> AllSupported(source))
  {
    GroupCountSame(source, nodes, |source|);
    MaxDepthSame(source, nodes, |source|);
    EffortLike(source, nodes, 0);
  }

  // ---------- what the verdict says about the tree ----------

  /** The nodes of a tree with its groups numbered and listed. */
  ghost predicate Laid(nodes: seq<BreNode>, env: Env, s: Syntax) {
    RangesOk(nodes) && EnvOk(env, nodes) && Mirrors(nodes, s, 0, -1, 0) && |nodes| == NodeCount(s) && ShapeOk(s)
  }

  lemma {:induction false} CanBeLaid(s: Syntax) returns (nodes: seq<BreNode>, env: Env)
    requires ShapeOk(s)
    ensures Laid(nodes, env, s) && Alike(Flatten(s, 0, -1), nodes)
  {
    nodes := NumberedCopy(Flatten(s, 0, -1));
    SameRanges(Flatten(s, 0, -1), nodes, s);
    FlattenMirrors(nodes, s, 0, -1);
    env := PlacesExist(nodes);
  }

  lemma {:induction false} LaidStanding(nodes: seq<BreNode>, env: Env, s: Syntax)
    requires Laid(nodes, env, s)
    ensures RefsClosed(s, 0, {}) <==> RefsOkIn(env, nodes, 0, |nodes|)
  {
    RefsTree(env, nodes, s, 0, -1, 0, {});
  }

  /** A node that the second pass refuses is a reason to refuse the tree. */
  lemma {:induction false} NodeRefused(nodes: seq<BreNode>, env: Env, s: Syntax, room: Room, i: nat)
    requires Laid(nodes, env, s) && i < |nodes| && NodeStatus(nodes, room, i) != Ok
    ensures Justified(s, NodeStatus(nodes, room, i), room)
  {
    var k := nodes[i].kind;
    var status := NodeStatus(nodes, room, i);
    EveryTree(nodes, s, 0, -1, 0, Within(room.ranges));
    EveryTree(nodes, s, 0, -1, 0, Unlike(status));
    LaidEffort(nodes, env, s);
    EffortGrows(nodes, i);
    LaidSize(nodes, env, s);
    assert Shown(0);
    SizeGrows(nodes, i);
    if k.UnitNode? && k.op.Ref? && !Complete(nodes, i, k.a) {
      CompleteIs(env, nodes, i, k.a);
      LaidStanding(nodes, env, s);
    }
  }

  /** When the second pass refuses no node, operands and references are in order. */
  lemma {:induction false} NodesAccepted(nodes: seq<BreNode>, env: Env, s: Syntax, room: Room)
    requires Laid(nodes, env, s) && LastFault(nodes, room, 0, |nodes|) == Ok
    ensures Every(s, Readable()) && Every(s, Within(room.ranges)) && RefsClosed(s, 0, {})
  {
    FaultNowhere(nodes, room, 0, |nodes|);
    forall i | 0 <= i < |nodes|
      ensures Readable()(nodes[i].kind) && Within(room.ranges)(nodes[i].kind)
      ensures nodes[i].kind.UnitNode? && nodes[i].kind.op.Ref? ==> ReferenceOk(env, nodes, i, nodes[i].kind.a)
    {
      assert NodeStatus(nodes, room, i) == Ok;
      if nodes[i].kind.UnitNode? {
        CompleteIs(env, nodes, i, nodes[i].kind.a);
      }
    }
    EveryTree(nodes, s, 0, -1, 0, Readable());
    EveryTree(nodes, s, 0, -1, 0, Within(room.ranges));
    LaidStanding(nodes, env, s);
  }

  /** The first pass refuses a tree for what is unsupported or for a limit. */
  lemma {:induction false} SurveyExplained(nodes: seq<BreNode>, env: Env, s: Syntax, room: Room)
    requires Laid(nodes, env, s)
    ensures var status := Survey(nodes, room.limits, 0);
            if status == Ok then
              && Supported(s) && Groups(s) <= room.limits.maxCaptures && GroupDepth(s) <= room.limits.maxParseDepth
              && |nodes| <= room.limits.maxSteps
            else Justified(s, status, room)
  {
    MirrorTotals(nodes, s);
    if Survey(nodes, room.limits, 0) == Ok {
      SurveyOk(nodes, room.limits, 0);
    } else {
      SurveyFails(nodes, room.limits, 0);
    }
  }

  /** The nodes of a laid tree have the size of its code. */
  lemma {:induction false} LaidSize(nodes: seq<BreNode>, env: Env, s: Syntax)
    requires Laid(nodes, env, s)
    ensures SizeFrom(nodes, 0) == CodeSize(Elaborate(s, 0, 0))
  {
    SizeTree(nodes, s, 0, -1, 0);
  }

  /** A tree whose nodes are accepted is refused only for want of room for the final instruction. */
  lemma {:induction false} LaidAccepted(nodes: seq<BreNode>, env: Env, s: Syntax, room: Room)
    requires Laid(nodes, env, s) && Survey(nodes, room.limits, 0) == Ok && LastFault(nodes, room, 0, |nodes|) == Ok
    ensures Justified(s, if SizeFrom(nodes, 0) >= room.code then Limit else Ok, room)
  {
    SurveyExplained(nodes, env, s, room);
    LaidSize(nodes, env, s);
    NodesAccepted(nodes, env, s, room);
    FaultlessWork(nodes, room, 0);
    LaidEffort(nodes, env, s);
  }

  lemma {:induction false} LaidEffort(nodes: seq<BreNode>, env: Env, s: Syntax)
    requires Laid(nodes, env, s)
    ensures EffortFrom(nodes, 0) == Effort(s)
  {
    MirrorEffort(nodes, s);
  }

  lemma {:induction false} VerdictExplained(nodes: seq<BreNode>, env: Env, s: Syntax, room: Room)
    requires Laid(nodes, env, s)
    ensures Justified(s, Verdict(nodes, room), room)
  {
    SurveyExplained(nodes, env, s, room);
    if Survey(nodes, room.limits, 0) == Ok {
      if LastFault(nodes, room, 0, |nodes|) == Ok {
        LaidAccepted(nodes, env, s, room);
      } else {
        var i := FaultSomewhere(nodes, room, 0, |nodes|);
        NodeRefused(nodes, env, s, room, i);
      }
    }
  }

  /** The verdict is Ok exactly on a tree that can be compiled, and any other has its reason in the tree. */
  lemma {:induction false} StatusExplained(s: Syntax, room: Room)
    requires ShapeOk(s)
    ensures Justified(s, StatusOf(s, room), room) && (StatusOf(s, room) == Ok <==> Compilable(s, room))
  {
    var nodes, env := CanBeLaid(s);
    VerdictExplained(nodes, env, s, room);
    VerdictSame(Flatten(s, 0, -1), nodes, room);
    if StatusOf(s, room) != Ok {
      JustifiedFailure(s, StatusOf(s, room), room);
    }
  }

  // ---------- compiling ----------

  /** A numbered array, as the first pass leaves it. */
  ghost predicate PreparedFor(nodes: seq<BreNode>, env: Env, s: Syntax) {
    && EnvOk(env, nodes) && Mirrors(nodes, s, 0, -1, 0) && |nodes| == NodeCount(s) && Untouched(nodes, 0, NodeCount(s))
    && env.groups == Groups(s) && Alike(Flatten(s, 0, -1), nodes)
  }

  /** The compiler has numbered the nodes of `s` and may lower them. */
  ghost predicate ReadyFor(c: Compiler, s: Syntax)
    reads c, c.nodes, c.code, c.positions, c.decoder, c.decoder.ranges
  {
    && c.Lowering() && c.Decoded(c.nodes.Length) && c.codeCount == 0 && c.repeatBound == 0
       && c.steps == NodeCount(s) <= c.limits.maxSteps
    && c.depth == GroupDepth(s) < SLOTS && PreparedFor(c.View(), c.TheEnv(), s)
  }

  /** What is true of all decoded kinds is true of the whole tree. */
  lemma {:induction false} KindsEvery(d: Source, kinds: seq<Kind>, s: Syntax, p: Trait)
    requires Parsed(d, kinds, Flatten(s, 0, -1)) && forall k :: 0 <= k < |kinds| ==> p(kinds[k])
    ensures Every(s, p)
  {
    var source := Flatten(s, 0, -1);
    var nodes := NumberedCopy(source);
    SameRanges(source, nodes, s);
    FlattenMirrors(nodes, s, 0, -1);
    EveryTree(nodes, s, 0, -1, 0, p);
  }

  /** Every class of the tree lies in the table of its ranges. */
  lemma {:induction false} ClassesInTable(d: Source, kinds: seq<Kind>, s: Syntax)
    requires Parsed(d, kinds, Flatten(s, 0, -1))
    ensures Every(s, Within(|RangeTable(d, 0)|))
  {
    forall k: nat | k < |kinds|
      ensures Within(|RangeTable(d, 0)|)(kinds[k])
    {
      if IsClass(kinds[k]) {
        ClassPlaced(d, k, kinds[k]);
      }
    }
    KindsEvery(d, kinds, s, Within(|RangeTable(d, 0)|));
  }

  lemma {:induction false} Prepared(env: Env, source: seq<BreNode>, nodes: seq<BreNode>, s: Syntax)
    requires source == Flatten(s, 0, -1) && ShapeOk(s) && GroupsSet(source, nodes, |source|)
    requires PlacesOf(source, |source|, env.groups, env.positions) && env.groups == GroupCount(source, |source|)
    requires env.capacity < NONE
    ensures PreparedFor(nodes, env, s)
    ensures forall k :: 0 <= k < |nodes| ==> nodes[k].entry == NONE && nodes[k].tail == NONE
    ensures forall k :: 0 <= k < |nodes| && nodes[k].kind.GroupNode? ==> 1 <= nodes[k].group <= env.groups
  {
    PreparedPlaces(env, source, nodes);
    NumberedReady(env, source, nodes, s);
    GroupsNumbered(nodes, env.groups);
  }

  lemma {:induction false} PreparedPlaces(env: Env, source: seq<BreNode>, nodes: seq<BreNode>)
    requires GroupsSet(source, nodes, |source|) && env.capacity < NONE
    requires PlacesOf(source, |source|, env.groups, env.positions) && env.groups == GroupCount(source, |source|)
    ensures Numbering(nodes) && EnvOk(env, nodes) && forall k :: 0 <= k < |source| ==> SameBut(nodes[k], source[k])
  {
    forall k | 0 <= k <= |nodes|
      ensures GroupCount(nodes, k) == GroupCount(source, k)
    {
      GroupCountSame(source, nodes, k);
    }
  }

  /** The first pass. */
  method Prepare(source: Source, ghost kinds: seq<Kind>, room: Room, ghost s: Syntax)
    returns (status: Status, c: Compiler)
    requires room.Ok() && Parsed(source, kinds, Flatten(s, 0, -1)) && |source.nodes| < NONE && ShapeOk(s)
    ensures fresh(c) && fresh(c.nodes) && fresh(c.code) && fresh(c.positions) && fresh(c.decoder)
    ensures fresh(c.decoder.ranges)
    ensures status == Survey(Flatten(s, 0, -1), room.limits, 0)
    ensures status == Ok ==>
              && ReadyFor(c, s) && c.code.Length == room.code && c.decoder.ranges.Length == room.ranges
              && c.limits == room.limits && c.decoder.source == source
  {
    ghost var flat := Flatten(s, 0, -1);
    FlattenRanges(s, 0, -1);
    assert forall k :: 0 <= k < |source.nodes| ==> source.nodes[k].parent == flat[k].parent;
    c := new Compiler(source, kinds, room.code, room.ranges, room.limits);
    ParsedSame(source, kinds, flat, c.View());
    status := c.Number();
    if status == Ok {
      FirstPassDone(c, flat, s);
      NothingDecoded(source);
    }
  }

  lemma {:induction false} ParsedSame(d: Source, kinds: seq<Kind>, a: seq<BreNode>, b: seq<BreNode>)
    requires Parsed(d, kinds, a) && Parsed(d, kinds, b)
    ensures a == b
  {
  }

  lemma {:induction false} NothingDecoded(d: Source)
    requires d.Ok()
    ensures IsTable(d, |d.nodes|, [])
  {
  }

  /** The first pass leaves the array ready to be lowered. */
  lemma {:induction false} FirstPassDone(c: Compiler, source: seq<BreNode>, s: Syntax)
    requires c.Valid() && c.nodes.Length < NONE && source == Flatten(s, 0, -1) && ShapeOk(s)
    requires c.Numbered(source, |source|)
    ensures c.Lowering() && PreparedFor(c.View(), c.TheEnv(), s) && c.depth == GroupDepth(s)
  {
    SeenAll(source, c.groups, c.positions[..], c.View());
    Prepared(c.TheEnv(), source, c.View(), s);
    TiedAtFirst(c.decoder.source, c.kinds, c.nodes[..], c.groups, c.positions[..]);
    TiedEmit(c.nodes[..], c.groups, c.positions[..], 0, c.codeCount);
    SourceTotals(source, s);
  }

  /** What becomes of lowering a prepared array. */
  lemma {:induction false} LoweringJudged(env: Env, process: Processor, nodes: seq<BreNode>, s: Syntax, r: Lowered,
                                          room: Room)
    requires RangesOk(nodes) && |nodes| < NONE && PreparedFor(nodes, env, s) && ShapeOk(s) && Bodied(s)
    requires IsProcessor(env, process) && ProcessDown(process, nodes, [], |nodes|, 0) == r
    requires RoomOf(env, room, |nodes|)
    ensures ComesTo(r, LastFault(Flatten(s, 0, -1), room, 0, NodeCount(s)))
  {
    TreeJudged(env, room, process, nodes, [], s, 0, |nodes|, -1, 0, r);
    LastFaultSame(Flatten(s, 0, -1), nodes, room, 0, |nodes|);
  }

  /** The lowered tree, ACCEPT appended and linked, is the program. */
  lemma {:induction false} Assemble(env: Env, process: Processor, nodes: seq<BreNode>, r: Lowered, p: Program,
                                    s: Syntax)
    requires RangesOk(nodes) && |nodes| < NONE && PreparedFor(nodes, env, s) && ShapeOk(s)
    requires Every(s, Within(|p.ranges|))
    requires IsProcessor(env, process) && r.Lowered? && ProcessDown(process, nodes, [], |nodes|, 0) == r
    requires |r.nodes| > 0
    requires p.groups == env.groups < SLOTS && p.depth == GroupDepth(s) < SLOTS && BoundedBy(r.code, p.repeatBound)
    requires p.entry == if r.nodes[0].entry == NONE then |r.code| else r.nodes[0].entry
    requires p.code == if r.nodes[0].tail != NONE then SetNext(r.code + [Emit(Accept, 0, 0)], r.nodes[0].tail, |r.code|)
                       else r.code + [Emit(Accept, 0, 0)]
    ensures ProgramOf(p, s)
  {
    LoweredProgram(env, process, nodes, r, s, |p.ranges|);
    FinishPlaces(r.code, p.code, Elaborate(s, 0, 0));
    FinishBounds(r.code, p.code, r.nodes[0].tail, p.repeatBound);
  }

  /** Appending ACCEPT and linking to it adds no loop. */
  lemma {:induction false} FinishBounds(lowered: seq<Instruction>, code: seq<Instruction>, tail: nat, b: nat)
    requires BoundedBy(lowered, b) && |lowered| < NONE
    requires code == if tail != NONE then SetNext(lowered + [Emit(Accept, 0, 0)], tail, |lowered|)
             else lowered + [Emit(Accept, 0, 0)]
    ensures BoundedBy(code, b)
  {
    BoundedPush(lowered, Emit(Accept, 0, 0), b);
    BoundedSame(lowered + [Emit(Accept, 0, 0)], code, b);
  }

  /** The code of a lowered tree has the tree's size. */
  lemma {:induction false} LoweringSized(env: Env, process: Processor, nodes: seq<BreNode>, r: Lowered, s: Syntax)
    requires RangesOk(nodes) && |nodes| < NONE && PreparedFor(nodes, env, s) && ShapeOk(s)
    requires IsProcessor(env, process) && r.Lowered? && ProcessDown(process, nodes, [], |nodes|, 0) == r
    ensures |r.code| == SizeFrom(Flatten(s, 0, -1), 0)
  {
    LowerTree(env, process, nodes, [], s, 0, |nodes|, -1, 0, r);
    FlatSize(Flatten(s, 0, -1), nodes, s);
  }

  lemma {:induction false} FlatSize(source: seq<BreNode>, nodes: seq<BreNode>, s: Syntax)
    requires Alike(source, nodes) && Mirrors(nodes, s, 0, -1, 0) && |nodes| == NodeCount(s) && ShapeOk(s)
    ensures SizeFrom(source, 0) == CodeSize(Elaborate(s, 0, 0))
  {
    SizeTree(nodes, s, 0, -1, 0);
    SizeSame(source, nodes, 0);
  }

  /** The second pass and the final instruction. */
  method LowerPrepared(c: Compiler, ghost kinds: seq<Kind>, ghost s: Syntax, ghost room: Room)
    returns (status: Status, p: Program)
    requires ReadyFor(c, s) && ShapeOk(s) && Bodied(s) && Parsed(c.decoder.source, kinds, Flatten(s, 0, -1))
    requires Survey(Flatten(s, 0, -1), room.limits, 0) == Ok
    requires c.code.Length == room.code && c.decoder.ranges.Length == room.ranges && c.limits == room.limits
    modifies c, c.nodes, c.code, c.decoder, c.decoder.ranges
    ensures status == StatusOf(s, room)
    ensures status == Ok ==> ProgramOf(p, s) && p.ranges == RangeTable(c.decoder.source, 0)
  {
    p := Program([], [], 0, 0, 0, 0);
    ghost var nodes, env := c.View(), c.TheEnv();
    ghost var process := TheProcessor(env);
    assert c.Code() == [];
    status := c.LowerNodes(process);
    ghost var r := ProcessDown(process, nodes, [], |nodes|, 0);
    LoweringJudged(env, process, nodes, s, r, room);
    if status == Ok {
      status, p := Deliver(c, kinds, env, process, nodes, s);
    }
  }

  /** The program of lowered nodes. */
  method Deliver(c: Compiler, ghost kinds: seq<Kind>, ghost env: Env, ghost process: Processor,
                 ghost nodes: seq<BreNode>, ghost s: Syntax)
    returns (status: Status, p: Program)
    requires RangesOk(nodes) && |nodes| < NONE && PreparedFor(nodes, env, s) && ShapeOk(s) && IsProcessor(env, process)
    requires c.Lowering() && c.nodes.Length == |nodes| > 0 && c.Decoded(0)
    requires Parsed(c.decoder.source, kinds, Flatten(s, 0, -1))
    requires ProcessDown(process, nodes, [], |nodes|, 0) == Lowered(c.View(), c.Code())
    requires c.groups == env.groups < SLOTS && c.depth == GroupDepth(s) < SLOTS && BoundedBy(c.Code(), c.repeatBound)
    modifies c, c.code
    ensures status == if SizeFrom(Flatten(s, 0, -1), 0) >= c.code.Length then Limit else Ok
    ensures status == Ok ==> ProgramOf(p, s) && p.ranges == RangeTable(c.decoder.source, 0)
  {
    p := Program([], [], 0, 0, 0, 0);
    ghost var r := Lowered(c.View(), c.Code());
    LoweringSized(env, process, nodes, r, s);
    c.NodeAt(0);
    ClassesInTable(c.decoder.source, kinds, s);
    assert Shown(0);
    var entry;
    status, entry := c.FinishProgram();
    if status == Ok {
      p := Program(c.code[..c.codeCount], c.decoder.ranges[..c.decoder.count], entry, c.groups, c.depth, c.repeatBound);
      Assemble(env, process, nodes, r, p, s);
    }
  }

  /** Compiles the node array of `s`. The status is the verdict on its nodes: Ok
      exactly when all operands can be decoded, all references are legal, everything
      is supported and the limits suffice. */
  method Compile(source: Source, ghost kinds: seq<Kind>, room: Room, ghost s: Syntax)
    returns (status: Status, p: Program)
    requires room.Ok() && Parsed(source, kinds, Flatten(s, 0, -1)) && |source.nodes| < NONE
    requires ShapeOk(s) && (Supported(s) ==> Bodied(s))
    ensures status == StatusOf(s, room)
    ensures Justified(s, status, room) && (status == Ok <==> Compilable(s, room))
    ensures status == Ok ==> ProgramOf(p, s) && p.ranges == RangeTable(source, 0)
  {
    var c;
    status, c := Prepare(source, kinds, room, s);
    StatusExplained(s, room);
    if status == Ok {
      SurveySupported(s, room);
      status, p := LowerPrepared(c, kinds, s, room);
    } else {
      p := Program([], [], 0, 0, 0, 0);
    }
  }

  lemma {:induction false} SurveySupported(s: Syntax, room: Room)
    requires ShapeOk(s) && Survey(Flatten(s, 0, -1), room.limits, 0) == Ok
    ensures Supported(s)
  {
    SourceTotals(Flatten(s, 0, -1), s);
    SurveyOk(Flatten(s, 0, -1), room.limits, 0);
  }

  /** A compiled program, started anywhere, accepts exactly the paths of its pattern. */
  lemma {:induction false} ProgramRuns(m: Machine, p: Program, s: Syntax, c: Core)
    requires ProgramOf(p, s) && m.code == p.code && m.ranges == p.ranges && ShapeOk(s) && m.CoreOk(c)
    requires |m.input| <= MAX_INPUT
    ensures TreeOk(m, Elaborate(s, 0, 0))
    ensures var t := Elaborate(s, 0, 0);
            forall found {:trigger Yields(StepOf(m), State(p.entry, [], c), found)} ::
              Yields(StepOf(m), State(p.entry, [], c), found) <==> found == AtAccept(CodeSize(t), Paths(m, t, c))
  {
    var t := Elaborate(s, 0, 0);
    OperandsWiden(s, p.groups, SLOTS - 1, |m.ranges|);
    ElaborateOk(m, s, 0, 0, 0);
    var step, start, all := StepOf(m), State(p.entry, [], c), AtAccept(CodeSize(t), Paths(m, t, c));
    LoopsNestInGroups(s, 0, 0);
    CompiledRuns(m, t, p.entry, c);
    forall found | Yields(step, start, found)
      ensures found == all
    {
      YieldsUnique(step, start, found, all);
    }
  }

  lemma {:induction false} GroupsNumbered(nodes: seq<BreNode>, groups: nat)
    requires Numbering(nodes) && groups == GroupCount(nodes, |nodes|)
    ensures forall k :: 0 <= k < |nodes| && nodes[k].kind.GroupNode? ==> 1 <= nodes[k].group <= groups
  {
    forall k | 0 <= k < |nodes| && nodes[k].kind.GroupNode?
      ensures nodes[k].group <= groups
    {
      GroupCountGrows(nodes, k + 1, |nodes|);
    }
  }

  /** Appending ACCEPT and linking the tail to it keeps the tree placed. */
  lemma {:induction false} FinishPlaces(lowered: seq<Instruction>, code: seq<Instruction>, t: Tree)
    requires Placed(lowered, t, 0) && |lowered| == CodeSize(t)
    requires code == if HasCode(t) then SetNext(lowered + [Emit(Accept, 0, 0)], TailOf(t, 0), |lowered|)
                     else lowered + [Emit(Accept, 0, 0)]
    ensures Compiled(code, if HasCode(t) then EntryOf(t, 0) else CodeSize(t), t)
  {
    PlacedAgree(lowered, code, t, 0);
  }
}
