/** When lowering fails, and with which status: the node-by-node lowering of a tree
    comes to the verdict on its nodes. */
module BreLowerComplete {
  import opened Folding
  import opened BreSyntax
  import opened BreProgram
  import opened BreStatus
  import opened BreLowerSpec
  import opened BreLowerCorrect
  import opened BreVerdict

  /** Lowering `n` nodes has this room. */
  ghost predicate RoomOf(env: Env, room: Room, n: nat) {
    env.capacity == room.code && env.ranges == room.ranges && env.work + n == room.limits.maxSteps
  }

  /** Lowering fails with the status, or does not fail when the status is Ok. */
  ghost predicate ComesTo(r: Lowered, status: Status) {
    if r.Failed? then r.status == status != Ok else status == Ok
  }

  /** One node, its children being lowered. */
  lemma {:induction false} NodeJudged(env: Env, room: Room, nodes: seq<BreNode>, code: seq<Instruction>, s: Syntax,
                                      at: nat, parent: int, g: nat, lo: nat)
    requires RangesOk(nodes) && EnvOk(env, nodes) && |nodes| <= NONE && RoomOf(env, room, |nodes|)
    requires ShapeOk(s) && Bodied(s) && Mirrors(nodes, s, at, parent, g)
    requires KidsDone(nodes, code, s.kids, at + 1, InnerGroups(s, g), lo) && |code| == SizeFrom(nodes, at + 1)
    ensures ComesTo(Process(env, nodes, code, at), NodeStatus(nodes, room, at))
  {
    if s.kind.UnitNode? {
      CompleteIs(env, nodes, at, s.kind.a);
    } else if !s.kind.Terminal? {
      InnerJudged(env, room, nodes, code, s, at, parent, g, lo);
    }
  }

  /** A node that links its children: a loop always has something to repeat. */
  lemma {:induction false} InnerJudged(env: Env, room: Room, nodes: seq<BreNode>, code: seq<Instruction>, s: Syntax,
                                       at: nat, parent: int, g: nat, lo: nat)
    requires RangesOk(nodes) && EnvOk(env, nodes) && |nodes| <= NONE && RoomOf(env, room, |nodes|)
    requires ShapeOk(s) && Bodied(s) && Mirrors(nodes, s, at, parent, g) && !s.kind.UnitNode? && !s.kind.Terminal?
    requires KidsDone(nodes, code, s.kids, at + 1, InnerGroups(s, g), lo) && |code| == SizeFrom(nodes, at + 1)
    ensures ComesTo(Process(env, nodes, code, at), NodeStatus(nodes, room, at))
  {
    QuantifiedTree(nodes, s, at, parent, g);
    KidsLinked(nodes, code, s, at, parent, g, lo);
    LowersAnyHasCodes(s.kids, at + 1, InnerGroups(s, g));
  }

  /** Lowering the nodes of a tree fails exactly when one of them is refused, with
      the status of the last that is. */
  lemma {:induction false} TreeJudged(env: Env, room: Room, p: Processor, nodes: seq<BreNode>, code: seq<Instruction>,
                                      s: Syntax, at: nat, end: nat, parent: int, g: nat, r: Lowered)
    requires IsProcessor(env, p) && RangesOk(nodes) && EnvOk(env, nodes) && |nodes| <= NONE && |code| <= env.capacity
    requires ShapeOk(s) && Bodied(s) && Mirrors(nodes, s, at, parent, g) && g == GroupCount(nodes, at)
    requires Untouched(nodes, at, at + NodeCount(s)) && RoomOf(env, room, |nodes|)
    requires end == at + NodeCount(s) && r == ProcessDown(p, nodes, code, end, at) && |code| == SizeFrom(nodes, end)
    ensures ComesTo(r, LastFault(nodes, room, at, end))
    decreases s, 0
  {
    var kids := ProcessDown(p, nodes, code, end, at + 1);
    ForestJudged(env, room, p, nodes, code, s.kids, at + 1, end, at, InnerGroups(s, g), kids);
    KidsThenNode(env, room, p, nodes, code, s, at, end, parent, g, kids, r);
  }

  /** The children's outcome, and the node's own when they are lowered. */
  lemma {:induction false} KidsThenNode(env: Env, room: Room, p: Processor, nodes: seq<BreNode>, code: seq<Instruction>,
                                        s: Syntax, at: nat, end: nat, parent: int, g: nat, kids: Lowered, r: Lowered)
    requires IsProcessor(env, p) && RangesOk(nodes) && EnvOk(env, nodes) && |nodes| <= NONE && |code| <= env.capacity
    requires ShapeOk(s) && Bodied(s) && Mirrors(nodes, s, at, parent, g) && g == GroupCount(nodes, at)
    requires Untouched(nodes, at, at + NodeCount(s)) && RoomOf(env, room, |nodes|)
    requires end == at + NodeCount(s) && r == ProcessDown(p, nodes, code, end, at) && |code| == SizeFrom(nodes, end)
    requires kids == ProcessDown(p, nodes, code, end, at + 1) && ComesTo(kids, LastFault(nodes, room, at + 1, end))
    ensures ComesTo(r, LastFault(nodes, room, at, end))
  {
    ProcessSplit(p, nodes, code, end, at + 1, at);
    if kids.Lowered? {
      NodeJudgedNext(env, room, p, nodes, code, s, at, end, parent, g, kids, r);
    }
  }

  /** The children being lowered, the node itself is lowered next. */
  lemma {:induction false} NodeJudgedNext(env: Env, room: Room, p: Processor, nodes: seq<BreNode>,
                                          code: seq<Instruction>, s: Syntax, at: nat, end: nat, parent: int, g: nat,
                                          kids: Lowered, r: Lowered)
    requires IsProcessor(env, p) && RangesOk(nodes) && EnvOk(env, nodes) && |nodes| <= NONE && |code| <= env.capacity
    requires ShapeOk(s) && Bodied(s) && Mirrors(nodes, s, at, parent, g) && g == GroupCount(nodes, at)
    requires Untouched(nodes, at, at + NodeCount(s)) && RoomOf(env, room, |nodes|)
    requires end == at + NodeCount(s) && |code| == SizeFrom(nodes, end)
    requires kids == ProcessDown(p, nodes, code, end, at + 1) && kids.Lowered?
    requires r == ProcessDown(p, kids.nodes, kids.code, at + 1, at)
    ensures ComesTo(r, NodeStatus(nodes, room, at))
  {
    ProcessKeeps(env, p, nodes, code, end, at + 1);
    KidsLowered(env, p, nodes, code, s, at, end, parent, g, kids);
    ProcessOne(env, p, kids.nodes, kids.code, at);
    NodeJudgedLater(env, room, nodes, kids, s, at, parent, g, |code|);
  }

  /** The children's code has the size of their nodes. */
  lemma {:induction false} KidsLowered(env: Env, p: Processor, nodes: seq<BreNode>, code: seq<Instruction>, s: Syntax,
                                       at: nat, end: nat, parent: int, g: nat, kids: Lowered)
    requires IsProcessor(env, p) && RangesOk(nodes) && EnvOk(env, nodes) && |nodes| <= NONE && |code| <= env.capacity
    requires ShapeOk(s) && Mirrors(nodes, s, at, parent, g) && g == GroupCount(nodes, at)
    requires Untouched(nodes, at, at + NodeCount(s)) && end == at + NodeCount(s) && |code| == SizeFrom(nodes, end)
    requires kids == ProcessDown(p, nodes, code, end, at + 1) && kids.Lowered?
    ensures Changed(nodes, kids.nodes, at + 1, end) && |kids.code| == SizeFrom(nodes, at + 1)
    ensures KidsDone(kids.nodes, kids.code, s.kids, at + 1, InnerGroups(s, g), |code|)
  {
    LowerForest(env, p, nodes, code, s.kids, at + 1, end, at, InnerGroups(s, g), kids);
    ForestSized(nodes, code, s.kids, at + 1, end, at, InnerGroups(s, g), kids);
  }

  lemma {:induction false} NodeJudgedLater(env: Env, room: Room, nodes: seq<BreNode>, kids: Lowered, s: Syntax, at: nat,
                                           parent: int, g: nat, lo: nat)
    requires EnvOk(env, nodes) && ShapeOk(s) && Bodied(s) && Mirrors(nodes, s, at, parent, g)
    requires RoomOf(env, room, |nodes|) && |nodes| <= NONE
    requires kids.Lowered? && RangesOk(kids.nodes) && Changed(nodes, kids.nodes, at + 1, at + NodeCount(s))
    requires KidsDone(kids.nodes, kids.code, s.kids, at + 1, InnerGroups(s, g), lo)
    requires |kids.code| == SizeFrom(nodes, at + 1)
    ensures ComesTo(Process(env, kids.nodes, kids.code, at), NodeStatus(nodes, room, at))
  {
    MirrorsChanged(nodes, kids.nodes, s, at, parent, g);
    EnvChanged(env, nodes, kids.nodes);
    SizeSame(nodes, kids.nodes, at + 1);
    StatusSame(nodes, kids.nodes, room, at);
    NodeJudged(env, room, kids.nodes, kids.code, s, at, parent, g, lo);
  }

  lemma {:induction false} ForestJudged(env: Env, room: Room, p: Processor, nodes: seq<BreNode>, code: seq<Instruction>,
                                        ns: Nodes, at: nat, end: nat, parent: int, g: nat, r: Lowered)
    requires IsProcessor(env, p) && RangesOk(nodes) && EnvOk(env, nodes) && |nodes| <= NONE && |code| <= env.capacity
    requires ShapesOk(ns) && BodiedAll(ns) && MirrorsAll(nodes, ns, at, parent, g) && g == GroupCount(nodes, at)
    requires Untouched(nodes, at, at + NodeCounts(ns)) && RoomOf(env, room, |nodes|)
    requires end == at + NodeCounts(ns) && r == ProcessDown(p, nodes, code, end, at) && |code| == SizeFrom(nodes, end)
    ensures ComesTo(r, LastFault(nodes, room, at, end))
    decreases ns, 1
  {
    if ns.More? {
      var mid := at + NodeCount(ns.head);
      var rest := ProcessDown(p, nodes, code, end, mid);
      RestJudged(env, room, p, nodes, code, ns, at, end, parent, g, rest);
      ProcessSplit(p, nodes, code, end, mid, at);
      LastFaultSplit(nodes, room, at, mid, end);
      if rest.Lowered? {
        HeadAwaits(env, room, nodes, rest, ns, at, parent, g);
        HeadJudged(env, room, p, rest, ns.head, at, parent, g, r, LastFault(nodes, room, at, mid));
      }
      EitherFault(rest, r, LastFault(nodes, room, mid, end), LastFault(nodes, room, at, mid),
                  LastFault(nodes, room, at, end));
    }
  }

  /** The later of two faults ends it. */
  lemma {:induction false} EitherFault(rest: Lowered, r: Lowered, later: Status, earlier: Status, status: Status)
    requires ComesTo(rest, later) && (if rest.Failed? then r == rest else ComesTo(r, earlier))
    requires status == if later != Ok then later else earlier
    ensures ComesTo(r, status)
  {
  }

  lemma {:induction false} RestJudged(env: Env, room: Room, p: Processor, nodes: seq<BreNode>, code: seq<Instruction>,
                                      ns: Nodes, at: nat, end: nat, parent: int, g: nat, rest: Lowered)
    requires IsProcessor(env, p) && RangesOk(nodes) && EnvOk(env, nodes) && |nodes| <= NONE && |code| <= env.capacity
    requires ns.More? && ShapesOk(ns) && BodiedAll(ns) && MirrorsAll(nodes, ns, at, parent, g)
    requires g == GroupCount(nodes, at) && Untouched(nodes, at, at + NodeCounts(ns)) && RoomOf(env, room, |nodes|)
    requires end == at + NodeCounts(ns) && |code| == SizeFrom(nodes, end)
    requires rest == ProcessDown(p, nodes, code, end, at + NodeCount(ns.head))
    ensures var mid := at + NodeCount(ns.head);
            && ComesTo(rest, LastFault(nodes, room, mid, end))
            && (rest.Lowered? ==>
                  && |rest.code| <= env.capacity && RangesOk(rest.nodes) && Changed(nodes, rest.nodes, mid, end)
                  && |rest.code| == SizeFrom(nodes, mid))
    decreases ns, 0
  {
    TailReady(nodes, ns, at, parent, g);
    ForestJudged(env, room, p, nodes, code, ns.tail, at + NodeCount(ns.head), end, parent, g + Groups(ns.head), rest);
    if rest.Lowered? {
      RestLowered(env, p, nodes, code, ns, at, end, parent, g, rest);
    }
  }

  lemma {:induction false} RestLowered(env: Env, p: Processor, nodes: seq<BreNode>, code: seq<Instruction>, ns: Nodes,
                                       at: nat, end: nat, parent: int, g: nat, rest: Lowered)
    requires IsProcessor(env, p) && RangesOk(nodes) && EnvOk(env, nodes) && |nodes| <= NONE && |code| <= env.capacity
    requires ns.More? && ShapesOk(ns) && MirrorsAll(nodes, ns, at, parent, g) && g == GroupCount(nodes, at)
    requires Untouched(nodes, at, at + NodeCounts(ns)) && end == at + NodeCounts(ns) && |code| == SizeFrom(nodes, end)
    requires rest == ProcessDown(p, nodes, code, end, at + NodeCount(ns.head)) && rest.Lowered?
    ensures var mid := at + NodeCount(ns.head);
            && |rest.code| <= env.capacity && RangesOk(rest.nodes) && Changed(nodes, rest.nodes, mid, end)
            && |rest.code| == SizeFrom(nodes, mid)
  {
    var mid := at + NodeCount(ns.head);
    ProcessKeeps(env, p, nodes, code, end, mid);
    TailReady(nodes, ns, at, parent, g);
    LowerForest(env, p, nodes, code, ns.tail, mid, end, parent, g + Groups(ns.head), rest);
    ForestSized(nodes, code, ns.tail, mid, end, parent, g + Groups(ns.head), rest);
  }

  /** Lowered trees have the size of their nodes. */
  lemma {:induction false} ForestSized(nodes: seq<BreNode>, code: seq<Instruction>, ns: Nodes, at: nat, end: nat,
                                       parent: int, g: nat, r: Lowered)
    requires ShapesOk(ns) && MirrorsAll(nodes, ns, at, parent, g) && end == at + NodeCounts(ns)
    requires |code| == SizeFrom(nodes, end) && ForestDone(nodes, code, r, ns, at, g) && r.Lowered?
    ensures Changed(nodes, r.nodes, at, end) && |r.code| == SizeFrom(nodes, at)
    ensures KidsDone(r.nodes, r.code, ns, at, g, |code|)
  {
    SizeForest(nodes, ns, at, parent, g);
  }

  /** What is recorded at later nodes plays no part. */
  lemma {:induction false} ChangedJudged(nodes: seq<BreNode>, nodes': seq<BreNode>, room: Room, at: nat, mid: nat,
                                         end: nat)
    requires Changed(nodes, nodes', mid, end) && mid <= |nodes|
    ensures SizeFrom(nodes', mid) == SizeFrom(nodes, mid)
    ensures LastFault(nodes', room, at, mid) == LastFault(nodes, room, at, mid)
  {
    SizeSame(nodes, nodes', mid);
    LastFaultSame(nodes, nodes', room, at, mid);
  }

  /** A tree whose later siblings are lowered, and what its nodes come to. Kept folded. */
  ghost predicate Awaits(env: Env, room: Room, rest: Lowered, s: Syntax, at: nat, parent: int, g: nat,
                         status: Status) {
    forall z: nat {:trigger Shown(z)} :: Shown(z) ==>
      && rest.Lowered? && RangesOk(rest.nodes) && EnvOk(env, rest.nodes) && |rest.nodes| <= NONE
      && |rest.code| <= env.capacity && RoomOf(env, room, |rest.nodes|)
      && ShapeOk(s) && Bodied(s) && Mirrors(rest.nodes, s, at, parent, g) && g == GroupCount(rest.nodes, at)
      && Untouched(rest.nodes, at, at + NodeCount(s)) && |rest.code| == SizeFrom(rest.nodes, at + NodeCount(s))
      && status == LastFault(rest.nodes, room, at, at + NodeCount(s))
  }

  lemma {:induction false} HeadAwaits(env: Env, room: Room, nodes: seq<BreNode>, rest: Lowered, ns: Nodes, at: nat,
                                      parent: int, g: nat)
    requires EnvOk(env, nodes) && |nodes| <= NONE && RoomOf(env, room, |nodes|)
    requires ns.More? && ShapesOk(ns) && BodiedAll(ns) && MirrorsAll(nodes, ns, at, parent, g)
    requires g == GroupCount(nodes, at) && Untouched(nodes, at, at + NodeCounts(ns))
    requires rest.Lowered? && |rest.code| <= env.capacity && RangesOk(rest.nodes)
    requires Changed(nodes, rest.nodes, at + NodeCount(ns.head), at + NodeCounts(ns))
    requires |rest.code| == SizeFrom(nodes, at + NodeCount(ns.head))
    ensures Awaits(env, room, rest, ns.head, at, parent, g, LastFault(nodes, room, at, at + NodeCount(ns.head)))
  {
    HeadReady(env, nodes, rest.nodes, ns, at, parent, g);
    TreeAwaits(env, room, nodes, rest, ns.head, at, at + NodeCounts(ns), parent, g);
  }

  lemma {:induction false} TreeAwaits(env: Env, room: Room, nodes: seq<BreNode>, rest: Lowered, s: Syntax, at: nat,
                                      end: nat, parent: int, g: nat)
    requires rest.Lowered? && RangesOk(rest.nodes) && EnvOk(env, rest.nodes) && |nodes| <= NONE
    requires |rest.code| <= env.capacity && RoomOf(env, room, |nodes|) && at + NodeCount(s) <= |nodes|
    requires ShapeOk(s) && Bodied(s) && Mirrors(rest.nodes, s, at, parent, g) && g == GroupCount(rest.nodes, at)
    requires Untouched(rest.nodes, at, at + NodeCount(s)) && |rest.code| == SizeFrom(nodes, at + NodeCount(s))
    requires Changed(nodes, rest.nodes, at + NodeCount(s), end)
    ensures Awaits(env, room, rest, s, at, parent, g, LastFault(nodes, room, at, at + NodeCount(s)))
  {
    ChangedJudged(nodes, rest.nodes, room, at, at + NodeCount(s), end);
  }

  lemma {:induction false} HeadJudged(env: Env, room: Room, p: Processor, rest: Lowered, s: Syntax, at: nat,
                                      parent: int, g: nat, r: Lowered, status: Status)
    requires IsProcessor(env, p) && rest.Lowered? && Awaits(env, room, rest, s, at, parent, g, status)
    requires r == ProcessDown(p, rest.nodes, rest.code, at + NodeCount(s), at)
    ensures ComesTo(r, status)
    decreases s, 1
  {
    assert Shown(0);
    TreeJudged(env, room, p, rest.nodes, rest.code, s, at, at + NodeCount(s), parent, g, r);
  }
}
