/** Lowering one node after another, from the last to the first, as a function
    on the node array and the code emitted so far. */
module BreLowerSpec {
  import opened BreProgram
  import opened BreSyntax
  import opened BreStatus

  datatype Lowered = Lowered(nodes: seq<BreNode>, code: seq<Instruction>) | Failed(status: Status)

  /** Where each group was numbered, and how much code, how many ranges and how many steps there may be. */
  datatype Env = Env(groups: nat, positions: seq<nat>, capacity: nat, ranges: nat, work: nat)

  /** What the second pass is charged for the nodes from `i` on. */
  function EffortFrom(nodes: seq<BreNode>, i: nat): nat
    requires i <= |nodes|
    decreases |nodes| - i
  {
    if i == |nodes| then 0 else EffortFrom(nodes, i + 1) + Charge(nodes[i].kind)
  }

  function Emit(op: Op, a: nat, b: nat): Instruction {
    Instruction(op, a, b, NONE, 0, 0)
  }

  /** Array indices are consistent: every subtree is a nonempty range inside the array. */
  predicate RangesOk(nodes: seq<BreNode>) {
    forall i :: 0 <= i < |nodes| ==> i < nodes[i].end <= |nodes|
  }

  datatype Chain = Chain(code: seq<Instruction>, entry: nat, tail: nat, quantifier: nat)

  function SetNext(code: seq<Instruction>, at: nat, next: nat): seq<Instruction> {
    if at < |code| then code[at := code[at].(next := next)] else code
  }

  /** Appends one child to the chain; `j` is its index. */
  function LinkOne(chain: Chain, child: BreNode, j: nat): (r: Chain)
    ensures |r.code| == |chain.code| && (r.quantifier == chain.quantifier || r.quantifier == j)
  {
    var c := if child.entry == NONE then chain
             else if chain.entry == NONE then chain.(entry := child.entry, tail := child.tail)
             else chain.(code := SetNext(chain.code, chain.tail, child.entry), tail := child.tail);
    if child.kind.Quantifier? then c.(quantifier := j) else c
  }

  /** Links the children of node `i` from index `j` on, behind the chain built so far. */
  function Link(nodes: seq<BreNode>, i: nat, j: nat, chain: Chain): (r: Chain)
    requires RangesOk(nodes) && i < |nodes|
    ensures |r.code| == |chain.code|
    ensures r.quantifier == chain.quantifier || r.quantifier < |nodes|
    decreases |nodes| - j
  {
    if j >= nodes[i].end then chain
    else Link(nodes, i, nodes[j].end, if nodes[j].parent != i then chain else LinkOne(chain, nodes[j], j))
  }

  /** The last group numbered inside a range that ends at `end`. */
  function LastInside(env: Env, group: nat, end: nat): (last: nat)
    requires |env.positions| > env.groups
    ensures last >= group
    decreases env.groups - group
  {
    if group < env.groups && env.positions[group + 1] < end then LastInside(env, group + 1, end) else group
  }

  function Finish(nodes: seq<BreNode>, code: seq<Instruction>, i: nat, entry: nat, tail: nat): Lowered
    requires i < |nodes|
  {
    Lowered(nodes[i := nodes[i].(entry := entry, tail := tail)], code)
  }

  /** A reference is legal when its group exists and ended before it. */
  predicate ReferenceOk(env: Env, nodes: seq<BreNode>, i: nat, group: nat)
    requires |env.positions| > env.groups
  {
    1 <= group <= env.groups && (env.positions[group] < |nodes| ==> nodes[env.positions[group]].end <= i)
  }

  function LowerGroup(env: Env, nodes: seq<BreNode>, i: nat, chain: Chain): Lowered
    requires i < |nodes| && |env.positions| > env.groups
  {
    var open := |chain.code|;
    var close := open + 1;
    if close >= env.capacity then Failed(Limit)
    else
      var code := chain.code +
                  [Instruction(Open, nodes[i].group, LastInside(env, nodes[i].group, nodes[i].end),
                               if chain.entry == NONE then close else chain.entry, 0, i),
                   Emit(Close, nodes[i].group, 0)];
      Finish(nodes, if chain.tail == NONE then code else SetNext(code, chain.tail, close), i, open, close)
  }

  function LowerLoop(env: Env, nodes: seq<BreNode>, i: nat, chain: Chain): Lowered
    requires i < |nodes| && chain.quantifier < |nodes|
  {
    var repeat := |chain.code|;
    var end := repeat + 1;
    var q := nodes[chain.quantifier].kind;
    if end >= env.capacity || chain.entry == NONE then Failed(Limit)
    else
      var code := chain.code +
                  [if q.Quantifier? then Instruction(Repeat, chain.entry, i, NONE, q.min, q.max)
                   else Emit(Repeat, chain.entry, i),
                   Emit(RepeatEnd, repeat, 0)];
      Finish(nodes, SetNext(code, chain.tail, end), i, repeat, repeat)
  }

  /** Lowers node `i`, all later nodes being lowered. */
  function Process(env: Env, nodes: seq<BreNode>, code: seq<Instruction>, i: nat): (r: Lowered)
    requires RangesOk(nodes) && i < |nodes| && |env.positions| > env.groups
    ensures r.Lowered? ==> |r.nodes| == |nodes| && RangesOk(r.nodes)
  {
    var n := nodes[i];
    if n.kind.Terminal? then Lowered(nodes, code)
    else if EffortFrom(nodes, i) > env.work then Failed(Limit)
    else if !Within(env.ranges)(n.kind) then Failed(Limit)
    else if FaultOf(n.kind) != Ok then Failed(FaultOf(n.kind))
    else if n.kind.UnitNode? then
      if n.kind.op.Ref? && !ReferenceOk(env, nodes, i, n.kind.a) then Failed(BadPattern)
      else if |code| >= env.capacity then Failed(Limit)
      else Finish(nodes, code + [Emit(n.kind.op, n.kind.a, n.kind.b)], i, |code|, |code|)
    else
      var chain := Link(nodes, i, i + 1, Chain(code, NONE, NONE, NONE));
      if n.kind.GroupNode? then LowerGroup(env, nodes, i, chain)
      else if n.kind.PieceNode? && chain.quantifier != NONE then LowerLoop(env, nodes, i, chain)
      else Finish(nodes, chain.code, i, chain.entry, chain.tail)
  }

  /** One node's lowering as a function value. */
  type Processor = (seq<BreNode>, seq<Instruction>, nat) -> Lowered

  /** `p` is the processing of a node; the name keeps proofs that only chain nodes from looking inside. */
  ghost predicate IsProcessor(env: Env, p: Processor) {
    |env.positions| > env.groups &&
    forall nodes, code, i: nat {:trigger Process(env, nodes, code, i)} :: RangesOk(nodes) && i < |nodes| ==>
      p(nodes, code, i) == Process(env, nodes, code, i)
  }

  lemma {:induction false} TheProcessor(env: Env) returns (p: Processor)
    requires |env.positions| > env.groups
    ensures IsProcessor(env, p)
  {
    p := (nodes: seq<BreNode>, code: seq<Instruction>, i: nat) =>
      if RangesOk(nodes) && i < |nodes| then Process(env, nodes, code, i) else Failed(Limit);
  }

  /** Lowers the nodes `hi - 1` down to `lo`. */
  ghost function ProcessDown(p: Processor, nodes: seq<BreNode>, code: seq<Instruction>, hi: nat, lo: nat): Lowered
    decreases hi
  {
    if hi <= lo then Lowered(nodes, code)
    else
      var r := p(nodes, code, hi - 1);
      if r.Failed? then r else ProcessDown(p, r.nodes, r.code, hi - 1, lo)
  }

  lemma {:induction false} ProcessSplit(p: Processor, nodes: seq<BreNode>, code: seq<Instruction>, hi: nat, mid: nat,
                                        lo: nat)
    requires lo <= mid <= hi
    ensures var a := ProcessDown(p, nodes, code, hi, mid);
            ProcessDown(p, nodes, code, hi, lo) == if a.Failed? then a else ProcessDown(p, a.nodes, a.code, mid, lo)
    decreases hi
  {
    if hi > mid {
      var r := p(nodes, code, hi - 1);
      if r.Lowered? {
        ProcessSplit(p, r.nodes, r.code, hi - 1, mid, lo);
      }
    }
  }

  lemma {:induction false} ProcessOne(env: Env, p: Processor, nodes: seq<BreNode>, code: seq<Instruction>, i: nat)
    requires IsProcessor(env, p) && RangesOk(nodes) && i < |nodes|
    ensures ProcessDown(p, nodes, code, i + 1, i) == Process(env, nodes, code, i)
  {
    var r := Process(env, nodes, code, i);
    assert p(nodes, code, i) == r;
    if r.Lowered? {
      assert ProcessDown(p, r.nodes, r.code, i, i) == r;
    }
  }

  /** Processing keeps the array's shape and the code within capacity. */
  lemma {:induction false} ProcessKeeps(env: Env, p: Processor, nodes: seq<BreNode>, code: seq<Instruction>, hi: nat,
                                        lo: nat)
    requires IsProcessor(env, p) && RangesOk(nodes) && hi <= |nodes| && |code| <= env.capacity
    ensures var r := ProcessDown(p, nodes, code, hi, lo);
            r.Lowered? ==> |r.nodes| == |nodes| && RangesOk(r.nodes) && |r.code| <= env.capacity
    decreases hi
  {
    if lo < hi {
      var r := Process(env, nodes, code, hi - 1);
      assert p(nodes, code, hi - 1) == r;
      if r.Lowered? {
        ProcessKeeps(env, p, r.nodes, r.code, hi - 1, lo);
      }
    }
  }
}
