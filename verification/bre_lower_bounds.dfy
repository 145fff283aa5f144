/** The largest number a loop of the code may have to count to, kept beside the
    code so that a caller's limit can be checked without looking at it. */
module BreLowerBounds {
  import opened BreProgram
  import opened BreSyntax
  import opened BreLowerSpec

  function LoopBound(min: nat, max: nat): nat {
    if max == NONE then min else max
  }

  function BoundOf(c: Instruction): nat {
    if c.op.Repeat? then LoopBound(c.min, c.max) else 0
  }

  function Larger(a: nat, b: nat): nat {
    if a > b then a else b
  }

  /** `b` is the largest bound of the loops in the code. */
  ghost predicate BoundedBy(code: seq<Instruction>, b: nat) {
    (forall k :: 0 <= k < |code| ==> BoundOf(code[k]) <= b)
        && (b == 0 || exists k :: 0 <= k < |code| && BoundOf(code[k]) == b)
  }

  /** The bound a node's quantifier adds. */
  function QuantifierBound(k: Kind): nat {
    if k.Quantifier? then LoopBound(k.min, k.max) else 0
  }

  /** The largest bound once node `i`, chained to `quantifier`, is lowered. */
  function NextBound(nodes: seq<BreNode>, i: nat, quantifier: nat, b: nat): nat
    requires i < |nodes|
  {
    if nodes[i].kind.PieceNode? && quantifier < |nodes| then Larger(QuantifierBound(nodes[quantifier].kind), b) else b
  }

  lemma {:induction false} LinkKeepsBounds(nodes: seq<BreNode>, i: nat, j: nat, chain: Chain)
    requires RangesOk(nodes) && i < |nodes|
    ensures forall k :: 0 <= k < |chain.code| ==> BoundOf(Link(nodes, i, j, chain).code[k]) == BoundOf(chain.code[k])
    decreases |nodes| - j
  {
    if j < nodes[i].end {
      LinkKeepsBounds(nodes, i, nodes[j].end, if nodes[j].parent != i then chain else LinkOne(chain, nodes[j], j));
    }
  }

  lemma {:induction false} BoundedSame(code: seq<Instruction>, code': seq<Instruction>, b: nat)
    requires BoundedBy(code, b) && |code| == |code'|
             && forall k :: 0 <= k < |code| ==> BoundOf(code'[k]) == BoundOf(code[k])
    ensures BoundedBy(code', b)
  {
    if b > 0 {
      var k :| 0 <= k < |code| && BoundOf(code[k]) == b;
      assert BoundOf(code'[k]) == b;
    }
  }

  /** One instruction more. */
  lemma {:induction false} BoundedPush(code: seq<Instruction>, c: Instruction, b: nat)
    requires BoundedBy(code, b)
    ensures BoundedBy(code + [c], Larger(BoundOf(c), b))
  {
    var all := code + [c];
    if BoundOf(c) > b {
      assert BoundOf(all[|code|]) == BoundOf(c);
    } else if b > 0 {
      var k :| 0 <= k < |code| && BoundOf(code[k]) == b;
      assert BoundOf(all[k]) == b;
    }
  }

  /** Two instructions more, the second of them no loop, and one link set. */
  lemma {:induction false} BoundedOwn(code: seq<Instruction>, c: Instruction, d: Instruction, at: nat, next: nat,
                                      b: nat)
    requires BoundedBy(code, b) && BoundOf(d) == 0
    ensures BoundedBy(SetNext(code + [c, d], at, next), Larger(BoundOf(c), b))
    ensures BoundedBy(code + [c, d], Larger(BoundOf(c), b))
  {
    BoundedPush(code, c, b);
    BoundedPush(code + [c], d, Larger(BoundOf(c), b));
    assert code + [c] + [d] == code + [c, d];
    BoundedSame(code + [c, d], SetNext(code + [c, d], at, next), Larger(BoundOf(c), b));
  }

  lemma {:induction false} GroupBounds(env: Env, nodes: seq<BreNode>, chain: Chain, i: nat, b: nat)
    requires i < |nodes| && |env.positions| > env.groups && BoundedBy(chain.code, b)
    ensures var r := LowerGroup(env, nodes, i, chain); r.Lowered? ==> BoundedBy(r.code, b)
  {
    var close := |chain.code| + 1;
    BoundedOwn(chain.code,
               Instruction(Open, nodes[i].group, LastInside(env, nodes[i].group, nodes[i].end),
                           if chain.entry == NONE then close else chain.entry, 0, i),
               Emit(Close, nodes[i].group, 0), chain.tail, close, b);
  }

  lemma {:induction false} LoopBounds(env: Env, nodes: seq<BreNode>, chain: Chain, i: nat, b: nat)
    requires i < |nodes| && |env.positions| > env.groups && BoundedBy(chain.code, b) && chain.quantifier < |nodes|
    ensures var r := LowerLoop(env, nodes, i, chain);
            r.Lowered? ==> BoundedBy(r.code, Larger(QuantifierBound(nodes[chain.quantifier].kind), b))
  {
    var repeat := |chain.code|;
    var q := nodes[chain.quantifier].kind;
    var c := if q.Quantifier? then Instruction(Repeat, chain.entry, i, NONE, q.min, q.max)
      else Emit(Repeat, chain.entry, i);
    BoundedOwn(chain.code, c, Emit(RepeatEnd, repeat, 0), chain.tail, repeat + 1, b);
  }

  /** Lowering one node keeps the bound up to date. */
  lemma {:induction false} ProcessBounds(env: Env, nodes: seq<BreNode>, code: seq<Instruction>, i: nat, b: nat)
    requires RangesOk(nodes) && i < |nodes| < NONE && |env.positions| > env.groups && BoundedBy(code, b)
    requires nodes[i].kind.UnitNode? ==> IsUnit(nodes[i].kind.op)
    ensures var r := Process(env, nodes, code, i);
            r.Lowered? ==>
              if nodes[i].kind.Terminal? || nodes[i].kind.UnitNode? then BoundedBy(r.code, b)
              else
                var q := Link(nodes, i, i + 1, Chain(code, NONE, NONE, NONE)).quantifier;
                BoundedBy(r.code, NextBound(nodes, i, q, b))
  {
    var n := nodes[i];
    if n.kind.UnitNode? {
      BoundedPush(code, Emit(n.kind.op, n.kind.a, n.kind.b), b);
    } else if !n.kind.Terminal? {
      var chain := Link(nodes, i, i + 1, Chain(code, NONE, NONE, NONE));
      LinkKeepsBounds(nodes, i, i + 1, Chain(code, NONE, NONE, NONE));
      BoundedSame(code, chain.code, b);
      if n.kind.GroupNode? {
        GroupBounds(env, nodes, chain, i, b);
      } else if n.kind.PieceNode? && chain.quantifier != NONE {
        LoopBounds(env, nodes, chain, i, b);
      }
    }
  }
}
