/** The parser's node array, with each node's role, is the array that lowering expects. */
module PegSyntax {
  import Grammar = PegGrammar
  import Events = PegEvents
  import opened BreProgram
  import opened BreSyntax

  /** What a rule's node stands for: its role, with the operands decoded from the
      tokens below the node at the given index. */
  type Naming = (nat, nat) -> Kind

  /** The syntax tree of a parse tree whose nodes start at `at`. */
  function Shape(name: Naming, t: Grammar.Tree, at: nat): Syntax
    decreases t
  {
    if t.Leaf? then Syntax(Terminal, NoNodes) else Syntax(name(t.rule, at), Shapes(name, t.kids, at + 1))
  }

  function Shapes(name: Naming, ts: Grammar.Trees, at: nat): Nodes
    decreases ts
  {
    if ts.Nil? then NoNodes else More(Shape(name, ts.head, at), Shapes(name, ts.tail, at + Events.Size(ts.head)))
  }

  function NodeOf(name: Naming, e: Events.Entry, at: nat): BreNode {
    BreNode(if e.isRule then name(e.name, at) else Terminal, e.end, e.parent, NONE, NONE, 0)
  }

  /** Parse events with their roles, the first of them at index `at`. */
  function Named(name: Naming, es: seq<Events.Entry>, at: nat): (r: seq<BreNode>)
    ensures |r| == |es| && forall k :: 0 <= k < |es| ==> r[k] == NodeOf(name, es[k], at + k)
  {
    seq(|es|, k requires 0 <= k < |es| => NodeOf(name, es[k], at + k))
  }

  lemma {:induction false} NamedJoin(name: Naming, a: seq<Events.Entry>, b: seq<Events.Entry>, at: nat)
    ensures Named(name, a + b, at) == Named(name, a, at) + Named(name, b, at + |a|)
  {
  }

  lemma {:induction false} ShapeSize(name: Naming, t: Grammar.Tree, at: nat)
    ensures NodeCount(Shape(name, t, at)) == Events.Size(t)
    decreases t
  {
    if t.Branch? {
      ShapesSize(name, t.kids, at + 1);
    }
  }

  lemma {:induction false} ShapesSize(name: Naming, ts: Grammar.Trees, at: nat)
    ensures NodeCounts(Shapes(name, ts, at)) == Events.Sizes(ts)
    decreases ts
  {
    if ts.Cons? {
      ShapeSize(name, ts.head, at);
      ShapesSize(name, ts.tail, at + Events.Size(ts.head));
    }
  }

  /** Naming the events of a parse tree gives the node array of its syntax tree. */
  lemma {:induction false} ShapeFlattens(name: Naming, t: Grammar.Tree, at: nat, parent: int)
    ensures Flatten(Shape(name, t, at), at, parent) == Named(name, Events.Flatten(t, at, parent), at)
    decreases t
  {
    ShapeSize(name, t, at);
    var es := Events.Flatten(t, at, parent);
    if t.Branch? {
      ShapesFlatten(name, t.kids, at + 1, at);
      NamedJoin(name, [es[0]], Events.FlattenAll(t.kids, at + 1, at), at);
    } else {
      assert FlattenAll(NoNodes, at + 1, at) == [];
    }
  }

  lemma {:induction false} ShapesFlatten(name: Naming, ts: Grammar.Trees, at: nat, parent: int)
    ensures FlattenAll(Shapes(name, ts, at), at, parent) == Named(name, Events.FlattenAll(ts, at, parent), at)
    decreases ts
  {
    if ts.Cons? {
      var mid := at + Events.Size(ts.head);
      var head := Events.Flatten(ts.head, at, parent);
      var tail := Events.FlattenAll(ts.tail, mid, parent);
      ShapeSize(name, ts.head, at);
      ShapeFlattens(name, ts.head, at, parent);
      ShapesFlatten(name, ts.tail, mid, parent);
      FlattenMore(Shape(name, ts.head, at), Shapes(name, ts.tail, mid), at, mid, parent);
      NamedParts(name, head, tail, Events.FlattenAll(ts, at, parent), at, mid);
    }
  }

  lemma {:induction false} FlattenMore(head: Syntax, tail: Nodes, at: nat, mid: nat, parent: int)
    requires mid == at + NodeCount(head)
    ensures FlattenAll(More(head, tail), at, parent) == Flatten(head, at, parent) + FlattenAll(tail, mid, parent)
  {
  }

  lemma {:induction false} NamedParts(name: Naming, a: seq<Events.Entry>, b: seq<Events.Entry>, all: seq<Events.Entry>,
                                      at: nat, mid: nat)
    requires all == a + b && mid == at + |a|
    ensures Named(name, all, at) == Named(name, a, at) + Named(name, b, mid)
  {
    NamedJoin(name, a, b, at);
  }
}
