/** The path semantics of an expression tree: every way it can match from a
    state, in the order a depth-first search meets them. */
module BrePaths {
  import opened BreProgram

  ghost predicate Ahead(m: Machine, c: Core, d: Core) {
    m.CoreOk(d) && c.pos <= d.pos
  }

  ghost predicate AllAhead(m: Machine, c: Core, ds: seq<Core>) {
    forall i :: 0 <= i < |ds| ==> Ahead(m, c, ds[i])
  }

  ghost function Paths(m: Machine, t: Tree, c: Core): (r: seq<Core>)
    requires TreeOk(m, t) && m.CoreOk(c)
    ensures AllAhead(m, c, r)
    decreases t, 0, 0, 0, 0
  {
    match t
    case Skip => [c]
    case Unit(op, a, b) => UnitStep(m, op, a, b, c)
    case Concat(kids) => ForestPaths(m, kids, c)
    case Group(key, id, last, kids) =>
      CloseEach(m, ForestPaths(m, kids, OpenGroup(m, c, key, id, last)), id)
    case Loop(key, min, max, kids) =>
      Walk(m, t, |c.history|, 0, false, OpenScope(c, key))
  }

  ghost function CloseEach(m: Machine, cs: seq<Core>, id: nat): (r: seq<Core>)
    requires id < SLOTS && forall i :: 0 <= i < |cs| ==> m.CoreOk(cs[i])
    ensures |r| == |cs| && forall i :: 0 <= i < |cs| ==> r[i] == CloseGroup(m, cs[i], id)
  {
    if cs == [] then [] else [CloseGroup(m, cs[0], id)] + CloseEach(m, cs[1..], id)
  }

  ghost function ForestPaths(m: Machine, f: Forest, c: Core): (r: seq<Core>)
    requires ForestOk(m, f) && m.CoreOk(c)
    ensures AllAhead(m, c, r)
    decreases f, 0, 0, 0, 0
  {
    match f
    case Nil => [c]
    case Cons(head, tail) => EachPath(m, tail, Paths(m, head, c), c)
  }

  /** The continuations of several states, in order. */
  ghost function EachPath(m: Machine, f: Forest, cs: seq<Core>, from: Core): (r: seq<Core>)
    requires ForestOk(m, f) && AllAhead(m, from, cs)
    ensures AllAhead(m, from, r)
    decreases f, 2, 0, 0, |cs|
  {
    if cs == [] then [] else ForestPaths(m, f, cs[0]) + EachPath(m, f, cs[1..], from)
  }

  predicate CanExit(t: Tree, count: nat)
    requires t.Loop?
  {
    count >= t.min
  }

  predicate CanEnter(t: Tree, count: nat, zero: bool)
    requires t.Loop?
  {
    count < t.max && (!zero || count < t.min)
  }

  /** An optional iteration that consumed nothing after the loop took part is dropped. */
  predicate Dropped(t: Tree, count: nat, empty: bool)
    requires t.Loop?
  {
    empty && count > 0 && count >= t.min
  }

  /** Iterations still possible: required ones, one per position, one first empty participation. */
  function Slack(m: Machine, t: Tree, count: nat, zero: bool, pos: nat): nat
    requires t.Loop? && pos <= |m.input|
  {
    (if count < t.min then t.min - count else 0) + (|m.input| - pos) + (if zero && count >= t.min then 0 else 1)
  }

  /** The ways to finish a loop that has completed `count` iterations, the last
      one empty if `zero`: one more iteration first, then leaving. */
  ghost function Walk(m: Machine, t: Tree, open: nat, count: nat, zero: bool, c: Core): (r: seq<Core>)
    requires t.Loop? && TreeOk(m, t) && m.CoreOk(c)
    ensures AllAhead(m, c, r)
    decreases t.kids, 1, Slack(m, t, count, zero, c.pos), 1, 0
  {
    (if CanEnter(t, count, zero) then
       WalkEach(m, t, open, count, zero, c, ForestPaths(m, t.kids, c))
     else []) +
    (if CanExit(t, count) then [CloseScope(c, open)] else [])
  }

  ghost function WalkEach(m: Machine, t: Tree, open: nat, count: nat, zero: bool, c: Core,
                          ds: seq<Core>): (r: seq<Core>)
    requires t.Loop? && TreeOk(m, t) && m.CoreOk(c) && AllAhead(m, c, ds) && CanEnter(t, count, zero)
    ensures AllAhead(m, c, r)
    decreases t.kids, 1, Slack(m, t, count, zero, c.pos), 0, |ds|
  {
    if ds == [] then []
    else
      (if Dropped(t, count, ds[0].pos == c.pos) then []
       else Walk(m, t, open, count + 1, ds[0].pos == c.pos, ds[0])) +
      WalkEach(m, t, open, count, zero, c, ds[1..])
  }

  /** Consecutive iterations of one activation of a loop: the states between them. */
  ghost predicate Iterations(m: Machine, t: Tree, cs: seq<Core>) {
    && t.Loop? && TreeOk(m, t) && cs != [] && (forall i :: 0 <= i < |cs| ==> m.CoreOk(cs[i]))
    && forall i :: 0 <= i < |cs| - 1 ==> OneIteration(m, t, cs, i)
  }

  ghost predicate OneIteration(m: Machine, t: Tree, cs: seq<Core>, i: nat)
    requires t.Loop? && TreeOk(m, t) && i + 1 < |cs| && m.CoreOk(cs[i])
  {
    && cs[i + 1] in ForestPaths(m, t.kids, cs[i])
    && CanEnter(t, i, i > 0 && cs[i].pos == cs[i - 1].pos) && !Dropped(t, i, cs[i + 1].pos == cs[i].pos)
  }

  /** One activation of a loop runs its body at most as often as required, or
      once, and then once for every position left. */
  lemma {:induction false} IterationsBounded(m: Machine, t: Tree, cs: seq<Core>)
    requires Iterations(m, t, cs)
    ensures |cs| - 1 <= (if t.min > 1 then t.min else 1) + (cs[|cs| - 1].pos - cs[0].pos)
    ensures cs[0].pos <= cs[|cs| - 1].pos <= |m.input|
    decreases |cs|
  {
    var n := |cs| - 1;
    if n > 0 {
      var before := cs[..n];
      assert forall i :: 0 <= i < n - 1 ==> OneIteration(m, t, cs, i) ==> OneIteration(m, t, before, i);
      IterationsBounded(m, t, before);
      assert OneIteration(m, t, cs, n - 1);
      assert Ahead(m, cs[n - 1], cs[n]);
    }
  }
}
