/** The recursive reference semantics of an expression: all ways to match, each
    with its captures and the scopes it went through. It knows no instructions,
    no loop counters and no history log. */
module BreReference {
  import opened BreProgram
  import opened BreScopes

  datatype Span = Unset | Span(from: nat, to: nat)

  /** A way to match so far: position, captures, completed scopes. */
  datatype Out = Out(at: nat, caps: seq<Span>, scopes: Scopes)

  ghost predicate OutOk(m: Machine, o: Out) {
    && o.at <= |m.input| && |o.caps| == SLOTS
    && forall g :: 0 <= g < SLOTS && o.caps[g].Span? ==> o.caps[g].from <= o.caps[g].to <= o.at
  }

  ghost predicate After(m: Machine, o: Out, r: Out) {
    OutOk(m, r) && o.at <= r.at
  }

  ghost predicate AllAfter(m: Machine, o: Out, rs: seq<Out>) {
    forall i :: 0 <= i < |rs| ==> After(m, o, rs[i])
  }

  /** A new participation forgets the captures inside it. */
  function Clear(caps: seq<Span>, id: nat, last: nat): seq<Span> {
    seq(|caps|, g requires 0 <= g < |caps| => if id <= g <= last then Unset else caps[g])
  }

  /** `r`, reached inside a scope entered at `o`, seen from outside it. */
  function Wrap(o: Out, key: nat, r: Out): Out
    requires o.at <= r.at
  {
    r.(scopes := Append(o.scopes, Then(Scope(key, o.at, r.at - o.at, r.scopes), Flat)))
  }

  ghost function UnitOuts(m: Machine, op: Op, a: nat, b: nat, o: Out): (r: seq<Out>)
    requires OutOk(m, o) && IsUnit(op) && (op.Ref? ==> a < SLOTS) && (op.Class? || op.NotClass? ==> a + b <= |m.ranges|)
    ensures AllAfter(m, o, r)
  {
    var one := if o.at < |m.input| then [o.(at := o.at + 1)] else [];
    match op
    case Char => if [a] <= m.input[o.at..] then one else []
    case Any => one
    case Class => if o.at < |m.input| && InClass(m, a, b, m.input[o.at]) then one else []
    case NotClass => if o.at < |m.input| && InClass(m, a, b, m.input[o.at]) then [] else one
    case Begin => if o.at == 0 then [o] else []
    case End => if o.at == |m.input| then [o] else []
    case Ref =>
      var s := o.caps[a];
      if s.Span? && m.input[s.from..s.to] <= m.input[o.at..] then [o.(at := o.at + (s.to - s.from))] else []
    case _ => []
  }

  ghost function Outs(m: Machine, t: Tree, o: Out): (r: seq<Out>)
    requires TreeOk(m, t) && OutOk(m, o)
    ensures AllAfter(m, o, r)
    decreases t, 0, 0, 0, 0
  {
    match t
    case Skip => [o]
    case Unit(op, a, b) => UnitOuts(m, op, a, b, o)
    case Concat(kids) => ForestOuts(m, kids, o)
    case Group(key, id, last, kids) =>
      Captured(m, o, key, id, ForestOuts(m, kids, Out(o.at, Clear(o.caps, id, last), Flat)))
    case Loop(key, _, _, _) => Wrapped(m, o, key, IterateOuts(m, t, 0, Out(o.at, o.caps, Flat)))
  }

  /** The group's scope is complete and its capture set. */
  ghost function Captured(m: Machine, o: Out, key: nat, id: nat, rs: seq<Out>): (r: seq<Out>)
    requires AllAfter(m, o, rs) && id < SLOTS
    ensures AllAfter(m, o, r) && |r| == |rs|
    ensures forall i :: 0 <= i < |rs| ==> r[i] == Wrap(o, key, rs[i]).(caps := rs[i].caps[id := Span(o.at, rs[i].at)])
  {
    seq(|rs|, i requires 0 <= i < |rs| => Wrap(o, key, rs[i]).(caps := rs[i].caps[id := Span(o.at, rs[i].at)]))
  }

  ghost function Wrapped(m: Machine, o: Out, key: nat, rs: seq<Out>): (r: seq<Out>)
    requires AllAfter(m, o, rs)
    ensures AllAfter(m, o, r) && |r| == |rs|
    ensures forall i :: 0 <= i < |rs| ==> r[i] == Wrap(o, key, rs[i])
  {
    seq(|rs|, i requires 0 <= i < |rs| => Wrap(o, key, rs[i]))
  }

  ghost function ForestOuts(m: Machine, f: Forest, o: Out): (r: seq<Out>)
    requires ForestOk(m, f) && OutOk(m, o)
    ensures AllAfter(m, o, r)
    decreases f, 0, 0, 0, 0
  {
    match f
    case Nil => [o]
    case Cons(head, tail) => EachOuts(m, tail, Outs(m, head, o), o)
  }

  ghost function EachOuts(m: Machine, f: Forest, rs: seq<Out>, from: Out): (r: seq<Out>)
    requires ForestOk(m, f) && AllAfter(m, from, rs)
    ensures AllAfter(m, from, r)
    decreases f, 2, 0, 0, |rs|
  {
    if rs == [] then [] else ForestOuts(m, f, rs[0]) + EachOuts(m, f, rs[1..], from)
  }

  /** Iterations that may still be missing, and positions left. */
  function Left(m: Machine, t: Tree, n: nat, o: Out): nat
    requires t.Loop? && o.at <= |m.input|
  {
    (if n < t.min then t.min - n else 0) + (|m.input| - o.at)
  }

  /** The states after `n` or more iterations, the longer walks first. */
  ghost function IterateOuts(m: Machine, t: Tree, n: nat, o: Out): (r: seq<Out>)
    requires t.Loop? && TreeOk(m, t) && OutOk(m, o)
    ensures AllAfter(m, o, r)
    decreases t.kids, 1, Left(m, t, n, o), 1, 0
  {
    (if n < t.max then EachIteration(m, t, n, o, ForestOuts(m, t.kids, o)) else []) + (if n >= t.min then [o] else [])
  }

  /** After one iteration each: an empty one is dropped when optional and not
      the first, and ends the loop once no more are required. */
  ghost function EachIteration(m: Machine, t: Tree, n: nat, o: Out, rs: seq<Out>): (r: seq<Out>)
    requires t.Loop? && TreeOk(m, t) && OutOk(m, o) && AllAfter(m, o, rs)
    ensures AllAfter(m, o, r)
    decreases t.kids, 1, Left(m, t, n, o), 0, |rs|
  {
    if rs == [] then []
    else
      var empty := rs[0].at == o.at;
      (if empty && n > 0 && n >= t.min then []
       else if empty && n + 1 >= t.min then [rs[0]]
       else IterateOuts(m, t, n + 1, rs[0])) +
      EachIteration(m, t, n, o, rs[1..])
  }
}
