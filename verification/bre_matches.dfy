/** How a single match of a tree comes about, step by step. */
module BreMatches {
  import opened BreProgram
  import opened BreScopes
  import opened BreReference

  /** Where a match of a forest's tail started. */
  lemma {:induction false} ThroughHead(m: Machine, f: Forest, rs: seq<Out>, from: Out, r: Out) returns (h: Out)
    requires ForestOk(m, f) && AllAfter(m, from, rs) && r in EachOuts(m, f, rs, from)
    ensures h in rs && After(m, from, h) && r in ForestOuts(m, f, h)
    decreases |rs|
  {
    assert After(m, from, rs[0]);
    if r in ForestOuts(m, f, rs[0]) {
      h := rs[0];
    } else {
      h := ThroughHead(m, f, rs[1..], from, r);
    }
  }

  /** A finished iteration: dropped, last, or followed by more. */
  ghost predicate Iterated(m: Machine, t: Tree, n: nat, o: Out, next: Out, r: Out)
    requires t.Loop? && TreeOk(m, t) && OutOk(m, o)
  {
    && n < t.max && After(m, o, next) && next in ForestOuts(m, t.kids, o)
    && if next.at == o.at && n + 1 >= t.min then r == next
       else r in IterateOuts(m, t, n + 1, next) && Left(m, t, n + 1, next) < Left(m, t, n, o)
  }

  lemma {:induction false} OneOfIterations(m: Machine, t: Tree, n: nat, o: Out, rs: seq<Out>, r: Out)
    returns (next: Out)
    requires t.Loop? && TreeOk(m, t) && OutOk(m, o) && AllAfter(m, o, rs) && r in EachIteration(m, t, n, o, rs)
    requires n < t.max && forall x :: x in rs ==> x in ForestOuts(m, t.kids, o)
    ensures Iterated(m, t, n, o, next, r)
    decreases |rs|
  {
    var empty := rs[0].at == o.at;
    assert After(m, o, rs[0]) && rs[0] in rs;
    var first := if empty && n > 0 && n >= t.min then []
                 else if empty && n + 1 >= t.min then [rs[0]]
                 else IterateOuts(m, t, n + 1, rs[0]);
    if r in first {
      next := rs[0];
    } else {
      next := OneOfIterations(m, t, n, o, rs[1..], r);
    }
  }

  /** A loop stops at `o` or goes on with one iteration. */
  lemma {:induction false} StopsOrGoes(m: Machine, t: Tree, n: nat, o: Out, r: Out) returns (stops: bool, next: Out)
    requires t.Loop? && TreeOk(m, t) && OutOk(m, o) && r in IterateOuts(m, t, n, o)
    ensures if stops then r == o else Iterated(m, t, n, o, next, r)
  {
    next := o;
    stops := n >= t.max || r !in EachIteration(m, t, n, o, ForestOuts(m, t.kids, o));
    if !stops {
      next := OneOfIterations(m, t, n, o, ForestOuts(m, t.kids, o), r);
    }
  }

  /** What a group's body starts from. */
  function GroupStart(t: Tree, o: Out): Out
    requires t.Group?
  {
    Out(o.at, Clear(o.caps, t.id, t.last), Flat)
  }

  lemma {:induction false} InsideGroup(m: Machine, t: Tree, o: Out, r: Out) returns (x: Out)
    requires t.Group? && TreeOk(m, t) && OutOk(m, o) && r in Outs(m, t, o)
    ensures OutOk(m, GroupStart(t, o)) && After(m, o, x) && x in ForestOuts(m, t.kids, GroupStart(t, o))
    ensures r == Wrap(o, t.key, x).(caps := x.caps[t.id := Span(o.at, x.at)])
  {
    var rs := ForestOuts(m, t.kids, GroupStart(t, o));
    var i :| 0 <= i < |rs| && Captured(m, o, t.key, t.id, rs)[i] == r;
    x := rs[i];
    assert After(m, GroupStart(t, o), rs[i]);
  }

  lemma {:induction false} InsideLoop(m: Machine, t: Tree, o: Out, r: Out) returns (x: Out)
    requires t.Loop? && TreeOk(m, t) && OutOk(m, o) && r in Outs(m, t, o)
    ensures OutOk(m, Out(o.at, o.caps, Flat)) && After(m, o, x) && x in IterateOuts(m, t, 0, Out(o.at, o.caps, Flat))
    ensures r == Wrap(o, t.key, x)
  {
    var within := Out(o.at, o.caps, Flat);
    var rs := IterateOuts(m, t, 0, within);
    var i :| 0 <= i < |rs| && Wrapped(m, o, t.key, rs)[i] == r;
    x := rs[i];
    assert After(m, within, rs[i]);
  }
}
