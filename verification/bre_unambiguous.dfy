/** A trace determines its match: two ways to match from the same state whose
    traces are equal end at the same place with the same captures. */
module BreUnambiguous {
  import opened BreProgram
  import opened BreSyntax
  import opened BreScopes
  import opened BreReference
  import opened BreMatches

  // ---------- keys ----------

  predicate Scoped(t: Tree) {
    match t
    case Skip => false
    case Unit(_, _, _) => false
    case Concat(kids) => ScopedAny(kids)
    case Group(_, _, _, _) => true
    case Loop(_, _, _, _) => true
  }

  predicate ScopedAny(f: Forest) {
    f.Cons? && (Scoped(f.head) || ScopedAny(f.tail))
  }

  /** The key of the first scope every match of the tree goes through. */
  function FirstKey(t: Tree): nat
    requires Scoped(t)
  {
    match t
    case Concat(kids) => FirstKeys(kids)
    case Group(key, _, _, _) => key
    case Loop(key, _, _, _) => key
  }

  function FirstKeys(f: Forest): nat
    requires ScopedAny(f)
  {
    if Scoped(f.head) then FirstKey(f.head) else FirstKeys(f.tail)
  }

  /** One more than the largest key of the tree, and at least `lo`. */
  function Top(t: Tree, lo: nat): nat {
    match t
    case Skip => lo
    case Unit(_, _, _) => lo
    case Concat(kids) => Tops(kids, lo)
    case Group(key, _, _, kids) => Tops(kids, key + 1)
    case Loop(key, _, _, kids) => Tops(kids, key + 1)
  }

  function Tops(f: Forest, lo: nat): nat {
    if f.Nil? then lo else Tops(f.tail, Top(f.head, lo))
  }

  /** Keys grow in preorder, from `lo` on. */
  predicate Keyed(t: Tree, lo: nat) {
    match t
    case Skip => true
    case Unit(_, _, _) => true
    case Concat(kids) => KeyedAll(kids, lo)
    case Group(key, _, _, kids) => lo <= key && KeyedAll(kids, key + 1)
    case Loop(key, _, _, kids) => lo <= key && KeyedAll(kids, key + 1)
  }

  predicate KeyedAll(f: Forest, lo: nat) {
    f.Cons? ==> Keyed(f.head, lo) && KeyedAll(f.tail, Top(f.head, lo))
  }

  lemma {:induction false} TopGrows(t: Tree, lo: nat)
    requires Keyed(t, lo)
    ensures lo <= Top(t, lo)
    ensures if Scoped(t) then lo <= FirstKey(t) < Top(t, lo) else Top(t, lo) == lo
    decreases t
  {
    match t
    case Skip =>
    case Unit(_, _, _) =>
    case Concat(kids) => TopsGrow(kids, lo);
    case Group(key, _, _, kids) => TopsGrow(kids, key + 1);
    case Loop(key, _, _, kids) => TopsGrow(kids, key + 1);
  }

  lemma {:induction false} TopsGrow(f: Forest, lo: nat)
    requires KeyedAll(f, lo)
    ensures lo <= Tops(f, lo)
    ensures if ScopedAny(f) then lo <= FirstKeys(f) < Tops(f, lo) else Tops(f, lo) == lo
    decreases f
  {
    if f.Cons? {
      TopGrows(f.head, lo);
      TopsGrow(f.tail, Top(f.head, lo));
    }
  }

  /** The bound `lo` may be raised to the first key. */
  lemma {:induction false} KeyedTight(t: Tree, lo: nat, first: nat)
    requires Keyed(t, lo) && (Scoped(t) ==> first == FirstKey(t))
    ensures Keyed(t, first) && Top(t, first) == if Scoped(t) then Top(t, lo) else first
    decreases t
  {
    match t
    case Skip =>
    case Unit(_, _, _) =>
    case Concat(kids) => KeyedAllTight(kids, lo, first);
    case Group(_, _, _, _) =>
    case Loop(_, _, _, _) =>
  }

  lemma {:induction false} KeyedAllTight(f: Forest, lo: nat, first: nat)
    requires KeyedAll(f, lo) && (ScopedAny(f) ==> first == FirstKeys(f))
    ensures KeyedAll(f, first) && Tops(f, first) == if ScopedAny(f) then Tops(f, lo) else first
    decreases f
  {
    if f.Cons? {
      TopGrows(f.head, lo);
      if Scoped(f.head) {
        KeyedTight(f.head, lo, first);
        if !ScopedAny(f.tail) {
          TopsGrow(f.tail, Top(f.head, lo));
        }
      } else {
        KeyedTight(f.head, lo, first);
        KeyedAllTight(f.tail, lo, first);
      }
    }
  }

  // ---------- what a match adds to the trace ----------

  function Trace(o: Out): seq<Mark> {
    Preorder(o.scopes)
  }

  /** `r` comes from `o` and adds the marks `d`. */
  ghost predicate Marks(o: Out, r: Out, d: seq<Mark>) {
    Trace(r) == Trace(o) + d
  }

  /** The marks a match of something adds: none without scopes, otherwise
      starting with the first scope; captures change only with scopes. */
  ghost predicate Grown(o: Out, r: Out, d: seq<Mark>, scoped: bool, first: nat) {
    && Marks(o, r, d)
    && (scoped ==> d != [] && d[0].key == first)
    && (!scoped ==> d == [] && r.caps == o.caps)
  }

  lemma {:induction false} WrapMarks(o: Out, key: nat, within: Out, r: Out, d: seq<Mark>)
    requires o.at <= r.at && within.scopes == Flat && Marks(within, r, d)
    ensures Marks(o, Wrap(o, key, r), [Mark(key, r.at - o.at)] + d)
  {
    var scope := Scope(key, o.at, r.at - o.at, r.scopes);
    PreorderAppend(o.scopes, Then(scope, Flat));
    OneScope(scope);
    assert Preorder(r.scopes) == [] + d == d;
  }

  lemma {:induction false} OneScope(s: Scope)
    ensures Preorder(Then(s, Flat)) == [Mark(s.key, s.length)] + Preorder(s.inner)
  {
    assert Preorder(Flat) == [];
    assert Preorder(s.inner) + [] == Preorder(s.inner);
  }

  lemma {:induction false} MarksUnique(o: Out, r: Out, d: seq<Mark>, e: seq<Mark>)
    requires Marks(o, r, d) && Marks(o, r, e)
    ensures d == e
  {
    assert d == Trace(r)[|Trace(o)|..] && e == Trace(r)[|Trace(o)|..];
  }

  lemma {:induction false} MarksBoth(o: Out, h: Out, r: Out, d: seq<Mark>, e: seq<Mark>)
    requires Marks(o, h, d) && Marks(h, r, e)
    ensures Marks(o, r, d + e)
  {
    assert Trace(o) + d + e == Trace(o) + (d + e);
  }

  // ---------- every match grows the trace as its tree says ----------

  lemma {:induction false} TreeGrows(m: Machine, t: Tree, o: Out, r: Out) returns (d: seq<Mark>)
    requires TreeOk(m, t) && OutOk(m, o) && r in Outs(m, t, o)
    ensures Grown(o, r, d, Scoped(t), if Scoped(t) then FirstKey(t) else 0)
    decreases t, 0, 0
  {
    match t
    case Skip => d := [];
    case Unit(_, _, _) => d := [];
    case Concat(kids) => d := ForestGrows(m, kids, o, r);
    case Group(key, id, _, _) =>
      var x := InsideGroup(m, t, o, r);
      d := ForestGrows(m, t.kids, GroupStart(t, o), x);
      WrapMarks(o, key, GroupStart(t, o), x, d);
      d := [Mark(key, x.at - o.at)] + d;
    case Loop(key, _, _, _) =>
      var x := InsideLoop(m, t, o, r);
      d := IterateGrows(m, t, 0, Out(o.at, o.caps, Flat), x);
      WrapMarks(o, key, Out(o.at, o.caps, Flat), x, d);
      d := [Mark(key, x.at - o.at)] + d;
  }

  lemma {:induction false} ForestGrows(m: Machine, f: Forest, o: Out, r: Out) returns (d: seq<Mark>)
    requires ForestOk(m, f) && OutOk(m, o) && r in ForestOuts(m, f, o)
    ensures Grown(o, r, d, ScopedAny(f), if ScopedAny(f) then FirstKeys(f) else 0)
    decreases f, 0, 0
  {
    d := [];
    if f.Cons? {
      var h := ThroughHead(m, f.tail, Outs(m, f.head, o), o, r);
      var d1 := TreeGrows(m, f.head, o, h);
      var d2 := ForestGrows(m, f.tail, h, r);
      MarksBoth(o, h, r, d1, d2);
      d := d1 + d2;
    }
  }

  lemma {:induction false} IterateGrows(m: Machine, t: Tree, n: nat, o: Out, r: Out) returns (d: seq<Mark>)
    requires t.Loop? && TreeOk(m, t) && OutOk(m, o) && r in IterateOuts(m, t, n, o)
    ensures Marks(o, r, d)
    ensures if ScopedAny(t.kids) then d == [] || d[0].key == FirstKeys(t.kids) else d == [] && r.caps == o.caps
    decreases t.kids, 1, Left(m, t, n, o)
  {
    d := [];
    var stops, next := StopsOrGoes(m, t, n, o, r);
    if !stops {
      d := ForestGrows(m, t.kids, o, next);
      if r != next {
        var d2 := IterateGrows(m, t, n + 1, next, r);
        MarksBoth(o, next, r, d, d2);
        d := d + d2;
      }
    }
  }

  // ---------- unambiguity ----------

  /** What follows a match of a tree with keys between `lo` and `hi` does not
      look like more of it. */
  ghost predicate Fine(lo: nat, hi: nat, u: seq<Mark>) {
    u == [] || u[0].key <= lo || u[0].key >= hi
  }

  /** The same place and captures, however reached. */
  ghost predicate Alike(a: Out, b: Out) {
    a.at == b.at && a.caps == b.caps
  }

  /** A match: from where, to where, adding what, followed by what. */
  datatype Leg = Leg(o: Out, r: Out, d: seq<Mark>, u: seq<Mark>)

  ghost predicate LegOk(m: Machine, x: Leg, lo: nat, hi: nat) {
    OutOk(m, x.o) && Marks(x.o, x.r, x.d) && Fine(lo, hi, x.u)
  }

  ghost predicate SameStart(x: Leg, y: Leg) {
    Alike(x.o, y.o) && x.d + x.u == y.d + y.u
  }

  ghost predicate SameEnd(x: Leg, y: Leg) {
    Alike(x.r, y.r) && x.d == y.d && x.u == y.u
  }

  lemma {:induction false} TreeUnambiguous(m: Machine, t: Tree, lo: nat, x: Leg, y: Leg)
    requires TreeOk(m, t) && Keyed(t, lo) && LegOk(m, x, lo, Top(t, lo)) && LegOk(m, y, lo, Top(t, lo))
    requires SameStart(x, y)
    requires x.r in Outs(m, t, x.o) && y.r in Outs(m, t, y.o)
    ensures SameEnd(x, y)
    decreases t, 0, 0
  {
    match t
    case Skip => NothingAdded(x, y);
    case Unit(op, a, b) => NothingAdded(x, y);
    case Concat(kids) => ForestUnambiguous(m, kids, lo, x, y);
    case Group(_, _, _, _) => GroupUnambiguous(m, t, lo, x, y);
    case Loop(_, _, _, _) => LoopUnambiguous(m, t, lo, x, y);
  }

  lemma {:induction false} NothingAdded(x: Leg, y: Leg)
    requires Marks(x.o, x.r, x.d) && Marks(y.o, y.r, y.d) && x.r.scopes == x.o.scopes && y.r.scopes == y.o.scopes
    requires SameStart(x, y)
    ensures x.d == y.d == [] && x.u == y.u
  {
    assert |Trace(x.r)| == |Trace(x.o)| + |x.d| && |Trace(y.r)| == |Trace(y.o)| + |y.d|;
    assert [] + x.u == x.u && [] + y.u == y.u;
  }

  /** Both legs with their first mark, the scope itself, taken off. */
  lemma {:induction false} Unwrapped(x: Leg, y: Leg, k: Mark, l: Mark, d: seq<Mark>, e: seq<Mark>)
    requires x.d == [k] + d && y.d == [l] + e && SameStart(x, y)
    ensures k == l && d + x.u == e + y.u
  {
    var whole := x.d + x.u;
    assert whole[0] == k && whole[1..] == d + x.u;
    assert whole == y.d + y.u && whole[0] == l && whole[1..] == e + y.u;
  }

  lemma {:induction false} GroupUnambiguous(m: Machine, t: Tree, lo: nat, x: Leg, y: Leg)
    requires t.Group? && TreeOk(m, t) && Keyed(t, lo) && LegOk(m, x, lo, Top(t, lo)) && LegOk(m, y, lo, Top(t, lo))
    requires SameStart(x, y)
    requires x.r in Outs(m, t, x.o) && y.r in Outs(m, t, y.o)
    ensures SameEnd(x, y)
    decreases t.kids, 1, 0
  {
    var start := GroupStart(t, x.o);
    var a := InsideGroup(m, t, x.o, x.r);
    var b := InsideGroup(m, t, y.o, y.r);
    var d := ForestGrows(m, t.kids, start, a);
    var e := ForestGrows(m, t.kids, start, b);
    WrapMarks(x.o, t.key, start, a, d);
    WrapMarks(y.o, t.key, start, b, e);
    MarksUnique(x.o, x.r, x.d, [Mark(t.key, a.at - x.o.at)] + d);
    MarksUnique(y.o, y.r, y.d, [Mark(t.key, b.at - y.o.at)] + e);
    Unwrapped(x, y, Mark(t.key, a.at - x.o.at), Mark(t.key, b.at - y.o.at), d, e);
    ForestUnambiguous(m, t.kids, t.key + 1, Leg(start, a, d, x.u), Leg(start, b, e, y.u));
  }

  /** A leg through a loop: its own mark, then those of its iterations. */
  lemma {:induction false} LoopLeg(m: Machine, t: Tree, x: Leg) returns (a: Out, d: seq<Mark>)
    requires t.Loop? && TreeOk(m, t) && OutOk(m, x.o) && Marks(x.o, x.r, x.d) && x.r in Outs(m, t, x.o)
    ensures var start := Out(x.o.at, x.o.caps, Flat);
            && OutOk(m, start) && a in IterateOuts(m, t, 0, start) && Marks(start, a, d)
               && x.d == [Mark(t.key, a.at - x.o.at)] + d
            && Alike(a, x.r) && (!ScopedAny(t.kids) ==> d == [] && a.caps == x.o.caps)
  {
    var start := Out(x.o.at, x.o.caps, Flat);
    a := InsideLoop(m, t, x.o, x.r);
    d := IterateGrows(m, t, 0, start, a);
    WrapMarks(x.o, t.key, start, a, d);
    MarksUnique(x.o, x.r, x.d, [Mark(t.key, a.at - x.o.at)] + d);
  }

  lemma {:induction false} LoopUnambiguous(m: Machine, t: Tree, lo: nat, x: Leg, y: Leg)
    requires t.Loop? && TreeOk(m, t) && Keyed(t, lo) && LegOk(m, x, lo, Top(t, lo)) && LegOk(m, y, lo, Top(t, lo))
    requires SameStart(x, y)
    requires x.r in Outs(m, t, x.o) && y.r in Outs(m, t, y.o)
    ensures SameEnd(x, y)
    decreases t.kids, 2, 0
  {
    var start := Out(x.o.at, x.o.caps, Flat);
    var a, d := LoopLeg(m, t, x);
    var b, e := LoopLeg(m, t, y);
    Unwrapped(x, y, Mark(t.key, a.at - x.o.at), Mark(t.key, b.at - y.o.at), d, e);
    if ScopedAny(t.kids) {
      IterateUnambiguous(m, t, lo, 0, Leg(start, a, d, x.u), Leg(start, b, e, y.u));
    } else {
      assert [] + x.u == x.u && [] + y.u == y.u;
    }
  }

  lemma {:induction false} ForestUnambiguous(m: Machine, f: Forest, lo: nat, x: Leg, y: Leg)
    requires ForestOk(m, f) && KeyedAll(f, lo) && LegOk(m, x, lo, Tops(f, lo)) && LegOk(m, y, lo, Tops(f, lo))
    requires SameStart(x, y)
    requires x.r in ForestOuts(m, f, x.o) && y.r in ForestOuts(m, f, y.o)
    ensures SameEnd(x, y)
    decreases f, 0, 0
  {
    if f.Nil? {
      NothingAdded(x, y);
    } else {
      var mid := Top(f.head, lo);
      var a1, a2 := SplitLeg(m, f, lo, x);
      var b1, b2 := SplitLeg(m, f, lo, y);
      assert a1.d + a1.u == x.d + x.u && b1.d + b1.u == y.d + y.u;
      TreeUnambiguous(m, f.head, lo, a1, b1);
      ForestUnambiguous(m, f.tail, mid, a2, b2);
    }
  }

  /** A leg through a forest: through its head, then through its tail. */
  lemma {:induction false} SplitLeg(m: Machine, f: Forest, lo: nat, x: Leg) returns (a: Leg, b: Leg)
    requires f.Cons? && ForestOk(m, f) && KeyedAll(f, lo) && LegOk(m, x, lo, Tops(f, lo))
    requires x.r in ForestOuts(m, f, x.o)
    ensures var mid := Top(f.head, lo); LegOk(m, a, lo, mid) && LegOk(m, b, mid, Tops(f, lo))
    ensures a.o == x.o && a.r == b.o && b.r == x.r && x.d == a.d + b.d && a.u == b.d + b.u && b.u == x.u
    ensures a.r in Outs(m, f.head, a.o) && b.r in ForestOuts(m, f.tail, b.o)
    ensures a.d + a.u == x.d + x.u
  {
    var mid := Top(f.head, lo);
    var h := ThroughHead(m, f.tail, Outs(m, f.head, x.o), x.o, x.r);
    var d1 := TreeGrows(m, f.head, x.o, h);
    var d2 := ForestGrows(m, f.tail, h, x.r);
    MarksBoth(x.o, h, x.r, d1, d2);
    MarksUnique(x.o, x.r, x.d, d1 + d2);
    TopGrows(f.head, lo);
    TopsGrow(f.tail, mid);
    a, b := Leg(x.o, h, d1, d2 + x.u), Leg(h, x.r, d2, x.u);
    assert d1 + (d2 + x.u) == (d1 + d2) + x.u;
  }

  /** Iterations of a body with scopes are counted by the trace. */
  lemma {:induction false} IterateUnambiguous(m: Machine, t: Tree, lo: nat, n: nat, x: Leg, y: Leg)
    requires t.Loop? && TreeOk(m, t) && Keyed(t, lo) && LegOk(m, x, lo, Top(t, lo)) && LegOk(m, y, lo, Top(t, lo))
    requires SameStart(x, y)
    requires ScopedAny(t.kids) && x.r in IterateOuts(m, t, n, x.o) && y.r in IterateOuts(m, t, n, y.o)
    ensures SameEnd(x, y)
    decreases t.kids, 1, Left(m, t, n, x.o)
  {
    var stopsX, nextX := StopsOrGoes(m, t, n, x.o, x.r);
    var stopsY, nextY := StopsOrGoes(m, t, n, y.o, y.r);
    if stopsX && stopsY {
      NothingAdded(x, y);
    } else if stopsX {
      StopDiffers(m, t, lo, n, x, y, nextY);
    } else if stopsY {
      StopDiffers(m, t, lo, n, y, x, nextX);
    } else {
      BothGo(m, t, lo, n, x, nextX, y, nextY);
    }
  }

  /** A leg that stops and one that goes on look different. */
  lemma {:induction false} StopDiffers(m: Machine, t: Tree, lo: nat, n: nat, x: Leg, y: Leg, next: Out)
    requires t.Loop? && TreeOk(m, t) && Keyed(t, lo) && LegOk(m, x, lo, Top(t, lo)) && LegOk(m, y, lo, Top(t, lo))
    requires ScopedAny(t.kids) && x.r == x.o && Iterated(m, t, n, y.o, next, y.r)
    ensures x.d + x.u != y.d + y.u
  {
    var d1, d2 := GoneOn(m, t, n, y.o, next, y.r);
    MarksUnique(y.o, y.r, y.d, d1 + d2);
    assert |Trace(x.r)| == |Trace(x.o)| + |x.d|;
    TopsGrow(t.kids, t.key + 1);
    assert (y.d + y.u)[0] == d1[0];
    assert x.d + x.u == x.u;
  }

  /** What an iteration and its continuation add. */
  lemma {:induction false} GoneOn(m: Machine, t: Tree, n: nat, o: Out, next: Out, r: Out)
    returns (d1: seq<Mark>, d2: seq<Mark>)
    requires t.Loop? && TreeOk(m, t) && OutOk(m, o) && ScopedAny(t.kids) && Iterated(m, t, n, o, next, r)
    ensures Marks(o, next, d1) && Marks(next, r, d2) && Marks(o, r, d1 + d2)
    ensures d1 != [] && d1[0].key == FirstKeys(t.kids) && (d2 == [] || d2[0].key == FirstKeys(t.kids))
  {
    d1 := ForestGrows(m, t.kids, o, next);
    if next.at == o.at && n + 1 >= t.min {
      d2 := [];
    } else {
      d2 := IterateGrows(m, t, n + 1, next, r);
    }
    MarksBoth(o, next, r, d1, d2);
  }

  /** Both legs do one more iteration. */
  lemma {:induction false} BothGo(m: Machine, t: Tree, lo: nat, n: nat, x: Leg, nextX: Out, y: Leg, nextY: Out)
    requires t.Loop? && TreeOk(m, t) && Keyed(t, lo) && LegOk(m, x, lo, Top(t, lo)) && LegOk(m, y, lo, Top(t, lo))
    requires SameStart(x, y)
    requires ScopedAny(t.kids) && Iterated(m, t, n, x.o, nextX, x.r) && Iterated(m, t, n, y.o, nextY, y.r)
    ensures SameEnd(x, y)
    decreases t.kids, 1, Left(m, t, n, x.o), 0
  {
    var first := FirstKeys(t.kids);
    var a1, a2 := IterationLeg(m, t, lo, n, x, nextX);
    var b1, b2 := IterationLeg(m, t, lo, n, y, nextY);
    KeyedAllTight(t.kids, t.key + 1, first);
    ForestUnambiguous(m, t.kids, first, a1, b1);
    if !(nextX.at == x.o.at && n + 1 >= t.min) {
      IterateUnambiguous(m, t, lo, n + 1, a2, b2);
    } else {
      NothingAdded(a2, b2);
    }
  }

  /** A leg that iterates: its iteration, then the rest. */
  lemma {:induction false} IterationLeg(m: Machine, t: Tree, lo: nat, n: nat, x: Leg, next: Out)
    returns (a: Leg, b: Leg)
    requires t.Loop? && TreeOk(m, t) && Keyed(t, lo) && LegOk(m, x, lo, Top(t, lo))
    requires ScopedAny(t.kids) && Iterated(m, t, n, x.o, next, x.r)
    ensures LegOk(m, a, FirstKeys(t.kids), Top(t, lo)) && LegOk(m, b, lo, Top(t, lo))
    ensures a.o == x.o && a.r == b.o == next && b.r == x.r && x.d == a.d + b.d && a.u == b.d + b.u && b.u == x.u
    ensures a.d + a.u == x.d + x.u
  {
    var d1, d2 := GoneOn(m, t, n, x.o, next, x.r);
    MarksUnique(x.o, x.r, x.d, d1 + d2);
    TopsGrow(t.kids, t.key + 1);
    a, b := Leg(x.o, next, d1, d2 + x.u), Leg(next, x.r, d2, x.u);
    assert d1 + (d2 + x.u) == (d1 + d2) + x.u;
  }

  /** Matches of a tree with equal traces end alike, whatever order they are met in. */
  lemma {:induction false} TraceDetermines(m: Machine, t: Tree, o: Out, r: Out, s: Out)
    requires TreeOk(m, t) && Keyed(t, 0) && OutOk(m, o) && r in Outs(m, t, o) && s in Outs(m, t, o)
    requires Trace(r) == Trace(s)
    ensures r.at == s.at && r.caps == s.caps
  {
    var d := TreeGrows(m, t, o, r);
    var e := TreeGrows(m, t, o, s);
    MarksUnique(o, r, d, Trace(r)[|Trace(o)|..]);
    MarksUnique(o, s, e, Trace(s)[|Trace(o)|..]);
    TreeUnambiguous(m, t, 0, Leg(o, r, d, []), Leg(o, s, e, []));
  }

  // ---------- keys of an elaborated pattern ----------

  lemma {:induction false} KeyedLower(t: Tree, lo: nat, hi: nat)
    requires lo <= hi && Keyed(t, hi)
    ensures Keyed(t, lo) && Top(t, lo) <= Top(t, hi)
    decreases t
  {
    match t
    case Skip =>
    case Unit(_, _, _) =>
    case Concat(kids) => KeyedAllLower(kids, lo, hi);
    case Group(_, _, _, _) =>
    case Loop(_, _, _, _) =>
  }

  lemma {:induction false} KeyedAllLower(f: Forest, lo: nat, hi: nat)
    requires lo <= hi && KeyedAll(f, hi)
    ensures KeyedAll(f, lo) && Tops(f, lo) <= Tops(f, hi)
    decreases f
  {
    if f.Cons? {
      KeyedLower(f.head, lo, hi);
      KeyedAllLower(f.tail, Top(f.head, lo), Top(f.head, hi));
    }
  }

  /** Preorder positions number the scopes of a pattern in order. */
  lemma {:induction false} ElaborateKeyed(s: Syntax, at: nat, g: nat)
    ensures Keyed(Elaborate(s, at, g), at) && Top(Elaborate(s, at, g), at) <= at + NodeCount(s)
    decreases s
  {
    if !s.kind.UnitNode? {
      var inner := if s.kind.GroupNode? then g + 1 else g;
      ElaborateAllKeyed(s.kids, at + 1, inner);
      KeyedAllLower(ElaborateAll(s.kids, at + 1, inner), at, at + 1);
    }
  }

  lemma {:induction false} ElaborateAllKeyed(ns: Nodes, at: nat, g: nat)
    ensures KeyedAll(ElaborateAll(ns, at, g), at) && Tops(ElaborateAll(ns, at, g), at) <= at + NodeCounts(ns)
    decreases ns
  {
    if ns.More? {
      var head := Elaborate(ns.head, at, g);
      var tail := ElaborateAll(ns.tail, at + NodeCount(ns.head), g + Groups(ns.head));
      ElaborateKeyed(ns.head, at, g);
      ElaborateAllKeyed(ns.tail, at + NodeCount(ns.head), g + Groups(ns.head));
      KeyedAllLower(tail, Top(head, at), at + NodeCount(ns.head));
    }
  }
}
