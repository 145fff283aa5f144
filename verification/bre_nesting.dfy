/** Captures of nested groups are nested. */
module BreNesting {
  import opened BreProgram
  import opened BreScopes
  import opened BreReference
  import opened BreMatches

  /** A capture of a group inside `id` lies inside the capture of `id`. */
  ghost predicate Inside(caps: seq<Span>, id: nat, last: nat)
    requires id <= last < |caps|
  {
    forall g :: id < g <= last && caps[g].Span? ==>
      caps[id].Span? && caps[id].from <= caps[g].from && caps[g].to <= caps[id].to
  }

  ghost predicate GroupsNest(t: Tree, caps: seq<Span>) {
    match t
    case Skip => true
    case Unit(_, _, _) => true
    case Concat(kids) => ForestNests(kids, caps)
    case Group(_, id, last, kids) => id <= last < |caps| && Inside(caps, id, last) && ForestNests(kids, caps)
    case Loop(_, _, _, kids) => ForestNests(kids, caps)
  }

  ghost predicate ForestNests(f: Forest, caps: seq<Span>) {
    f.Cons? ==> GroupsNest(f.head, caps) && ForestNests(f.tail, caps)
  }

  /** Only the groups `g + 1 ..= last` were touched, and those that changed matched behind `o`. */
  ghost predicate Touched(o: Out, r: Out, g: nat, last: nat) {
    && |o.caps| == |r.caps| == SLOTS && o.at <= r.at
    && (forall k :: 0 <= k < SLOTS && !(g < k <= last) ==> r.caps[k] == o.caps[k])
    && (forall k :: 0 <= k < SLOTS && r.caps[k].Span? ==> r.caps[k] == o.caps[k] || r.caps[k].from >= o.at)
  }

  lemma {:induction false} TouchedBoth(o: Out, h: Out, r: Out, g: nat, last: nat, g': nat, last': nat)
    requires g <= g' && last' <= last && Touched(o, h, g, last) && Touched(h, r, g', last')
    ensures Touched(o, r, g, last)
  {
    forall k | 0 <= k < SLOTS && r.caps[k].Span?
      ensures r.caps[k] == o.caps[k] || r.caps[k].from >= o.at
    {
      assert r.caps[k] == h.caps[k] || r.caps[k].from >= h.at;
    }
  }

  /** Nesting of a tree's groups depends on their captures only. */
  lemma {:induction false} NestKept(t: Tree, caps: seq<Span>, caps': seq<Span>, g: nat)
    requires GroupsNest(t, caps) && TreeNumbered(t, g) && |caps'| == |caps|
    requires forall k :: g < k <= g + TreeGroups(t) && k < |caps| ==> caps'[k] == caps[k]
    ensures GroupsNest(t, caps')
    decreases t
  {
    match t
    case Skip =>
    case Unit(_, _, _) =>
    case Concat(kids) => NestsKept(kids, caps, caps', g);
    case Group(_, id, _, kids) => NestsKept(kids, caps, caps', id);
    case Loop(_, _, _, kids) => NestsKept(kids, caps, caps', g);
  }

  lemma {:induction false} NestsKept(f: Forest, caps: seq<Span>, caps': seq<Span>, g: nat)
    requires ForestNests(f, caps) && ForestNumbered(f, g) && |caps'| == |caps|
    requires forall k :: g < k <= g + ForestGroups(f) && k < |caps| ==> caps'[k] == caps[k]
    ensures ForestNests(f, caps')
    decreases f
  {
    if f.Cons? {
      NestKept(f.head, caps, caps', g);
      NestsKept(f.tail, caps, caps', g + TreeGroups(f.head));
    }
  }

  /** Without captures everything is nested. */
  lemma {:induction false} UnsetNests(m: Machine, t: Tree, caps: seq<Span>, g: nat)
    requires TreeOk(m, t) && TreeNumbered(t, g) && |caps| == SLOTS
    requires forall k :: g < k <= g + TreeGroups(t) && k < SLOTS ==> caps[k].Unset?
    ensures GroupsNest(t, caps)
    decreases t
  {
    match t
    case Skip =>
    case Unit(_, _, _) =>
    case Concat(kids) => UnsetNestsAll(m, kids, caps, g);
    case Group(_, id, _, kids) => UnsetNestsAll(m, kids, caps, id);
    case Loop(_, _, _, kids) => UnsetNestsAll(m, kids, caps, g);
  }

  lemma {:induction false} UnsetNestsAll(m: Machine, f: Forest, caps: seq<Span>, g: nat)
    requires ForestOk(m, f) && ForestNumbered(f, g) && |caps| == SLOTS
    requires forall k :: g < k <= g + ForestGroups(f) && k < SLOTS ==> caps[k].Unset?
    ensures ForestNests(f, caps)
    decreases f
  {
    if f.Cons? {
      UnsetNests(m, f.head, caps, g);
      UnsetNestsAll(m, f.tail, caps, g + TreeGroups(f.head));
    }
  }

  /** Matching a tree keeps the captures of its groups nested. */
  lemma {:induction false} OutsNest(m: Machine, t: Tree, o: Out, r: Out, g: nat)
    requires TreeOk(m, t) && OutOk(m, o) && TreeNumbered(t, g) && GroupsNest(t, o.caps) && r in Outs(m, t, o)
    ensures GroupsNest(t, r.caps) && Touched(o, r, g, g + TreeGroups(t))
    decreases t, 0, 0
  {
    match t
    case Skip =>
    case Unit(_, _, _) =>
    case Concat(kids) => ForestOutsNest(m, kids, o, r, g);
    case Group(_, _, _, _) => GroupOutsNest(m, t, o, r, g);
    case Loop(_, _, _, _) =>
      var x := InsideLoop(m, t, o, r);
      IterateNests(m, t, 0, Out(o.at, o.caps, Flat), x, g);
  }

  lemma {:induction false} GroupOutsNest(m: Machine, t: Tree, o: Out, r: Out, g: nat)
    requires t.Group? && TreeOk(m, t) && OutOk(m, o) && TreeNumbered(t, g) && r in Outs(m, t, o)
    ensures GroupsNest(t, r.caps) && Touched(o, r, g, g + TreeGroups(t))
    decreases t.kids, 1, 0
  {
    var start := GroupStart(t, o);
    var x := InsideGroup(m, t, o, r);
    UnsetNestsAll(m, t.kids, start.caps, t.id);
    ForestOutsNest(m, t.kids, start, x, t.id);
    NestsKept(t.kids, x.caps, r.caps, t.id);
    assert Touched(start, x, t.id, t.last);
    assert forall k :: t.id < k <= t.last && r.caps[k].Span? ==> start.caps[k].Unset? && r.caps[k] == x.caps[k];
  }

  lemma {:induction false} ForestOutsNest(m: Machine, f: Forest, o: Out, r: Out, g: nat)
    requires ForestOk(m, f) && OutOk(m, o) && ForestNumbered(f, g) && ForestNests(f, o.caps) && r in ForestOuts(m, f, o)
    ensures ForestNests(f, r.caps) && Touched(o, r, g, g + ForestGroups(f))
    decreases f, 0, 0
  {
    if f.Cons? {
      var mid := g + TreeGroups(f.head);
      var last := mid + ForestGroups(f.tail);
      var h := ThroughHead(m, f.tail, Outs(m, f.head, o), o, r);
      OutsNest(m, f.head, o, h, g);
      NestsKept(f.tail, o.caps, h.caps, mid);
      ForestOutsNest(m, f.tail, h, r, mid);
      NestKept(f.head, h.caps, r.caps, g);
      assert Touched(o, h, g, last);
      TouchedBoth(o, h, r, g, last, mid, last);
    }
  }

  lemma {:induction false} IterateNests(m: Machine, t: Tree, n: nat, o: Out, r: Out, g: nat)
    requires t.Loop? && TreeOk(m, t) && OutOk(m, o) && TreeNumbered(t, g) && GroupsNest(t, o.caps)
    requires r in IterateOuts(m, t, n, o)
    ensures GroupsNest(t, r.caps) && Touched(o, r, g, g + TreeGroups(t))
    decreases t.kids, 1, Left(m, t, n, o)
  {
    var stops, next := StopsOrGoes(m, t, n, o, r);
    if !stops {
      var last := g + TreeGroups(t);
      ForestOutsNest(m, t.kids, o, next, g);
      if r != next {
        IterateNests(m, t, n + 1, next, r, g);
        TouchedBoth(o, next, r, g, last, g, last);
      }
    }
  }

  /** In a match of a whole pattern every capture lies inside those of the enclosing groups. */
  lemma {:induction false} MatchNests(m: Machine, t: Tree, o: Out, r: Out)
    requires TreeOk(m, t) && OutOk(m, o) && TreeNumbered(t, 0) && r in Outs(m, t, o)
    requires forall k :: 0 <= k < SLOTS ==> o.caps[k].Unset?
    ensures GroupsNest(t, r.caps)
  {
    UnsetNests(m, t, o.caps, 0);
    OutsNest(m, t, o, r, 0);
  }
}
