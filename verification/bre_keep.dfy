/** A tree's paths only extend the scope history, and only touch the groups inside the tree. */
module BreKeep {
  import opened BreProgram
  import opened BrePaths

  /** `d` comes after `c`, with only the groups `g + 1 ..= last` touched. */
  ghost predicate Keeps(c: Core, d: Core, g: nat, last: nat) {
    && |c.begin| == |c.end| == |c.opens| == SLOTS && |d.begin| == |d.end| == |d.opens| == SLOTS
    && c.history <= d.history
    && forall k :: 0 <= k < SLOTS && !(g < k <= last) ==>
         d.begin[k] == c.begin[k] && d.end[k] == c.end[k] && d.opens[k] == c.opens[k]
  }

  ghost predicate AllKeep(c: Core, ds: seq<Core>, g: nat, last: nat) {
    forall i :: 0 <= i < |ds| ==> Keeps(c, ds[i], g, last)
  }

  lemma {:induction false} KeepsAfter(c: Core, d: Core, es: seq<Core>, g: nat, last: nat, k: nat, l: nat)
    requires g <= k && l <= last && Keeps(c, d, g, last) && AllKeep(d, es, k, l)
    ensures AllKeep(c, es, g, last)
  {
    forall i | 0 <= i < |es|
      ensures Keeps(c, es[i], g, last)
    {
      assert Keeps(d, es[i], k, l);
    }
  }

  lemma {:induction false} AllKeepJoin(c: Core, xs: seq<Core>, ys: seq<Core>, g: nat, last: nat)
    requires AllKeep(c, xs, g, last) && AllKeep(c, ys, g, last)
    ensures AllKeep(c, xs + ys, g, last)
  {
    forall i | 0 <= i < |xs + ys|
      ensures Keeps(c, (xs + ys)[i], g, last)
    {
      assert if i < |xs| then Keeps(c, xs[i], g, last) else Keeps(c, ys[i - |xs|], g, last);
    }
  }

  lemma {:induction false} PathsKeep(m: Machine, t: Tree, c: Core, g: nat)
    requires TreeOk(m, t) && m.CoreOk(c) && TreeNumbered(t, g)
    ensures AllKeep(c, Paths(m, t, c), g, g + TreeGroups(t))
    decreases t, 0, 0, 0, 0
  {
    match t
    case Skip =>
    case Unit(_, _, _) =>
    case Concat(kids) => ForestKeeps(m, kids, c, g);
    case Group(_, _, _, _) => GroupKeeps(m, t, c, g);
    case Loop(key, _, _, kids) =>
      var inside := OpenScope(c, key);
      WalkKeeps(m, t, |c.history|, 0, false, inside, g);
      KeepsAfter(c, inside, Paths(m, t, c), g, g + ForestGroups(kids), g, g + ForestGroups(kids));
  }

  lemma {:induction false} GroupKeeps(m: Machine, t: Tree, c: Core, g: nat)
    requires t.Group? && TreeOk(m, t) && m.CoreOk(c) && TreeNumbered(t, g)
    ensures AllKeep(c, Paths(m, t, c), g, g + TreeGroups(t))
    decreases t.kids, 1, 0, 0, 0
  {
    var inside := OpenGroup(m, c, t.key, t.id, t.last);
    var ds := ForestPaths(m, t.kids, inside);
    ForestKeeps(m, t.kids, inside, t.id);
    KeepsAfter(c, inside, ds, g, t.last, t.id, t.last);
    forall i | 0 <= i < |ds|
      ensures Keeps(c, CloseEach(m, ds, t.id)[i], g, t.last)
    {
      assert Keeps(c, ds[i], g, t.last);
    }
  }

  lemma {:induction false} ForestKeeps(m: Machine, f: Forest, c: Core, g: nat)
    requires ForestOk(m, f) && m.CoreOk(c) && ForestNumbered(f, g)
    ensures AllKeep(c, ForestPaths(m, f, c), g, g + ForestGroups(f))
    decreases f, 0, 0, 0, 0
  {
    if f.Cons? {
      var mid := g + TreeGroups(f.head);
      PathsKeep(m, f.head, c, g);
      EachKeeps(m, f.tail, Paths(m, f.head, c), c, g, mid);
    }
  }

  lemma {:induction false} EachKeeps(m: Machine, f: Forest, cs: seq<Core>, from: Core, g: nat, mid: nat)
    requires ForestOk(m, f) && AllAhead(m, from, cs) && ForestNumbered(f, mid) && g <= mid && AllKeep(from, cs, g, mid)
    ensures AllKeep(from, EachPath(m, f, cs, from), g, mid + ForestGroups(f))
    decreases f, 2, 0, 0, |cs|
  {
    if cs != [] {
      var last := mid + ForestGroups(f);
      assert Ahead(m, from, cs[0]) && Keeps(from, cs[0], g, mid);
      ForestKeeps(m, f, cs[0], mid);
      KeepsAfter(from, cs[0], ForestPaths(m, f, cs[0]), g, last, mid, last);
      EachKeeps(m, f, cs[1..], from, g, mid);
      AllKeepJoin(from, ForestPaths(m, f, cs[0]), EachPath(m, f, cs[1..], from), g, last);
    }
  }

  lemma {:induction false} WalkKeeps(m: Machine, t: Tree, open: nat, count: nat, zero: bool, c: Core, g: nat)
    requires t.Loop? && TreeOk(m, t) && m.CoreOk(c) && TreeNumbered(t, g)
    ensures AllKeep(c, Walk(m, t, open, count, zero, c), g, g + TreeGroups(t))
    decreases t.kids, 1, Slack(m, t, count, zero, c.pos), 1, 0
  {
    var last := g + TreeGroups(t);
    var exits := if CanExit(t, count) then [CloseScope(c, open)] else [];
    var enters := [];
    if CanEnter(t, count, zero) {
      var ds := ForestPaths(m, t.kids, c);
      ForestKeeps(m, t.kids, c, g);
      WalkEachKeeps(m, t, open, count, zero, c, ds, g);
      enters := WalkEach(m, t, open, count, zero, c, ds);
    }
    assert Walk(m, t, open, count, zero, c) == enters + exits;
    AllKeepJoin(c, enters, exits, g, last);
  }

  lemma {:induction false} WalkEachKeeps(m: Machine, t: Tree, open: nat, count: nat, zero: bool, c: Core, ds: seq<Core>,
                                         g: nat)
    requires t.Loop? && TreeOk(m, t) && m.CoreOk(c) && AllAhead(m, c, ds) && CanEnter(t, count, zero)
    requires TreeNumbered(t, g) && AllKeep(c, ds, g, g + TreeGroups(t))
    ensures AllKeep(c, WalkEach(m, t, open, count, zero, c, ds), g, g + TreeGroups(t))
    decreases t.kids, 1, Slack(m, t, count, zero, c.pos), 0, |ds|
  {
    if ds != [] {
      var last := g + TreeGroups(t);
      var empty := ds[0].pos == c.pos;
      assert Ahead(m, c, ds[0]) && Keeps(c, ds[0], g, last);
      var first := [];
      if !Dropped(t, count, empty) {
        WalkKeeps(m, t, open, count + 1, empty, ds[0], g);
        first := Walk(m, t, open, count + 1, empty, ds[0]);
        KeepsAfter(c, ds[0], first, g, last, g, last);
      }
      WalkEachKeeps(m, t, open, count, zero, c, ds[1..], g);
      AllKeepJoin(c, first, WalkEach(m, t, open, count, zero, c, ds[1..]), g, last);
    }
  }
}
