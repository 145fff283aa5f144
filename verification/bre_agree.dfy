/** The machine's paths and the reference semantics find the same matches in
    the same order; the history a path logs is the block of its scopes. */
module BreAgree {
  import opened BreProgram
  import opened BrePaths
  import opened BreKeep
  import opened BreScopes
  import opened BreReference

  function SpanOf(c: Core, g: nat): Span
    requires g < |c.begin| == |c.end|
  {
    if Matched(c, g) then Span(c.begin[g], c.end[g]) else Unset
  }

  ghost predicate SameSpans(c: Core, o: Out) {
    |c.begin| == |c.end| == |o.caps| == SLOTS && forall g :: 0 <= g < SLOTS ==> o.caps[g] == SpanOf(c, g)
  }

  /** A core and an outcome describe the same match, whose scopes were logged behind `h`. */
  ghost predicate Same(c: Core, o: Out, h: seq<Event>) {
    c.pos == o.at && SameSpans(c, o) && c.history == h + Block(o.scopes, |h|)
  }

  ghost predicate AllSame(cs: seq<Core>, os: seq<Out>, h: seq<Event>) {
    |cs| == |os| && forall i :: 0 <= i < |cs| ==> Same(cs[i], os[i], h)
  }

  lemma {:induction false} AllSameJoin(cs: seq<Core>, os: seq<Out>, cs': seq<Core>, os': seq<Out>, h: seq<Event>)
    requires AllSame(cs, os, h) && AllSame(cs', os', h)
    ensures AllSame(cs + cs', os + os', h)
  {
    forall i | 0 <= i < |cs + cs'|
      ensures Same((cs + cs')[i], (os + os')[i], h)
    {
      assert if i < |cs| then Same(cs[i], os[i], h) else Same(cs'[i - |cs|], os'[i - |cs|], h);
    }
  }

  lemma {:induction false} UnitSame(m: Machine, op: Op, a: nat, b: nat, c: Core, o: Out, h: seq<Event>)
    requires m.CoreOk(c) && OutOk(m, o) && Same(c, o, h)
    requires IsUnit(op) && (op.Ref? ==> a < SLOTS) && (op.Class? || op.NotClass? ==> a + b <= |m.ranges|)
    ensures AllSame(UnitStep(m, op, a, b, c), UnitOuts(m, op, a, b, o), h)
  {
    var here := m.input[o.at..];
    if op.Ref? && o.caps[a].Span? {
      var text := m.input[o.caps[a].from..o.caps[a].to];
      assert text <= here <==> |text| <= |here| && here[..|text|] == text;
      assert |text| <= |here| ==> here[..|text|] == m.input[o.at..o.at + |text|];
    }
  }

  // ---------- scopes ----------

  /** A match inside a scope entered behind `h + outer`, with the scope closed. */
  lemma {:induction false} WrapBlock(h: seq<Event>, o: Out, key: nat, r: Out)
    requires o.at <= r.at
    ensures var before := h + Block(o.scopes, |h|); var inside := before + [Opened(key, o.at)];
            h + Block(Wrap(o, key, r).scopes, |h|) == inside + Block(r.scopes, |inside|) + [Closed(|before|, r.at)]
  {
    var before := h + Block(o.scopes, |h|);
    var s := Scope(key, o.at, r.at - o.at, r.scopes);
    BlockAppend(o.scopes, Then(s, Flat), |h|);
    assert Block(Then(s, Flat), |before|) == ScopeBlock(s, |before|) + [];
  }

  lemma {:induction false} OpenSame(m: Machine, c: Core, o: Out, h: seq<Event>, key: nat, id: nat, last: nat)
    requires m.CoreOk(c) && Same(c, o, h) && id <= last < SLOTS
    ensures var inside := OpenGroup(m, c, key, id, last);
            Same(inside, Out(o.at, Clear(o.caps, id, last), Flat), inside.history)
  {
    var inside := OpenGroup(m, c, key, id, last);
    assert inside.history + [] == inside.history;
  }

  /** Closing a group records its capture and completes its scope. */
  lemma {:induction false} CloseSame(m: Machine, c: Core, o: Out, h: seq<Event>, key: nat, id: nat, d: Core, r: Out)
    requires m.CoreOk(d) && Same(c, o, h) && o.at <= r.at && id < SLOTS
    requires Same(d, r, c.history + [Opened(key, c.pos)])
    requires |d.opens| == SLOTS && d.opens[id] == |c.history| && d.begin[id] == c.pos
    ensures Same(CloseGroup(m, d, id), Wrap(o, key, r).(caps := r.caps[id := Span(o.at, r.at)]), h)
  {
    WrapBlock(h, o, key, r);
    var e := CloseGroup(m, d, id);
    forall g | 0 <= g < SLOTS
      ensures r.caps[id := Span(o.at, r.at)][g] == SpanOf(e, g)
    {
      assert r.caps[g] == SpanOf(d, g);
    }
  }

  lemma {:induction false} GroupSame(m: Machine, t: Tree, c: Core, o: Out, h: seq<Event>)
    requires t.Group? && TreeOk(m, t) && m.CoreOk(c) && OutOk(m, o) && Same(c, o, h)
    ensures AllSame(Paths(m, t, c), Outs(m, t, o), h)
    decreases t.kids, 1, 0, 0, 0
  {
    var inside := OpenGroup(m, c, t.key, t.id, t.last);
    var within := Out(o.at, Clear(o.caps, t.id, t.last), Flat);
    var ds := ForestPaths(m, t.kids, inside);
    var rs := ForestOuts(m, t.kids, within);
    OpenSame(m, c, o, h, t.key, t.id, t.last);
    ForestSame(m, t.kids, inside, within, inside.history);
    ForestKeeps(m, t.kids, inside, t.id);
    forall i | 0 <= i < |ds|
      ensures Same(CloseEach(m, ds, t.id)[i], Captured(m, o, t.key, t.id, rs)[i], h)
    {
      assert Ahead(m, inside, ds[i]) && Keeps(inside, ds[i], t.id, t.last) && After(m, within, rs[i]);
      CloseSame(m, c, o, h, t.key, t.id, ds[i], rs[i]);
    }
  }

  // ---------- trees ----------

  lemma {:induction false} PathsSame(m: Machine, t: Tree, c: Core, o: Out, h: seq<Event>)
    requires TreeOk(m, t) && m.CoreOk(c) && OutOk(m, o) && Same(c, o, h)
    ensures AllSame(Paths(m, t, c), Outs(m, t, o), h)
    decreases t, 0, 0, 0, 0
  {
    match t
    case Skip =>
    case Unit(op, a, b) => UnitSame(m, op, a, b, c, o, h);
    case Concat(kids) => ForestSame(m, kids, c, o, h);
    case Group(_, _, _, _) => GroupSame(m, t, c, o, h);
    case Loop(_, _, _, _) => LoopSame(m, t, c, o, h);
  }

  lemma {:induction false} ForestSame(m: Machine, f: Forest, c: Core, o: Out, h: seq<Event>)
    requires ForestOk(m, f) && m.CoreOk(c) && OutOk(m, o) && Same(c, o, h)
    ensures AllSame(ForestPaths(m, f, c), ForestOuts(m, f, o), h)
    decreases f, 0, 0, 0, 0
  {
    if f.Cons? {
      PathsSame(m, f.head, c, o, h);
      EachSame(m, f.tail, Paths(m, f.head, c), c, Outs(m, f.head, o), o, h);
    }
  }

  lemma {:induction false} EachSame(m: Machine, f: Forest, cs: seq<Core>, from: Core, os: seq<Out>, o: Out,
                                    h: seq<Event>)
    requires ForestOk(m, f) && AllAhead(m, from, cs) && AllAfter(m, o, os) && AllSame(cs, os, h)
    ensures AllSame(EachPath(m, f, cs, from), EachOuts(m, f, os, o), h)
    decreases f, 2, 0, 0, |cs|
  {
    if cs != [] {
      assert Ahead(m, from, cs[0]) && After(m, o, os[0]) && Same(cs[0], os[0], h);
      ForestSame(m, f, cs[0], os[0], h);
      EachSame(m, f, cs[1..], from, os[1..], o, h);
      AllSameJoin(ForestPaths(m, f, cs[0]), ForestOuts(m, f, os[0]), EachPath(m, f, cs[1..], from),
                  EachOuts(m, f, os[1..], o), h);
    }
  }

  // ---------- loops ----------

  /** A core that has just left a loop whose scope was opened behind `h`. */
  ghost predicate SameClosed(d: Core, r: Out, h: seq<Event>, open: nat) {
    d.pos == r.at && SameSpans(d, r) && d.history == h + Block(r.scopes, |h|) + [Closed(open, r.at)]
  }

  ghost predicate AllSameClosed(cs: seq<Core>, os: seq<Out>, h: seq<Event>, open: nat) {
    |cs| == |os| && forall i :: 0 <= i < |cs| ==> SameClosed(cs[i], os[i], h, open)
  }

  lemma {:induction false} AllSameClosedJoin(cs: seq<Core>, os: seq<Out>, cs': seq<Core>, os': seq<Out>, h: seq<Event>,
                                             open: nat)
    requires AllSameClosed(cs, os, h, open) && AllSameClosed(cs', os', h, open)
    ensures AllSameClosed(cs + cs', os + os', h, open)
  {
    forall i | 0 <= i < |cs + cs'|
      ensures SameClosed((cs + cs')[i], (os + os')[i], h, open)
    {
      assert if i < |cs| then SameClosed(cs[i], os[i], h, open) else SameClosed(cs'[i - |cs|], os'[i - |cs|], h, open);
    }
  }

  lemma {:induction false} LoopSame(m: Machine, t: Tree, c: Core, o: Out, h: seq<Event>)
    requires t.Loop? && TreeOk(m, t) && m.CoreOk(c) && OutOk(m, o) && Same(c, o, h)
    ensures AllSame(Paths(m, t, c), Outs(m, t, o), h)
    decreases t.kids, 2, 0, 0, 0
  {
    var inside := OpenScope(c, t.key);
    var within := Out(o.at, o.caps, Flat);
    assert inside.history + [] == inside.history;
    WalkSame(m, t, |c.history|, 0, false, inside, within, inside.history);
    var ds := Walk(m, t, |c.history|, 0, false, inside);
    var rs := IterateOuts(m, t, 0, within);
    forall i | 0 <= i < |ds|
      ensures Same(ds[i], Wrapped(m, o, t.key, rs)[i], h)
    {
      assert SameClosed(ds[i], rs[i], inside.history, |c.history|) && After(m, within, rs[i]);
      WrapBlock(h, o, t.key, rs[i]);
    }
  }

  /** A loop that may go on walks as the reference iterates. */
  lemma {:induction false} WalkSame(m: Machine, t: Tree, open: nat, n: nat, zero: bool, c: Core, o: Out, h: seq<Event>)
    requires t.Loop? && TreeOk(m, t) && m.CoreOk(c) && OutOk(m, o) && Same(c, o, h)
    requires !(zero && n >= t.min)
    ensures AllSameClosed(Walk(m, t, open, n, zero, c), IterateOuts(m, t, n, o), h, open)
    decreases t.kids, 1, Slack(m, t, n, zero, c.pos), 1, 0
  {
    var exits := if CanExit(t, n) then [CloseScope(c, open)] else [];
    var stops := if n >= t.min then [o] else [];
    var enters, goes := [], [];
    if n < t.max {
      enters := WalkEach(m, t, open, n, zero, c, ForestPaths(m, t.kids, c));
      goes := EachIteration(m, t, n, o, ForestOuts(m, t.kids, o));
      ForestSame(m, t.kids, c, o, h);
      WalkEachSame(m, t, open, n, zero, c, ForestPaths(m, t.kids, c), o, ForestOuts(m, t.kids, o), h);
    }
    assert Walk(m, t, open, n, zero, c) == enters + exits;
    AllSameClosedJoin(enters, goes, exits, stops, h, open);
  }

  /** After an empty iteration that was the last required one, only leaving is left. */
  lemma {:induction false} EmptyLeaves(m: Machine, t: Tree, open: nat, n: nat, d: Core, r: Out, h: seq<Event>)
    requires t.Loop? && TreeOk(m, t) && m.CoreOk(d) && Same(d, r, h) && n >= t.min
    ensures AllSameClosed(Walk(m, t, open, n, true, d), [r], h, open)
  {
    assert Walk(m, t, open, n, true, d) == [CloseScope(d, open)];
  }

  lemma {:induction false} WalkEachSame(m: Machine, t: Tree, open: nat, n: nat, zero: bool, c: Core, ds: seq<Core>,
                                        o: Out, rs: seq<Out>, h: seq<Event>)
    requires t.Loop? && TreeOk(m, t) && m.CoreOk(c) && OutOk(m, o) && c.pos == o.at
    requires AllAhead(m, c, ds) && AllAfter(m, o, rs) && AllSame(ds, rs, h)
    requires CanEnter(t, n, zero) && !(zero && n >= t.min)
    ensures AllSameClosed(WalkEach(m, t, open, n, zero, c, ds), EachIteration(m, t, n, o, rs), h, open)
    decreases t.kids, 1, Slack(m, t, n, zero, c.pos), 0, |ds|
  {
    if ds != [] {
      var empty := rs[0].at == o.at;
      assert Ahead(m, c, ds[0]) && After(m, o, rs[0]) && Same(ds[0], rs[0], h);
      var first := if Dropped(t, n, empty) then [] else Walk(m, t, open, n + 1, empty, ds[0]);
      var first' := if empty && n > 0 && n >= t.min then []
                    else if empty && n + 1 >= t.min then [rs[0]]
                    else IterateOuts(m, t, n + 1, rs[0]);
      if Dropped(t, n, empty) {
      } else if empty && n + 1 >= t.min {
        EmptyLeaves(m, t, open, n + 1, ds[0], rs[0], h);
      } else {
        WalkSame(m, t, open, n + 1, empty, ds[0], rs[0], h);
      }
      WalkEachSame(m, t, open, n, zero, c, ds[1..], o, rs[1..], h);
      AllSameClosedJoin(first, first', WalkEach(m, t, open, n, zero, c, ds[1..]), EachIteration(m, t, n, o, rs[1..]), h,
                        open);
    }
  }
}
