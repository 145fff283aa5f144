/** Lowered code runs exactly the paths of its tree, in order: the search of
    the machine from a tree's entry is the search of what follows the tree,
    over all the tree's paths. */
module BreCorrect {
  import opened BreProgram
  import opened BrePaths
  import opened BreMachine
  import opened BreLayout
  import opened BreKeep
  import opened Search

  ghost function FlatMap(k: Core -> seq<State>, cs: seq<Core>): seq<State> {
    if cs == [] then [] else k(cs[0]) + FlatMap(k, cs[1..])
  }

  lemma {:induction false} FlatMapConcat(k: Core -> seq<State>, xs: seq<Core>, ys: seq<Core>)
    ensures FlatMap(k, xs + ys) == FlatMap(k, xs) + FlatMap(k, ys)
  {
    if xs == [] {
      assert xs + ys == ys;
    } else {
      assert (xs + ys)[1..] == xs[1..] + ys;
      FlatMapConcat(k, xs[1..], ys);
    }
  }

  /** From each core, at `pc` and under `loops`, the search finds what `k` says. */
  ghost predicate Continues(step: State -> Move<State>, pc: nat, loops: seq<Active>, cs: seq<Core>,
                            k: Core -> seq<State>) {
    forall i :: 0 <= i < |cs| ==> Yields(step, State(pc, loops, cs[i]), k(cs[i]))
  }

  /** `step` is the machine's step; the name keeps proofs that do not step from looking inside. */
  ghost predicate IsStep(m: Machine, step: State -> Move<State>) {
    forall s: State {:trigger Step(m, s)} :: m.CoreOk(s.core) ==> step(s) == Step(m, s)
  }

  /** No active loop belongs to the code of the tree. */
  ghost predicate Outside(loops: seq<Active>, lo: nat, hi: nat) {
    forall i :: 0 <= i < |loops| ==> !(lo <= loops[i].pc < hi)
  }

  /** A tree placed at `lo` in a machine, entered under `loops`. */
  ghost predicate Fits(m: Machine, t: Tree, lo: nat, loops: seq<Active>) {
    && |m.input| <= MAX_INPUT && TreeOk(m, t) && Placed(m.code, t, lo)
    && Outside(loops, lo, lo + CodeSize(t)) && |loops| + LoopDepth(t) <= SLOTS
  }

  ghost predicate FitsAll(m: Machine, f: Forest, lo: nat, loops: seq<Active>) {
    && |m.input| <= MAX_INPUT && ForestOk(m, f) && PlacedAll(m.code, f, lo)
    && Outside(loops, lo, lo + CodeSizes(f)) && |loops| + LoopDepths(f) <= SLOTS
  }

  /** Trees without code match without moving. */
  lemma {:induction false} NoCodePath(m: Machine, t: Tree, c: Core)
    requires TreeOk(m, t) && m.CoreOk(c) && !HasCode(t)
    ensures Paths(m, t, c) == [c]
    decreases t
  {
    match t
    case Concat(kids) => NoCodePaths(m, kids, c);
    case _ =>
  }

  lemma {:induction false} NoCodePaths(m: Machine, f: Forest, c: Core)
    requires ForestOk(m, f) && m.CoreOk(c) && !HasCodes(f)
    ensures ForestPaths(m, f, c) == [c]
    decreases f
  {
    if f.Cons? {
      NoCodePath(m, f.head, c);
      NoCodePaths(m, f.tail, c);
      OnePath(m, f.tail, c, c);
    }
  }

  lemma {:induction false} OnePath(m: Machine, f: Forest, c: Core, from: Core)
    requires ForestOk(m, f) && m.CoreOk(c) && AllAhead(m, from, [c])
    ensures EachPath(m, f, [c], from) == ForestPaths(m, f, c)
  {
    assert EachPath(m, f, [c][1..], from) == [];
  }

  /** If the rest of the forest has no code, its paths add nothing. */
  lemma {:induction false} NoCodeEach(m: Machine, f: Forest, cs: seq<Core>, from: Core)
    requires ForestOk(m, f) && AllAhead(m, from, cs) && !HasCodes(f)
    ensures EachPath(m, f, cs, from) == cs
  {
    if cs != [] {
      NoCodePaths(m, f, cs[0]);
      NoCodeEach(m, f, cs[1..], from);
    }
  }

  /** What the rest of a forest finds from one state. */
  ghost function AfterTree(m: Machine, f: Forest, k: Core -> seq<State>, d: Core): seq<State>
    requires ForestOk(m, f)
  {
    if m.CoreOk(d) then FlatMap(k, ForestPaths(m, f, d)) else []
  }

  /** `AfterTree` as a function value, given only by name. */
  lemma {:induction false} NameAfterTree(m: Machine, f: Forest, k: Core -> seq<State>) returns (k': Core -> seq<State>)
    requires ForestOk(m, f)
    ensures forall d {:trigger AfterTree(m, f, k, d)} :: k'(d) == AfterTree(m, f, k, d)
  {
    k' := (d: Core) => AfterTree(m, f, k, d);
  }

  /** Grouping the continuation of a forest's tail by the paths of its head. */
  lemma {:induction false} FlatMapEach(m: Machine, f: Forest, cs: seq<Core>, from: Core, k: Core -> seq<State>,
                                       k': Core -> seq<State>)
    requires ForestOk(m, f) && AllAhead(m, from, cs)
    requires forall d {:trigger AfterTree(m, f, k, d)} :: k'(d) == AfterTree(m, f, k, d)
    ensures FlatMap(k, EachPath(m, f, cs, from)) == FlatMap(k', cs)
  {
    if cs != [] {
      FlatMapEach(m, f, cs[1..], from, k, k');
      assert Ahead(m, from, cs[0]) && k'(cs[0]) == AfterTree(m, f, k, cs[0]);
      FlatMapConcat(k, ForestPaths(m, f, cs[0]), EachPath(m, f, cs[1..], from));
    }
  }

  /** The paths of one state are among those of all. */
  lemma {:induction false} EachIncludes(step: State -> Move<State>, m: Machine, f: Forest, cs: seq<Core>, from: Core,
                                        i: nat, pc: nat, loops: seq<Active>, k: Core -> seq<State>)
    requires ForestOk(m, f) && AllAhead(m, from, cs) && i < |cs|
    requires Continues(step, pc, loops, EachPath(m, f, cs, from), k)
    ensures Continues(step, pc, loops, ForestPaths(m, f, cs[i]), k)
  {
    var first := ForestPaths(m, f, cs[0]);
    var rest := EachPath(m, f, cs[1..], from);
    assert EachPath(m, f, cs, from) == first + rest;
    ContinuesSplit(step, pc, loops, first, rest, k);
    if i > 0 {
      EachIncludes(step, m, f, cs[1..], from, i - 1, pc, loops, k);
    }
  }

  /** The main result for one tree. */
  lemma {:induction false} RunTree(step: State -> Move<State>, m: Machine, t: Tree, lo: nat, loops: seq<Active>,
                                   c: Core, k: Core -> seq<State>)
    requires IsStep(m, step) && Fits(m, t, lo, loops) && m.CoreOk(c) && HasCode(t)
    requires Continues(step, m.code[TailOf(t, lo)].next, loops, Paths(m, t, c), k)
    ensures Yields(step, State(EntryOf(t, lo), loops, c), FlatMap(k, Paths(m, t, c)))
    decreases t, 1, 0, 0
  {
    match t
    case Unit(_, _, _) => RunUnit(step, m, t, lo, loops, c, k);
    case Concat(kids) => RunForest(step, m, kids, lo, loops, c, k);
    case Group(_, _, _, _) => RunGroup(step, m, t, lo, loops, c, k);
    case Loop(_, _, _, _) => RunLoop(step, m, t, lo, loops, c, k);
  }

  lemma {:induction false} RunUnit(step: State -> Move<State>, m: Machine, t: Tree, lo: nat, loops: seq<Active>,
                                   c: Core, k: Core -> seq<State>)
    requires IsStep(m, step) && t.Unit? && Fits(m, t, lo, loops) && m.CoreOk(c)
    requires Continues(step, m.code[lo].next, loops, Paths(m, t, c), k)
    ensures Yields(step, State(lo, loops, c), FlatMap(k, Paths(m, t, c)))
  {
    var s := State(lo, loops, c);
    var r := UnitStep(m, t.op, t.a, t.b, c);
    assert step(s) == Step(m, s);
    if r == [] {
      YieldsHere(step, s);
    } else {
      assert r == [r[0]] && FlatMap(k, r) == k(r[0]) + FlatMap(k, r[1..]);
      assert k(r[0]) + [] == k(r[0]);
      YieldsNext(step, s, State(m.code[lo].next, loops, r[0]), k(r[0]));
    }
  }

  lemma {:induction false} FitsSplit(m: Machine, f: Forest, lo: nat, loops: seq<Active>)
    requires f.Cons? && FitsAll(m, f, lo, loops)
    ensures Fits(m, f.head, lo + CodeSizes(f.tail), loops) && FitsAll(m, f.tail, lo, loops)
  {
  }

  /** A forest with code on one side only is that side. */
  lemma {:induction false} OneSided(m: Machine, f: Forest, lo: nat, c: Core)
    requires f.Cons? && ForestOk(m, f) && m.CoreOk(c) && HasCodes(f)
    ensures !HasCode(f.head) ==>
              ForestPaths(m, f, c) == ForestPaths(m, f.tail, c) &&
              EntryOfs(f, lo) == EntryOfs(f.tail, lo) && TailOfs(f, lo) == TailOfs(f.tail, lo)
    ensures !HasCodes(f.tail) ==>
              ForestPaths(m, f, c) == Paths(m, f.head, c) &&
              EntryOfs(f, lo) == EntryOf(f.head, lo + CodeSizes(f.tail))
                  && TailOfs(f, lo) == TailOf(f.head, lo + CodeSizes(f.tail))
  {
    if !HasCode(f.head) {
      NoCodePath(m, f.head, c);
      OnePath(m, f.tail, c, c);
    } else if !HasCodes(f.tail) {
      NoCodeEach(m, f.tail, Paths(m, f.head, c), c);
    }
  }

  /** A forest runs its trees one after the other. */
  lemma {:induction false} RunForest(step: State -> Move<State>, m: Machine, f: Forest, lo: nat, loops: seq<Active>,
                                     c: Core, k: Core -> seq<State>)
    requires IsStep(m, step) && FitsAll(m, f, lo, loops) && m.CoreOk(c) && HasCodes(f)
    requires Continues(step, m.code[TailOfs(f, lo)].next, loops, ForestPaths(m, f, c), k)
    ensures Yields(step, State(EntryOfs(f, lo), loops, c), FlatMap(k, ForestPaths(m, f, c)))
    decreases f, 1, 0, 0
  {
    FitsSplit(m, f, lo, loops);
    OneSided(m, f, lo, c);
    if !HasCode(f.head) {
      RunForest(step, m, f.tail, lo, loops, c, k);
    } else if !HasCodes(f.tail) {
      RunTree(step, m, f.head, lo + CodeSizes(f.tail), loops, c, k);
    } else {
      RunBoth(step, m, f, lo, loops, c, k);
    }
  }

  lemma {:induction false} RunBoth(step: State -> Move<State>, m: Machine, f: Forest, lo: nat, loops: seq<Active>,
                                   c: Core, k: Core -> seq<State>)
    requires IsStep(m, step) && f.Cons? && Fits(m, f.head, lo + CodeSizes(f.tail), loops)
    requires FitsAll(m, f.tail, lo, loops)
    requires m.CoreOk(c) && HasCode(f.head) && HasCodes(f.tail)
    requires m.code[TailOf(f.head, lo + CodeSizes(f.tail))].next == EntryOfs(f.tail, lo)
    requires Continues(step, m.code[TailOfs(f.tail, lo)].next, loops, EachPath(m, f.tail, Paths(m, f.head, c), c), k)
    ensures Yields(step, State(EntryOf(f.head, lo + CodeSizes(f.tail)), loops, c),
                   FlatMap(k, EachPath(m, f.tail, Paths(m, f.head, c), c)))
    decreases f, 0, 1, 0
  {
    var cs := Paths(m, f.head, c);
    var k' := NameAfterTree(m, f.tail, k);
    SecondContinues(step, m, f, lo, loops, c, cs, k, k');
    RunTree(step, m, f.head, lo + CodeSizes(f.tail), loops, c, k');
    FlatMapEach(m, f.tail, cs, c, k, k');
  }

  lemma {:induction false} SecondContinues(step: State -> Move<State>, m: Machine, f: Forest, lo: nat,
                                           loops: seq<Active>, c: Core, cs: seq<Core>, k: Core -> seq<State>,
                                               k': Core -> seq<State>)
    requires IsStep(m, step) && f.Cons? && Fits(m, f.head, lo + CodeSizes(f.tail), loops)
    requires FitsAll(m, f.tail, lo, loops)
    requires m.CoreOk(c) && HasCodes(f.tail) && cs == Paths(m, f.head, c)
    requires Continues(step, m.code[TailOfs(f.tail, lo)].next, loops, EachPath(m, f.tail, cs, c), k)
    requires forall d {:trigger AfterTree(m, f.tail, k, d)} :: k'(d) == AfterTree(m, f.tail, k, d)
    ensures Continues(step, EntryOfs(f.tail, lo), loops, cs, k')
    decreases f, 0, 0, 1
  {
    forall i | 0 <= i < |cs|
      ensures Yields(step, State(EntryOfs(f.tail, lo), loops, cs[i]), k'(cs[i]))
    {
      RunSecond(step, m, f, lo, loops, c, cs, i, k);
      assert k'(cs[i]) == AfterTree(m, f.tail, k, cs[i]);
    }
  }

  /** The later trees run from the end of each path of the first. */
  lemma {:induction false} RunSecond(step: State -> Move<State>, m: Machine, f: Forest, lo: nat, loops: seq<Active>,
                                     c: Core, cs: seq<Core>, i: nat, k: Core -> seq<State>)
    requires IsStep(m, step) && f.Cons? && Fits(m, f.head, lo + CodeSizes(f.tail), loops)
    requires FitsAll(m, f.tail, lo, loops)
    requires m.CoreOk(c) && HasCodes(f.tail) && cs == Paths(m, f.head, c) && i < |cs|
    requires Continues(step, m.code[TailOfs(f.tail, lo)].next, loops, EachPath(m, f.tail, cs, c), k)
    ensures m.CoreOk(cs[i]) && Yields(step, State(EntryOfs(f.tail, lo), loops, cs[i]), AfterTree(m, f.tail, k, cs[i]))
    decreases f, 0, 0, 0
  {
    assert Ahead(m, c, cs[i]);
    EachIncludes(step, m, f.tail, cs, c, i, m.code[TailOfs(f.tail, lo)].next, loops, k);
    RunForest(step, m, f.tail, lo, loops, cs[i], k);
  }

  // ---------- groups ----------

  /** What follows a group, from a state inside it. */
  ghost function AfterClose(m: Machine, id: nat, k: Core -> seq<State>, d: Core): seq<State>
    requires id < SLOTS
  {
    if m.CoreOk(d) then k(CloseGroup(m, d, id)) else []
  }

  /** `AfterClose` as a function value, given only by name. */
  lemma {:induction false} NameAfterClose(m: Machine, id: nat, k: Core -> seq<State>) returns (k': Core -> seq<State>)
    requires id < SLOTS
    ensures forall d {:trigger AfterClose(m, id, k, d)} :: k'(d) == AfterClose(m, id, k, d)
  {
    k' := (d: Core) => AfterClose(m, id, k, d);
  }

  lemma {:induction false} FlatMapClose(m: Machine, ds: seq<Core>, id: nat, k: Core -> seq<State>,
                                        k': Core -> seq<State>)
    requires id < SLOTS && forall i :: 0 <= i < |ds| ==> m.CoreOk(ds[i])
    requires forall d {:trigger AfterClose(m, id, k, d)} :: k'(d) == AfterClose(m, id, k, d)
    ensures FlatMap(k', ds) == FlatMap(k, CloseEach(m, ds, id))
  {
    if ds != [] {
      assert k'(ds[0]) == AfterClose(m, id, k, ds[0]);
      FlatMapClose(m, ds[1..], id, k, k');
    }
  }

  lemma {:induction false} OpenStep(m: Machine, t: Tree, lo: nat, loops: seq<Active>, c: Core)
    requires t.Group? && Fits(m, t, lo, loops) && m.CoreOk(c)
    ensures var open := EntryOf(t, lo);
            Step(m, State(open, loops, c)) ==
            Next(State(m.code[open].next, loops, OpenGroup(m, c, t.key, t.id, t.last)))
  {
  }

  lemma {:induction false} CloseStep(m: Machine, t: Tree, lo: nat, loops: seq<Active>, d: Core)
    requires t.Group? && Fits(m, t, lo, loops) && m.CoreOk(d) && d.begin[t.id] >= 0
    ensures var close := TailOf(t, lo);
            Step(m, State(close, loops, d)) == Next(State(m.code[close].next, loops, CloseGroup(m, d, t.id)))
  {
  }

  /** What follows a group, seen from inside its closing instruction. */
  lemma {:induction false} ContinuesClosed(step: State -> Move<State>, m: Machine, t: Tree, lo: nat, loops: seq<Active>,
                                           ds: seq<Core>, k: Core -> seq<State>, k': Core -> seq<State>)
    requires IsStep(m, step) && t.Group? && Fits(m, t, lo, loops)
    requires forall i :: 0 <= i < |ds| ==> m.CoreOk(ds[i]) && ds[i].begin[t.id] >= 0
    requires forall d {:trigger AfterClose(m, t.id, k, d)} :: k'(d) == AfterClose(m, t.id, k, d)
    requires Continues(step, m.code[TailOf(t, lo)].next, loops, CloseEach(m, ds, t.id), k)
    ensures Continues(step, TailOf(t, lo), loops, ds, k')
  {
    var close := TailOf(t, lo);
    forall i | 0 <= i < |ds|
      ensures Yields(step, State(close, loops, ds[i]), k'(ds[i]))
    {
      var closed := CloseEach(m, ds, t.id)[i];
      assert k'(ds[i]) == AfterClose(m, t.id, k, ds[i]);
      CloseStep(m, t, lo, loops, ds[i]);
      YieldsNext(step, State(close, loops, ds[i]), State(m.code[close].next, loops, closed), k(closed));
    }
  }

  /** Nothing inside a group closes or resets the group itself. */
  lemma {:induction false} GroupStaysOpen(m: Machine, t: Tree, c: Core, ds: seq<Core>)
    requires t.Group? && TreeOk(m, t) && m.CoreOk(c)
    requires ds == ForestPaths(m, t.kids, OpenGroup(m, c, t.key, t.id, t.last))
    ensures forall i :: 0 <= i < |ds| ==> m.CoreOk(ds[i]) && ds[i].begin[t.id] >= 0 && ds[i].opens[t.id] == |c.history|
  {
    var inside := OpenGroup(m, c, t.key, t.id, t.last);
    ForestKeeps(m, t.kids, inside, t.id);
    forall i | 0 <= i < |ds|
      ensures m.CoreOk(ds[i]) && ds[i].begin[t.id] >= 0 && ds[i].opens[t.id] == |c.history|
    {
      assert Ahead(m, inside, ds[i]) && Keeps(inside, ds[i], t.id, t.last);
    }
  }

  /** From behind a group's opening, its body runs up to its closing. */
  lemma {:induction false} RunInside(step: State -> Move<State>, m: Machine, t: Tree, lo: nat, loops: seq<Active>,
                                     inside: Core, k: Core -> seq<State>)
    requires IsStep(m, step) && t.Group? && Fits(m, t, lo, loops) && m.CoreOk(inside)
    requires Continues(step, TailOf(t, lo), loops, ForestPaths(m, t.kids, inside), k)
    ensures Yields(step, State(m.code[EntryOf(t, lo)].next, loops, inside), FlatMap(k, ForestPaths(m, t.kids, inside)))
    decreases t, 0, 0, 0
  {
    GroupBody(m, t, lo, loops);
    if HasCodes(t.kids) {
      RunForest(step, m, t.kids, lo, loops, inside, k);
    } else {
      NoCodePaths(m, t.kids, inside);
      FlatMapOne(k, inside);
    }
  }

  lemma {:induction false} RunGroup(step: State -> Move<State>, m: Machine, t: Tree, lo: nat, loops: seq<Active>,
                                    c: Core, k: Core -> seq<State>)
    requires IsStep(m, step) && t.Group? && Fits(m, t, lo, loops) && m.CoreOk(c)
    requires Continues(step, m.code[TailOf(t, lo)].next, loops, Paths(m, t, c), k)
    ensures Yields(step, State(EntryOf(t, lo), loops, c), FlatMap(k, Paths(m, t, c)))
    decreases t, 0, 1, 0
  {
    var open := EntryOf(t, lo);
    var inside := OpenGroup(m, c, t.key, t.id, t.last);
    var ds := ForestPaths(m, t.kids, inside);
    var k' := NameAfterClose(m, t.id, k);
    GroupStaysOpen(m, t, c, ds);
    ContinuesClosed(step, m, t, lo, loops, ds, k, k');
    FlatMapClose(m, ds, t.id, k, k');
    RunInside(step, m, t, lo, loops, inside, k');
    OpenStep(m, t, lo, loops, c);
    YieldsNext(step, State(open, loops, c), State(m.code[open].next, loops, inside), FlatMap(k', ds));
  }

  lemma {:induction false} GroupBody(m: Machine, t: Tree, lo: nat, loops: seq<Active>)
    requires t.Group? && Fits(m, t, lo, loops)
    ensures FitsAll(m, t.kids, lo, loops)
    ensures HasCodes(t.kids) ==>
              m.code[EntryOf(t, lo)].next == EntryOfs(t.kids, lo) && m.code[TailOfs(t.kids, lo)].next == TailOf(t, lo)
    ensures !HasCodes(t.kids) ==> m.code[EntryOf(t, lo)].next == TailOf(t, lo)
  {
  }

  lemma {:induction false} FlatMapOne(k: Core -> seq<State>, c: Core)
    ensures FlatMap(k, [c]) == k(c)
  {
    assert FlatMap(k, [c][1..]) == [];
  }

  // ---------- loops ----------

  /** What a loop still finds after its body ended at `d`. */
  ghost function AfterBody(m: Machine, t: Tree, a: Active, c: Core, k: Core -> seq<State>, d: Core): seq<State>
    requires t.Loop? && TreeOk(m, t) && m.CoreOk(c) && CanEnter(t, a.count, a.zero)
  {
    if !Ahead(m, c, d) || Dropped(t, a.count, d.pos == c.pos) then []
    else FlatMap(k, Walk(m, t, a.open, a.count + 1, d.pos == c.pos, d))
  }

  /** `AfterBody` as a function value, given only by name. */
  lemma {:induction false} NameAfterBody(m: Machine, t: Tree, a: Active, c: Core, k: Core -> seq<State>)
    returns (k': Core -> seq<State>)
    requires t.Loop? && TreeOk(m, t) && m.CoreOk(c) && CanEnter(t, a.count, a.zero)
    ensures forall d {:trigger AfterBody(m, t, a, c, k, d)} :: k'(d) == AfterBody(m, t, a, c, k, d)
  {
    k' := (d: Core) => AfterBody(m, t, a, c, k, d);
  }

  /** The rest of a loop whose body ended at `d`. */
  ghost function AfterOne(m: Machine, t: Tree, a: Active, c: Core, d: Core): seq<Core>
    requires t.Loop? && TreeOk(m, t) && m.CoreOk(c) && Ahead(m, c, d) && CanEnter(t, a.count, a.zero)
  {
    if Dropped(t, a.count, d.pos == c.pos) then [] else Walk(m, t, a.open, a.count + 1, d.pos == c.pos, d)
  }

  lemma {:induction false} WalkEachFirst(m: Machine, t: Tree, a: Active, c: Core, ds: seq<Core>)
    requires t.Loop? && TreeOk(m, t) && m.CoreOk(c) && AllAhead(m, c, ds) && CanEnter(t, a.count, a.zero) && ds != []
    ensures Ahead(m, c, ds[0])
    ensures WalkEach(m, t, a.open, a.count, a.zero, c, ds) ==
            AfterOne(m, t, a, c, ds[0]) + WalkEach(m, t, a.open, a.count, a.zero, c, ds[1..])
  {
  }

  lemma {:induction false} WalkEachSplits(m: Machine, t: Tree, a: Active, c: Core, ds: seq<Core>, k: Core -> seq<State>)
    requires t.Loop? && TreeOk(m, t) && m.CoreOk(c) && AllAhead(m, c, ds) && CanEnter(t, a.count, a.zero) && ds != []
    ensures FlatMap(k, WalkEach(m, t, a.open, a.count, a.zero, c, ds)) ==
            AfterBody(m, t, a, c, k, ds[0]) + FlatMap(k, WalkEach(m, t, a.open, a.count, a.zero, c, ds[1..]))
  {
    WalkEachFirst(m, t, a, c, ds);
    FlatMapConcat(k, AfterOne(m, t, a, c, ds[0]), WalkEach(m, t, a.open, a.count, a.zero, c, ds[1..]));
  }

  /** The iterations of the loop's body, each with what the loop does after it. */
  lemma {:induction false} FlatMapWalk(m: Machine, t: Tree, a: Active, c: Core, ds: seq<Core>, k: Core -> seq<State>,
                                       k': Core -> seq<State>)
    requires t.Loop? && TreeOk(m, t) && m.CoreOk(c) && AllAhead(m, c, ds) && CanEnter(t, a.count, a.zero)
    requires forall d {:trigger AfterBody(m, t, a, c, k, d)} :: k'(d) == AfterBody(m, t, a, c, k, d)
    ensures FlatMap(k', ds) == FlatMap(k, WalkEach(m, t, a.open, a.count, a.zero, c, ds))
    decreases |ds|
  {
    if ds != [] {
      FlatMapWalk(m, t, a, c, ds[1..], k, k');
      WalkEachSplits(m, t, a, c, ds, k);
    }
  }

  lemma {:induction false} WalkIncludes(step: State -> Move<State>, m: Machine, t: Tree, open: nat, count: nat,
                                        zero: bool, c: Core, ds: seq<Core>, i: nat, pc: nat, loops: seq<Active>,
                                            k: Core -> seq<State>)
    requires t.Loop? && TreeOk(m, t) && m.CoreOk(c) && AllAhead(m, c, ds) && CanEnter(t, count, zero) && i < |ds|
    requires Continues(step, pc, loops, WalkEach(m, t, open, count, zero, c, ds), k)
    requires !Dropped(t, count, ds[i].pos == c.pos)
    ensures Continues(step, pc, loops, Walk(m, t, open, count + 1, ds[i].pos == c.pos, ds[i]), k)
    decreases |ds|
  {
    var first := if Dropped(t, count, ds[0].pos == c.pos) then []
                 else Walk(m, t, open, count + 1, ds[0].pos == c.pos, ds[0]);
    var rest := WalkEach(m, t, open, count, zero, c, ds[1..]);
    assert WalkEach(m, t, open, count, zero, c, ds) == first + rest;
    ContinuesSplit(step, pc, loops, first, rest, k);
    if i > 0 {
      WalkIncludes(step, m, t, open, count, zero, c, ds[1..], i - 1, pc, loops, k);
    }
  }

  /** A loop on top of the stack enters or leaves its body. */
  lemma {:induction false} BetweenStep(m: Machine, t: Tree, lo: nat, loops: seq<Active>, a: Active, c: Core)
    requires t.Loop? && Fits(m, t, lo, loops) && m.CoreOk(c) && a.pc == EntryOf(t, lo)
    ensures var i := m.code[a.pc];
            var enter := State(EntryOfs(t.kids, lo), loops + [a.(start := c.pos)], c);
            var exit := State(i.next, loops, CloseScope(c, a.open));
            Step(m, State(a.pc, loops + [a], c)) ==
            if CanEnter(t, a.count, a.zero) then if CanExit(t, a.count) then Fork(enter, exit) else Next(enter)
            else if CanExit(t, a.count) then Next(exit) else Backtrack
  {
    var s := State(a.pc, loops + [a], c);
    assert s.loops[..|loops|] == loops;
    assert s.loops[|loops| := a.(start := c.pos)] == loops + [a.(start := c.pos)];
  }

  /** Reaching a loop from outside activates it and opens its scope. */
  lemma {:induction false} ActivateStep(m: Machine, t: Tree, lo: nat, loops: seq<Active>, c: Core)
    requires t.Loop? && Fits(m, t, lo, loops) && m.CoreOk(c)
    ensures var pc := EntryOf(t, lo);
            Step(m, State(pc, loops, c)) ==
            Step(m, State(pc, loops + [Active(pc, 0, c.pos, false, |c.history|)], OpenScope(c, t.key)))
    ensures !Step(m, State(EntryOf(t, lo), loops, c)).Accepted?
  {
    var pc := EntryOf(t, lo);
    assert loops == [] || loops[|loops| - 1].pc != pc;
    var i := m.code[pc];
    var s, active := State(pc, loops, c), State(pc, loops + [Active(pc, 0, c.pos, false, |c.history|)],
                                                OpenScope(c, t.key));
    assert i.op.Repeat? && i.b == t.key;
    assert Activate(i, s) == active && Activate(i, active) == active;
    RepeatStep(m, s);
    RepeatStep(m, active);
  }

  /** A repeat instruction acts on the state in which its loop is active. */
  lemma {:induction false} RepeatStep(m: Machine, s: State)
    requires m.CoreOk(s.core) && s.pc < |m.code| && m.code[s.pc].op.Repeat?
    ensures var i := m.code[s.pc];
            Step(m, s) == if !InstructionOk(m, i) || |Activate(i, s).loops| > SLOTS then Broken
              else LoopMove(i, Activate(i, s))
  {
  }

  /** The end of an iteration returns to the loop, unless the iteration is dropped. */
  lemma {:induction false} IterationStep(m: Machine, t: Tree, lo: nat, loops: seq<Active>, a: Active, c: Core, d: Core)
    requires t.Loop? && Fits(m, t, lo, loops) && m.CoreOk(d) && a.pc == EntryOf(t, lo)
    requires a.count <= t.min + 1 + c.pos && Ahead(m, c, d) && a.start == c.pos
    ensures var next := a.(zero := d.pos == c.pos, count := a.count + 1);
            Step(m, State(a.pc + 1, loops + [a], d)) ==
            if Dropped(t, a.count, d.pos == c.pos) then Backtrack else Next(State(a.pc, loops + [next], d))
  {
    var next := a.(zero := d.pos == c.pos, count := a.count + 1);
    assert (loops + [a])[|loops| := next] == loops + [next];
  }

  lemma {:induction false} LoopBody(m: Machine, t: Tree, lo: nat, loops: seq<Active>, a: Active)
    requires t.Loop? && Fits(m, t, lo, loops) && a.pc == EntryOf(t, lo)
    ensures FitsAll(m, t.kids, lo, loops + [a]) && m.code[TailOfs(t.kids, lo)].next == a.pc + 1
  {
  }

  lemma {:induction false} RunAfterBody(step: State -> Move<State>, m: Machine, t: Tree, lo: nat, loops: seq<Active>,
                                        a: Active, c: Core, k: Core -> seq<State>, d: Core)
    requires IsStep(m, step) && t.Loop? && Fits(m, t, lo, loops) && m.CoreOk(c) && CanEnter(t, a.count, a.zero)
    requires a.pc == EntryOf(t, lo) && a.count <= t.min + 1 + c.pos && a.start == c.pos && Ahead(m, c, d)
    requires !Dropped(t, a.count, d.pos == c.pos) ==>
               Continues(step, m.code[a.pc].next, loops, Walk(m, t, a.open, a.count + 1, d.pos == c.pos, d), k)
    ensures Yields(step, State(a.pc + 1, loops + [a], d), AfterBody(m, t, a, c, k, d))
    decreases t.kids, 2, Slack(m, t, a.count, a.zero, c.pos), 0
  {
    var s := State(a.pc + 1, loops + [a], d);
    IterationStep(m, t, lo, loops, a, c, d);
    if Dropped(t, a.count, d.pos == c.pos) {
      YieldsHere(step, s);
    } else {
      var next := a.(zero := d.pos == c.pos, count := a.count + 1);
      RunWalk(step, m, t, lo, loops, next, d, k);
      YieldsNext(step, s, State(a.pc, loops + [next], d), AfterBody(m, t, a, c, k, d));
    }
  }

  /** The bodies' ends, each continued by the rest of the loop. */
  lemma {:induction false} BodyContinues(step: State -> Move<State>, m: Machine, t: Tree, lo: nat, loops: seq<Active>,
                                         b: Active, c: Core, k: Core -> seq<State>, k': Core -> seq<State>)
    requires IsStep(m, step) && t.Loop? && Fits(m, t, lo, loops) && m.CoreOk(c) && CanEnter(t, b.count, b.zero)
    requires b.pc == EntryOf(t, lo) && b.count <= t.min + 1 + c.pos && b.start == c.pos
    requires Continues(step, m.code[b.pc].next, loops,
                       WalkEach(m, t, b.open, b.count, b.zero, c, ForestPaths(m, t.kids, c)), k)
    requires forall d {:trigger AfterBody(m, t, b, c, k, d)} :: k'(d) == AfterBody(m, t, b, c, k, d)
    ensures Continues(step, b.pc + 1, loops + [b], ForestPaths(m, t.kids, c), k')
    decreases t.kids, 2, Slack(m, t, b.count, b.zero, c.pos), 1
  {
    var ds := ForestPaths(m, t.kids, c);
    forall i | 0 <= i < |ds|
      ensures Yields(step, State(b.pc + 1, loops + [b], ds[i]), k'(ds[i]))
    {
      assert Ahead(m, c, ds[i]) && k'(ds[i]) == AfterBody(m, t, b, c, k, ds[i]);
      if !Dropped(t, b.count, ds[i].pos == c.pos) {
        WalkIncludes(step, m, t, b.open, b.count, b.zero, c, ds, i, m.code[b.pc].next, loops, k);
      }
      RunAfterBody(step, m, t, lo, loops, b, c, k, ds[i]);
    }
  }

  /** One more iteration, then whatever the loop can still do. */
  lemma {:induction false} RunIteration(step: State -> Move<State>, m: Machine, t: Tree, lo: nat, loops: seq<Active>,
                                        a: Active, c: Core, k: Core -> seq<State>)
    requires IsStep(m, step) && t.Loop? && Fits(m, t, lo, loops) && m.CoreOk(c) && CanEnter(t, a.count, a.zero)
    requires a.pc == EntryOf(t, lo) && a.count <= t.min + 1 + c.pos
    requires Continues(step, m.code[a.pc].next, loops,
                       WalkEach(m, t, a.open, a.count, a.zero, c, ForestPaths(m, t.kids, c)), k)
    ensures Yields(step, State(EntryOfs(t.kids, lo), loops + [a.(start := c.pos)], c),
                   FlatMap(k, WalkEach(m, t, a.open, a.count, a.zero, c, ForestPaths(m, t.kids, c))))
    decreases t.kids, 2, Slack(m, t, a.count, a.zero, c.pos), 2
  {
    var b := a.(start := c.pos);
    var k' := NameAfterBody(m, t, b, c, k);
    BodyContinues(step, m, t, lo, loops, b, c, k, k');
    LoopBody(m, t, lo, loops, b);
    RunForest(step, m, t.kids, lo, loops + [b], c, k');
    FlatMapWalk(m, t, b, c, ForestPaths(m, t.kids, c), k, k');
  }

  /** A loop between iterations runs its remaining walk. */
  lemma {:induction false} RunWalk(step: State -> Move<State>, m: Machine, t: Tree, lo: nat, loops: seq<Active>,
                                   a: Active, c: Core, k: Core -> seq<State>)
    requires IsStep(m, step) && t.Loop? && Fits(m, t, lo, loops) && m.CoreOk(c)
    requires a.pc == EntryOf(t, lo) && a.count <= t.min + 1 + c.pos
    requires Continues(step, m.code[a.pc].next, loops, Walk(m, t, a.open, a.count, a.zero, c), k)
    ensures Yields(step, State(a.pc, loops + [a], c), FlatMap(k, Walk(m, t, a.open, a.count, a.zero, c)))
    decreases t.kids, 2, Slack(m, t, a.count, a.zero, c.pos), 3
  {
    var enters := if CanEnter(t, a.count, a.zero)
                  then WalkEach(m, t, a.open, a.count, a.zero, c, ForestPaths(m, t.kids, c)) else [];
    var exits := if CanExit(t, a.count) then [CloseScope(c, a.open)] else [];
    assert Walk(m, t, a.open, a.count, a.zero, c) == enters + exits;
    var s := State(a.pc, loops + [a], c);
    var enter := State(EntryOfs(t.kids, lo), loops + [a.(start := c.pos)], c);
    var exit := State(m.code[a.pc].next, loops, CloseScope(c, a.open));
    BetweenStep(m, t, lo, loops, a, c);
    FlatMapConcat(k, enters, exits);
    ContinuesSplit(step, m.code[a.pc].next, loops, enters, exits, k);
    if CanEnter(t, a.count, a.zero) {
      RunIteration(step, m, t, lo, loops, a, c, k);
    }
    if CanExit(t, a.count) {
      FlatMapOne(k, CloseScope(c, a.open));
      assert Yields(step, exit, FlatMap(k, exits));
    }
    YieldsEither(step, s, enter, exit, CanEnter(t, a.count, a.zero), CanExit(t, a.count), FlatMap(k, enters),
                 FlatMap(k, exits));
  }

  /** A state that goes on in one way, in two, or not at all. */
  lemma {:induction false} YieldsEither(step: State -> Move<State>, s: State, enter: State, exit: State, enters: bool,
                                        exits: bool, xs: seq<State>, ys: seq<State>)
    requires step(s) == if enters && exits then Fork(enter, exit) else if enters then Next(enter)
             else if exits then Next(exit) else Backtrack
    requires if enters then Yields(step, enter, xs) else xs == []
    requires if exits then Yields(step, exit, ys) else ys == []
    ensures Yields(step, s, xs + ys)
  {
    if enters && exits {
      YieldsFork(step, s, enter, exit, xs, ys);
    } else if enters {
      YieldsNext(step, s, enter, xs);
      assert xs + ys == xs;
    } else if exits {
      YieldsNext(step, s, exit, ys);
      assert xs + ys == ys;
    } else {
      YieldsHere(step, s);
    }
  }

  lemma {:induction false} ContinuesSplit(step: State -> Move<State>, pc: nat, loops: seq<Active>, xs: seq<Core>,
                                          ys: seq<Core>, k: Core -> seq<State>)
    requires Continues(step, pc, loops, xs + ys, k)
    ensures Continues(step, pc, loops, xs, k) && Continues(step, pc, loops, ys, k)
  {
    assert forall i :: 0 <= i < |xs| ==> xs[i] == (xs + ys)[i];
    assert forall i :: 0 <= i < |ys| ==> ys[i] == (xs + ys)[|xs| + i];
  }

  lemma {:induction false} RunLoop(step: State -> Move<State>, m: Machine, t: Tree, lo: nat, loops: seq<Active>,
                                   c: Core, k: Core -> seq<State>)
    requires IsStep(m, step) && t.Loop? && Fits(m, t, lo, loops) && m.CoreOk(c)
    requires Continues(step, m.code[TailOf(t, lo)].next, loops, Paths(m, t, c), k)
    ensures Yields(step, State(EntryOf(t, lo), loops, c), FlatMap(k, Paths(m, t, c)))
    decreases t, 0, 0, 0
  {
    var pc := EntryOf(t, lo);
    var a := Active(pc, 0, c.pos, false, |c.history|);
    var inside := OpenScope(c, t.key);
    LoopPaths(m, t, c);
    RunWalk(step, m, t, lo, loops, a, inside, k);
    ActivateStep(m, t, lo, loops, c);
    SameStep(step, m, State(pc, loops, c), State(pc, loops + [a], inside),
             FlatMap(k, Walk(m, t, a.open, 0, false, inside)));
  }

  lemma {:induction false} LoopPaths(m: Machine, t: Tree, c: Core)
    requires t.Loop? && TreeOk(m, t) && m.CoreOk(c)
    ensures Paths(m, t, c) == Walk(m, t, |c.history|, 0, false, OpenScope(c, t.key))
  {
  }

  /** Two states that step alike are searched alike. */
  lemma {:induction false} SameStep(step: State -> Move<State>, m: Machine, s: State, t: State, found: seq<State>)
    requires IsStep(m, step) && m.CoreOk(s.core) && m.CoreOk(t.core) && Step(m, s) == Step(m, t)
    requires !Step(m, s).Accepted?
    requires Yields(step, t, found)
    ensures Yields(step, s, found)
  {
    var fuel: nat :| Explore(step, t, fuel) == States(found);
    assert Explore(step, s, fuel) == States(found);
  }
}
