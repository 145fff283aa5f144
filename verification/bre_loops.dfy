/** The loop stack of a run of compiled code is the stack of the repeats around
    the current instruction. */
module BreLoops {
  import opened BreProgram
  import opened BreSyntax
  import opened BreLayout
  import opened BreMachine
  import opened BreCompile
  import opened BrePaths
  import opened Search

  /** The repeat instructions around instruction `pc` of a tree placed at `lo`, the
      outermost first. A loop's body and its end are inside it, its repeat is not. */
  function Enclosing(t: Tree, lo: nat, pc: nat): seq<nat> {
    match t
    case Skip => []
    case Unit(_, _, _) => []
    case Concat(kids) => EnclosingAll(kids, lo, pc)
    case Group(_, _, _, kids) => if pc < lo + CodeSizes(kids) then EnclosingAll(kids, lo, pc) else []
    case Loop(_, _, _, kids) =>
      var repeat := lo + CodeSizes(kids);
      if pc < repeat then [repeat] + EnclosingAll(kids, lo, pc) else if pc == repeat + 1 then [repeat] else []
  }

  function EnclosingAll(f: Forest, lo: nat, pc: nat): seq<nat> {
    if f.Nil? then []
    else if pc >= lo + CodeSizes(f.tail) then Enclosing(f.head, lo + CodeSizes(f.tail), pc)
    else EnclosingAll(f.tail, lo, pc)
  }

  /** A tree is entered and left outside its own loops. */
  lemma {:induction false} EndsOutside(t: Tree, lo: nat)
    requires HasCode(t)
    ensures Enclosing(t, lo, EntryOf(t, lo)) == [] && Enclosing(t, lo, TailOf(t, lo)) == []
    decreases t
  {
    if t.Concat? {
      EndsOutsideAll(t.kids, lo);
    }
  }

  lemma {:induction false} EndsOutsideAll(f: Forest, lo: nat)
    requires HasCodes(f)
    ensures EnclosingAll(f, lo, EntryOfs(f, lo)) == [] && EnclosingAll(f, lo, TailOfs(f, lo)) == []
    decreases f
  {
    if HasCode(f.head) {
      EndsOutside(f.head, lo + CodeSizes(f.tail));
    }
    if HasCodes(f.tail) {
      EndsOutsideAll(f.tail, lo);
    }
  }

  /** Where an instruction inside `lo..hi` leads, and which repeats are around its
      targets; `around` gives those of an instruction, and `tail` is left for good. */
  ghost predicate Leads(code: seq<Instruction>, lo: nat, hi: nat, pc: nat, tail: int, around: nat -> seq<nat>) {
    && lo <= pc < hi <= |code| && !code[pc].op.Accept?
    && (var i := code[pc];
        && (i.op.Repeat? ==> lo <= i.a < hi && around(i.a) == around(pc) + [pc])
        && (i.op.RepeatEnd? ==> lo <= i.a < hi && code[i.a].op.Repeat? && around(pc) == around(i.a) + [i.a])
        && (!i.op.RepeatEnd? && pc != tail ==> lo <= i.next < hi && around(i.next) == around(pc))
        && (pc == tail ==> around(pc) == []))
  }

  function Around(t: Tree, lo: nat): nat -> seq<nat> {
    (pc: nat) => Enclosing(t, lo, pc)
  }

  function AroundAll(f: Forest, lo: nat): nat -> seq<nat> {
    (pc: nat) => EnclosingAll(f, lo, pc)
  }

  lemma {:induction false} TreeLeads(m: Machine, code: seq<Instruction>, t: Tree, lo: nat, pc: nat)
    requires TreeOk(m, t) && Placed(code, t, lo) && lo <= pc < lo + CodeSize(t)
    ensures HasCode(t) && Leads(code, lo, lo + CodeSize(t), pc, TailOf(t, lo), Around(t, lo))
    decreases t
  {
    if t.Concat? {
      ForestLeads(m, code, t.kids, lo, pc);
    } else if (t.Group? || t.Loop?) && pc < lo + CodeSizes(t.kids) {
      ForestLeads(m, code, t.kids, lo, pc);
      if t.Group? {
        GroupInside(code, t, lo, pc);
      } else {
        LoopInside(m, code, t, lo, pc);
      }
    } else if t.Group? {
      GroupItself(code, t, lo, pc);
    } else if t.Loop? {
      LoopItself(m, code, t, lo, pc);
    }
  }

  lemma {:induction false} GroupInside(code: seq<Instruction>, t: Tree, lo: nat, pc: nat)
    requires t.Group? && Placed(code, t, lo) && HasCodes(t.kids)
    requires Leads(code, lo, lo + CodeSizes(t.kids), pc, TailOfs(t.kids, lo), AroundAll(t.kids, lo))
    ensures Leads(code, lo, lo + CodeSize(t), pc, TailOf(t, lo), Around(t, lo))
  {
  }

  lemma {:induction false} GroupItself(code: seq<Instruction>, t: Tree, lo: nat, pc: nat)
    requires t.Group? && Placed(code, t, lo) && lo + CodeSizes(t.kids) <= pc < lo + CodeSize(t)
    ensures Leads(code, lo, lo + CodeSize(t), pc, TailOf(t, lo), Around(t, lo))
  {
    if HasCodes(t.kids) {
      EndsOutsideAll(t.kids, lo);
    }
  }

  lemma {:induction false} LoopInside(m: Machine, code: seq<Instruction>, t: Tree, lo: nat, pc: nat)
    requires t.Loop? && TreeOk(m, t) && Placed(code, t, lo)
    requires Leads(code, lo, lo + CodeSizes(t.kids), pc, TailOfs(t.kids, lo), AroundAll(t.kids, lo))
    ensures Leads(code, lo, lo + CodeSize(t), pc, TailOf(t, lo), Around(t, lo))
  {
  }

  lemma {:induction false} LoopItself(m: Machine, code: seq<Instruction>, t: Tree, lo: nat, pc: nat)
    requires t.Loop? && TreeOk(m, t) && Placed(code, t, lo) && lo + CodeSizes(t.kids) <= pc < lo + CodeSize(t)
    ensures Leads(code, lo, lo + CodeSize(t), pc, TailOf(t, lo), Around(t, lo))
  {
    EndsOutsideAll(t.kids, lo);
  }

  lemma {:induction false} ForestLeads(m: Machine, code: seq<Instruction>, f: Forest, lo: nat, pc: nat)
    requires ForestOk(m, f) && PlacedAll(code, f, lo) && lo <= pc < lo + CodeSizes(f)
    ensures HasCodes(f) && Leads(code, lo, lo + CodeSizes(f), pc, TailOfs(f, lo), AroundAll(f, lo))
    decreases f
  {
    var mid := lo + CodeSizes(f.tail);
    if pc >= mid {
      TreeLeads(m, code, f.head, mid, pc);
      if HasCodes(f.tail) {
        EndsOutsideAll(f.tail, lo);
      }
    } else {
      ForestLeads(m, code, f.tail, lo, pc);
    }
  }

  /** Repeat instructions other than the one at `pc`. */
  ghost predicate Repeats(code: seq<Instruction>, pcs: seq<nat>, pc: nat) {
    forall k :: 0 <= k < |pcs| ==> pcs[k] < |code| && code[pcs[k]].op.Repeat? && pcs[k] != pc
  }

  /** Repeats nest around an instruction no deeper than the tree's loops; a repeat itself is one of them. */
  lemma {:induction false} EnclosingDepth(m: Machine, code: seq<Instruction>, t: Tree, lo: nat, pc: nat)
    requires TreeOk(m, t) && Placed(code, t, lo) && lo <= pc < lo + CodeSize(t)
    ensures |Enclosing(t, lo, pc)| + (if code[pc].op.Repeat? then 1 else 0) <= LoopDepth(t)
    ensures Repeats(code, Enclosing(t, lo, pc), pc)
    decreases t
  {
    if !t.Skip? && !t.Unit? && pc < lo + CodeSizes(t.kids) {
      EnclosingDepths(m, code, t.kids, lo, pc);
    }
  }

  lemma {:induction false} EnclosingDepths(m: Machine, code: seq<Instruction>, f: Forest, lo: nat, pc: nat)
    requires ForestOk(m, f) && PlacedAll(code, f, lo) && lo <= pc < lo + CodeSizes(f)
    ensures |EnclosingAll(f, lo, pc)| + (if code[pc].op.Repeat? then 1 else 0) <= LoopDepths(f)
    ensures Repeats(code, EnclosingAll(f, lo, pc), pc)
    decreases f
  {
    if pc >= lo + CodeSizes(f.tail) {
      EnclosingDepth(m, code, f.head, lo + CodeSizes(f.tail), pc);
    } else {
      EnclosingDepths(m, code, f.tail, lo, pc);
    }
  }

  // ---------- states of a run ----------

  /** The repeats of the active loops. */
  ghost function Pcs(loops: seq<Active>): (r: seq<nat>)
    ensures |r| == |loops| && forall k :: 0 <= k < |r| ==> r[k] == loops[k].pc
  {
    seq(|loops|, k requires 0 <= k < |loops| => loops[k].pc)
  }

  /** The repeats around the current instruction of a program for `t`; ACCEPT has none. */
  function Standing(t: Tree, pc: nat): seq<nat> {
    if pc < CodeSize(t) then Enclosing(t, 0, pc) else []
  }

  /** The active loops are the repeats around the current instruction; at a
      repeat, the loop may be active already, between two of its iterations. */
  ghost predicate StackMatches(code: seq<Instruction>, t: Tree, s: State) {
    && s.pc < |code|
    && (Pcs(s.loops) == Standing(t, s.pc) || (code[s.pc].op.Repeat? && Pcs(s.loops) == Standing(t, s.pc) + [s.pc]))
  }

  ghost predicate Successor(m: Machine, s: State, next: State) {
    match StepOf(m)(s)
    case Next(t) => next == t
    case Fork(first, second) => next == first || next == second
    case _ => false
  }

  /** What the code around an instruction of a compiled program says. */
  lemma {:induction false} ProgramLeads(m: Machine, t: Tree, entry: nat, pc: nat)
    requires Compiled(m.code, entry, t) && TreeOk(m, t) && pc < |m.code|
    ensures pc == CodeSize(t) <==> m.code[pc].op.Accept?
    ensures !m.code[pc].op.Accept? ==>
              var i := m.code[pc];
              && (i.op.Repeat? ==> i.a < |m.code| && Standing(t, i.a) == Standing(t, pc) + [pc])
              && (i.op.RepeatEnd? ==>
                  i.a < |m.code| && m.code[i.a].op.Repeat?
                  && Standing(t, pc) == Standing(t, i.a) + [i.a])
              && (!i.op.RepeatEnd? ==> i.next < |m.code| && Standing(t, i.next) == Standing(t, pc))
  {
    if pc < CodeSize(t) {
      TreeLeads(m, m.code, t, 0, pc);
    }
  }

  lemma {:induction false} PcsTop(loops: seq<Active>, outer: seq<nat>, pc: nat)
    requires Pcs(loops) == outer + [pc]
    ensures loops != [] && loops[|loops| - 1].pc == pc && Pcs(loops[..|loops| - 1]) == outer
    ensures forall a: Active {:trigger loops[|loops| - 1 := a]} :: a.pc == pc ==>
              Pcs(loops[|loops| - 1 := a]) == outer + [pc]
  {
    assert Pcs(loops)[|loops| - 1] == pc;
  }

  /** A step keeps the stack matching. */
  lemma {:induction false} StepMatches(m: Machine, t: Tree, entry: nat, s: State, next: State)
    requires Compiled(m.code, entry, t) && TreeOk(m, t) && StackMatches(m.code, t, s) && Successor(m, s, next)
    ensures StackMatches(m.code, t, next)
  {
    var i := m.code[s.pc];
    ProgramLeads(m, t, entry, s.pc);
    if i.op.Repeat? {
      EnclosingDepth(m, m.code, t, 0, s.pc);
      RepeatMatches(m, t, s, next);
    } else if i.op.RepeatEnd? {
      PcsTop(s.loops, Standing(t, i.a), i.a);
    }
  }

  lemma {:induction false} RepeatMatches(m: Machine, t: Tree, s: State, next: State)
    requires StackMatches(m.code, t, s) && Successor(m, s, next) && m.code[s.pc].op.Repeat?
    requires s.pc !in Standing(t, s.pc)
    requires var i := m.code[s.pc];
             && i.a < |m.code| && Standing(t, i.a) == Standing(t, s.pc) + [s.pc]
             && i.next < |m.code| && Standing(t, i.next) == Standing(t, s.pc)
    ensures StackMatches(m.code, t, next)
  {
    var active := Activate(m.code[s.pc], s);
    ActivePcs(m.code[s.pc], s, Standing(t, s.pc));
    PcsTop(active.loops, Standing(t, s.pc), s.pc);
  }

  lemma {:induction false} ActivePcs(i: Instruction, s: State, outer: seq<nat>)
    requires (Pcs(s.loops) == outer || Pcs(s.loops) == outer + [s.pc]) && s.pc !in outer
    ensures Pcs(Activate(i, s).loops) == outer + [s.pc]
  {
    if Pcs(s.loops) == outer {
      assert s.loops != [] ==> Pcs(s.loops)[|s.loops| - 1] in outer;
      assert Pcs(Activate(i, s).loops) == Pcs(s.loops) + [s.pc];
    } else {
      assert Pcs(s.loops)[|s.loops| - 1] == s.pc;
    }
  }

  /** Consecutive states of a run. */
  ghost predicate Run(m: Machine, ss: seq<State>) {
    ss != [] && forall i :: 0 < i < |ss| ==> Successor(m, ss[i - 1], ss[i])
  }

  /** A finite, unbroken search goes on from every state it reaches. */
  lemma {:induction false} SearchGoesOn(m: Machine, s: State, next: State, found: seq<State>) returns (rest: seq<State>)
    requires Yields(StepOf(m), s, found) && Successor(m, s, next)
    ensures Yields(StepOf(m), next, rest)
  {
    match StepOf(m)(s)
    case Next(t) =>
      rest := found;
      YieldsNext(StepOf(m), s, t, found);
    case Fork(first, second) =>
      var xs, ys := ForkSplits(StepOf(m), s, first, second, found);
      rest := if next == first then xs else ys;
  }

  lemma {:induction false} RunPrefix(m: Machine, ss: seq<State>)
    requires Run(m, ss) && |ss| > 1
    ensures var n := |ss| - 1;
            Run(m, ss[..n]) && ss[..n][0] == ss[0] && ss[..n][|ss[..n]| - 1] == ss[n - 1]
                && Successor(m, ss[n - 1], ss[n])
  {
    var n := |ss| - 1;
    assert Successor(m, ss[n - 1], ss[n - 1 + 1]);
  }

  lemma {:induction false} RunMatches(m: Machine, t: Tree, entry: nat, ss: seq<State>, total: seq<State>)
    returns (found: seq<State>)
    requires Compiled(m.code, entry, t) && TreeOk(m, t) && Run(m, ss)
    requires StackMatches(m.code, t, ss[0]) && Yields(StepOf(m), ss[0], total)
    ensures StackMatches(m.code, t, ss[|ss| - 1]) && Yields(StepOf(m), ss[|ss| - 1], found)
    decreases |ss|
  {
    found := total;
    var n := |ss| - 1;
    if n > 0 {
      RunPrefix(m, ss);
      var rest := RunMatches(m, t, entry, ss[..n], total);
      StepMatches(m, t, entry, ss[n - 1], ss[n]);
      found := SearchGoesOn(m, ss[n - 1], ss[n], rest);
    }
  }

  /** In every state a run of a compiled program reaches, the active loops are
      the repeats around the current instruction, at most one more than groups
      nest; the step is no internal error, and at ACCEPT no loop is active. */
  lemma {:induction false} LoopStackMatches(m: Machine, p: Program, s: Syntax, c: Core, ss: seq<State>)
    requires ProgramOf(p, s) && m.code == p.code && m.ranges == p.ranges && ShapeOk(s) && m.CoreOk(c)
    requires |m.input| <= MAX_INPUT
    requires Run(m, ss) && ss[0] == State(p.entry, [], c)
    ensures var last := ss[|ss| - 1];
            && StackMatches(m.code, Elaborate(s, 0, 0), last) && |last.loops| <= GroupDepth(s) + 1
            && StepOf(m)(last) != Broken && (StepOf(m)(last) == Accepted ==> last.loops == [])
  {
    var t := Elaborate(s, 0, 0);
    ProgramRuns(m, p, s, c);
    StartMatches(m, t, p.entry, c);
    var found := RunMatches(m, t, p.entry, ss, AtAccept(CodeSize(t), Paths(m, t, c)));
    YieldsSound(StepOf(m), ss[|ss| - 1], found);
    StackBounded(m, s, p.entry, ss[|ss| - 1]);
  }

  lemma {:induction false} StartMatches(m: Machine, t: Tree, entry: nat, c: Core)
    requires Compiled(m.code, entry, t) && TreeOk(m, t)
    ensures StackMatches(m.code, t, State(entry, [], c))
  {
    if HasCode(t) {
      EndsOutside(t, 0);
    }
  }

  lemma {:induction false} StackBounded(m: Machine, s: Syntax, entry: nat, x: State)
    requires Compiled(m.code, entry, Elaborate(s, 0, 0)) && TreeOk(m, Elaborate(s, 0, 0)) && ShapeOk(s)
    requires StackMatches(m.code, Elaborate(s, 0, 0), x)
    ensures |x.loops| <= GroupDepth(s) + 1 && (StepOf(m)(x) == Accepted ==> x.loops == [])
  {
    LoopsNestInGroups(s, 0, 0);
    StackNests(m, Elaborate(s, 0, 0), entry, x);
  }

  lemma {:induction false} StackNests(m: Machine, t: Tree, entry: nat, x: State)
    requires Compiled(m.code, entry, t) && TreeOk(m, t) && StackMatches(m.code, t, x)
    ensures |x.loops| <= LoopDepth(t) && (StepOf(m)(x) == Accepted ==> x.loops == [])
  {
    ProgramLeads(m, t, entry, x.pc);
    if x.pc < CodeSize(t) {
      EnclosingDepth(m, m.code, t, 0, x.pc);
    }
  }
}
