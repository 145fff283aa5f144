/** The executor: a backtracking machine over an explicit stack of states. */
module BreExecutor {
  import opened Folding
  import opened BreProgram
  import opened BreMachine
  import opened BreBudget
  import opened BreArenaSpec
  import opened BreArena
  import opened BreRank
  import opened BrePoints
  import opened BreSearchCost
  import opened Search

  /** The references of stacked states. */
  function RootsOf(stack: seq<Point>): multiset<nat> {
    if stack == [] then multiset{} else RootsOf(stack[..|stack| - 1]) + Root(stack[|stack| - 1].history)
  }

  lemma {:induction false} RootsOfPush(stack: seq<Point>, x: Point)
    ensures RootsOf(stack + [x]) == RootsOf(stack) + Root(x.history)
  {
    assert (stack + [x])[..|stack|] == stack;
  }

  lemma {:induction false} RootsOfEach(stack: seq<Point>, i: nat)
    requires i < |stack|
    ensures Root(stack[i].history) <= RootsOf(stack)
  {
    if i + 1 < |stack| {
      RootsOfEach(stack[..|stack| - 1], i);
    }
  }

  /** The text from `pos` on starts as that from `first` up to `j` does. */
  ghost predicate SameText(input: seq<nat>, first: nat, j: nat, pos: nat) {
    && first <= j <= |input| && pos + (j - first) <= |input|
    && forall k :: first <= k < j ==> input[k] == input[pos + (k - first)]
  }

  /** After `paid` steps the comparison goes on from `j`, and takes `all` in total. Kept folded. */
  ghost predicate AgreesOn(input: seq<nat>, j: nat, last: nat, pos: nat, paid: int, all: nat) {
    && j <= last <= |input| && pos + (last - j) <= |input|
    && forall z: nat {:trigger Shown(z)} :: Shown(z) ==> paid + Agreement(input, j, last, pos) == all
  }

  lemma {:induction false} AgreesNext(input: seq<nat>, j: nat, last: nat, pos: nat, paid: int, all: nat)
    requires AgreesOn(input, j, last, pos, paid, all) && j < last
    ensures paid < all
    ensures if input[j] == input[pos] then AgreesOn(input, j + 1, last, pos + 1, paid + 1, all) else paid + 1 == all
  {
    assert Shown(0);
  }

  lemma {:induction false} AgreesEnd(input: seq<nat>, last: nat, pos: nat, paid: int, all: nat)
    requires AgreesOn(input, last, last, pos, paid, all)
    ensures paid == all
  {
    assert Shown(0);
  }

  /** The state at the start of the innermost loop's body. */
  ghost function Entered(i: Instruction, s: State): State
    requires s.loops != []
  {
    var n := |s.loops| - 1;
    s.(pc := i.a, loops := s.loops[n := s.loops[n].(start := s.core.pos)])
  }

  /** The state behind the innermost loop. */
  ghost function Left(i: Instruction, s: State): State
    requires s.loops != []
  {
    var n := |s.loops| - 1;
    State(i.next, s.loops[..n], CloseScope(s.core, s.loops[n].open))
  }

  lemma {:induction false} LoopCases(i: Instruction, s: State)
    requires s.loops != []
    ensures var top := s.loops[|s.loops| - 1];
            var canExit := top.count >= i.min; var canEnter := top.count < i.max && (!top.zero || top.count < i.min);
            && LoopTicks(i, s) == (if canExit then 1 else 0)
            && LoopMove(i, s) == if canExit && canEnter then Fork(Entered(i, s), Left(i, s))
                                 else if canEnter then Next(Entered(i, s)) else if canExit then Next(Left(i, s))
                                 else Backtrack
  {
  }

  class Executor {
    const m: Machine
    const maxFrames: nat
    const budget: Budget
    const arena: Arena
    const ranking: Ranking
    var stack: seq<Point>
    var capacity: nat

    constructor (m: Machine, maxFrames: nat, budget: Budget)
      ensures this.m == m && this.maxFrames == maxFrames && this.budget == budget
      ensures fresh(arena) && fresh(ranking) && fresh(ranking.left) && fresh(ranking.right)
      ensures arena.Valid(multiset{}) && ranking.Valid() && stack == [] && capacity == 0
    {
      this.m, this.maxFrames, this.budget := m, maxFrames, budget;
      arena := new Arena();
      ranking := new Ranking();
      stack, capacity := [], 0;
    }

    // ---------- instructions that match text ----------

    /** Whether a scalar lies in one of the ranges; every range is charged for. */
    method InRanges(first: nat, count: nat, scalar: nat) returns (ok: bool, found: bool)
      requires budget.Valid() && first + count <= |m.ranges|
      modifies budget`steps
      ensures budget.Valid() && budget.Charged(old(budget.steps), count, ok)
      ensures ok ==> (found <==> InClass(m, first, count, scalar))
    {
      found := false;
      for j := 0 to count
        invariant budget.Valid() && budget.steps == old(budget.steps) + j && (found <==> InClass(m, first, j, scalar))
      {
        ok := budget.Tick(1);
        if !ok {
          return;
        }
        var range := m.ranges[first + j];
        if range.first <= scalar <= range.last {
          found := true;
        }
      }
      ok := true;
    }

    /** Whether the text captured from `first` to `last` repeats at `pos`. */
    method Repeats(first: nat, last: nat, pos: nat) returns (ok: bool, same: bool)
      requires budget.Valid() && first <= last <= |m.input| && last - first <= |m.input| - pos && pos <= |m.input|
      modifies budget`steps
      ensures budget.Valid() && budget.Charged(old(budget.steps), Agreement(m.input, first, last, pos), ok)
      ensures ok ==> (same <==> m.input[first..last] == m.input[pos..pos + (last - first)])
    {
      ghost var all := Agreement(m.input, first, last, pos);
      for j := first to last
        invariant budget.Valid() && SameText(m.input, first, j, pos)
        invariant AgreesOn(m.input, j, last, pos + (j - first), budget.steps - old(budget.steps), all)
      {
        AgreesNext(m.input, j, last, pos + (j - first), budget.steps - old(budget.steps), all);
        ok := budget.Tick(1);
        if !ok {
          return false, false;
        }
        if m.input[j] != m.input[pos + (j - first)] {
          assert m.input[first..last][j - first] != m.input[pos..pos + (last - first)][j - first];
          return true, false;
        }
      }
      AgreesEnd(m.input, last, pos + (last - first), budget.steps - old(budget.steps), all);
      return true, true;
    }

    /** A one-instruction match: the position behind it. */
    method MatchUnit(x: Point, i: Instruction, ghost s: State) returns (ok: bool, matched: bool, pos: nat)
      requires budget.Valid() && m.CoreOk(s.core) && Alike(x, s) && IsUnit(i.op) && InstructionOk(m, i)
      modifies budget`steps
      ensures budget.Valid() && budget.Charged(old(budget.steps), UnitTicks(m, i, s.core), ok)
      ensures ok ==> UnitStep(m, i.op, i.a, i.b, s.core) == if matched then [s.core.(pos := pos)] else []
    {
      ok, matched, pos := true, false, x.pos;
      if i.op.Char? || i.op.Any? || i.op.Class? || i.op.NotClass? {
        if x.pos == |m.input| {
          return;
        }
        if i.op.Any? {
          matched := true;
        } else if i.op.Char? {
          matched := m.input[x.pos] == i.a;
        } else {
          ok, matched := InRanges(i.a, i.b, m.input[x.pos]);
          if !ok {
            return;
          }
          if i.op.NotClass? {
            matched := !matched;
          }
        }
        pos := if matched then x.pos + 1 else x.pos;
      } else if i.op.Begin? {
        matched := x.pos == 0;
      } else if i.op.End? {
        matched := x.pos == |m.input|;
      } else {
        ok, matched, pos := MatchReference(x, i, s);
      }
    }

    method MatchReference(x: Point, i: Instruction, ghost s: State) returns (ok: bool, matched: bool, pos: nat)
      requires budget.Valid() && m.CoreOk(s.core) && Alike(x, s) && i.op.Ref? && i.a < SLOTS
      modifies budget`steps
      ensures budget.Valid() && budget.Charged(old(budget.steps), UnitTicks(m, i, s.core), ok)
      ensures ok ==> UnitStep(m, i.op, i.a, i.b, s.core) == if matched then [s.core.(pos := pos)] else []
    {
      ok, matched, pos := true, false, x.pos;
      if x.begin[i.a] < 0 || x.end[i.a] < 0 {
        return;
      }
      var first, last: nat := x.begin[i.a], x.end[i.a];
      if last - first > |m.input| - x.pos {
        return;
      }
      ok, matched := Repeats(first, last, x.pos);
      if matched {
        pos := x.pos + (last - first);
      }
    }

    // ---------- instructions that log scopes ----------

    /** The point stands for the state, its history being in the arena. */
    ghost predicate At(x: Point, s: State)
      reads arena
    {
      Stands(ChainOf(arena.chains, x.history), arena.Past(x.history), x, s)
    }

    /** The arena holds this point's history besides the other references. */
    ghost predicate Holding(x: Point, others: multiset<nat>)
      reads arena, budget
    {
      budget.Valid() && arena.Valid(Root(x.history) + others)
    }

    /** Logs the close of an opening the point holds. */
    method LogClose(x: Point, open: nat, ghost index: nat, ghost others: multiset<nat>)
      returns (report: Report, id: nat)
      requires Holding(x, others) && Opening(ChainOf(arena.chains, x.history), arena.Past(x.history), open, index)
      modifies arena, budget
      ensures Pays(old(budget.steps), 1, false, report) && (old(budget.refused) ==> budget.refused)
      ensures report.Failed? ==> Holding(x, others)
      ensures report.Failed? ==> arena.nodes == old(arena.nodes) && arena.chains == old(arena.chains)
      ensures report == Fine ==>
                && Holding(x.(history := id), others)
                && RootsKept(old(arena.nodes), old(arena.chains), arena.nodes, arena.chains, others)
                && ChainOf(arena.chains, id) == old(ChainOf(arena.chains, x.history)) + [id]
                && arena.Past(id) == old(arena.Past(x.history)) + [Closed(index, x.pos)]
    {
      OpeningNode(arena, x.history, open, index, Root(x.history) + others);
      report, id := arena.Tag(budget, x.history, true, 0, x.pos, open, Root(x.history) + others);
      if report == Fine {
        MovedRoots(x.history, id, others);
      }
    }

    /** Work of this cost was done since `before` steps; or it was refused, because
        that cost is above the limit, memory was refused, or the stack is full. */
    ghost predicate Pays(before: nat, cost: nat, crowded: bool, report: Report)
      reads budget
    {
      && Refusable(report)
      && if report == Fine then budget.steps == before + cost && !crowded
         else before + cost > budget.limit || budget.refused || crowded
    }

    /** Either the work was done, or a limit or refused memory is reported. */
    ghost predicate Refusable(report: Report)
      reads budget
    {
      report == Fine || report == Failed(Limit) || (report == Failed(NoMemory) && budget.refused)
    }

    /** No further state can be stacked. */
    ghost predicate Full()
      reads this
    {
      |stack| + 1 >= maxFrames
    }

    /** Logs a new opening. */
    method LogOpen(x: Point, key: nat, ghost others: multiset<nat>) returns (report: Report, id: nat)
      requires Holding(x, others)
      modifies arena, budget
      ensures Pays(old(budget.steps), 1, false, report) && (old(budget.refused) ==> budget.refused)
      ensures report.Failed? ==> Holding(x, others)
      ensures report.Failed? ==> arena.nodes == old(arena.nodes) && arena.chains == old(arena.chains)
      ensures report == Fine ==>
                && Holding(x.(history := id), others)
                && RootsKept(old(arena.nodes), old(arena.chains), arena.nodes, arena.chains, others)
                && ChainOf(arena.chains, id) == old(ChainOf(arena.chains, x.history)) + [id]
                && arena.Past(id) == old(arena.Past(x.history)) + [Opened(key, x.pos)]
    {
      assert x.history == NONE || x.history in Root(x.history) + others;
      report, id := arena.Tag(budget, x.history, false, key, x.pos, NONE, Root(x.history) + others);
      if report == Fine {
        MovedRoots(x.history, id, others);
      }
    }

    /** What a step of the machine leaves behind: `y` is the current point, and a
        fork has stacked the other branch. */
    ghost predicate Did(move: Move<State>, act: Act, y: Point, before: seq<Point>)
      reads this, arena
    {
      match move
      case Accepted => act == Accepting && stack == before
      case Backtrack => act == Stuck && stack == before
      case Next(t) => act == Going && stack == before && At(y, t)
      case Fork(a, b) => act == Going && |stack| == |before| + 1 && stack[..|before|] == before && At(y, a)
          && At(stack[|before|], b)
      case Broken => false
    }

    /** Histories other than the current one's are left alone. */
    twostate predicate OthersKept(others: multiset<nat>)
      reads arena
    {
      RootsKept(old(arena.nodes), old(arena.chains), arena.nodes, arena.chains, others)
    }

    method ResetSlots(slots: seq<int>, id: nat, last: nat) returns (r: seq<int>)
      requires |slots| == SLOTS && id <= last < SLOTS
      ensures r == Reset(slots, id, last)
    {
      r := slots;
      for g := id to last + 1
        invariant |r| == SLOTS && forall k :: 0 <= k < SLOTS ==> r[k] == if id <= k < g then -1 else slots[k]
      {
        r := r[g := -1];
      }
    }

    method Open(x: Point, i: Instruction, ghost s: State, ghost others: multiset<nat>)
      returns (report: Report, y: Point)
      requires Holding(x, others) && m.CoreOk(s.core) && At(x, s) && 1 <= i.a <= i.b < SLOTS
      modifies arena, budget
      ensures Pays(old(budget.steps), 1, false, report) && (old(budget.refused) ==> budget.refused)
      ensures report.Failed? ==> Holding(y, others)
      ensures report == Fine ==> Holding(y, others) && OthersKept(others)
      ensures report == Fine ==> At(y, s.(pc := i.next, core := OpenGroup(m, s.core, i.max, i.a, i.b)))
    {
      ghost var chain, past := ChainOf(arena.chains, x.history), arena.Past(x.history);
      y := x;
      var id;
      report, id := LogOpen(x, i.max, others);
      if report == Fine {
        var begin := ResetSlots(x.begin, i.a, i.b);
        var end := ResetSlots(x.end, i.a, i.b);
        y := x.(pc := i.next, history := id, opens := x.opens[i.a := id], begin := begin[i.a := x.pos], end := end);
        OpenStands(m, chain, past, x, s, i, id);
      }
    }

    method Close(x: Point, i: Instruction, ghost s: State, ghost others: multiset<nat>)
      returns (report: Report, y: Point)
      requires Holding(x, others) && m.CoreOk(s.core) && At(x, s) && 1 <= i.a < SLOTS && x.begin[i.a] >= 0
      modifies arena, budget
      ensures Pays(old(budget.steps), 1, false, report) && (old(budget.refused) ==> budget.refused)
      ensures report.Failed? ==> Holding(y, others)
      ensures report == Fine ==> Holding(y, others) && OthersKept(others)
      ensures report == Fine ==> At(y, s.(pc := i.next, core := CloseGroup(m, s.core, i.a)))
    {
      ghost var chain, past := ChainOf(arena.chains, x.history), arena.Past(x.history);
      y := x;
      var id;
      report, id := LogClose(x, x.opens[i.a], s.core.opens[i.a], others);
      if report == Fine {
        y := x.(pc := i.next, history := id, end := x.end[i.a := x.pos]);
        CloseStands(m, chain, past, x, s, i, id);
      }
    }

    /** A loop reached from outside becomes active. */
    method Enter(x: Point, i: Instruction, ghost s: State, ghost others: multiset<nat>)
      returns (report: Report, y: Point)
      requires Holding(x, others) && At(x, s)
      modifies arena, budget
      ensures Pays(old(budget.steps), (if s.loops == [] || s.loops[|s.loops| - 1].pc != s.pc then 1 else 0), false,
                   report) && (old(budget.refused) ==> budget.refused)
      ensures report.Failed? ==> Holding(y, others)
      ensures report == Fine ==> Holding(y, others) && OthersKept(others) && At(y, Activate(i, s)) && |y.loops| > 0
    {
      ghost var chain, past := ChainOf(arena.chains, x.history), arena.Past(x.history);
      y := x;
      report := Fine;
      if x.loops == [] || x.loops[|x.loops| - 1].pc != x.pc {
        var id;
        report, id := LogOpen(x, i.b, others);
        if report == Fine {
          y := x.(history := id, loops := x.loops + [Counter(x.pc, 0, x.pos, false, id)]);
          ActivateStands(chain, past, x, s, i.b, id);
        }
      }
    }

    /** The innermost loop is left. */
    method Leave(x: Point, i: Instruction, ghost s: State, ghost others: multiset<nat>)
      returns (report: Report, y: Point)
      requires Holding(x, others) && At(x, s) && x.loops != []
      modifies arena, budget
      ensures Pays(old(budget.steps), 1, false, report) && (old(budget.refused) ==> budget.refused)
      ensures report.Failed? ==> Holding(x, others) && y == x
      ensures report == Fine ==> Holding(y, others) && OthersKept(others)
      ensures report == Fine ==>
                var n := |s.loops| - 1; At(y, State(i.next, s.loops[..n], CloseScope(s.core, s.loops[n].open)))
    {
      ghost var chain, past := ChainOf(arena.chains, x.history), arena.Past(x.history);
      var n := |x.loops| - 1;
      y := x;
      var id;
      assert LoopStands(chain, past, x.loops[n], s.loops[n]);
      report, id := LogClose(x, x.loops[n].open, s.loops[n].open, others);
      if report == Fine {
        y := x.(pc := i.next, history := id, loops := x.loops[..n]);
        LeaveStands(chain, past, x, s, i.next, id);
      }
    }

    /** Stacks a state, growing the stack by doubling up to the frame limit. */
    method Push(x: Point) returns (report: Report)
      requires budget.Valid() && maxFrames > 0
      modifies this`stack, this`capacity, budget`refused
      ensures report == Fine ==> stack == old(stack) + [x]
      ensures report.Failed? ==> stack == old(stack)
      ensures budget.Valid() && Pays(old(budget.steps), 0, old(Full()), report)
      ensures (old(budget.refused) ==> budget.refused)
    {
      report := Fine;
      if |stack| >= maxFrames - 1 {
        return Failed(Limit);
      }
      if |stack| == capacity {
        var size := if capacity > 0 then capacity * 2 else 4;
        if size > maxFrames - 1 {
          size := maxFrames - 1;
        }
        report := budget.Reserve(true);
        if report.Failed? {
          return;
        }
        capacity := size;
      }
      stack := stack + [x];
    }

    // ---------- sharing and giving up histories ----------

    /** One more holder of the point's history. */
    method Share(x: Point, ghost others: multiset<nat>)
      requires Holding(x, others)
      modifies arena`nodes
      ensures Holding(x, Root(x.history) + others) && OthersKept(Root(x.history) + others)
    {
      ghost var roots := Root(x.history) + others;
      if x.history != NONE {
        RootLive(arena.nodes, roots, x.history);
      }
      arena.Retain(x.history, roots);
      PreservedRoots(old(arena.nodes), old(arena.chains), arena.nodes, arena.chains, roots, roots + Root(x.history),
                     roots);
      assert Root(x.history) + roots == roots + Root(x.history);
    }

    /** The point's history is given up. */
    method Abandon(x: Point, ghost others: multiset<nat>)
      requires Holding(x, others)
      modifies arena`nodes, arena`freeHead, arena`freeIds
      ensures budget.Valid() && arena.Valid(others) && OthersKept(others)
    {
      ghost var roots := Root(x.history) + others;
      assert x.history == NONE || x.history in roots;
      arena.Drop(x.history, roots);
      MovedRoots(x.history, x.history, others);
      PreservedRoots(old(arena.nodes), old(arena.chains), arena.nodes, arena.chains, roots, others, others);
    }

    /** A copy of the point that has left the innermost loop. */
    method LeavingCopy(x: Point, i: Instruction, ghost s: State, ghost others: multiset<nat>)
      returns (report: Report, exit: Point)
      requires Holding(x, others) && At(x, s) && x.loops != []
      modifies arena, budget
      ensures Pays(old(budget.steps), 1, false, report) && (old(budget.refused) ==> budget.refused)
      ensures report.Failed? ==> Holding(x, others)
      ensures report == Fine ==> Holding(exit, Root(x.history) + others) && OthersKept(others) && At(x, s)
      ensures report == Fine ==>
                var n := |s.loops| - 1; At(exit, State(i.next, s.loops[..n], CloseScope(s.core, s.loops[n].open)))
    {
      ghost var mine := Root(x.history) + others;
      ghost var nodes, chains := arena.nodes, arena.chains;
      Share(x, others);
      ghost var nodes1, chains1 := arena.nodes, arena.chains;
      StandsKept(nodes, chains, nodes1, chains1, mine, x, s);
      report, exit := Leave(x, i, s, mine);
      if report == Fine {
        StandsKept(nodes1, chains1, arena.nodes, arena.chains, mine, x, s);
        RootsKeptBoth(nodes, chains, nodes1, chains1, arena.nodes, arena.chains, others, mine);
      } else {
        Abandon(x, mine);
      }
    }

    /** The point at the start of the loop's body. */
    method BodyStart(x: Point, i: Instruction, ghost s: State) returns (y: Point)
      requires At(x, s) && x.loops != []
      ensures y.history == x.history
      ensures var n := |s.loops| - 1; At(y, s.(pc := i.a, loops := s.loops[n := s.loops[n].(start := s.core.pos)]))
    {
      var n := |x.loops| - 1;
      y := x.(pc := i.a, loops := x.loops[n := x.loops[n].(start := x.pos)]);
      LoopUpdateStands(ChainOf(arena.chains, x.history), arena.Past(x.history), x, s, i.a,
                       x.loops[n].(start := x.pos), s.loops[n].(start := s.core.pos));
    }

    /** Both ways out of a loop are possible: leaving is stacked, entering goes on. */
    method Branch(x: Point, i: Instruction, ghost s: State, ghost others: multiset<nat>)
      returns (report: Report, y: Point)
      requires Holding(x, others) && At(x, s) && x.loops != [] && maxFrames > 0
      modifies this`stack, this`capacity, arena, budget
      ensures Pays(old(budget.steps), 1, old(Full()), report) && (old(budget.refused) ==> budget.refused)
      ensures report.Failed? ==> Holding(y, others) && stack == old(stack)
      ensures report == Fine ==> |stack| == |old(stack)| + 1 && stack[..|old(stack)|] == old(stack)
      ensures report == Fine ==> Holding(y, others + Root(stack[|old(stack)|].history)) && OthersKept(others)
      ensures report == Fine ==>
                var n := |s.loops| - 1; var top := s.loops[n];
                && At(y, s.(pc := i.a, loops := s.loops[n := top.(start := s.core.pos)]))
                && At(stack[|old(stack)|], State(i.next, s.loops[..n], CloseScope(s.core, top.open)))
    {
      var exit;
      y := x;
      report, exit := LeavingCopy(x, i, s, others);
      if report == Fine {
        report := Push(exit);
        if report == Fine {
          y := BodyStart(x, i, s);
          SwappedRoots(exit.history, x.history, others);
        } else {
          Abandon(exit, Root(x.history) + others);
        }
      }
    }

    /** A loop that can be entered and left. */
    method TurnBoth(x: Point, i: Instruction, ghost s: State, ghost others: multiset<nat>)
      returns (report: Report, y: Point)
      requires Holding(x, others) && At(x, s) && x.loops != [] && maxFrames > 0
      modifies this`stack, this`capacity, arena, budget
      ensures Pays(old(budget.steps), 1, old(Full()), report) && (old(budget.refused) ==> budget.refused)
      ensures report.Failed? ==> Holding(y, others) && stack == old(stack)
      ensures report == Fine ==> Did(Fork(Entered(i, s), Left(i, s)), Going, y, old(stack)) && OthersKept(others)
      ensures report == Fine ==> Holding(y, others + RootsOf(stack[|old(stack)|..]))
    {
      report, y := Branch(x, i, s, others);
      if report == Fine {
        OneStacked(stack, |old(stack)|);
      }
    }

    /** A repeat instruction whose loop is active: entering, leaving, or both. */
    method Turn(x: Point, i: Instruction, ghost s: State, ghost others: multiset<nat>, ghost move: Move<State>)
      returns (report: Report, act: Act, y: Point)
      requires Holding(x, others) && At(x, s) && x.loops != [] && maxFrames > 0 && move == LoopMove(i, s)
      modifies this`stack, this`capacity, arena, budget
      ensures Pays(old(budget.steps), LoopTicks(i, s), move.Fork? && old(Full()), report)
      ensures (old(budget.refused) ==> budget.refused)
      ensures report.Failed? ==> Holding(y, others) && stack == old(stack)
      ensures report == Fine ==> Did(move, act, y, old(stack)) && OthersKept(others)
      ensures report == Fine ==> Holding(y, others + RootsOf(stack[|old(stack)|..]))
    {
      report, act, y := Fine, Going, x;
      var top := x.loops[|x.loops| - 1];
      assert LoopStands(ChainOf(arena.chains, x.history), arena.Past(x.history), top, s.loops[|x.loops| - 1]);
      var canExit := top.count >= i.min;
      var canEnter := top.count < i.max && (!top.zero || top.count < i.min);
      NothingStacked(stack, others);
      LoopCases(i, s);
      if canExit && canEnter {
        report, y := TurnBoth(x, i, s, others);
      } else if canEnter {
        y := BodyStart(x, i, s);
      } else if canExit {
        report, y := Leave(x, i, s, others);
      } else {
        act := Stuck;
      }
    }

    /** A repeat instruction: activation, then a turn of the loop. */
    method Repeat(x: Point, i: Instruction, ghost s: State, ghost others: multiset<nat>, ghost move: Move<State>)
      returns (report: Report, act: Act, y: Point)
      requires Holding(x, others) && At(x, s) && maxFrames > 0 && move == LoopMove(i, Activate(i, s))
      modifies this`stack, this`capacity, arena, budget
      ensures Pays(old(budget.steps), RepeatTicks(i, s), move.Fork? && old(Full()), report)
      ensures (old(budget.refused) ==> budget.refused)
      ensures report.Failed? ==> Holding(y, others) && stack == old(stack)
      ensures report == Fine ==> Did(move, act, y, old(stack)) && OthersKept(others)
      ensures report == Fine ==> Holding(y, others + RootsOf(stack[|old(stack)|..]))
    {
      act := Going;
      report, y := Enter(x, i, s, others);
      if report == Fine {
        report, act, y := TurnOn(y, i, Activate(i, s), others, move, old(arena.nodes), old(arena.chains));
      }
    }

    /** The turn of a loop that has just been activated. */
    method TurnOn(x: Point, i: Instruction, ghost s: State, ghost others: multiset<nat>, ghost move: Move<State>,
                  ghost nodes: seq<Node>, ghost chains: seq<seq<nat>>)
      returns (report: Report, act: Act, y: Point)
      requires Holding(x, others) && At(x, s) && x.loops != [] && maxFrames > 0 && move == LoopMove(i, s)
      requires RootsKept(nodes, chains, arena.nodes, arena.chains, others)
      modifies this`stack, this`capacity, arena, budget
      ensures Pays(old(budget.steps), LoopTicks(i, s), move.Fork? && old(Full()), report)
      ensures (old(budget.refused) ==> budget.refused)
      ensures report.Failed? ==> Holding(y, others) && stack == old(stack)
      ensures report == Fine ==>
                Did(move, act, y, old(stack))
                && RootsKept(nodes, chains, arena.nodes, arena.chains, others)
      ensures report == Fine ==> Holding(y, others + RootsOf(stack[|old(stack)|..]))
    {
      report, act, y := Turn(x, i, s, others, move);
      if report == Fine {
        RootsKeptBoth(nodes, chains, old(arena.nodes), old(arena.chains), arena.nodes, arena.chains, others, others);
      }
    }

    /** The end of a loop's body: back to the loop, unless the iteration is dropped. */
    method EndIteration(x: Point, i: Instruction, ghost s: State) returns (act: Act, y: Point)
      requires At(x, s) && IterationEnd(m, i, s) != Broken
      ensures y.history == x.history && Did(IterationEnd(m, i, s), act, y, stack)
    {
      var n := |x.loops| - 1;
      var top := x.loops[n];
      assert LoopStands(ChainOf(arena.chains, x.history), arena.Past(x.history), top, s.loops[n]);
      var empty := x.pos == top.start;
      if empty && top.count > 0 && top.count >= m.code[top.pc].min {
        return Stuck, x;
      }
      y := x.(pc := top.pc, loops := x.loops[n := top.(zero := empty, count := top.count + 1)]);
      LoopUpdateStands(ChainOf(arena.chains, x.history), arena.Past(x.history), x, s, top.pc,
                       top.(zero := empty, count := top.count + 1), s.loops[n].(zero := empty, count := top.count + 1));
      act := Going;
    }

    /** An instruction that logs a scope. */
    method Scope(x: Point, i: Instruction, ghost s: State, ghost others: multiset<nat>, ghost move: Move<State>)
      returns (report: Report, act: Act, y: Point)
      requires Holding(x, others) && At(x, s) && maxFrames > 0 && m.CoreOk(s.core) && ScopeMove(m, i, s, move)
      modifies this`stack, this`capacity, arena, budget
      ensures Pays(old(budget.steps), InstructionTicks(m, i, s), move.Fork? && old(Full()), report)
      ensures (old(budget.refused) ==> budget.refused)
      ensures report.Failed? ==> Holding(y, others) && stack == old(stack)
      ensures report == Fine ==> Did(move, act, y, old(stack)) && OthersKept(others)
      ensures report == Fine ==> Holding(y, others + RootsOf(stack[|old(stack)|..]))
    {
      act := Going;
      NothingStacked(stack, others);
      if i.op.Open? {
        report, y := Open(x, i, s, others);
      } else if i.op.Close? {
        report, y := Close(x, i, s, others);
      } else {
        report, act, y := Repeat(x, i, s, others, move);
      }
    }

    /** An instruction that leaves the arena alone. */
    method Plain(x: Point, i: Instruction, ghost s: State, ghost move: Move<State>)
      returns (report: Report, act: Act, y: Point)
      requires budget.Valid() && At(x, s) && m.CoreOk(s.core) && PlainMove(m, i, s, move)
      modifies budget`steps
      ensures Pays(old(budget.steps), InstructionTicks(m, i, s), false, report)
      ensures (old(budget.refused) ==> budget.refused)
      ensures budget.Valid() && y.history == x.history
      ensures report == Fine ==> Did(move, act, y, stack) && (act == Accepting ==> y == x)
    {
      report, act, y := Fine, Accepting, x;
      if i.op.Accept? {
        return;
      }
      if i.op.RepeatEnd? {
        act, y := EndIteration(x, i, s);
        return;
      }
      var ok, matched, pos := MatchUnit(x, i, s);
      if !ok {
        return Failed(Limit), Stuck, x;
      }
      act := if matched then Going else Stuck;
      y := if matched then x.(pc := i.next, pos := pos) else x;
    }

    /** One step of the machine, charged to the budget. */
    method Advance(x: Point, ghost s: State, ghost others: multiset<nat>, ghost move: Move<State>)
      returns (report: Report, act: Act, y: Point)
      requires Holding(x, others) && At(x, s) && maxFrames > 0 && Moves(m, s, move)
      modifies this`stack, this`capacity, arena, budget
      ensures Pays(old(budget.steps), Price(m, s), move.Fork? && old(Full()), report)
      ensures (old(budget.refused) ==> budget.refused)
      ensures report.Failed? ==> Holding(y, others) && stack == old(stack)
      ensures report == Fine ==> Did(move, act, y, old(stack)) && OthersKept(others)
      ensures report == Fine ==> Holding(y, others + RootsOf(stack[|old(stack)|..]))
      ensures report == Fine && act == Accepting ==> y == x && At(y, s)
    {
      act, y := Stuck, x;
      var ok := budget.Tick(1);
      if !ok {
        return Failed(Limit), act, y;
      }
      // Every reachable state is inside the code: the executor's exit for a stray pc is never taken.
      assert x.pc < |m.code|;
      var i := m.code[x.pc];
      if i.op.Open? || i.op.Close? || i.op.Repeat? {
        report, act, y := Scope(x, i, s, others, move);
      } else {
        report, act, y := Plain(x, i, s, move);
        NothingStacked(stack, others);
        SelfKept(arena, others);
      }
    }
  }

  lemma {:induction false} SelfKept(a: Arena, others: multiset<nat>)
    ensures RootsKept(a.nodes, a.chains, a.nodes, a.chains, others)
  {
  }

  lemma {:induction false} SwappedRoots(a: nat, b: nat, others: multiset<nat>)
    ensures Root(a) + (Root(b) + others) == Root(b) + (others + Root(a))
  {
  }

  lemma {:induction false} NothingStacked(stack: seq<Point>, others: multiset<nat>)
    ensures RootsOf(stack[|stack|..]) == multiset{} && others + RootsOf(stack[|stack|..]) == others
  {
  }

  lemma {:induction false} OneStacked(stack: seq<Point>, n: nat)
    requires |stack| == n + 1
    ensures RootsOf(stack[n..]) == Root(stack[n].history)
  {
    assert stack[n..] == [stack[n]] && [stack[n]][..0] == [];
  }

  lemma {:induction false} MovedRoots(h: nat, id: nat, others: multiset<nat>)
    ensures Root(h) + others - Root(h) == others
    ensures Root(h) + others - Root(h) + Root(id) == Root(id) + others
  {
  }

  /** A point whose history was left alone still stands for its state. */
  lemma {:induction false} StandsKept(nodes: seq<Node>, chains: seq<seq<nat>>, nodes': seq<Node>,
                                      chains': seq<seq<nat>>, roots: multiset<nat>, x: Point, s: State)
    requires RootsKept(nodes, chains, nodes', chains', roots) && Root(x.history) <= roots && |chains| < NONE
    requires |chains'| < NONE
    requires Stands(ChainOf(chains, x.history), History(nodes, chains, x.history), x, s)
    ensures Stands(ChainOf(chains', x.history), History(nodes', chains', x.history), x, s)
  {
    if x.history != NONE {
      assert x.history in Root(x.history);
      assert x.history in roots;
    }
  }

  /** The node of an opening that a live history goes through. */
  lemma {:induction false} OpeningNode(a: Arena, head: nat, open: nat, index: nat, roots: multiset<nat>)
    requires a.Valid(roots) && (head == NONE || head in roots)
    requires Opening(ChainOf(a.chains, head), a.Past(head), open, index)
    ensures head != NONE && Live(a.nodes, open) && open in ChainOf(a.chains, head) && !a.nodes[open].closed
    ensures Level(a.chains, open) == index
  {
    RootLive(a.nodes, roots, head);
    ChainLive(a.nodes, a.chains, head, index);
    assert a.Past(head)[index] == EventOf(a.nodes, a.chains, open);
  }
}
