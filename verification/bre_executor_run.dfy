/** The executor's search from one start, and from every start in turn. */
module BreExecutorRun {
  import opened Folding
  import opened BreProgram
  import opened Search
  import opened BreMachine
  import opened BreScopes
  import opened BreReference
  import opened BreSelect
  import opened BreAgree
  import opened BreBudget
  import opened BreArenaSpec
  import opened BreArena
  import opened BreRank
  import opened BrePoints
  import opened BreExecutor
  import opened BreLedger
  import opened BreRankCost
  import opened BreSearchCost

  // ---------- the best match so far ----------

  /** The saved point reports the match `w`, which started at `candidate`. */
  ghost predicate Reports(best: Point, w: Out, candidate: nat) {
    && best.pos == w.at && |best.begin| == |best.end| == |w.caps| == SLOTS && best.begin[0] == candidate
       && best.end[0] == best.pos
    && (forall g :: 1 <= g < SLOTS ==>
          w.caps[g] == if best.begin[g] >= 0 && best.end[g] >= 0 then Span(best.begin[g], best.end[g]) else Unset)
  }

  ghost predicate BestIs(a: Arena, best: Point, w: Out, candidate: nat)
    reads a
  {
    Reports(best, w, candidate) && a.Past(best.history) == Block(w.scopes, 0)
  }

  /** An accepting point becomes the best match. */
  lemma {:induction false} NewBest(a: Arena, x: Point, s: State, r: Out, candidate: nat)
    requires Stands(ChainOf(a.chains, x.history), a.Past(x.history), x, s) && Same(s.core, r, [])
    requires s.core.begin[0] == candidate
    ensures BestIs(a, x.(end := x.end[0 := x.pos]), r, candidate)
  {
    assert [] + Block(r.scopes, 0) == Block(r.scopes, 0);
    forall g | 1 <= g < SLOTS
      ensures r.caps[g] == if x.begin[g] >= 0 && x.end[g] >= 0 then Span(x.begin[g], x.end[g]) else Unset
    {
      assert r.caps[g] == SpanOf(s.core, g);
    }
  }

  /** The current point replaces the best one. */
  method Replace(e: Executor, x: Point, best: Point, ghost s: State, ghost r: Out, ghost candidate: nat,
                 ghost others: multiset<nat>)
    returns (next: Point)
    requires e.Holding(x, others + Root(best.history)) && e.At(x, s) && Same(s.core, r, [])
    requires s.core.begin[0] == candidate
    modifies e.arena
    ensures e.Holding(x, others + Root(next.history)) && BestIs(e.arena, next, r, candidate)
    ensures RootsKept(old(e.arena.nodes), old(e.arena.chains), e.arena.nodes, e.arena.chains, others)
  {
    ghost var mine := Root(x.history) + others;
    ghost var nodes, chains := e.arena.nodes, e.arena.chains;
    SwappedRoots(best.history, x.history, others);
    e.Abandon(best, mine);
    ghost var nodes1, chains1 := e.arena.nodes, e.arena.chains;
    StandsKept(nodes, chains, nodes1, chains1, mine, x, s);
    e.Share(x, others);
    StandsKept(nodes1, chains1, e.arena.nodes, e.arena.chains, mine, x, s);
    RootsKeptBoth(nodes, chains, nodes1, chains1, e.arena.nodes, e.arena.chains, others, mine);
    next := x.(end := x.end[0 := x.pos]);
    NewBest(e.arena, x, s, r, candidate);
    SwappedRoots(x.history, x.history, others);
  }

  /** Both histories are held, and are those of the two matches. */
  ghost predicate Comparable(a: Arena, x: nat, best: nat, r: Out, w: Out, roots: multiset<nat>)
    reads a
  {
    forall k: nat {:trigger Shown(k)} :: Shown(k) ==>
      && a.Valid(roots) && Root(x) <= roots && Root(best) <= roots
      && a.Past(x) == Block(r.scopes, 0) && a.Past(best) == Block(w.scopes, 0)
  }

  /** An accepting point is compared with the best one so far. */
  method Compare(e: Executor, x: Point, best: Point, found: bool, ghost r: Out, ghost w: Out,
                 ghost roots: multiset<nat>)
    returns (report: Report, better: bool)
    requires e.budget.Valid() && e.ranking.Valid() && x.pos == r.at
    requires found ==> best.pos == w.at && Comparable(e.arena, x.history, best.history, r, w, roots)
    modifies e.budget, e.ranking, e.ranking.left, e.ranking.right
    ensures e.budget.Valid() && e.ranking.Valid() && (old(e.budget.refused) ==> e.budget.refused)
    ensures (e.ranking.left == old(e.ranking.left) || fresh(e.ranking.left))
    ensures (e.ranking.right == old(e.ranking.right) || fresh(e.ranking.right))
    ensures e.Pays(old(e.budget.steps), ComparedTicks(found, r, w), false, report)
    ensures report == Fine ==> (better <==> !found || Preferred(r, w))
  {
    report, better := Fine, !found || x.pos > best.pos;
    if found && x.pos == best.pos {
      report, better := RankTie(e, x.history, best.history, r, w, roots);
    }
  }

  /** Two accepting points at the same position are ranked by their histories. */
  method RankTie(e: Executor, x: nat, best: nat, ghost r: Out, ghost w: Out, ghost roots: multiset<nat>)
    returns (report: Report, better: bool)
    requires e.budget.Valid() && e.ranking.Valid() && Comparable(e.arena, x, best, r, w, roots)
    modifies e.budget, e.ranking, e.ranking.left, e.ranking.right
    ensures e.budget.Valid() && e.ranking.Valid() && (old(e.budget.refused) ==> e.budget.refused)
    ensures (e.ranking.left == old(e.ranking.left) || fresh(e.ranking.left))
    ensures (e.ranking.right == old(e.ranking.right) || fresh(e.ranking.right))
    ensures e.Pays(old(e.budget.steps), BetterTicks(r.scopes, w.scopes), false, report)
    ensures report == Fine ==> better == Better(Preorder(r.scopes), Preorder(w.scopes))
  {
    BothReadable(e.arena, x, best, r, w, roots);
    report, better := e.ranking.Outranks(e.arena, e.budget, x, best, r.scopes, w.scopes);
  }

  lemma {:induction false} BothReadable(a: Arena, x: nat, best: nat, r: Out, w: Out, roots: multiset<nat>)
    requires Comparable(a, x, best, r, w, roots)
    ensures Readable(a, x) && Readable(a, best) && a.Past(x) == Block(r.scopes, 0) && a.Past(best) == Block(w.scopes, 0)
  {
    assert Shown(0);
    HolderReadable(a, x, roots);
    HolderReadable(a, best, roots);
  }

  lemma {:induction false} HolderReadable(a: Arena, h: nat, roots: multiset<nat>)
    requires a.Valid(roots) && Root(h) <= roots
    ensures Readable(a, h)
  {
    if h != NONE {
      assert h in Root(h);
      assert h in roots;
      RootLive(a.nodes, roots, h);
    }
  }

  /** ACCEPT: the current point becomes the best match if it is preferred. */
  method Consider(e: Executor, x: Point, best: Point, found: bool, ghost s: State, ghost r: Out, ghost w: Out,
                  ghost candidate: nat, ghost others: multiset<nat>)
    returns (report: Report, next: Point)
    requires e.Holding(x, others + Root(best.history)) && e.ranking.Valid() && e.At(x, s) && Same(s.core, r, [])
    requires s.core.begin[0] == candidate
    requires if found then BestIs(e.arena, best, w, candidate) else best.history == NONE
    modifies e.arena, e.budget, e.ranking, e.ranking.left, e.ranking.right
    ensures e.ranking.Valid() && (old(e.budget.refused) ==> e.budget.refused)
    ensures e.Pays(old(e.budget.steps), ComparedTicks(found, r, w), false, report)
    ensures (e.ranking.left == old(e.ranking.left) || fresh(e.ranking.left))
    ensures (e.ranking.right == old(e.ranking.right) || fresh(e.ranking.right))
    ensures report.Failed? ==> next == best && e.Holding(x, others + Root(best.history))
    ensures report == Fine ==> e.Holding(x, others + Root(next.history))
    ensures report == Fine ==> BestIs(e.arena, next, if !found || Preferred(r, w) then r else w, candidate)
    ensures report == Fine ==> RootsKept(old(e.arena.nodes), old(e.arena.chains), e.arena.nodes, e.arena.chains, others)
  {
    next := best;
    assert [] + Block(r.scopes, 0) == Block(r.scopes, 0);
    var better;
    ghost var roots := Root(x.history) + (others + Root(best.history));
    assert found ==> Comparable(e.arena, x.history, best.history, r, w, roots);
    report, better := Compare(e, x, best, found, r, w, roots);
    SelfKept(e.arena, others);
    if report == Fine && better {
      next := Replace(e, x, best, s, r, candidate, others);
    }
  }

  // ---------- one start ----------

  /** Every stacked point stands for its state. */
  ghost predicate AllAt(a: Arena, stack: seq<Point>, ss: seq<State>)
    reads a
  {
    |stack| == |ss| && forall i :: 0 <= i < |stack| ==>
                         Stands(ChainOf(a.chains, stack[i].history), a.Past(stack[i].history), stack[i], ss[i])
  }

  lemma {:induction false} AllAtKept(nodes: seq<Node>, chains: seq<seq<nat>>, a: Arena, roots: multiset<nat>,
                                     stack: seq<Point>, ss: seq<State>)
    requires RootsKept(nodes, chains, a.nodes, a.chains, roots) && RootsOf(stack) <= roots && |chains| < NONE
    requires |a.chains| < NONE
    requires |stack| == |ss|
    requires forall i :: 0 <= i < |stack| ==>
               Stands(ChainOf(chains, stack[i].history), History(nodes, chains, stack[i].history), stack[i], ss[i])
    ensures AllAt(a, stack, ss)
  {
    forall i | 0 <= i < |stack|
      ensures Stands(ChainOf(a.chains, stack[i].history), a.Past(stack[i].history), stack[i], ss[i])
    {
      RootsOfEach(stack, i);
      StandsKept(nodes, chains, a.nodes, a.chains, roots, stack[i], ss[i]);
    }
  }

  /** The best of the matches found so far, if there are any. */
  ghost predicate BestSoFar(a: Arena, best: Point, found: bool, task: Task, done: nat)
    reads a
  {
    && done <= |task.total| == |task.os| && (found <==> done > 0)
    && if found then BestIs(a, best, Chosen(task.os, done), task.candidate) else best.history == NONE
  }

  lemma {:induction false} BestKept(nodes: seq<Node>, chains: seq<seq<nat>>, a: Arena, roots: multiset<nat>,
                                    best: Point, w: Out, candidate: nat)
    requires RootsKept(nodes, chains, a.nodes, a.chains, roots) && Root(best.history) <= roots && |chains| < NONE
    requires |a.chains| < NONE
    requires History(nodes, chains, best.history) == Block(w.scopes, 0)
    ensures a.Past(best.history) == Block(w.scopes, 0)
  {
    if best.history != NONE {
      assert best.history in Root(best.history);
      assert best.history in roots;
    }
  }

  /** References other than the current point's. */
  ghost function Others(e: Executor, best: Point): multiset<nat>
    reads e
  {
    RootsOf(e.stack) + Root(best.history)
  }

  /** The arena holds the stacked histories, the best one and `extra`; the stack
      stands for `ss`, and the best match is the one chosen among the first `done`. */
  ghost predicate Kept(e: Executor, best: Point, found: bool, ss: seq<State>, task: Task, done: nat,
                       extra: multiset<nat>)
    reads e, e.arena, e.budget, e.ranking
  {
    && e.budget.Valid() && e.arena.Valid(extra + Others(e, best)) && e.ranking.Valid()
    && AllAt(e.arena, e.stack, ss) && BestSoFar(e.arena, best, found, task, done)
  }

  /** The current state has nothing more to find and is given up. */
  method GiveUp(e: Executor, x: Point, best: Point, found: bool, ghost ss: seq<State>, ghost task: Task,
                ghost done: nat)
    requires Kept(e, best, found, ss, task, done, Root(x.history))
    modifies e.arena
    ensures Kept(e, best, found, ss, task, done, multiset{})
  {
    ghost var nodes, chains, others := e.arena.nodes, e.arena.chains, Others(e, best);
    e.Abandon(x, others);
    AllAtKept(nodes, chains, e.arena, others, e.stack, ss);
    if found {
      BestKept(nodes, chains, e.arena, others, best, Chosen(task.os, done), task.candidate);
    }
    assert multiset{} + others == others;
  }

  /** The search goes on from the top of the stack. */
  method Pop(e: Executor, best: Point, found: bool, ghost ss: seq<State>, ghost task: Task, ghost done: nat)
    returns (next: Point)
    requires Kept(e, best, found, ss, task, done, multiset{}) && e.stack != []
    modifies e`stack
    ensures |e.stack| == |old(e.stack)| - 1
    ensures var n := |ss| - 1;
            n >= 0 && Kept(e, best, found, ss[..n], task, done, Root(next.history))
            && e.At(next, ss[n])
  {
    var n := |e.stack| - 1;
    next := e.stack[n];
    e.stack := e.stack[..n];
    PoppedRoots(RootsOf(e.stack), next.history, best.history);
  }

  lemma {:induction false} PoppedRoots(rest: multiset<nat>, h: nat, b: nat)
    ensures multiset{} + (rest + Root(h) + Root(b)) == Root(h) + (rest + Root(b))
  {
  }

  /** An accepting state is compared with the best match so far. */
  method Accept(e: Executor, x: Point, best: Point, found: bool, ghost s: State, ghost ss: seq<State>, ghost task: Task,
                ghost done: nat)
    returns (report: Report, next: Point)
    requires Kept(e, best, found, ss, task, done, Root(x.history)) && e.At(x, s) && done < |task.total|
    requires Same(s.core, task.os[done], []) && s.core.begin[0] == task.candidate
    modifies e.arena, e.budget, e.ranking, e.ranking.left, e.ranking.right
    ensures e.Pays(old(e.budget.steps), RankCost(task.os, done), false, report)
    ensures (old(e.budget.refused) ==> e.budget.refused)
    ensures (e.ranking.left == old(e.ranking.left) || fresh(e.ranking.left))
    ensures (e.ranking.right == old(e.ranking.right) || fresh(e.ranking.right))
    ensures e.ranking.Valid()
    ensures report.Failed? ==> e.Holding(x, Others(e, best)) && next == best
    ensures report == Fine ==> Kept(e, next, true, ss, task, done + 1, Root(x.history))
  {
    ghost var nodes, chains, others := e.arena.nodes, e.arena.chains, RootsOf(e.stack);
    ghost var r := task.os[done];
    ghost var w := if found then Chosen(task.os, done) else r;
    report, next := Consider(e, x, best, found, s, r, w, task.candidate, others);
    if report == Fine {
      AllAtKept(nodes, chains, e.arena, others, e.stack, ss);
      ChosenGrows(task.os, done, found);
    }
  }

  /** The current point after a move. */
  ghost predicate Arrived(e: Executor, move: Move<State>, act: Act, s: State, x: Point, y: Point)
    reads e, e.arena
  {
    match move
    case Accepted => act == Accepting && y == x && e.At(y, s)
    case Backtrack => act == Stuck
    case Next(t) => act == Going && e.At(y, t)
    case Fork(a, _) => act == Going && e.At(y, a)
    case Broken => false
  }

  /** One step of the search. */
  method Go(e: Executor, x: Point, best: Point, found: bool, ghost s: State, ghost ss: seq<State>, ghost task: Task,
            ghost done: nat, ghost move: Move<State>)
    returns (report: Report, act: Act, y: Point)
    requires Kept(e, best, found, ss, task, done, Root(x.history)) && e.At(x, s) && Moves(e.m, s, move)
    requires e.maxFrames > 0
    modifies e`stack, e`capacity, e.arena, e.budget
    ensures e.Pays(old(e.budget.steps), Price(e.m, s), move.Fork? && old(e.Full()), report)
    ensures (old(e.budget.refused) ==> e.budget.refused)
    ensures report.Failed? ==> e.Holding(y, Others(e, best))
    ensures report == Fine ==> |e.stack| == |old(e.stack)| + if move.Fork? then 1 else 0
    ensures report == Fine ==>
              Kept(e, best, found, Waiters(move, ss), task, done, Root(y.history))
              && Arrived(e, move, act, s, x, y)
  {
    ghost var nodes, chains, others, before := e.arena.nodes, e.arena.chains, Others(e, best), e.stack;
    report, act, y := e.Advance(x, s, others, move);
    if report == Fine {
      GoKept(nodes, chains, e, before, best, found, ss, task, done, move, act, s, x, y);
    }
  }

  lemma {:induction false} GoKept(nodes: seq<Node>, chains: seq<seq<nat>>, e: Executor, before: seq<Point>, best: Point,
                                  found: bool, ss: seq<State>, task: Task, done: nat, move: Move<State>, act: Act,
                                      s: State, x: Point, y: Point)
    requires e.Did(move, act, y, before) && (act == Accepting ==> y == x && e.At(y, s)) && |chains| < NONE
    requires |e.arena.chains| < NONE
    requires RootsKept(nodes, chains, e.arena.nodes, e.arena.chains, RootsOf(before) + Root(best.history))
    requires |before| == |ss| && (move.Backtrack? ==> act == Stuck)
    requires forall i :: 0 <= i < |before| ==>
               Stands(ChainOf(chains, before[i].history), History(nodes, chains, before[i].history), before[i], ss[i])
    requires done <= |task.total| == |task.os| && (found <==> done > 0)
    requires found ==> History(nodes, chains, best.history) == Block(Chosen(task.os, done).scopes, 0)
    ensures Arrived(e, move, act, s, x, y) && AllAt(e.arena, e.stack, Waiters(move, ss))
    ensures found ==> e.arena.Past(best.history) == Block(Chosen(task.os, done).scopes, 0)
    ensures RootsOf(before) + Root(best.history) + RootsOf(e.stack[|before|..]) == Others(e, best)
  {
    var roots := RootsOf(before) + Root(best.history);
    AllAtKept(nodes, chains, e.arena, roots, before, ss);
    if move.Fork? {
      AllAtPush(e.arena, before, ss, e.stack, move.second);
    }
    if found {
      BestKept(nodes, chains, e.arena, roots, best, Chosen(task.os, done), task.candidate);
    }
    GoRoots(e.stack, before, best);
  }

  lemma {:induction false} AllAtPush(a: Arena, before: seq<Point>, ss: seq<State>, stack: seq<Point>, s: State)
    requires AllAt(a, before, ss) && |stack| == |before| + 1 && stack[..|before|] == before
    requires var x := stack[|before|]; Stands(ChainOf(a.chains, x.history), a.Past(x.history), x, s)
    ensures AllAt(a, stack, ss + [s])
  {
    assert stack == before + [stack[|before|]];
  }

  /** The references of the stack before and after a move. */
  lemma {:induction false} GoRoots(stack: seq<Point>, before: seq<Point>, best: Point)
    requires stack == before || (|stack| == |before| + 1 && stack[..|before|] == before)
    ensures RootsOf(before) + Root(best.history) + RootsOf(stack[|before|..]) == RootsOf(stack) + Root(best.history)
  {
    NothingStacked(before, RootsOf(before) + Root(best.history));
    if |stack| == |before| + 1 {
      OneStacked(stack, |before|);
      assert stack == before + [stack[|before|]];
      RootsOfPush(before, stack[|before|]);
    }
  }

  /** Gives up every history: nothing stays in the arena. */
  method CleanUp(e: Executor, x: Point, best: Point)
    requires e.Holding(x, Others(e, best))
    modifies e`stack, e.arena
    ensures e.stack == [] && e.budget.Valid() && e.arena.Valid(multiset{})
  {
    e.Abandon(x, Others(e, best));
    assert Others(e, best) == Root(best.history) + RootsOf(e.stack);
    e.Abandon(best, RootsOf(e.stack));
    while e.stack != []
      invariant e.budget.Valid() && e.arena.Valid(RootsOf(e.stack))
      decreases |e.stack|
    {
      DropTop(e);
    }
  }

  /** Gives up the history of the state on top of the stack. */
  method DropTop(e: Executor)
    requires e.stack != [] && e.budget.Valid() && e.arena.Valid(RootsOf(e.stack))
    modifies e`stack, e.arena
    ensures |e.stack| < |old(e.stack)| && e.budget.Valid() && e.arena.Valid(RootsOf(e.stack))
  {
    var n := |e.stack| - 1;
    var top := e.stack[n];
    e.stack := e.stack[..n];
    assert RootsOf(e.stack) + Root(top.history) == Root(top.history) + RootsOf(e.stack);
    e.Abandon(top, RootsOf(e.stack));
  }

  // ---------- the loop ----------

  /** What is left to find is known. */
  ghost predicate Tracks(f: Frontier, task: Task) {
    forall k: nat {:trigger Shown(k)} :: Shown(k) ==>
      Covers(StepOf(task.m), f, task.total) && Matches(task.total, task.os, task.candidate) && Noted(task, f, Going)
  }

  /** The executor holds the states that are left. */
  ghost predicate Held(e: Executor, x: Point, best: Point, found: bool, f: Frontier, task: Task)
    reads e, e.arena, e.budget, e.ranking
  {
    forall k: nat {:trigger Shown(k)} :: Shown(k) ==>
        Kept(e, best, found, f.ss, task, f.done, Root(x.history))
        && e.At(x, f.s)
  }

  /** The search stands at a state. */
  ghost predicate Running(e: Executor, x: Point, best: Point, found: bool, f: Frontier, task: Task)
    reads e, e.arena, e.budget, e.ranking
  {
    Tracks(f, task) && Held(e, x, best, found, f, task)
  }

  /** The current state has ended; if it accepts, it is the last one counted but not compared yet. */
  ghost predicate Stopped(e: Executor, x: Point, best: Point, found: bool, act: Act, s: State, f: Frontier, task: Task)
    reads e, e.arena, e.budget, e.ranking
  {
    forall k: nat {:trigger Shown(k)} :: Shown(k) ==>
      && LeftOnStack(task, f) && Matches(task.total, task.os, task.candidate)
      && Noted(task, f, act) && (act == Accepting ==> e.At(x, s) && task.total[f.done - 1] == s)
      && Kept(e, best, found, f.ss, task, if act == Accepting then f.done - 1 else f.done, Root(x.history))
  }

  /** There is no current state. */
  ghost predicate Waiting(e: Executor, best: Point, found: bool, f: Frontier, task: Task)
    reads e, e.arena, e.budget, e.ranking
  {
    forall k: nat {:trigger Shown(k)} :: Shown(k) ==>
      && LeftOnStack(task, f) && Matches(task.total, task.os, task.candidate) && Noted(task, f, Stuck)
      && Kept(e, best, found, f.ss, task, f.done, multiset{})
  }

  /** Everything has been searched. */
  ghost predicate Ended(e: Executor, best: Point, found: bool, task: Task)
    reads e, e.arena, e.budget, e.ranking
  {
    forall k: nat {:trigger Shown(k)} :: Shown(k) ==> Kept(e, best, found, [], task, |task.total|, multiset{})
  }

  /** The rest costs too much, needs too high a stack, or was refused memory. */
  ghost predicate Unpaid(e: Executor, before: nat, f: Frontier)
    reads e.budget
  {
    before + f.due > e.budget.limit || e.budget.refused || f.peak >= e.maxFrames
  }

  /** What was due at `f` before is paid up to `g`; the stack still to come is no
      higher, and still too high if it was. */
  ghost predicate PaidTo(e: Executor, before: nat, f: Frontier, g: Frontier)
    reads e.budget
  {
    e.budget.steps + g.due == before + f.due && g.peak <= f.peak && (f.peak >= e.maxFrames ==> g.peak >= e.maxFrames)
  }

  /** What is left once the current state ended is known. */
  ghost predicate Remains(task: Task, f: Frontier, act: Act) {
    forall k: nat {:trigger Shown(k)} :: Shown(k) ==>
      LeftOnStack(task, f) && Matches(task.total, task.os, task.candidate) && Noted(task, f, act)
  }

  /** The executor after a step from `f.s`. */
  ghost predicate Landed(e: Executor, x: Point, y: Point, best: Point, found: bool, f: Frontier, task: Task,
                         move: Move<State>, act: Act)
    reads e, e.arena, e.budget, e.ranking
  {
    forall k: nat {:trigger Shown(k)} :: Shown(k) ==>
      && Kept(e, best, found, Waiters(move, f.ss), task, f.done, Root(y.history)) && Arrived(e, move, act, f.s, x, y)
      && (move.Accepted? ==> f.done < |task.total| && task.total[f.done] == f.s)
  }

  lemma {:induction false} NextFrontier(f: Frontier, task: Task, move: Move<State>) returns (g: Frontier)
    requires Tracks(f, task) && move == StepOf(task.m)(f.s)
    ensures Moves(task.m, f.s, move) && g.ss == Waiters(move, f.ss) && g.done == f.done + if move.Accepted? then 1
            else 0
    ensures f.due == Price(task.m, f.s) + g.due && f.peak == Higher(|g.ss|, g.peak)
    ensures if move.Next? || move.Fork? then Tracks(g, task) && g.s == (if move.Next? then move.state else move.first)
            else Remains(task, g, ActOf(move))
    ensures move.Accepted? ==> f.done < |task.total| && task.total[f.done] == f.s
  {
    assert Shown(0);
    g := CoverMove(task, f, move);
  }

  method GoHeld(e: Executor, x: Point, best: Point, found: bool, ghost f: Frontier, ghost task: Task,
                ghost move: Move<State>)
    returns (report: Report, act: Act, y: Point)
    requires Held(e, x, best, found, f, task) && Moves(e.m, f.s, move) && e.maxFrames > 0
    requires move.Accepted? ==> f.done < |task.total| && task.total[f.done] == f.s
    modifies e`stack, e`capacity, e.arena, e.budget
    ensures e.budget.Valid() && (old(e.budget.refused) ==> e.budget.refused)
    ensures e.Pays(old(e.budget.steps), Price(e.m, f.s), move.Fork? && old(e.Full()), report)
    ensures report.Failed? ==> e.Holding(y, Others(e, best))
    ensures report == Fine ==> |e.stack| == |old(e.stack)| + if move.Fork? then 1 else 0
    ensures report == Fine ==> Landed(e, x, y, best, found, f, task, move, act) && act == ActOf(move)
  {
    assert Shown(0);
    report, act, y := Go(e, x, best, found, f.s, f.ss, task, f.done, move);
  }

  lemma {:induction false} LandRunning(e: Executor, x: Point, y: Point, best: Point, found: bool, f: Frontier,
                                       task: Task, move: Move<State>, g: Frontier)
    requires Landed(e, x, y, best, found, f, task, move, Going) && Tracks(g, task) && g.ss == Waiters(move, f.ss)
    requires g.done == f.done
    requires (move.Next? && g.s == move.state) || (move.Fork? && g.s == move.first)
    ensures Running(e, y, best, found, g, task)
  {
    assert Shown(0);
  }

  lemma {:induction false} LandStopped(e: Executor, x: Point, y: Point, best: Point, found: bool, f: Frontier,
                                       task: Task, move: Move<State>, act: Act, g: Frontier)
    requires Landed(e, x, y, best, found, f, task, move, act) && act == ActOf(move) != Going && Remains(task, g, act)
    requires g.ss == f.ss && g.done == f.done + if move.Accepted? then 1 else 0
    ensures Stopped(e, y, best, found, act, f.s, g, task)
  {
    assert Shown(0);
  }

  /** One step of the machine. */
  method GoOn(e: Executor, x: Point, best: Point, found: bool, ghost f: Frontier, ghost task: Task)
    returns (report: Report, act: Act, y: Point, ghost g: Frontier)
    requires Running(e, x, best, found, f, task) && e.m == task.m && |f.ss| == |e.stack| < e.maxFrames
    modifies e`stack, e`capacity, e.arena, e.budget
    ensures e.Refusable(report) && (old(e.budget.refused) ==> e.budget.refused)
    ensures report.Failed? ==> e.Holding(y, Others(e, best)) && Unpaid(e, old(e.budget.steps), f)
    ensures report == Fine ==> PaidTo(e, old(e.budget.steps), f, g) && |g.ss| == |e.stack| < e.maxFrames
    ensures report == Fine ==> old(e.budget.steps) < e.budget.steps <= e.budget.limit
    ensures report == Fine && act == Going ==> Running(e, y, best, found, g, task)
    ensures report == Fine && act != Going ==> Stopped(e, y, best, found, act, f.s, g, task)
  {
    ghost var move := StepOf(task.m)(f.s);
    g := NextFrontier(f, task, move);
    report, act, y := GoHeld(e, x, best, found, f, task, move);
    if report == Fine {
      if act == Going {
        LandRunning(e, x, y, best, found, f, task, move, g);
      } else {
        LandStopped(e, x, y, best, found, f, task, move, act, g);
      }
    }
  }

  /** What remains once the match is compared. */
  lemma {:induction false} NoteCompared(e: Executor, x: Point, best: Point, found: bool, s: State, f: Frontier,
                                        task: Task) returns (g: Frontier)
    requires Stopped(e, x, best, found, Accepting, s, f, task)
    ensures 0 < f.done <= |task.os| && g.ss == f.ss && g.done == f.done
    ensures f.due == RankCost(task.os, f.done - 1) + g.due && f.peak == g.peak
    ensures Remains(task, g, Stuck)
  {
    assert Shown(0);
    g := Note(task, f, Stuck);
  }

  /** The executor, the current state's match being compared. */
  ghost predicate Compared(e: Executor, x: Point, best: Point, f: Frontier, task: Task)
    reads e, e.arena, e.budget, e.ranking
  {
    forall k: nat {:trigger Shown(k)} :: Shown(k) ==> Kept(e, best, true, f.ss, task, f.done, Root(x.history))
  }

  lemma {:induction false} StoppedAccepting(e: Executor, x: Point, best: Point, found: bool, s: State, f: Frontier,
                                            task: Task)
    requires Stopped(e, x, best, found, Accepting, s, f, task) && 0 < f.done <= |task.os|
    ensures Kept(e, best, found, f.ss, task, f.done - 1, Root(x.history)) && e.At(x, s) && f.done <= |task.total|
    ensures Same(s.core, task.os[f.done - 1], []) && s.core.begin[0] == task.candidate
  {
    assert Shown(0);
    assert Same(task.total[f.done - 1].core, task.os[f.done - 1], []);
  }

  method AcceptStopped(e: Executor, x: Point, best: Point, found: bool, ghost s: State, ghost f: Frontier,
                       ghost task: Task)
    returns (report: Report, next: Point)
    requires Stopped(e, x, best, found, Accepting, s, f, task) && 0 < f.done <= |task.os|
    modifies e.arena, e.budget, e.ranking, e.ranking.left, e.ranking.right
    ensures e.budget.Valid() && e.ranking.Valid() && (old(e.budget.refused) ==> e.budget.refused)
    ensures e.Pays(old(e.budget.steps), RankCost(task.os, f.done - 1), false, report)
    ensures (e.ranking.left == old(e.ranking.left) || fresh(e.ranking.left))
    ensures (e.ranking.right == old(e.ranking.right) || fresh(e.ranking.right))
    ensures report.Failed? ==> e.Holding(x, Others(e, next))
    ensures report == Fine ==> Compared(e, x, next, f, task)
  {
    StoppedAccepting(e, x, best, found, s, f, task);
    report, next := Accept(e, x, best, found, s, f.ss, task, f.done - 1);
  }

  lemma {:induction false} ComparedStopped(e: Executor, x: Point, best: Point, s: State, f: Frontier, task: Task,
                                           g: Frontier)
    requires Compared(e, x, best, f, task) && Remains(task, g, Stuck) && g.ss == f.ss && g.done == f.done
    ensures Stopped(e, x, best, true, Stuck, s, g, task)
  {
    assert Shown(0);
  }

  /** An accepting state is compared with the best match. */
  method Settle(e: Executor, x: Point, best: Point, found: bool, ghost s: State, ghost f: Frontier, ghost task: Task)
    returns (report: Report, next: Point, ghost g: Frontier)
    requires Stopped(e, x, best, found, Accepting, s, f, task)
    modifies e.arena, e.budget, e.ranking, e.ranking.left, e.ranking.right
    ensures e.budget.steps <= e.budget.limit && e.ranking.Valid() && (old(e.budget.refused) ==> e.budget.refused)
    ensures (e.ranking.left == old(e.ranking.left) || fresh(e.ranking.left))
    ensures (e.ranking.right == old(e.ranking.right) || fresh(e.ranking.right))
    ensures e.Refusable(report) && (report.Failed? ==>
              e.Holding(x, Others(e, next))
              && Unpaid(e, old(e.budget.steps), f))
    ensures report == Fine ==>
              Stopped(e, x, next, true, Stuck, s, g, task) && PaidTo(e, old(e.budget.steps), f, g)
              && g.ss == f.ss
    ensures report == Fine ==> old(e.budget.steps) <= e.budget.steps
  {
    g := NoteCompared(e, x, best, found, s, f, task);
    report, next := AcceptStopped(e, x, best, found, s, f, task);
    if report == Fine {
      ComparedStopped(e, x, next, s, f, task, g);
    }
  }

  /** The current state is given up. */
  method Leave(e: Executor, x: Point, best: Point, found: bool, ghost s: State, ghost f: Frontier, ghost task: Task)
    requires Stopped(e, x, best, found, Stuck, s, f, task)
    modifies e.arena
    ensures Waiting(e, best, found, f, task)
  {
    assert Shown(0);
    GiveUp(e, x, best, found, f.ss, task, f.done);
  }

  /** The next state is taken from the stack. */
  method Take(e: Executor, best: Point, found: bool, ghost f: Frontier, ghost task: Task)
    returns (next: Point, ghost g: Frontier)
    requires Waiting(e, best, found, f, task) && e.stack != []
    modifies e`stack
    ensures Running(e, next, best, found, g, task) && g.due == f.due && g.peak == f.peak
    ensures |e.stack| == |old(e.stack)| - 1 && |g.ss| == |f.ss| - 1
  {
    g := PopTracks(f, task, e, best, found);
    next := PopHeld(e, best, found, f, g, task);
  }

  lemma {:induction false} PopTracks(f: Frontier, task: Task, e: Executor, best: Point, found: bool)
    returns (g: Frontier)
    requires Waiting(e, best, found, f, task) && e.stack != []
    ensures Tracks(g, task) && Popped(f, g) && g.due == f.due && g.peak == f.peak
  {
    assert Shown(0);
    g := CoverPop(StepOf(task.m), f, f.done, task.total);
    PopAccounts(task, f, g);
    assert g == Note(task, g, Going);
  }

  method PopHeld(e: Executor, best: Point, found: bool, ghost f: Frontier, ghost g: Frontier, ghost task: Task)
    returns (next: Point)
    requires Waiting(e, best, found, f, task) && e.stack != [] && Popped(f, g)
    modifies e`stack
    ensures Held(e, next, best, found, g, task) && |e.stack| == |old(e.stack)| - 1
  {
    assert Shown(0);
    next := Pop(e, best, found, f.ss, task, f.done);
  }

  lemma {:induction false} WaitedEnough(e: Executor, best: Point, found: bool, f: Frontier, task: Task)
    requires Waiting(e, best, found, f, task) && e.stack == []
    ensures Ended(e, best, found, task) && f.due == 0 && f.peak == 0
  {
    assert Shown(0);
    NothingLeft(task, f);
  }

  /** One step of the search and, if the current state ended, of backtracking. */
  method Turn(e: Executor, x: Point, best: Point, found: bool, ghost f: Frontier, ghost task: Task)
    returns (report: Report, more: bool, y: Point, nextBest: Point, nextFound: bool, ghost g: Frontier)
    requires Running(e, x, best, found, f, task) && e.ranking.Valid() && e.m == task.m
    requires |f.ss| == |e.stack| < e.maxFrames
    modifies e`stack, e`capacity, e.arena, e.budget, e.ranking, e.ranking.left, e.ranking.right
    ensures e.ranking.Valid() && (old(e.budget.refused) ==> e.budget.refused)
    ensures (e.ranking.left == old(e.ranking.left) || fresh(e.ranking.left))
    ensures (e.ranking.right == old(e.ranking.right) || fresh(e.ranking.right))
    ensures e.Refusable(report) && (report.Failed? ==>
              e.Holding(y, Others(e, nextBest))
              && Unpaid(e, old(e.budget.steps), f))
    ensures report == Fine ==>
              PaidTo(e, old(e.budget.steps), f, g)
              && old(e.budget.steps) < e.budget.steps <= e.budget.limit
    ensures report == Fine && more ==> Running(e, y, nextBest, nextFound, g, task) && |g.ss| == |e.stack| < e.maxFrames
    ensures report == Fine && !more ==> Ended(e, nextBest, nextFound, task) && g.due == 0 && g.peak == 0
  {
    more, nextBest, nextFound := true, best, found;
    var act;
    report, act, y, g := GoOn(e, x, best, found, f, task);
    if report.Failed? || act == Going {
      return;
    }
    if act == Accepting {
      nextFound := true;
      report, nextBest, g := Settle(e, y, best, found, f.s, g, task);
      if report.Failed? {
        return;
      }
    }
    Leave(e, y, nextBest, nextFound, f.s, g, task);
    more := e.stack != [];
    if more {
      y, g := Take(e, nextBest, nextFound, g, task);
    } else {
      WaitedEnough(e, nextBest, nextFound, g, task);
    }
  }

  /** Steps until nothing is left. */
  method Finish(e: Executor, start: Point, none: Point, ghost first: Frontier, ghost task: Task)
    returns (report: Report, found: bool, best: Point)
    requires Running(e, start, none, false, first, task) && e.ranking.Valid() && e.m == task.m
    requires |first.ss| == |e.stack| < e.maxFrames
    requires e.budget.Valid()
    modifies e`stack, e`capacity, e.arena, e.budget, e.ranking, e.ranking.left, e.ranking.right
    ensures e.ranking.Valid() && e.budget.Valid() && (old(e.budget.refused) ==> e.budget.refused)
    ensures (e.ranking.left == old(e.ranking.left) || fresh(e.ranking.left))
    ensures (e.ranking.right == old(e.ranking.right) || fresh(e.ranking.right))
    ensures e.Pays(old(e.budget.steps), first.due, first.peak >= e.maxFrames, report)
    ensures report.Failed? ==> e.stack == [] && e.arena.Valid(multiset{})
    ensures report == Fine ==> Ended(e, best, found, task)
  {
    var x, more := start, true;
    report, found, best := Fine, false, none;
    ghost var f := first;
    while more
      invariant report == Fine && e.ranking.Valid() && e.budget.Valid() && (old(e.budget.refused) ==> e.budget.refused)
      invariant if more then Running(e, x, best, found, f, task) && |f.ss| == |e.stack| < e.maxFrames
                else Ended(e, best, found, task) && f.due == 0 && f.peak == 0 && e.maxFrames > 0
      invariant PaidTo(e, old(e.budget.steps), first, f)
      invariant e.ranking.left == old(e.ranking.left) || fresh(e.ranking.left)
      invariant e.ranking.right == old(e.ranking.right) || fresh(e.ranking.right)
      decreases more, e.budget.limit - e.budget.steps
    {
      report, more, x, best, found, f := Turn(e, x, best, found, f, task);
      if report.Failed? {
        CleanUp(e, x, best);
        return;
      }
    }
  }

  /** The whole search from one start: every accepting run is met, and the best
      kept. It is refused exactly when it costs more than is left, or its stack
      does not fit, or memory is refused. */
  method SearchFrom(e: Executor, start: Point, ghost s: State, ghost task: Task)
    returns (report: Report, found: bool, best: Point)
    requires e.Holding(start, multiset{}) && e.ranking.Valid() && e.stack == [] && e.maxFrames > 0 && e.m == task.m
    requires e.At(start, s)
    requires Yields(StepOf(task.m), s, task.total) && Matches(task.total, task.os, task.candidate)
    modifies e`stack, e`capacity, e.arena, e.budget, e.ranking, e.ranking.left, e.ranking.right
    ensures e.budget.Valid() && e.ranking.Valid() && e.stack == [] && (old(e.budget.refused) ==> e.budget.refused)
    ensures (e.ranking.left == old(e.ranking.left) || fresh(e.ranking.left))
    ensures (e.ranking.right == old(e.ranking.right) || fresh(e.ranking.right))
    ensures e.Pays(old(e.budget.steps), TaskCost(task, s), Stacked(StepOf(task.m), s) >= e.maxFrames, report)
    ensures report.Failed? ==> e.arena.Valid(multiset{})
    ensures report == Fine ==> e.arena.Valid(Root(best.history)) && BestSoFar(e.arena, best, found, task, |task.total|)
  {
    best := start.(history := NONE);
    ghost var first := StartRuns(e, start, best, s, task);
    report, found, best := Finish(e, start, best, first, task);
    if report == Fine {
      EndHolds(e, best, found, task);
    }
  }

  lemma {:induction false} EndHolds(e: Executor, best: Point, found: bool, task: Task)
    requires Ended(e, best, found, task)
    ensures e.budget.Valid() && e.ranking.Valid() && e.stack == [] && e.arena.Valid(Root(best.history))
    ensures BestSoFar(e.arena, best, found, task, |task.total|)
  {
    assert Shown(0);
    assert multiset{} + Others(e, best) == Root(best.history);
  }

  lemma {:induction false} StartRuns(e: Executor, start: Point, best: Point, s: State, task: Task) returns (f: Frontier)
    requires e.Holding(start, multiset{}) && e.ranking.Valid() && e.stack == [] && e.m == task.m && e.At(start, s)
    requires best.history == NONE
    requires Yields(StepOf(task.m), s, task.total) && Matches(task.total, task.os, task.candidate)
    ensures Running(e, start, best, false, f, task) && f.ss == [] && f.due == TaskCost(task, s)
    ensures f.peak == Stacked(StepOf(task.m), s)
  {
    f := Note(task, Frontier(s, task.total, [], [], 0, 0, 0), Going);
    StartCovers(task, f);
    assert Root(start.history) + Others(e, best) == Root(start.history) + multiset{};
  }
}
