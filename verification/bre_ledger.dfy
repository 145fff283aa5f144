/** What a search has still to find and to pay for: the current state and the
    stacked ones, the matches not compared yet, and the height of the stack. */
module BreLedger {
  import opened BreProgram
  import opened Search
  import opened BreMachine
  import opened BreReference
  import opened BreSelect
  import opened BreAgree
  import opened BreRankCost
  import opened BreSearchCost

  /** The current state and the stacked ones, with what each still finds; how many
      matches were found; what the rest costs and how high the stack will be. */
  datatype Frontier = Frontier(s: State, xs: seq<State>, ss: seq<State>, ys: seq<seq<State>>, done: nat, due: nat,
                               peak: nat)

  /** What the stacked states find, the top one first. */
  function Rest(ys: seq<seq<State>>): seq<State> {
    if ys == [] then [] else ys[|ys| - 1] + Rest(ys[..|ys| - 1])
  }

  ghost predicate AllYield(step: State -> Move<State>, ss: seq<State>, ys: seq<seq<State>>) {
    |ss| == |ys| && forall i :: 0 <= i < |ss| ==> Yields(step, ss[i], ys[i])
  }

  /** Nothing is missed and nothing is met twice: what was found so far, what the
      current state finds and what the stack finds are the whole search. */
  ghost predicate Covers(step: State -> Move<State>, f: Frontier, total: seq<State>) {
    && Yields(step, f.s, f.xs) && AllYield(step, f.ss, f.ys)
    && f.done <= |total| && total == total[..f.done] + f.xs + Rest(f.ys)
  }

  lemma {:induction false} CoverNext(step: State -> Move<State>, f: Frontier, total: seq<State>, t: State)
    requires Covers(step, f, total) && step(f.s) == Next(t)
    ensures Covers(step, f.(s := t), total)
  {
    YieldsNext(step, f.s, t, f.xs);
  }

  lemma {:induction false} CoverFork(step: State -> Move<State>, f: Frontier, total: seq<State>, a: State, b: State)
    returns (g: Frontier)
    requires Covers(step, f, total) && step(f.s) == Fork(a, b)
    ensures Covers(step, g, total) && g.s == a && g.ss == f.ss + [b] && g.done == f.done
  {
    var xs, ys := ForkSplits(step, f.s, a, b, f.xs);
    g := f.(s := a, xs := xs, ss := f.ss + [b], ys := f.ys + [ys]);
    assert g.ys[..|f.ys|] == f.ys;
    assert total[..f.done] + (xs + ys) + Rest(f.ys) == total[..f.done] + xs + (ys + Rest(f.ys));
  }

  /** An accepting state is the next one found. */
  lemma {:induction false} CoverAccept(step: State -> Move<State>, f: Frontier, total: seq<State>)
    requires Covers(step, f, total) && step(f.s) == Accepted
    ensures f.done < |total| && total[f.done] == f.s
    ensures total == total[..f.done + 1] + Rest(f.ys)
  {
    YieldsSound(step, f.s, f.xs);
    assert (total[..f.done] + [f.s] + Rest(f.ys))[f.done] == f.s;
    assert total[..f.done + 1] == total[..f.done] + [f.s];
  }

  lemma {:induction false} CoverPop(step: State -> Move<State>, f: Frontier, done: nat, total: seq<State>)
    returns (g: Frontier)
    requires AllYield(step, f.ss, f.ys) && done <= |total| && total == total[..done] + Rest(f.ys) && f.ss != []
    ensures Covers(step, g, total) && g.done == done && g.due == f.due && g.peak == f.peak
    ensures var n := |f.ss| - 1; g.s == f.ss[n] && g.ss == f.ss[..n]
  {
    var n := |f.ss| - 1;
    g := f.(s := f.ss[n], xs := f.ys[n], ss := f.ss[..n], ys := f.ys[..n], done := done);
    assert total[..done] + Rest(f.ys) == total[..done] + f.ys[n] + Rest(f.ys[..n]);
  }

  /** The accepting states, and the matches they are. */
  ghost predicate Matches(total: seq<State>, os: seq<Out>, candidate: nat) {
    |total| == |os| && forall i :: 0 <= i < |total| ==>
        Same(total[i].core, os[i], [])
        && total[i].core.begin[0] == candidate
  }

  /** Two matches of equal length are ranked. */
  function ComparedTicks(found: bool, r: Out, w: Out): nat {
    if found && r.at == w.at then BetterTicks(r.scopes, w.scopes) else 0
  }

  /** What is searched, what its matches are, and where it starts. */
  datatype Task = Task(m: Machine, total: seq<State>, os: seq<Out>, candidate: nat)

  /** The steps of comparing match `k` with the one chosen among those before it. */
  function RankCost(os: seq<Out>, k: nat): nat
    requires k < |os|
  {
    if k > 0 then ComparedTicks(true, os[k], Chosen(os, k)) else 0
  }

  /** The steps of all comparisons from match `done` on. */
  function RankCosts(os: seq<Out>, done: nat): nat
    requires done <= |os|
    decreases |os| - done
  {
    if done == |os| then 0 else RankCost(os, done) + RankCosts(os, done + 1)
  }

  /** Adding the next match to those considered. */
  lemma {:induction false} ChosenGrows(os: seq<Out>, done: nat, found: bool)
    requires done < |os| && (found <==> done > 0)
    ensures Chosen(os, done + 1) == if found && !Preferred(os[done], Chosen(os, done)) then Chosen(os, done)
            else os[done]
  {
    if found {
      ChosenNext(os, done);
    } else {
      assert os[1..1] == [];
    }
  }

  /** The stacked states after a move. */
  function Waiters(move: Move<State>, ss: seq<State>): seq<State> {
    if move.Fork? then ss + [move.second] else ss
  }

  /** The price of searching from every stacked state. */
  ghost function StackPrice(m: Machine, ss: seq<State>): nat {
    if ss == [] then 0 else TotalPrice(StepOf(m), PriceOf(m), ss[|ss| - 1]) + StackPrice(m, ss[..|ss| - 1])
  }

  /** The highest the stack will be. */
  ghost function StackPeak(m: Machine, ss: seq<State>): nat {
    if ss == [] then 0
    else
      var n := |ss| - 1;
      Higher(n + Stacked(StepOf(m), ss[n]), StackPeak(m, ss[..n]))
  }

  function Higher(a: nat, b: nat): nat {
    if a > b then a else b
  }

  /** What the stacked states and the matches not compared yet cost. */
  ghost function DueLater(task: Task, ss: seq<State>, done: nat): nat
    requires done <= |task.os|
  {
    StackPrice(task.m, ss) + RankCosts(task.os, done)
  }

  /** What the search still costs, the current state included. */
  ghost function Due(task: Task, f: Frontier): nat
    requires f.done <= |task.os|
  {
    TotalPrice(StepOf(task.m), PriceOf(task.m), f.s) + DueLater(task, f.ss, f.done)
  }

  ghost function Peak(task: Task, f: Frontier): nat {
    Higher(|f.ss| + Stacked(StepOf(task.m), f.s), StackPeak(task.m, f.ss))
  }

  lemma {:induction false} StackPush(m: Machine, ss: seq<State>, s: State)
    ensures StackPrice(m, ss + [s]) == TotalPrice(StepOf(m), PriceOf(m), s) + StackPrice(m, ss)
    ensures StackPeak(m, ss + [s]) == Higher(|ss| + Stacked(StepOf(m), s), StackPeak(m, ss))
  {
    assert (ss + [s])[..|ss|] == ss;
  }

  /** A step pays off its own price. */
  lemma {:induction false} MoveAccounts(task: Task, f: Frontier, move: Move<State>, g: Frontier)
    requires Yields(StepOf(task.m), f.s, f.xs) && move == StepOf(task.m)(f.s) && g.ss == Waiters(move, f.ss)
    requires g.done == f.done + (if move.Accepted? then 1 else 0) && g.done <= |task.os|
    requires move.Next? ==> g.s == move.state
    requires move.Fork? ==> g.s == move.first
    ensures var h := Note(task, g, ActOf(move));
            Due(task, f) == Price(task.m, f.s) + h.due
            && Peak(task, f) == Higher(|g.ss|, h.peak)
  {
    if move.Fork? {
      ForkAccounts(task, f, move.first, move.second, g);
    } else {
      PriceUnfolds(StepOf(task.m), PriceOf(task.m), f.s, f.xs);
    }
  }

  /** A fork pays its own price and stacks one of its branches. */
  lemma {:induction false} ForkAccounts(task: Task, f: Frontier, a: State, b: State, g: Frontier)
    requires Yields(StepOf(task.m), f.s, f.xs) && StepOf(task.m)(f.s) == Fork(a, b)
    requires g.ss == f.ss + [b] && g.s == a && g.done == f.done <= |task.os|
    ensures Due(task, f) == Price(task.m, f.s) + Due(task, g) && Peak(task, f) == Higher(|g.ss|, Peak(task, g))
  {
    PriceUnfolds(StepOf(task.m), PriceOf(task.m), f.s, f.xs);
    StackPush(task.m, f.ss, b);
  }

  /** The top of the stack is what is paid next. */
  lemma {:induction false} PopAccounts(task: Task, f: Frontier, g: Frontier)
    requires Popped(f, g) && Noted(task, f, Stuck)
    ensures Note(task, g, Going) == g.(due := f.due, peak := f.peak)
  {
    var n := |f.ss| - 1;
    assert f.ss == f.ss[..n] + [f.ss[n]];
    StackPush(task.m, f.ss[..n], f.ss[n]);
  }

  /** What a frontier costs is noted in it; `act` says how its current state
      ended, if it did: an accepting one is still to be compared. */
  ghost predicate Noted(task: Task, f: Frontier, act: Act) {
    f.done <= |task.os| &&
    match act
    case Going => f.due == Due(task, f) && f.peak == Peak(task, f)
    case Accepting => 0 < f.done && f.due == RankCost(task.os, f.done - 1) + DueLater(task, f.ss, f.done)
        && f.peak == StackPeak(task.m, f.ss)
    case Stuck => f.due == DueLater(task, f.ss, f.done) && f.peak == StackPeak(task.m, f.ss)
  }

  /** The frontier with its costs noted. */
  ghost function Note(task: Task, f: Frontier, act: Act): (g: Frontier)
    requires f.done <= |task.os| && (act == Accepting ==> 0 < f.done)
    ensures Noted(task, g, act) && g == f.(due := g.due, peak := g.peak)
  {
    match act
    case Going => f.(due := Due(task, f), peak := Peak(task, f))
    case Accepting => f.(due := RankCost(task.os, f.done - 1) + DueLater(task, f.ss, f.done),
                         peak := StackPeak(task.m, f.ss))
    case Stuck => f.(due := DueLater(task, f.ss, f.done), peak := StackPeak(task.m, f.ss))
  }

  function ActOf(move: Move<State>): Act {
    if move.Accepted? then Accepting else if move.Next? || move.Fork? then Going else Stuck
  }

  /** The rest of the search after one step, when it goes on from there. */
  lemma {:induction false} CoverMove(task: Task, f: Frontier, move: Move<State>) returns (g: Frontier)
    requires Covers(StepOf(task.m), f, task.total) && move == StepOf(task.m)(f.s) && |task.total| == |task.os|
    requires Noted(task, f, Going)
    ensures Moves(task.m, f.s, move) && g.ss == Waiters(move, f.ss) && Noted(task, g, ActOf(move))
    ensures f.due == Price(task.m, f.s) + g.due && f.peak == Higher(|g.ss|, g.peak)
    ensures g.done == f.done + if move.Accepted? then 1 else 0
    ensures move.Next? || move.Fork? ==>
              Covers(StepOf(task.m), g, task.total) && g.s == if move.Next? then move.state else move.first
    ensures move.Accepted? || move.Backtrack? ==> LeftOnStack(task, g)
    ensures move.Accepted? ==> f.done < |task.total| && task.total[f.done] == f.s
  {
    var step := StepOf(task.m);
    YieldsSound(step, f.s, f.xs);
    StepMoves(task.m, f.s);
    g := f;
    if move.Next? {
      CoverNext(step, f, task.total, move.state);
      g := f.(s := move.state);
    } else if move.Fork? {
      g := CoverFork(step, f, task.total, move.first, move.second);
    } else if move.Accepted? {
      CoverAccept(step, f, task.total);
      g := f.(done := f.done + 1);
    } else {
      assert task.total == task.total[..f.done] + [] + Rest(f.ys);
    }
    MoveAccounts(task, f, move, g);
    g := Note(task, g, ActOf(move));
  }

  /** Everything not found yet is on the stack. */
  ghost predicate LeftOnStack(task: Task, f: Frontier) {
    AllYield(StepOf(task.m), f.ss, f.ys) && f.done <= |task.total| && task.total == task.total[..f.done] + Rest(f.ys)
  }

  /** An empty stack ends the search. */
  lemma {:induction false} NothingLeft(task: Task, f: Frontier)
    requires LeftOnStack(task, f) && f.ss == []
    ensures f.done == |task.total|
  {
    assert task.total[..f.done] + [] == task.total[..f.done];
  }

  /** `g` is `f` with the top of the stack as current state. */
  ghost predicate Popped(f: Frontier, g: Frontier) {
    f.ss != [] && var n := |f.ss| - 1; g.s == f.ss[n] && g.ss == f.ss[..n] && g.done == f.done
  }

  /** The steps of the whole search from one start, comparisons included. */
  ghost function TaskCost(task: Task, s: State): nat {
    TotalPrice(StepOf(task.m), PriceOf(task.m), s) + RankCosts(task.os, 0)
  }

  lemma {:induction false} StartCovers(task: Task, f: Frontier)
    requires Yields(StepOf(task.m), f.s, task.total) && f == Frontier(f.s, task.total, [], [], 0, f.due, f.peak)
    ensures Covers(StepOf(task.m), f, task.total)
  {
    assert task.total[..0] + task.total + [] == task.total;
  }
}
