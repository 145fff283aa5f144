/** Executing a compiled pattern on a text: the leftmost start that matches,
    and the selected match from there. */
module BreExec {
  import opened Folding
  import opened BreProgram
  import opened BreSyntax
  import opened BreMachine
  import opened BreReference
  import opened BreSelect
  import opened BreCompile
  import opened BreBudget
  import opened BreLimits
  import opened BreUtf8
  import opened BreArenaSpec
  import opened BrePoints
  import opened BreExecutor
  import opened BreExecutorRun
  import opened BreAnswer
  import opened BreReading
  import opened BreLedger
  import opened BreOutlook
  import opened BreOutcome
  import opened Search

  // ---------- one start ----------

  function StartPoint(entry: nat, candidate: nat): Point {
    Point(entry, candidate, seq(SLOTS, g => if g == 0 then candidate else -1), seq(SLOTS, _ => -1), [], NONE,
          seq(SLOTS, _ => 0))
  }

  /** An executor between two starts. */
  ghost predicate Ready(e: Executor)
    reads e, e.arena, e.budget, e.ranking
  {
    forall k: nat {:trigger Shown(k)} :: Shown(k) ==>
      e.budget.Valid() && e.arena.Valid(multiset{}) && e.ranking.Valid() && e.stack == [] && e.maxFrames > 0
  }

  lemma {:induction false} ReadyIs(e: Executor)
    requires Ready(e)
    ensures e.budget.Valid() && e.arena.Valid(multiset{}) && e.ranking.Valid() && e.stack == [] && e.maxFrames > 0
  {
    assert Shown(0);
  }

  /** The program runs the expression of `s` on the executor's machine. */
  ghost predicate RunsSyntax(e: Executor, p: Program, s: Syntax) {
    forall k: nat {:trigger Shown(k)} :: Shown(k) ==>
      ProgramOf(p, s) && e.m.code == p.code && e.m.ranges == p.ranges && ShapeOk(s) && |e.m.input| <= MAX_INPUT
  }

  /** Everything from one start. The best match's history is given up with it. */
  method Try(e: Executor, p: Program, start: nat, ghost s: Syntax, ghost x: Prospect)
    returns (report: Report, found: bool, best: Point)
    requires RunsSyntax(e, p, s) && Ready(e) && Promises(e.m, Elaborate(s, 0, 0), p.entry, start, x)
    modifies e`stack, e`capacity, e.arena, e.budget, e.ranking, e.ranking.left, e.ranking.right
    ensures Ready(e) && (old(e.budget.refused) ==> e.budget.refused)
    ensures e.Pays(old(e.budget.steps), x.cost, x.peak >= e.maxFrames, report)
    ensures (e.ranking.left == old(e.ranking.left) || fresh(e.ranking.left))
    ensures (e.ranking.right == old(e.ranking.right) || fresh(e.ranking.right))
    ensures report == Fine ==> (found <==> x.os != []) && (found ==> Reports(best, Chosen(x.os, |x.os|), start))
  {
    ReadyIs(e);
    ghost var task := StartTask(e, p, start, s, x);
    report, found, best := SearchFrom(e, StartPoint(p.entry, start), StartState(p.entry, start), task);
    if report == Fine {
      assert Root(best.history) == Root(best.history) + multiset{};
      e.Abandon(best, multiset{});
    }
  }

  /** What is searched from a start. */
  lemma {:induction false} StartTask(e: Executor, p: Program, start: nat, s: Syntax, x: Prospect) returns (task: Task)
    requires RunsSyntax(e, p, s) && e.arena.Valid(multiset{}) && Promises(e.m, Elaborate(s, 0, 0), p.entry, start, x)
    ensures task.m == e.m && task.os == x.os && task.candidate == start
    ensures TaskCost(task, StartState(p.entry, start)) == x.cost
    ensures Stacked(StepOf(e.m), StartState(p.entry, start)) == x.peak
    ensures Yields(StepOf(e.m), StartState(p.entry, start), task.total) && Matches(task.total, task.os, task.candidate)
    ensures e.At(StartPoint(p.entry, start), StartState(p.entry, start))
  {
    assert Shown(0);
    task := TaskFrom(e.m, Elaborate(s, 0, 0), start);
    RunsAreMatches(e.m, p, s, start);
    StartStands(e, p.entry, start);
  }

  /** What was expected before is paid up to what is expected now. */
  ghost predicate Awaits(e: Executor, before: nat, first: Outlook, o: Outlook)
    reads e.budget
  {
    && first.answer == o.answer && e.budget.steps + o.cost == before + first.cost && o.peak <= first.peak
    && (first.peak >= e.maxFrames ==> o.peak >= e.maxFrames)
  }

  /** The answer is what was expected. */
  ghost predicate Tells(all: Outlook, found: bool, start: nat, best: Point) {
    (found <==> all.answer.Found?) && (found ==> start == all.answer.start && Reports(best, all.answer.best, start))
  }

  /** One start, when `o` is expected from it on and `all` was expected first;
      `rest` is what is expected from the next start on, if there is to be one. */
  method TryNext(e: Executor, p: Program, start: nat, anchored: bool, ghost s: Syntax, ghost f: Forecast,
                 ghost o: Outlook, ghost all: Outlook, ghost before: nat)
    returns (report: Report, found: bool, best: Point, ghost rest: Outlook)
    requires RunsSyntax(e, p, s) && Ready(e) && start <= |e.m.input|
    requires IsForecast(f, e.m, Elaborate(s, 0, 0), p.entry, anchored)
    requires f(start, o) && Awaits(e, before, all, o)
    modifies e`stack, e`capacity, e.arena, e.budget, e.ranking, e.ranking.left, e.ranking.right
    ensures Ready(e) && (old(e.budget.refused) ==> e.budget.refused)
    ensures (e.ranking.left == old(e.ranking.left) || fresh(e.ranking.left))
    ensures (e.ranking.right == old(e.ranking.right) || fresh(e.ranking.right))
    ensures report.Failed? || found || anchored ==> e.Pays(before, all.cost, all.peak >= e.maxFrames, report)
    ensures report == Fine && (found || anchored) ==> Tells(all, found, start, best)
    ensures report == Fine && !found && !anchored ==>
              f(start + 1, rest) && Awaits(e, before, all, rest)
  {
    ghost var x;
    x, rest := ForecastNext(f, e.m, Elaborate(s, 0, 0), p.entry, start, anchored, o);
    report, found, best := Try(e, p, start, s, x);
  }

  /** Tries every start in turn until one matches. */
  method Candidates(e: Executor, p: Program, first: nat, anchored: bool, ghost s: Syntax, ghost f: Forecast,
                    ghost all: Outlook)
    returns (report: Report, found: bool, start: nat, best: Point)
    requires RunsSyntax(e, p, s) && Ready(e) && first <= |e.m.input|
    requires IsForecast(f, e.m, Elaborate(s, 0, 0), p.entry, anchored) && f(first, all)
    modifies e`stack, e`capacity, e.arena, e.budget, e.ranking, e.ranking.left, e.ranking.right
    ensures Ready(e) && (old(e.budget.refused) ==> e.budget.refused)
    ensures e.Pays(old(e.budget.steps), all.cost, all.peak >= e.maxFrames, report)
    ensures report == Fine ==> Tells(all, found, start, best)
  {
    ghost var o := all;
    report, found, start, best := Fine, false, first, StartPoint(p.entry, first);
    while start <= |e.m.input|
      invariant start <= |e.m.input| + 1 && Ready(e) && !found && report == Fine
      invariant (old(e.budget.refused) ==> e.budget.refused)
      invariant f(start, o) && Awaits(e, old(e.budget.steps), all, o)
      invariant e.ranking.left == old(e.ranking.left) || fresh(e.ranking.left)
      invariant e.ranking.right == old(e.ranking.right) || fresh(e.ranking.right)
    {
      report, found, best, o := TryNext(e, p, start, anchored, s, f, o, all, old(e.budget.steps));
      if report.Failed? || found || anchored {
        return;
      }
      start := start + 1;
    }
    ReadyIs(e);
    ForecastEnds(f, e.m, Elaborate(s, 0, 0), p.entry, start, anchored, o);
  }

  lemma {:induction false} StartStands(e: Executor, entry: nat, candidate: nat)
    requires e.arena.Valid(multiset{})
    ensures e.At(StartPoint(entry, candidate), State(entry, [], StartCore(candidate)))
  {
  }

  lemma {:induction false} NothingLives(e: Executor)
    requires e.arena.Valid(multiset{})
    ensures forall id :: 0 <= id < |e.arena.nodes| ==> e.arena.nodes[id].refs == 0
  {
    NoRootsNoNodes(e.arena.nodes, e.arena.chains);
  }

  // ---------- the interface ----------

  /** The saved point's captures, in scalars and bytes. */
  method Captures(p: Program, best: Point, offsets: seq<nat>, capacity: nat, ghost m: Machine, ghost start: nat,
                  ghost w: Out)
    returns (r: seq<Capture>)
    requires capacity <= SLOTS && OutOk(m, w) && Reports(best, w, start) && start <= w.at
    requires |offsets| == |m.input| + 1 && OffsetsOk(m.input, offsets)
    ensures |r| == capacity && forall g :: 0 <= g < capacity ==> r[g] == Reported(p, m.input, start, w, g)
  {
    r := [];
    for g := 0 to capacity
      invariant |r| == g && forall k :: 0 <= k < g ==> r[k] == Reported(p, m.input, start, w, k)
    {
      var capture := Capture(false, 0, 0, 0, 0);
      if g <= p.groups && best.begin[g] >= 0 && best.end[g] >= 0 {
        assert SpanIn(start, w, g) == Span(best.begin[g], best.end[g]);
        capture := Capture(true, offsets[best.begin[g]], offsets[best.end[g]], best.begin[g], best.end[g]);
      }
      r := r + [capture];
    }
  }

  /** Runs the executor on a decoded text. */
  method Run(p: Program, text: seq<nat>, offsets: seq<nat>, first: nat, anchored: bool, maxFrames: nat, capacity: nat,
             budget: Budget, ghost s: Syntax)
    returns (outcome: Outcome)
    requires ProgramOf(p, s) && ShapeOk(s) && budget.Valid() && maxFrames > 0 && capacity <= SLOTS
    requires Scalars(text) && |text| <= MAX_INPUT && first <= |text| && |offsets| == |text| + 1
    requires OffsetsOk(text, offsets)
    modifies budget
    ensures (old(budget.refused) ==> budget.refused) && TreeOk(Machine(p.code, p.ranges, text), Elaborate(s, 0, 0))
    ensures outcome.Refused? ==> outcome.error == Limit || (outcome.error == NoMemory && budget.refused)
    ensures var m := Machine(p.code, p.ranges, text);
            !budget.refused ==>
              (outcome == Refused(Limit) <==>
               TooCostly(p, m, Elaborate(s, 0, 0), first, anchored, old(budget.steps), budget.limit, maxFrames))
    ensures !outcome.Refused? ==>
              Answers(p, Machine(p.code, p.ranges, text), Elaborate(s, 0, 0), first, anchored, capacity, outcome)
  {
    var m := Machine(p.code, p.ranges, text);
    ghost var t := Elaborate(s, 0, 0);
    var e := new Executor(m, maxFrames, budget);
    RunsAreMatches(m, p, s, first);
    assert RunsSyntax(e, p, s);
    ghost var f, all := TheForecast(m, t, p.entry, first, anchored);
    var report, found, start, best := Candidates(e, p, first, anchored, s, f, all);
    ReadyIs(e);
    NothingLives(e);
    if report.Failed? {
      return Refused(report.error);
    }
    outcome := NoMatch;
    if found {
      BestIsOk(m, t, first, anchored);
      var captures := Captures(p, best, offsets, capacity, m, start, Reference(m, t, first, anchored).best);
      outcome := Matched(captures);
    }
  }

  /** Executes a compiled pattern on a text. An answer is the reference's,
      whatever the limits; a refusal says what was wrong or which resource ran
      out, and unless memory is refused the outcome is determined by the call. */
  method Exec(p: Program, bytes: seq<nat>, startByte: nat, mode: nat, limits: Limits, capacity: nat,
              budget: Budget, ghost s: Syntax)
    returns (outcome: Outcome, ghost units: seq<nat>, ghost first: nat)
    requires ProgramOf(p, s) && ShapeOk(s)
    requires budget.Valid() && budget.limit == limits.maxSteps && budget.steps == 0 && !budget.refused
    modifies budget
    ensures var checked := ArgumentsReport(p, |bytes|, startByte, mode, limits, capacity);
            && (checked.Failed? ==> outcome == Refused(checked.error))
            && (outcome == Refused(Encoding) ==> !Text(bytes))
            && (outcome == Refused(Argument) ==> checked.Failed? || !Text(bytes) || !Boundary(bytes, startByte))
            && (outcome == Refused(NoMemory) ==> budget.refused)
    ensures !budget.refused ==> Decides(Call(p, bytes, startByte, mode, limits, capacity), s, outcome)
    ensures !outcome.Refused? ==>
              && Text(bytes) && Encodes(bytes, units) && first <= |units| && ByteAt(units, first) == startByte
              && Answers(p, Machine(p.code, p.ranges, units), Elaborate(s, 0, 0), first, mode == ANCHORED, capacity,
                         outcome)
  {
    units, first := [], 0;
    var checked := ArgumentsReport(p, |bytes|, startByte, mode, limits, capacity);
    if checked.Failed? {
      return Refused(checked.error), units, first;
    }
    var report := budget.Reserve(true);
    if report.Failed? {
      return Refused(report.error), units, first;
    }
    ghost var call := Call(p, bytes, startByte, mode, limits, capacity);
    var text, offsets, at;
    report, text, offsets, at := Decode(budget, bytes, startByte);
    if report.Failed? {
      DecidesUnread(call, s, report.error);
      return Refused(report.error), units, first;
    }
    if at == NONE {
      NoBoundary(bytes, text, offsets, startByte);
      NoFirst(text, offsets, startByte);
      DecidesUnstarted(call, s);
      return Refused(Argument), units, first;
    }
    units, first := text, at;
    outcome := Run(p, text, offsets, at, mode == ANCHORED, limits.maxFrames, capacity, budget, s);
    if !budget.refused {
      DecidesRun(call, s, first, outcome);
    }
  }

  /** The same call with two step limits: unless memory is refused, an outcome other
      than LIMIT is the same with the larger limit. */
  method ExecTwice(c: Call, more: nat, small: Budget, large: Budget, ghost s: Syntax)
    returns (outcome: Outcome, outcome': Outcome)
    requires ProgramOf(c.p, s) && ShapeOk(s) && 0 < c.limits.maxSteps <= more && small != large
    requires small.Valid() && small.limit == c.limits.maxSteps && small.steps == 0 && !small.refused
    requires large.Valid() && large.limit == more && large.steps == 0 && !large.refused
    modifies small, large
    ensures !small.refused && !large.refused && outcome != Refused(Limit) ==> outcome' == outcome
  {
    ghost var units, first;
    outcome, units, first := Exec(c.p, c.bytes, c.startByte, c.mode, c.limits, c.capacity, small, s);
    var limits := c.limits.(maxSteps := more);
    outcome', units, first := Exec(c.p, c.bytes, c.startByte, c.mode, limits, c.capacity, large, s);
    if !small.refused && !large.refused && outcome != Refused(Limit) {
      RaisingStepsKeepsOutcome(c, more, s, outcome, outcome');
    }
  }
}
