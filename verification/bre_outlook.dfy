/** What trying every start in turn gives, and takes: the answer, the steps, and
    the height of the stack. */
module BreOutlook {
  import opened Folding
  import opened BreProgram
  import opened BreLayout
  import opened BreMachine
  import opened BrePaths
  import opened BreReference
  import opened BreSelect
  import opened BreSyntax
  import opened BreKeep
  import opened BreScopes
  import opened BreAgree
  import opened BreCompile
  import opened BreLedger
  import opened BreAnswer
  import opened Search

  function StartCore(candidate: nat): Core {
    Core(candidate, seq(SLOTS, g => if g == 0 then candidate else -1), seq(SLOTS, _ => -1), seq(SLOTS, _ => 0), [])
  }

  /** The search from a start: what it finds, and the matches these are. */
  ghost function TaskFrom(m: Machine, t: Tree, candidate: nat): Task
    requires TreeOk(m, t) && candidate <= |m.input|
  {
    Task(m, AtAccept(CodeSize(t), Paths(m, t, StartCore(candidate))), From(m, t, candidate), candidate)
  }

  /** The machine's runs from a start are the matches of the reference, in order. */
  lemma {:induction false} RunsAreMatches(m: Machine, p: Program, s: Syntax, candidate: nat)
    requires ProgramOf(p, s) && m.code == p.code && m.ranges == p.ranges && ShapeOk(s) && |m.input| <= MAX_INPUT
    requires candidate <= |m.input|
    ensures TreeOk(m, Elaborate(s, 0, 0))
    ensures var task := TaskFrom(m, Elaborate(s, 0, 0), candidate);
            && Yields(StepOf(m), State(p.entry, [], StartCore(candidate)), task.total)
            && Matches(task.total, task.os, candidate)
  {
    var t := Elaborate(s, 0, 0);
    var c, o := StartCore(candidate), StartOut(candidate);
    ProgramRuns(m, p, s, c);
    ElaborateNumbered(s, 0, 0);
    assert Same(c, o, []) by {
      assert [] + Block(Flat, 0) == [];
    }
    PathsSame(m, t, c, o, []);
    PathsKeep(m, t, c, 0);
    var cs := Paths(m, t, c);
    forall i | 0 <= i < |cs|
      ensures Same(cs[i], Outs(m, t, o)[i], []) && |cs[i].begin| == SLOTS && cs[i].begin[0] == candidate
    {
      assert Keeps(c, cs[i], 0, TreeGroups(t));
    }
  }

  function StartState(entry: nat, candidate: nat): State {
    State(entry, [], StartCore(candidate))
  }

  /** The steps of everything from one start. */
  ghost function StartCost(m: Machine, t: Tree, entry: nat, candidate: nat): nat
    requires TreeOk(m, t) && candidate <= |m.input|
  {
    TaskCost(TaskFrom(m, t, candidate), StartState(entry, candidate))
  }

  /** The steps of all starts tried. */
  ghost function SearchCost(m: Machine, t: Tree, entry: nat, at: nat, anchored: bool): nat
    requires TreeOk(m, t) && at <= |m.input| + 1
    decreases |m.input| + 1 - at
  {
    if at > |m.input| then 0
    else StartCost(m, t, entry, at) + if From(m, t, at) != [] || anchored then 0
    else SearchCost(m, t, entry, at + 1, anchored)
  }

  /** The highest the stack gets. */
  ghost function SearchPeak(m: Machine, t: Tree, entry: nat, at: nat, anchored: bool): nat
    requires TreeOk(m, t) && at <= |m.input| + 1
    decreases |m.input| + 1 - at
  {
    if at > |m.input| then 0
    else
      Higher(Stacked(StepOf(m), StartState(entry, at)),
             if From(m, t, at) != [] || anchored then 0 else SearchPeak(m, t, entry, at + 1, anchored))
  }

  /** What a start has to offer: its steps, the height of its stack, its matches. */
  datatype Prospect = Prospect(cost: nat, peak: nat, os: seq<Out>)

  ghost predicate Promises(m: Machine, t: Tree, entry: nat, start: nat, x: Prospect) {
    forall k: nat {:trigger Shown(k)} :: Shown(k) ==>
      && TreeOk(m, t) && start <= |m.input| && x.cost == StartCost(m, t, entry, start)
      && x.peak == Stacked(StepOf(m), StartState(entry, start)) && x.os == From(m, t, start)
  }

  /** What trying every start from one on will give, and take. */
  datatype Outlook = Outlook(answer: Answer, cost: nat, peak: nat)

  ghost predicate Expects(m: Machine, t: Tree, entry: nat, at: nat, anchored: bool, o: Outlook) {
    forall k: nat {:trigger Shown(k)} :: Shown(k) ==>
      && TreeOk(m, t) && at <= |m.input| + 1 && o.answer == Reference(m, t, at, anchored)
      && o.cost == SearchCost(m, t, entry, at, anchored) && o.peak == SearchPeak(m, t, entry, at, anchored)
  }

  lemma {:induction false} OutlookFrom(m: Machine, t: Tree, entry: nat, at: nat, anchored: bool) returns (o: Outlook)
    requires TreeOk(m, t) && at <= |m.input| + 1
    ensures Expects(m, t, entry, at, anchored, o)
    ensures o == Outlook(Reference(m, t, at, anchored), SearchCost(m, t, entry, at, anchored),
                         SearchPeak(m, t, entry, at, anchored))
  {
    o := Outlook(Reference(m, t, at, anchored), SearchCost(m, t, entry, at, anchored),
                 SearchPeak(m, t, entry, at, anchored));
  }

  lemma {:induction false} ExpectFacts(m: Machine, t: Tree, entry: nat, at: nat, anchored: bool, o: Outlook)
    requires Expects(m, t, entry, at, anchored, o)
    ensures TreeOk(m, t) && at <= |m.input| + 1
    ensures o == Outlook(Reference(m, t, at, anchored), SearchCost(m, t, entry, at, anchored),
                         SearchPeak(m, t, entry, at, anchored))
  {
    assert Shown(0);
  }

  lemma {:induction false} ProspectOf(m: Machine, t: Tree, entry: nat, at: nat) returns (x: Prospect)
    requires TreeOk(m, t) && at <= |m.input|
    ensures Promises(m, t, entry, at, x)
    ensures x == Prospect(StartCost(m, t, entry, at), Stacked(StepOf(m), StartState(entry, at)), From(m, t, at))
  {
    x := Prospect(StartCost(m, t, entry, at), Stacked(StepOf(m), StartState(entry, at)), From(m, t, at));
  }

  /** The first start, and the others if it does not decide. */
  lemma {:induction false} NextStart(m: Machine, t: Tree, entry: nat, at: nat, anchored: bool, o: Outlook)
    returns (x: Prospect, rest: Outlook)
    requires Expects(m, t, entry, at, anchored, o) && at <= |m.input|
    ensures Promises(m, t, entry, at, x)
    ensures Combined(at, anchored, o, x, rest)
    ensures x.os == [] && !anchored ==> Expects(m, t, entry, at + 1, anchored, rest)
  {
    ExpectFacts(m, t, entry, at, anchored, o);
    x := ProspectOf(m, t, entry, at);
    rest := OutlookFrom(m, t, entry, at + 1, anchored);
    Combines(m, t, entry, at, anchored, o, x, rest);
  }

  /** One start and what is expected behind it. */
  ghost predicate Combined(at: nat, anchored: bool, o: Outlook, x: Prospect, rest: Outlook) {
    if x.os != [] then o == Outlook(Found(at, Chosen(x.os, |x.os|)), x.cost, x.peak)
    else if anchored then o == Outlook(Nothing, x.cost, x.peak)
    else o == Outlook(rest.answer, x.cost + rest.cost, Higher(x.peak, rest.peak))
  }

  lemma {:induction false} Combines(m: Machine, t: Tree, entry: nat, at: nat, anchored: bool, o: Outlook, x: Prospect,
                                    rest: Outlook)
    requires TreeOk(m, t) && at <= |m.input|
    requires o == Outlook(Reference(m, t, at, anchored), SearchCost(m, t, entry, at, anchored),
                          SearchPeak(m, t, entry, at, anchored))
    requires x == Prospect(StartCost(m, t, entry, at), Stacked(StepOf(m), StartState(entry, at)), From(m, t, at))
    requires rest.answer == Reference(m, t, at + 1, anchored)
    requires rest.cost == SearchCost(m, t, entry, at + 1, anchored)
    requires rest.peak == SearchPeak(m, t, entry, at + 1, anchored)
    ensures Combined(at, anchored, o, x, rest)
  {
    CostUnfolds(m, t, entry, at, anchored);
    PeakUnfolds(m, t, entry, at, anchored);
    AnswerUnfolds(m, t, at, anchored);
  }

  lemma {:induction false} AnswerUnfolds(m: Machine, t: Tree, at: nat, anchored: bool)
    requires TreeOk(m, t) && at <= |m.input|
    ensures var os := From(m, t, at);
            Reference(m, t, at, anchored) ==
            if os != [] then Found(at, Chosen(os, |os|)) else if anchored then Nothing
            else Reference(m, t, at + 1, anchored)
  {
  }

  lemma {:induction false} CostUnfolds(m: Machine, t: Tree, entry: nat, at: nat, anchored: bool)
    requires TreeOk(m, t) && at <= |m.input|
    ensures SearchCost(m, t, entry, at, anchored) ==
            StartCost(m, t, entry, at) + if From(m, t, at) != [] || anchored then 0
              else SearchCost(m, t, entry, at + 1, anchored)
  {
  }

  lemma {:induction false} PeakUnfolds(m: Machine, t: Tree, entry: nat, at: nat, anchored: bool)
    requires TreeOk(m, t) && at <= |m.input|
    ensures SearchPeak(m, t, entry, at, anchored) ==
            Higher(Stacked(StepOf(m), StartState(entry, at)),
                   if From(m, t, at) != [] || anchored then 0 else SearchPeak(m, t, entry, at + 1, anchored))
  {
  }

  lemma {:induction false} NoMoreStarts(m: Machine, t: Tree, entry: nat, at: nat, anchored: bool, o: Outlook)
    requires Expects(m, t, entry, at, anchored, o) && at > |m.input|
    ensures o == Outlook(Nothing, 0, 0)
  {
    assert Shown(0);
  }

  /** The steps of a run on a decoded text are too many, or its stack is too high. */
  ghost predicate TooCostly(p: Program, m: Machine, t: Tree, first: nat, anchored: bool, read: nat, maxSteps: nat,
                            maxFrames: nat)
    requires TreeOk(m, t) && first <= |m.input| + 1
  {
    read + SearchCost(m, t, p.entry, first, anchored) > maxSteps
        || SearchPeak(m, t, p.entry, first, anchored) >= maxFrames
  }

  /** Expectations by start, as a value: proofs that only pass them on do not look inside. */
  type Forecast = (nat, Outlook) -> bool

  ghost predicate IsForecast(f: Forecast, m: Machine, t: Tree, entry: nat, anchored: bool) {
    forall k: nat {:trigger Shown(k)} :: Shown(k) ==>
      forall at: nat, o: Outlook {:trigger f(at, o)} :: f(at, o) <==> Expects(m, t, entry, at, anchored, o)
  }

  lemma {:induction false} TheForecast(m: Machine, t: Tree, entry: nat, at: nat, anchored: bool)
    returns (f: Forecast, o: Outlook)
    requires TreeOk(m, t) && at <= |m.input| + 1
    ensures IsForecast(f, m, t, entry, anchored) && f(at, o)
    ensures o == Outlook(Reference(m, t, at, anchored), SearchCost(m, t, entry, at, anchored),
                         SearchPeak(m, t, entry, at, anchored))
  {
    f := (at: nat, o: Outlook) => Expects(m, t, entry, at, anchored, o);
    o := OutlookFrom(m, t, entry, at, anchored);
  }

  lemma {:induction false} ForecastNext(f: Forecast, m: Machine, t: Tree, entry: nat, at: nat, anchored: bool,
                                        o: Outlook)
    returns (x: Prospect, rest: Outlook)
    requires IsForecast(f, m, t, entry, anchored) && f(at, o) && at <= |m.input|
    ensures Promises(m, t, entry, at, x)
    ensures Combined(at, anchored, o, x, rest) && (x.os == [] && !anchored ==> f(at + 1, rest))
  {
    assert Shown(0);
    x, rest := NextStart(m, t, entry, at, anchored, o);
  }

  lemma {:induction false} ForecastEnds(f: Forecast, m: Machine, t: Tree, entry: nat, at: nat, anchored: bool,
                                        o: Outlook)
    requires IsForecast(f, m, t, entry, anchored) && f(at, o) && at > |m.input|
    ensures o == Outlook(Nothing, 0, 0)
  {
    assert Shown(0);
    NoMoreStarts(m, t, entry, at, anchored, o);
  }
}
