/** Whole runs of the frame machine: they halt, and what they answer is what the
    unmemoised search answers. */
module OrderedRun {
  import opened OrderedProgram
  import opened OrderedMachine
  import opened Iteration

  ghost function Initial(r: Run): Machine
    requires r.Ok()
  {
    Machine([Frame(r.program.entry, r.start, 0, 0, 0)], map c | c in Cells(r.program, r.input, 0) :: UNVISITED, 0, -1)
  }

  /** The answer the engine has to give. */
  ghost function Reference(r: Run): Answer
    requires r.Ok()
  {
    Eval(r.program, r.input, r.program.entry, r.start, 0, map[])
  }

  /** One iteration; a stopped run stays stopped. */
  ghost function Next(r: Run, c: Config): Config {
    if c.Running? && Sane(r, c.machine) then Step(r, c.machine) else c
  }

  ghost function NextOf(r: Run): Config -> Config {
    c => Next(r, c)
  }

  lemma {:induction false} InitialInvariant(r: Run)
    requires r.Ok()
    ensures Invariant(r, Initial(r)) && Meaning(r, Initial(r)) == Reference(r)
  {
    var m := Initial(r);
    assert Cached(m.memo) == {} && Visiting(m.memo) == {};
    assert m.frames[..0] == [] && Started(m.frames) == [];
  }

  lemma {:induction false} NextFaithful(r: Run, c: Config, answer: Answer)
    requires Faithful(r, c, answer)
    ensures Faithful(r, Next(r, c), answer)
  {
    if c.Running? {
      StepFaithful(r, c.machine);
    }
  }

  lemma {:induction false} IterateFaithful(r: Run, k: nat)
    requires r.Ok()
    ensures Faithful(r, Iterate(NextOf(r), Running(Initial(r)), k), Reference(r))
  {
    InitialInvariant(r);
    var inv := (c: Config) => Faithful(r, c, Reference(r));
    forall c | inv(c)
      ensures inv(NextOf(r)(c))
    {
      NextFaithful(r, c, Reference(r));
    }
    IterateKeeps(NextOf(r), Running(Initial(r)), k, inv);
  }

  // ---------- depth and termination ----------

  /** Number of cells a run can touch. */
  ghost function CellCount(r: Run): nat
    requires r.Ok()
  {
    |r.program.code| * (|r.input| - r.start + 1)
  }

  ghost function RowCells(pcs: nat, start: nat, length: nat): set<Cell> {
    set pc, pos | 0 <= pc < pcs && start <= pos <= length :: (pc, pos)
  }

  ghost function RowCellsOf(pc: nat, start: nat, length: nat): set<Cell> {
    set pos | start <= pos <= length :: (pc, pos)
  }

  lemma {:induction false} RowSize(pc: nat, start: nat, length: nat)
    requires start <= length + 1
    ensures |RowCellsOf(pc, start, length)| == length + 1 - start
    decreases length + 1 - start
  {
    if start == length + 1 {
      assert RowCellsOf(pc, start, length) == {};
    } else {
      RowSize(pc, start + 1, length);
      assert RowCellsOf(pc, start, length) == {(pc, start)} + RowCellsOf(pc, start + 1, length);
    }
  }

  lemma {:induction false} Telescope(n: nat, k: nat)
    requires n > 0
    ensures (n - 1) * k + k == n * k
  {
  }

  lemma {:induction false} RowCellsSize(pcs: nat, start: nat, length: nat)
    requires start <= length
    ensures |RowCells(pcs, start, length)| == pcs * (length - start + 1)
  {
    if pcs == 0 {
      assert RowCells(0, start, length) == {};
    } else {
      RowCellsSize(pcs - 1, start, length);
      RowSize(pcs - 1, start, length);
      var row := RowCellsOf(pcs - 1, start, length);
      var rest := RowCells(pcs - 1, start, length);
      assert RowCells(pcs, start, length) == rest + row;
      assert rest !! row;
      Telescope(pcs, length - start + 1);
    }
  }

  ghost function StackCells(frames: seq<Frame>): set<Cell> {
    set i | 0 <= i < |frames| :: CellOf(frames[i])
  }

  lemma {:induction false} DistinctSize(frames: seq<Frame>)
    requires Distinct(frames)
    ensures |StackCells(frames)| == |frames|
  {
    if frames == [] {
      assert StackCells(frames) == {};
    } else {
      var n := |frames| - 1;
      DistinctSize(frames[..n]);
      assert StackCells(frames) == StackCells(frames[..n]) + {CellOf(frames[n])};
    }
  }

  lemma {:induction false} SubsetSize<T>(a: set<T>, b: set<T>)
    requires a <= b
    ensures |a| <= |b|
  {
    if a != {} {
      var x :| x in a;
      SubsetSize(a - {x}, b - {x});
    }
  }

  /** At most one frame per cell is below the top. */
  lemma {:induction false} DepthBound(r: Run, m: Machine)
    requires Invariant(r, m)
    ensures |m.frames| <= CellCount(r) + 1
    ensures m.frames[|m.frames| - 1].phase != 0 ==> |m.frames| <= CellCount(r)
  {
    var s := Started(m.frames);
    DistinctSize(s);
    assert forall i :: 0 <= i < |s| ==> s[i] == m.frames[i];
    var all := RowCells(|r.program.code|, r.start, |r.input|);
    forall c | c in StackCells(s)
      ensures c in all
    {
      var i :| 0 <= i < |s| && CellOf(s[i]) == c;
      assert FrameOk(r, m.frames[i]);
    }
    RowCellsSize(|r.program.code|, r.start, |r.input|);
    SubsetSize(StackCells(s), all);
  }

  /** Activations a frame still has ahead of it. */
  function Weight(phase: int): nat {
    if phase == 0 then 3 else if phase == 1 || phase == 4 then 2 else 1
  }

  function Pow4(n: nat): nat {
    if n == 0 then 1 else 4 * Pow4(n - 1)
  }

  /** Upper bound on the iterations left: a frame at depth d counts 4^(bound - d) per activation. */
  ghost function Fuel(bound: nat, frames: seq<Frame>): nat
    requires |frames| <= bound
  {
    if frames == [] then 0
    else
      var n := |frames| - 1;
      Fuel(bound, frames[..n]) + Weight(frames[n].phase) * Pow4(bound - |frames|)
  }

  lemma {:induction false} Pow4Positive(n: nat)
    ensures Pow4(n) > 0
  {
    if n > 0 {
      Pow4Positive(n - 1);
    }
  }

  lemma {:induction false} FuelPush(bound: nat, below: seq<Frame>, old_: Frame, f: Frame, child: Frame)
    requires |below| + 2 <= bound && child.phase == 0 && Weight(f.phase) < Weight(old_.phase)
    ensures Fuel(bound, below + [f, child]) < Fuel(bound, below + [old_])
  {
    var s := below + [f, child];
    assert s[..|below| + 1] == below + [f];
    assert (below + [f])[..|below|] == below && (below + [old_])[..|below|] == below;
    var unit := Pow4(bound - |s|);
    Pow4Positive(bound - |s|);
    assert Pow4(bound - |below| - 1) == 4 * unit;
    assert Weight(f.phase) * (4 * unit) + 3 * unit < (Weight(f.phase) + 1) * (4 * unit);
    assert (Weight(f.phase) + 1) * (4 * unit) <= Weight(old_.phase) * (4 * unit);
  }

  lemma {:induction false} FuelPop(bound: nat, frames: seq<Frame>)
    requires 0 < |frames| <= bound
    ensures Fuel(bound, frames[..|frames| - 1]) < Fuel(bound, frames)
  {
    Pow4Positive(bound - |frames|);
  }

  /** A stack after one step: the top frame popped, or advanced with a child pushed on it. */
  ghost predicate Advances(frames: seq<Frame>, frames': seq<Frame>)
    requires frames != []
  {
    var n := |frames| - 1;
    || frames' == frames[..n]
    || exists f, child :: frames' == frames[..n] + [f, child] && child.phase == 0 &&
                          Weight(f.phase) < Weight(frames[n].phase)
  }

  lemma {:induction false} StepAdvances(r: Run, m: Machine)
    requires Sane(r, m) && Step(r, m).Running?
    ensures Advances(m.frames, Step(r, m).machine.frames)
  {
    if Begins(r, m) {
      BeginShape(r, m);
      assert InstructionOk(r.program, r.program.code[m.frames[|m.frames| - 1].instruction]);
    } else if Resumes(r, m) {
      ResumeShape(r, m);
    }
  }

  lemma {:induction false} FuelDrops(bound: nat, frames: seq<Frame>, frames': seq<Frame>)
    requires 0 < |frames| <= bound && |frames'| <= bound && Advances(frames, frames')
    ensures Fuel(bound, frames') < Fuel(bound, frames)
  {
    var n := |frames| - 1;
    if frames' == frames[..n] {
      FuelPop(bound, frames);
    } else {
      var f, child :| frames' == frames[..n] + [f, child] && child.phase == 0 &&
                      Weight(f.phase) < Weight(frames[n].phase);
      assert frames == frames[..n] + [frames[n]];
      FuelPush(bound, frames[..n], frames[n], f, child);
    }
  }

  ghost function ConfigFuel(r: Run, c: Config): nat
    requires r.Ok()
  {
    if c.Running? && |c.machine.frames| <= CellCount(r) + 1 then Fuel(CellCount(r) + 1, c.machine.frames) else 0
  }

  lemma {:induction false} StepBurns(r: Run, m: Machine, m': Machine)
    requires Invariant(r, m) && Invariant(r, m') && Advances(m.frames, m'.frames)
    ensures ConfigFuel(r, Running(m')) < ConfigFuel(r, Running(m))
  {
    DepthBound(r, m);
    DepthBound(r, m');
    FuelDrops(CellCount(r) + 1, m.frames, m'.frames);
  }

  /** A step that does not stop the run burns fuel. */
  lemma {:induction false} NextBurns(r: Run, m: Machine, answer: Answer)
    requires Invariant(r, m) && Faithful(r, Running(m), answer)
    ensures ConfigFuel(r, Running(m)) > 0
    ensures var c' := Next(r, Running(m)); c'.Stopped? || ConfigFuel(r, c') < ConfigFuel(r, Running(m))
  {
    DepthBound(r, m);
    FuelPop(CellCount(r) + 1, m.frames);
    NextFaithful(r, Running(m), answer);
    var c' := Next(r, Running(m));
    assert c' == Step(r, m);
    if c'.Running? {
      StepAdvances(r, m);
      StepBurns(r, m, c'.machine);
    }
  }

  lemma {:induction false} InitialFuel(r: Run)
    requires r.Ok()
    ensures ConfigFuel(r, Running(Initial(r))) == Enough(r)
  {
    var frames := Initial(r).frames;
    assert frames[..0] == [];
    assert Fuel(CellCount(r) + 1, frames[..0]) == 0;
  }

  /** Without any step limit the machine stops. */
  lemma {:induction false} Halts(r: Run)
    requires r.Ok()
    ensures Iterate(NextOf(r), Running(Initial(r)), Enough(r)).Stopped?
  {
    InitialInvariant(r);
    InitialFuel(r);
    var inv := (c: Config) => Faithful(r, c, Reference(r));
    var done := (c: Config) => c.Stopped?;
    var fuel := (c: Config) => ConfigFuel(r, c);
    forall c | inv(c) && !done(c)
      ensures fuel(c) > 0 && inv(NextOf(r)(c)) && (done(NextOf(r)(c)) || fuel(NextOf(r)(c)) < fuel(c))
    {
      NextFaithful(r, c, Reference(r));
      NextBurns(r, c.machine, Reference(r));
    }
    IterateFinishes(NextOf(r), Running(Initial(r)), Enough(r), inv, done, fuel);
  }

  /** Iterations that always suffice. */
  ghost function Enough(r: Run): nat
    requires r.Ok()
  {
    3 * Pow4(CellCount(r))
  }

  // ---------- outcomes ----------

  /** The outcome of a run; `maxSteps` zero means no limit on iterations. */
  ghost function Result(r: Run, maxSteps: nat): Outcome
    requires r.Ok()
  {
    var c := Iterate(NextOf(r), Running(Initial(r)), if maxSteps == 0 then Enough(r) else maxSteps);
    if c.Stopped? then c.outcome else Limit
  }

  /** With neither limit the engine's outcome is the reference answer. */
  lemma {:induction false} EngineIsReference(r: Run)
    requires r.Ok() && r.maxFrames == 0
    ensures Result(r, 0) == Answered(Reference(r))
  {
    Halts(r);
    IterateFaithful(r, Enough(r));
  }

  /** Limits can only turn the reference answer into LIMIT, never into another answer. */
  lemma {:induction false} LimitsOnlyLimit(r: Run, maxSteps: nat)
    requires r.Ok()
    ensures Result(r, maxSteps) == Limit || Result(r, maxSteps) == Answered(Reference(r))
  {
    IterateFaithful(r, if maxSteps == 0 then Enough(r) else maxSteps);
  }

  /** A run stopped after `a` iterations has the same outcome after any larger number. */
  lemma {:induction false} StoppedStays(r: Run, a: nat, b: nat)
    requires r.Ok() && a <= b
    ensures var c := Iterate(NextOf(r), Running(Initial(r)), a);
            c.Stopped? ==> Iterate(NextOf(r), Running(Initial(r)), b) == c
  {
    var c := Iterate(NextOf(r), Running(Initial(r)), a);
    IterateAdds(NextOf(r), Running(Initial(r)), a, b - a);
    if c.Stopped? {
      IterateFixed(NextOf(r), c, b - a);
    }
  }

  /** An answer that is not LIMIT survives any larger step budget. */
  lemma {:induction false} RaisingStepsKeepsAnswer(r: Run, few: nat, many: nat)
    requires r.Ok() && 0 < few && (few <= many || many == 0)
    requires Result(r, few) != Limit
    ensures Result(r, many) == Result(r, few)
  {
    var k := if many == 0 then Enough(r) else many;
    if few <= k {
      StoppedStays(r, few, k);
    } else {
      Halts(r);
      StoppedStays(r, k, few);
    }
  }

  ghost predicate NotFull(r: Run, c: Config)
    requires r.Ok()
  {
    c != Stopped(Limit) && Faithful(r, c, Reference(r))
  }

  /** A stack limit above the number of cells leaves room for one more frame. */
  lemma {:induction false} StackFits(r: Run, m: Machine)
    requires Invariant(r, m) && r.maxFrames > CellCount(r)
    ensures Step(r, m) != Stopped(Limit)
  {
    if Begins(r, m) {
      var memo := m.memo[CellOf(m.frames[|m.frames| - 1]) := VISITING];
      BeginInvariant(r, m, memo);
      DepthBound(r, Pushed(m, BegunFrame(r, m), FirstChild(r, m), memo).(last := -1));
      BeginShape(r, m);
    } else if Resumes(r, m) {
      DepthBound(r, m);
      ResumeShape(r, m);
    }
  }

  lemma {:induction false} NextNotFull(r: Run, c: Config)
    requires r.Ok() && r.maxFrames > CellCount(r) && NotFull(r, c)
    ensures NotFull(r, Next(r, c))
  {
    NextFaithful(r, c, Reference(r));
    if c.Running? {
      StackFits(r, c.machine);
    }
  }

  /** A frame limit above the number of cells never fires. */
  lemma {:induction false} EnoughFramesIsReference(r: Run)
    requires r.Ok() && r.maxFrames > CellCount(r)
    ensures Result(r, 0) == Answered(Reference(r))
  {
    Halts(r);
    InitialInvariant(r);
    var inv := (c: Config) => NotFull(r, c);
    forall c | inv(c)
      ensures inv(NextOf(r)(c))
    {
      NextNotFull(r, c);
    }
    IterateKeeps(NextOf(r), Running(Initial(r)), Enough(r), inv);
  }
}
