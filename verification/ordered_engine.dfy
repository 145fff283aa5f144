/** The ordered engine itself: an explicit frame stack and a memo updated in
    place. It is proved against the transition function of OrderedMachine. */
module OrderedEngine {
  import opened OrderedProgram
  import opened OrderedMachine
  import opened OrderedRun
  import opened Iteration
  import opened Memo

  /** The memo cell of an instruction and a position. */
  function SlotOf(columns: nat, start: nat, c: Cell): int {
    c.0 * columns + c.1 - start
  }

  lemma {:induction false} RowsApart(a: nat, b: nat, columns: nat)
    ensures a < b ==> a * columns + columns <= b * columns
  {
    if a < b {
      assert (a + 1) * columns <= b * columns;
    }
  }

  lemma {:induction false} SlotRange(pcs: nat, columns: nat, start: nat, c: Cell)
    requires c.0 < pcs && start <= c.1 < start + columns
    ensures 0 <= SlotOf(columns, start, c) < pcs * columns
  {
    RowsApart(c.0, pcs, columns);
  }

  lemma {:induction false} SlotInjective(columns: nat, start: nat, c: Cell, d: Cell)
    requires start <= c.1 < start + columns && start <= d.1 < start + columns
    requires SlotOf(columns, start, c) == SlotOf(columns, start, d)
    ensures c == d
  {
    RowsApart(c.0, d.0, columns);
    RowsApart(d.0, c.0, columns);
  }

  class Engine {
    const program: Program
    const input: seq<nat>
    const start: nat
    const maxFrames: nat
    const columns: nat
    const store: Store
    var frames: array<Frame>
    var depth: nat
    var cycleEpoch: nat
    var last: int

    ghost function R(): Run {
      Run(program, input, start, maxFrames)
    }

    ghost predicate Ready()
      reads this, frames, store, store.sparse, store.Repr()
    {
      && R().Ok() && columns == |input| - start + 1
      && store.Valid() && store.cells == |program.code| * columns
      && frames !in store.Repr() && this !in store.Repr() && store !in store.Repr()
      && depth <= frames.Length && frames.Length > 0
    }

    /** Every cell of the run is stored with the model's value. */
    ghost predicate MemoMatches(memo: map<Cell, int>)
      requires Ready()
      reads this, frames, store, store.sparse, store.Repr()
    {
      && memo.Keys == Cells(program, input, 0)
      && forall c :: c in Cells(program, input, start) ==>
           c in memo && SlotOf(columns, start, c) >= 0 && store.Value(SlotOf(columns, start, c)) == memo[c]
    }

    ghost predicate Represents(m: Machine)
      reads this, frames, store, store.sparse, store.Repr()
    {
      && Ready() && MemoMatches(m.memo)
      && frames[..depth] == m.frames && cycleEpoch == m.epoch && last == m.last
    }

    ghost function Footprint(): set<object?>
      reads this, store, store.sparse
    {
      {this, frames} + store.Repr()
    }

    constructor (r: Run, small: bool, mix: nat -> nat)
      requires r.Ok()
      ensures R() == r && Represents(Initial(r)) && depth == 1
      ensures fresh(Footprint())
    {
      program, input, start, maxFrames := r.program, r.input, r.start, r.maxFrames;
      columns := |r.input| - r.start + 1;
      var s := new Store(|r.program.code| * (|r.input| - r.start + 1), small, mix);
      store := s;
      var capacity := 64;
      if r.maxFrames > 0 && capacity > r.maxFrames {
        capacity := r.maxFrames;
      }
      frames := new Frame[capacity](_ => Frame(r.program.entry, r.start, 0, 0, 0));
      depth, cycleEpoch, last := 1, 0, -1;
      new;
      assert frames[..1] == Initial(r).frames;
      forall c | c in Cells(program, input, start)
        ensures 0 <= SlotOf(columns, start, c) < store.cells
      {
        SlotRange(|program.code|, columns, start, c);
      }
    }

    /** Scan for the active frame on the same cell, from the top down. */
    method Scan(frame: Frame) returns (active: nat)
      requires 0 < depth <= frames.Length
      ensures active < depth
      ensures active == 0 ==> CellOf(frame) !in Active(frames[..depth - 1])
      ensures active > 0 ==>
                CellOf(frame) in Active(frames[..depth - 1]) &&
                Active(frames[..depth - 1])[CellOf(frame)] == frames[active - 1].assertionDepth
    {
      active := depth - 1;
      while active > 0
        invariant 0 <= active < depth
        invariant CellOf(frame) in Active(frames[..active]) <==> CellOf(frame) in Active(frames[..depth - 1])
        invariant CellOf(frame) in Active(frames[..active]) ==>
                    Active(frames[..active])[CellOf(frame)] == Active(frames[..depth - 1])[CellOf(frame)]
      {
        assert frames[..active][..active - 1] == frames[..active - 1];
        if frames[active - 1].instruction == frame.instruction && frames[active - 1].position == frame.position {
          break;
        }
        active := active - 1;
      }
    }

    /** What a frame does when it enters its cell. */
    method BeginAction(frame: Frame) returns (a: Action)
      requires R().Ok() && FrameOk(R(), frame)
      ensures a == Begin(R(), frame.instruction, frame.position)
    {
      var code := program.code[frame.instruction];
      assert InstructionOk(program, code);
      if code.op == ACCEPT {
        a := Finish(frame.position);
      } else if code.op == SPLIT {
        a := Descend(1, code.first, frame.position);
      } else if code.op == NEGATIVE || code.op == POSITIVE {
        a := Descend(4, code.first, frame.position);
      } else if code.op == END {
        a := if frame.position == |input| then Descend(3, code.next, frame.position) else Finish(-1);
      } else if frame.position < |input| {
        var matches := MatchesUnit(program, code, input[frame.position]);
        a := if matches then Descend(3, code.next, frame.position + 1) else Finish(-1);
      } else {
        a := Finish(-1);
      }
    }

    /** What a frame does with its child's result. */
    method ResumeAction(frame: Frame) returns (a: Action)
      requires R().Ok() && FrameOk(R(), frame) && PhaseOk(R(), frame) && -1 <= last
      ensures a == Resume(R(), frame, last)
    {
      var code := program.code[frame.instruction];
      assert InstructionOk(program, code);
      if frame.phase == 1 && last < 0 {
        a := Descend(2, code.second, frame.position);
      } else if frame.phase == 4 {
        var matches := (last < 0) == (code.op == NEGATIVE);
        a := if matches then Descend(3, code.next, frame.position) else Finish(-1);
      } else {
        a := Finish(last);
      }
    }

    /** Writing one cell changes the model at that cell only. */
    method WriteCell(at: nat, value: int, ghost cell: Cell, ghost memo: map<Cell, int>)
      requires Ready() && MemoMatches(memo) && cell in Cells(program, input, start)
      requires SlotOf(columns, start, cell) >= 0 && store.Handle(at, SlotOf(columns, start, cell))
      modifies store.Repr()
      ensures Ready() && MemoMatches(memo[cell := value])
      ensures store.Handle(at, SlotOf(columns, start, cell)) && store.Repr() == old(store.Repr())
    {
      ghost var slot := SlotOf(columns, start, cell);
      SlotRange(|program.code|, columns, start, cell);
      store.Write(at, value, slot);
      forall c | c in Cells(program, input, start)
        ensures c in memo[cell := value] && SlotOf(columns, start, c) >= 0
        ensures store.Value(SlotOf(columns, start, c)) == memo[cell := value][c]
      {
        if SlotOf(columns, start, c) == slot {
          SlotInjective(columns, start, c, cell);
        }
      }
      assert cell in memo;
    }

    /** The frame array doubles, clamped to the caller's frame limit. */
    method GrowFrames()
      requires 0 < depth == frames.Length && (maxFrames > 0 ==> depth < maxFrames)
      modifies this`frames
      ensures fresh(frames) && depth < frames.Length && frames[..depth] == old(frames[..depth])
    {
      var capacity := frames.Length * 2;
      if maxFrames > 0 && capacity > maxFrames {
        capacity := maxFrames;
      }
      var grown := new Frame[capacity](_ => Frame(0, 0, 0, 0, 0));
      for i := 0 to depth
        invariant frames == old(frames) && frames.Length == depth < grown.Length
        invariant forall j :: 0 <= j < i ==> grown[j] == frames[j]
      {
        grown[i] := frames[i];
      }
      frames := grown;
    }

    /** Stores the finished frame's value and drops the frame. */
    method FinishTop(result: int, at: nat, ghost m: Machine) returns (ghost m': Machine)
      requires Represents(m) && depth > 0 && FrameOk(R(), frames[depth - 1])
      requires SlotOf(columns, start, CellOf(frames[depth - 1])) >= 0
      requires store.Handle(at, SlotOf(columns, start, CellOf(frames[depth - 1])))
      modifies this`last, this`depth, store.Repr()
      ensures store.Repr() == old(store.Repr())
      ensures Act(R(), m, old(frames[depth - 1]), Finish(result)) == Settle(m')
      ensures Represents(m')
    {
      var frame := frames[depth - 1];
      last := result;
      var value := StoredValue(frame.cycleEpoch, cycleEpoch, last);
      assert CellOf(frame) in Cells(program, input, start);
      WriteCell(at, value, CellOf(frame), m.memo);
      depth := depth - 1;
      m' := Pop(m.(last := result, memo := m.memo[CellOf(frame) := value]));
    }

    /** Advances the top frame to `a.phase` and pushes the child. */
    method PushChild(a: Action, ghost m: Machine) returns (limit: bool, ghost m': Machine)
      requires Represents(m) && depth > 0 && a.Descend?
      modifies this`frames, this`depth, frames
      ensures Ready() && (frames == old(frames) || fresh(frames))
      ensures Act(R(), m, old(frames[depth - 1]), a) == if limit then Stopped(Limit) else Running(m')
      ensures !limit ==> Represents(m') && m'.frames != []
    {
      var top := depth - 1;
      var frame := frames[top];
      m' := m;
      if maxFrames > 0 && depth >= maxFrames {
        return true, m;
      }
      limit := false;
      if depth == frames.Length {
        GrowFrames();
      }
      assert frames[..depth] == m.frames;
      frames[top] := frame.(phase := a.phase);
      assert frames[..depth] == m.frames[..top] + [frame.(phase := a.phase)];
      var child := Frame(a.instruction, a.position, 0,
                         frame.assertionDepth + (if a.phase == 4 then 1 else 0), cycleEpoch);
      frames[depth] := child;
      depth := depth + 1;
      m' := SetTop(m, frame.(phase := a.phase));
      m' := m'.(frames := m'.frames + [child]);
      assert frames[..depth] == m'.frames;
    }

    /** Ends the top frame, or pushes its next child. */
    method Apply(a: Action, at: nat, ghost m: Machine) returns (limit: bool, ghost m': Machine)
      requires Represents(m) && depth > 0 && FrameOk(R(), frames[depth - 1])
      requires SlotOf(columns, start, CellOf(frames[depth - 1])) >= 0
      requires store.Handle(at, SlotOf(columns, start, CellOf(frames[depth - 1])))
      modifies this, frames, store.Repr()
      ensures Ready() && fresh(Footprint() - old(Footprint()))
      ensures Act(R(), m, old(frames[depth - 1]), a) == if limit then Stopped(Limit) else Settle(m')
      ensures !limit ==> Represents(m')
    {
      if a.Finish? {
        m' := FinishTop(a.last, at, m);
        limit := false;
      } else {
        limit, m' := PushChild(a, m);
      }
    }

    /** The top frame meets its cell on the path below it: the branch is cut, or
        the program is invalid when an assertion boundary lies in between. */
    method Cut(ghost m: Machine) returns (invalid: bool, ghost m': Machine)
      requires Represents(m) && depth > 0 && Sane(R(), m)
      requires var f := frames[depth - 1]; f.phase == 0 && CellOf(f) in m.memo && m.memo[CellOf(f)] == VISITING
      modifies this`cycleEpoch, this`last, this`depth
      ensures Ready()
      ensures Step(R(), m) == if invalid then Stopped(Answered(Invalid)) else Settle(m')
      ensures !invalid ==> Represents(m')
    {
      var frame := frames[depth - 1];
      assert m.frames[..depth - 1] == frames[..depth - 1];
      var active := Scan(frame);
      m' := m;
      if active == 0 || frames[active - 1].assertionDepth != frame.assertionDepth {
        return true, m;
      }
      invalid := false;
      cycleEpoch := cycleEpoch + 1;
      last := -1;
      depth := depth - 1;
      m' := Pop(m.(epoch := m.epoch + 1, last := -1));
    }

    /** Marks the top frame's cell VISITING and stamps the frame with the current epoch. */
    method Enter(at: nat, ghost m: Machine) returns (ghost m': Machine)
      requires Represents(m) && depth > 0 && FrameOk(R(), frames[depth - 1])
      requires SlotOf(columns, start, CellOf(frames[depth - 1])) >= 0
      requires store.Handle(at, SlotOf(columns, start, CellOf(frames[depth - 1])))
      modifies this`last, frames, store.Repr()
      ensures store.Repr() == old(store.Repr())
      ensures var f := old(frames[depth - 1]);
              m' == SetTop(m.(memo := m.memo[CellOf(f) := VISITING], last := -1), f.(cycleEpoch := m.epoch))
      ensures Represents(m') && frames[depth - 1] == old(frames[depth - 1]).(cycleEpoch := m.epoch)
      ensures store.Handle(at, SlotOf(columns, start, CellOf(frames[depth - 1])))
    {
      var top := depth - 1;
      var frame := frames[top];
      assert CellOf(frame) in Cells(program, input, start);
      WriteCell(at, VISITING, CellOf(frame), m.memo);
      frames[top] := frame.(cycleEpoch := cycleEpoch);
      last := -1;
      m' := SetTop(m.(memo := m.memo[CellOf(frame) := VISITING], last := -1), frame.(cycleEpoch := m.epoch));
      assert frames[..depth] == m'.frames;
    }

    /** The top frame has started and its child has returned. */
    method ResumeTop(at: nat, ghost m: Machine) returns (limit: bool, ghost m': Machine)
      requires Represents(m) && Sane(R(), m) && frames[depth - 1].phase != 0
      requires SlotOf(columns, start, CellOf(frames[depth - 1])) >= 0
      requires store.Handle(at, SlotOf(columns, start, CellOf(frames[depth - 1])))
      modifies this, frames, store.Repr()
      ensures Ready() && fresh(Footprint() - old(Footprint()))
      ensures Step(R(), m) == if limit then Stopped(Limit) else Settle(m')
      ensures !limit ==> Represents(m')
    {
      assert frames[depth - 1] == m.frames[depth - 1];
      limit, m' := ResumeReturned(at, m);
    }

    /** The top frame goes on with its child's result. */
    method ResumeReturned(at: nat, ghost m: Machine) returns (limit: bool, ghost m': Machine)
      requires Represents(m) && depth > 0 && FrameOk(R(), frames[depth - 1]) && PhaseOk(R(), frames[depth - 1])
      requires SlotOf(columns, start, CellOf(frames[depth - 1])) >= 0 && -1 <= last
      requires store.Handle(at, SlotOf(columns, start, CellOf(frames[depth - 1])))
      modifies this, frames, store.Repr()
      ensures Ready() && fresh(Footprint() - old(Footprint()))
      ensures var f := old(frames[depth - 1]);
              Act(R(), m, f, Resume(R(), f, old(last))) == if limit then Stopped(Limit) else Settle(m')
      ensures !limit ==> Represents(m')
    {
      var a := ResumeAction(frames[depth - 1]);
      limit, m' := Apply(a, at, m);
    }

    /** The top frame meets a cell nobody has visited. */
    method BeginTop(at: nat, ghost m: Machine) returns (limit: bool, ghost m': Machine)
      requires Represents(m) && Sane(R(), m) && frames[depth - 1].phase == 0
      requires CellOf(frames[depth - 1]) in m.memo && m.memo[CellOf(frames[depth - 1])] == UNVISITED
      requires SlotOf(columns, start, CellOf(frames[depth - 1])) >= 0
      requires store.Handle(at, SlotOf(columns, start, CellOf(frames[depth - 1])))
      modifies this, frames, store.Repr()
      ensures Ready() && fresh(Footprint() - old(Footprint()))
      ensures Step(R(), m) == if limit then Stopped(Limit) else Settle(m')
      ensures !limit ==> Represents(m')
    {
      assert frames[depth - 1] == m.frames[depth - 1];
      ghost var entered := Enter(at, m);
      assert Footprint() == old(Footprint());
      limit, m' := BeginEntered(at, entered);
    }

    /** The top frame, its cell marked, does what its instruction says. */
    method BeginEntered(at: nat, ghost m: Machine) returns (limit: bool, ghost m': Machine)
      requires Represents(m) && depth > 0 && FrameOk(R(), frames[depth - 1])
      requires SlotOf(columns, start, CellOf(frames[depth - 1])) >= 0
      requires store.Handle(at, SlotOf(columns, start, CellOf(frames[depth - 1])))
      modifies this, frames, store.Repr()
      ensures Ready() && fresh(Footprint() - old(Footprint()))
      ensures var f := old(frames[depth - 1]);
              Act(R(), m, f, Begin(R(), f.instruction, f.position)) == if limit then Stopped(Limit) else Settle(m')
      ensures !limit ==> Represents(m')
    {
      var a := BeginAction(frames[depth - 1]);
      limit, m' := Apply(a, at, m);
    }

    /** The memo entry of the top frame's cell. */
    method Lookup(ghost m: Machine) returns (at: nat, value: int)
      requires Represents(m) && Sane(R(), m)
      modifies store.Repr()
      ensures Represents(m) && fresh(store.Repr() - old(store.Repr()))
      ensures SlotOf(columns, start, CellOf(frames[depth - 1])) >= 0
      ensures store.Handle(at, SlotOf(columns, start, CellOf(frames[depth - 1])))
      ensures CellOf(frames[depth - 1]) in m.memo && value == m.memo[CellOf(frames[depth - 1])]
    {
      var frame := frames[depth - 1];
      assert frame == m.frames[depth - 1];
      assert CellOf(frame) in Cells(program, input, start);
      SlotRange(|program.code|, columns, start, CellOf(frame));
      var slot := frame.instruction * columns + frame.position - start;
      at, value := store.Find(slot);
    }

    /** One iteration of the loop. */
    method Iteration(ghost m: Machine) returns (halted: bool, outcome: Outcome, ghost m': Machine)
      requires Represents(m) && Sane(R(), m)
      modifies this, frames, store.Repr()
      ensures Ready() && fresh(Footprint() - old(Footprint()))
      ensures Step(R(), m) == if halted then Stopped(outcome) else Settle(m')
      ensures !halted ==> Represents(m')
    {
      var at, value := Lookup(m);
      var frame := frames[depth - 1];
      outcome := Limit;
      if frame.phase != 0 {
        halted, m' := ResumeTop(at, m);
      } else if value == VISITING {
        halted, m' := Cut(m);
        outcome := Answered(Invalid);
      } else if value != UNVISITED {
        halted := false;
        m' := UseCached(value, m);
      } else {
        halted, m' := BeginTop(at, m);
      }
    }

    /** The top frame meets a cached cell: its value is the frame's result. */
    method UseCached(value: int, ghost m: Machine) returns (ghost m': Machine)
      requires Represents(m) && Sane(R(), m) && frames[depth - 1].phase == 0
      requires CellOf(frames[depth - 1]) in m.memo && value == m.memo[CellOf(frames[depth - 1])] && IsCached(value)
      modifies this`last, this`depth
      ensures Represents(m') && Step(R(), m) == Settle(m')
    {
      last := if value > 0 then value - 1 else -1;
      depth := depth - 1;
      m' := Pop(m.(last := if value > 0 then value - 1 else -1));
    }
  }

  /** Caller limits; zero means none. */
  datatype Limits = Limits(maxMemoBytes: nat, maxFrames: nat, maxSteps: nat)

  /** Sizes of a dense cell and of a sparse entry. */
  datatype Sizes = Sizes(cell: nat, entry: nat) {
    predicate Ok() { cell > 0 }
  }

  /** The arguments the engine accepts. */
  ghost predicate ArgumentsOk(program: Program, input: seq<nat>, start: nat) {
    && start <= |input| <= INT_MAX - 1 && WellFormed(program)
    && forall i :: start <= i < |input| ==> input[i] <= MAX_UNIT
  }

  /** The dense table a caller's byte budget has to hold. */
  predicate MemoTooLarge(program: Program, input: seq<nat>, start: nat, limits: Limits, sizes: Sizes)
    requires start <= |input| && sizes.Ok()
  {
    limits.maxMemoBytes > 0 && |program.code| * (|input| - start + 1) > limits.maxMemoBytes / sizes.cell
  }

  /** Runs the engine. Its outcome does not depend on which memo it picks. */
  method Exec(program: Program, input: seq<nat>, start: nat, limits: Limits, sizes: Sizes, mix: nat -> nat)
    returns (outcome: Outcome)
    requires sizes.Ok()
    ensures !ArgumentsOk(program, input, start) ==> outcome == Answered(Invalid)
    ensures ArgumentsOk(program, input, start) ==>
              outcome ==
              if MemoTooLarge(program, input, start, limits, sizes) then Limit
              else Result(Run(program, input, start, limits.maxFrames), limits.maxSteps)
    ensures ArgumentsOk(program, input, start) && outcome != Limit ==>
              outcome == Answered(Reference(Run(program, input, start, limits.maxFrames)))
    ensures ArgumentsOk(program, input, start) && limits == Limits(0, 0, 0) ==>
              outcome == Answered(Reference(Run(program, input, start, 0)))
  {
    var valid := Validate(program);
    if start > |input| || |input| > INT_MAX - 1 || !valid {
      return Answered(Invalid);
    }
    var index := start;
    while index < |input|
      invariant start <= index <= |input|
      invariant forall i :: start <= i < index ==> input[i] <= MAX_UNIT
    {
      if input[index] > MAX_UNIT {
        return Answered(Invalid);
      }
      index := index + 1;
    }
    var cells := |program.code| * (|input| - start + 1);
    if limits.maxMemoBytes > 0 && cells > limits.maxMemoBytes / sizes.cell {
      return Limit;
    }
    ghost var r := Run(program, input, start, limits.maxFrames);
    var small := limits.maxMemoBytes > 0 || cells <= 16 * sizes.entry / sizes.cell;
    outcome := Drive(program, input, start, limits, small, mix);
    LimitsOnlyLimit(r, limits.maxSteps);
    if limits.maxFrames == 0 {
      EngineIsReference(r);
    }
  }

  /** The loop of the engine, on either memo. */
  method Drive(program: Program, input: seq<nat>, start: nat, limits: Limits, small: bool, mix: nat -> nat)
    returns (outcome: Outcome)
    requires Run(program, input, start, limits.maxFrames).Ok()
    ensures outcome == Result(Run(program, input, start, limits.maxFrames), limits.maxSteps)
  {
    var r := Run(program, input, start, limits.maxFrames);
    var e := new Engine(r, small, mix);
    ghost var after := TheRun(r);
    ghost var m := Initial(r);
    ghost var k := 0;
    var steps := 0;
    while e.depth > 0
      invariant e.R() == r && e.Ready() && fresh(e.Footprint())
      invariant e.Represents(m)
      invariant after(k) == Settle(m)
      invariant limits.maxSteps > 0 ==> steps == k <= limits.maxSteps
      decreases Enough(r) - k
    {
      StillRunning(r, after, k, m);
      if limits.maxSteps > 0 {
        if steps >= limits.maxSteps {
          SpentResult(r, after, limits.maxSteps, m);
          return Limit;
        }
        steps := steps + 1;
      }
      var halted, o;
      ghost var before := e.Footprint();
      halted, o, m := Turn(e, r, after, k, m);
      assert forall x :: x in e.Footprint() ==> x in before || x in e.Footprint() - before;
      k := k + 1;
      if halted {
        FinalResult(r, after, limits.maxSteps, k, o);
        return o;
      }
    }
    outcome := if e.last < 0 then Answered(NoMatch) else Answered(EndAt(e.last));
    FinalResult(r, after, limits.maxSteps, k, outcome);
  }

  /** The configuration after `k` iterations. */
  ghost function After(r: Run, k: nat): Config
    requires r.Ok()
  {
    Iterate(NextOf(r), Running(Initial(r)), k)
  }

  /** The run as a function from iterations to configurations, given only by name. */
  ghost predicate IsRun(r: Run, after: nat -> Config)
    requires r.Ok()
  {
    forall k: nat {:trigger After(r, k)} :: after(k) == After(r, k)
  }

  lemma {:induction false} TheRun(r: Run) returns (after: nat -> Config)
    requires r.Ok()
    ensures IsRun(r, after) && after(0) == Running(Initial(r))
  {
    after := (k: nat) => After(r, k);
    assert After(r, 0) == Running(Initial(r));
  }

  /** One iteration of a run that has made `k` of them. */
  method Turn(e: Engine, ghost r: Run, ghost after: nat -> Config, ghost k: nat, ghost m: Machine)
    returns (halted: bool, outcome: Outcome, ghost m': Machine)
    requires e.R() == r && e.Represents(m) && IsRun(r, after) && after(k) == Running(m)
    modifies e, e.frames, e.store.Repr()
    ensures e.Ready() && fresh(e.Footprint() - old(e.Footprint()))
    ensures after(k + 1) == if halted then Stopped(outcome) else Settle(m')
    ensures !halted ==> e.Represents(m')
  {
    assert After(r, k) == after(k) && After(r, k + 1) == after(k + 1);
    OneMore(r, k, m);
    halted, outcome, m' := e.Iteration(m);
  }

  /** The configuration one iteration later. */
  lemma {:induction false} OneMore(r: Run, k: nat, m: Machine)
    requires r.Ok() && After(r, k) == Running(m)
    ensures Sane(r, m) && After(r, k + 1) == Step(r, m)
  {
    IterateFaithful(r, k);
    IterateAdds(NextOf(r), Running(Initial(r)), k, 1);
    assert NextOf(r)(Running(m)) == Step(r, m);
    assert Iterate(NextOf(r), Running(m), 1) == Iterate(NextOf(r), Step(r, m), 0);
  }

  /** While the machine runs, fewer iterations than always suffice have been made. */
  lemma {:induction false} StillRunning(r: Run, after: nat -> Config, k: nat, m: Machine)
    requires r.Ok() && IsRun(r, after) && after(k) == Running(m)
    ensures k < Enough(r)
  {
    assert After(r, k) == after(k);
    Halts(r);
    if k >= Enough(r) {
      StoppedStays(r, Enough(r), k);
    }
  }

  /** The outcome at which the loop stops is the outcome of the run. */
  lemma {:induction false} FinalResult(r: Run, after: nat -> Config, maxSteps: nat, k: nat, o: Outcome)
    requires r.Ok() && IsRun(r, after) && after(k) == Stopped(o)
    requires maxSteps > 0 ==> k <= maxSteps
    ensures Result(r, maxSteps) == o
  {
    assert After(r, k) == after(k);
    if maxSteps > 0 {
      StoppedStays(r, k, maxSteps);
    } else {
      Halts(r);
      if k <= Enough(r) {
        StoppedStays(r, k, Enough(r));
      } else {
        StoppedStays(r, Enough(r), k);
      }
    }
  }

  /** A run still going when its budget is spent ends in LIMIT. */
  lemma {:induction false} SpentResult(r: Run, after: nat -> Config, maxSteps: nat, m: Machine)
    requires r.Ok() && IsRun(r, after) && 0 < maxSteps && after(maxSteps) == Running(m)
    ensures Result(r, maxSteps) == Limit
  {
    assert After(r, maxSteps) == after(maxSteps);
  }
}
