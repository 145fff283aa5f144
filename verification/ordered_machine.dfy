/** The frame machine of the ordered engine as a transition function, and the
    proof that its memo, its cycle cuts and its cycle epoch change nothing: any
    answer it reaches is the answer of the unmemoised search. */
module OrderedMachine {
  import opened OrderedProgram

  const UNVISITED := 0
  const VISITING := -2
  const FAILED := -1

  datatype Frame = Frame(instruction: nat, position: nat, phase: int, assertionDepth: nat, cycleEpoch: nat)

  datatype Machine = Machine(frames: seq<Frame>, memo: map<Cell, int>, epoch: nat, last: int)

  datatype Outcome = Answered(answer: Answer) | Limit

  datatype Config = Running(machine: Machine) | Stopped(outcome: Outcome)

  /** What one activation of a frame decides: a value, or a child to run first. */
  datatype Action = Finish(last: int) | Descend(phase: int, instruction: nat, position: nat)

  /** A run's fixed data; `maxFrames` zero means no caller limit. */
  datatype Run = Run(program: Program, input: seq<nat>, start: nat, maxFrames: nat) {
    ghost predicate Ok() {
      WellFormed(program) && start <= |input|
    }
  }

  function CellOf(f: Frame): Cell {
    (f.instruction, f.position)
  }

  function Decode(last: int): Answer {
    if last < 0 then NoMatch else EndAt(last)
  }

  /** The search result a memo value other than UNVISITED and VISITING stands for. */
  function MemoAnswer(value: int): Answer {
    if value > 0 then EndAt(value - 1) else NoMatch
  }

  ghost predicate FrameOk(r: Run, f: Frame) {
    f.instruction < |r.program.code| && r.start <= f.position <= |r.input| && 0 <= f.phase <= 4
  }

  ghost predicate Typed(r: Run, m: Machine) {
    && m.frames != []
    && (forall i :: 0 <= i < |m.frames| ==> FrameOk(r, m.frames[i]))
    && m.memo.Keys == Cells(r.program, r.input, 0)
    && -1 <= m.last
  }

  /** The cells of a stack, each with the assertion depth of its topmost frame. */
  ghost function Active(frames: seq<Frame>): map<Cell, nat> {
    if frames == [] then map[]
    else
      var top := frames[|frames| - 1];
      Active(frames[..|frames| - 1])[CellOf(top) := top.assertionDepth]
  }

  /** First activation of a frame whose cell is unvisited. */
  ghost function Begin(r: Run, pc: nat, pos: nat): (a: Action)
    requires r.Ok() && pc < |r.program.code| && r.start <= pos <= |r.input|
    ensures a.Descend? ==> a.instruction < |r.program.code| && pos <= a.position <= |r.input| && 1 <= a.phase <= 4
    ensures a.Finish? ==> -1 <= a.last
  {
    var c := r.program.code[pc];
    assert InstructionOk(r.program, c);
    if c.op == ACCEPT then Finish(pos)
    else if c.op == SPLIT then Descend(1, c.first, pos)
    else if IsAssertion(c.op) then Descend(4, c.first, pos)
    else if c.op == END then
      if pos == |r.input| then Descend(3, c.next, pos) else Finish(-1)
    else if pos < |r.input| && Consumes(r.program, c, r.input[pos]) then Descend(3, c.next, pos + 1)
    else Finish(-1)
  }

  /** Later activation, with the child's result in `last`. */
  ghost function Resume(r: Run, f: Frame, last: int): (a: Action)
    requires r.Ok() && FrameOk(r, f) && PhaseOk(r, f) && -1 <= last
    ensures a.Descend? ==>
              a.instruction < |r.program.code| && f.position <= a.position <= |r.input| && 1 <= a.phase <= 4
    ensures a.Finish? ==> -1 <= a.last
  {
    var c := r.program.code[f.instruction];
    assert InstructionOk(r.program, c);
    if f.phase == 1 && last < 0 then Descend(2, c.second, f.position)
    else if f.phase == 4 then
      if (last < 0) == (c.op == NEGATIVE) then Descend(3, c.next, f.position) else Finish(-1)
    else Finish(last)
  }

  /** A frame's phase agrees with its instruction. */
  ghost predicate PhaseOk(r: Run, f: Frame)
    requires r.Ok() && FrameOk(r, f)
  {
    var c := r.program.code[f.instruction];
    assert InstructionOk(r.program, c);
    && (f.phase == 1 || f.phase == 2 ==> c.op == SPLIT)
    && (f.phase == 4 ==> IsAssertion(c.op))
    && (f.phase == 3 ==> c.op != SPLIT && Begin(r, f.instruction, f.position).Descend?)
  }

  /** An empty stack ends the run with the last result. */
  ghost function Settle(m: Machine): Config {
    if m.frames == [] then Stopped(Answered(Decode(m.last))) else Running(m)
  }

  ghost function Pop(m: Machine): (m': Machine)
    requires m.frames != []
  {
    m.(frames := m.frames[..|m.frames| - 1])
  }

  ghost function SetTop(m: Machine, f: Frame): Machine
    requires m.frames != []
  {
    m.(frames := m.frames[..|m.frames| - 1] + [f])
  }

  /** The value a finished frame leaves in its cell: none if a cycle was cut since it began. */
  function StoredValue(frameEpoch: nat, epoch: nat, last: int): int {
    if frameEpoch != epoch then UNVISITED else if last < 0 then FAILED else last + 1
  }

  ghost function Act(r: Run, m: Machine, f: Frame, a: Action): Config
    requires m.frames != []
  {
    match a
    case Finish(last) =>
      Settle(Pop(m.(last := last, memo := m.memo[CellOf(f) := StoredValue(f.cycleEpoch, m.epoch, last)])))
    case Descend(phase, pc, pos) =>
      if 0 < r.maxFrames <= |m.frames| then Stopped(Limit)
      else
        var m' := SetTop(m, f.(phase := phase));
        var depth := f.assertionDepth + if phase == 4 then 1 else 0;
        Running(m'.(frames := m'.frames + [Frame(pc, pos, 0, depth, m.epoch)]))
  }

  /** One iteration of the engine's loop. */
  ghost function Step(r: Run, m: Machine): Config
    requires r.Ok() && Typed(r, m)
    requires PhaseOk(r, m.frames[|m.frames| - 1])
  {
    var n := |m.frames|;
    var f := m.frames[n - 1];
    var cell := CellOf(f);
    assert cell in Cells(r.program, r.input, 0);
    var value := m.memo[cell];
    if f.phase != 0 then Act(r, m, f, Resume(r, f, m.last))
    else if value == VISITING then
      var below := Active(m.frames[..n - 1]);
      if cell !in below || below[cell] != f.assertionDepth then Stopped(Answered(Invalid))
      else Settle(Pop(m.(epoch := m.epoch + 1, last := -1)))
    else if value != UNVISITED then
      Settle(Pop(m.(last := if value > 0 then value - 1 else -1)))
    else
      var f' := f.(cycleEpoch := m.epoch);
      Act(r, SetTop(m.(memo := m.memo[cell := VISITING], last := -1), f'), f', Begin(r, f.instruction, f.position))
  }

  ghost predicate PhasesOk(r: Run, m: Machine)
    requires r.Ok() && Typed(r, m)
  {
    forall i :: 0 <= i < |m.frames| ==> PhaseOk(r, m.frames[i])
  }

  ghost predicate Sane(r: Run, m: Machine) {
    r.Ok() && Typed(r, m) && PhasesOk(r, m)
  }

  // ---------- the memo ----------

  ghost predicate IsCached(value: int) {
    value != UNVISITED && value != VISITING
  }

  ghost function Cached(memo: map<Cell, int>): set<Cell> {
    set c | c in memo && IsCached(memo[c])
  }

  ghost function Visiting(memo: map<Cell, int>): set<Cell> {
    set c | c in memo && memo[c] == VISITING
  }

  /** Every cached value is the answer of the search from that cell, whatever
      the current path and assertion depth, as long as the path holds no cached cell. */
  ghost predicate MemoSound(r: Run, memo: map<Cell, int>)
    requires r.Ok() && memo.Keys == Cells(r.program, r.input, 0)
  {
    && (forall c :: c in memo ==> -2 <= memo[c])
    && (forall c: Cell, depth: nat, active: map<Cell, nat> :: c in Cached(memo) && active.Keys !! Cached(memo) ==>
         Eval(r.program, r.input, c.0, c.1, depth, active) == MemoAnswer(memo[c]))
  }

  /** The child a started frame is waiting for. */
  ghost function Pending(r: Run, f: Frame): Cell
    requires r.Ok() && FrameOk(r, f)
  {
    var c := r.program.code[f.instruction];
    if f.phase == 2 then (c.second, f.position)
    else if f.phase == 3 then (c.next, if IsAssertion(c.op) || c.op == END then f.position else f.position + 1)
    else (c.first, f.position)
  }

  /** What a frame already learned from finished children is in the memo,
      provided no cycle was cut since the frame began. */
  ghost predicate Learned(r: Run, memo: map<Cell, int>, f: Frame)
    requires r.Ok() && FrameOk(r, f) && memo.Keys == Cells(r.program, r.input, 0)
  {
    var c := r.program.code[f.instruction];
    var first := (c.first, f.position);
    && (f.phase == 2 ==> first in Cached(memo) && MemoAnswer(memo[first]) == NoMatch)
    && (f.phase == 3 && IsAssertion(c.op) ==>
         first in Cached(memo) && MemoAnswer(memo[first]).EndAt? == (c.op == POSITIVE))
  }

  // ---------- the meaning of a stack ----------

  /** The frame's own answer once its child has answered `v`. */
  ghost function FrameAnswer(r: Run, f: Frame, v: Answer, path: map<Cell, nat>): Answer
    requires r.Ok() && FrameOk(r, f) && PhaseOk(r, f)
  {
    var c := r.program.code[f.instruction];
    assert InstructionOk(r.program, c);
    if v == Invalid then Invalid
    else if f.phase == 1 && v == NoMatch then
      Eval(r.program, r.input, c.second, f.position, f.assertionDepth, path)
    else if f.phase == 4 then
      if v.EndAt? == (c.op == POSITIVE) then Eval(r.program, r.input, c.next, f.position, f.assertionDepth, path)
      else NoMatch
    else v
  }

  ghost predicate StackOk(r: Run, frames: seq<Frame>)
    requires r.Ok()
  {
    forall i :: 0 <= i < |frames| ==> FrameOk(r, frames[i]) && PhaseOk(r, frames[i])
  }

  /** The answer of the whole stack when its top frame's child answers `v`. */
  ghost function Plug(r: Run, frames: seq<Frame>, v: Answer): Answer
    requires r.Ok() && StackOk(r, frames)
  {
    if frames == [] then v
    else
      var n := |frames| - 1;
      Plug(r, frames[..n], FrameAnswer(r, frames[n], v, Active(frames)))
  }

  /** The answer the machine is heading for. */
  ghost function Meaning(r: Run, m: Machine): Answer
    requires Sane(r, m)
  {
    var n := |m.frames| - 1;
    var f := m.frames[n];
    if f.phase == 0 then
      Plug(r, m.frames[..n], Eval(r.program, r.input, f.instruction, f.position, f.assertionDepth,
                                  Active(m.frames[..n])))
    else
      Plug(r, m.frames, Decode(m.last))
  }

  /** The frames that have entered their cell. */
  ghost function Started(frames: seq<Frame>): seq<Frame>
    requires frames != []
  {
    if frames[|frames| - 1].phase == 0 then frames[..|frames| - 1] else frames
  }

  ghost predicate Distinct(frames: seq<Frame>) {
    forall i, j :: 0 <= i < j < |frames| ==> CellOf(frames[i]) != CellOf(frames[j])
  }

  /** Every frame below the top waits for the frame above it. */
  ghost predicate Linked(r: Run, m: Machine)
    requires Sane(r, m)
  {
    forall i :: 0 <= i < |m.frames| - 1 ==>
      m.frames[i].phase != 0 && CellOf(m.frames[i + 1]) == Pending(r, m.frames[i])
  }

  /** The VISITING marks are exactly the cells of the started frames, each once. */
  ghost predicate Marked(m: Machine)
    requires m.frames != []
  {
    Distinct(Started(m.frames)) && Active(Started(m.frames)).Keys == Visiting(m.memo)
  }

  ghost predicate EpochsOk(frames: seq<Frame>, epoch: nat) {
    && (forall i, j :: 0 <= i < j < |frames| ==> frames[i].cycleEpoch <= frames[j].cycleEpoch)
    && (forall i :: 0 <= i < |frames| ==> frames[i].cycleEpoch <= epoch)
  }

  ghost predicate AllLearned(r: Run, m: Machine)
    requires Sane(r, m)
  {
    forall i :: 0 <= i < |m.frames| && m.frames[i].cycleEpoch == m.epoch ==> Learned(r, m.memo, m.frames[i])
  }

  ghost predicate Invariant(r: Run, m: Machine) {
    Sane(r, m) && MemoSound(r, m.memo) && Linked(r, m) && Marked(m) && EpochsOk(m.frames, m.epoch) && AllLearned(r, m)
        && Returned(r, m)
  }

  /** A resuming top frame whose epoch is current finds its child's result cached. */
  ghost predicate Returned(r: Run, m: Machine)
    requires Sane(r, m)
  {
    var f := m.frames[|m.frames| - 1];
    f.phase != 0 && f.cycleEpoch == m.epoch ==>
      Pending(r, f) in Cached(m.memo) && MemoAnswer(m.memo[Pending(r, f)]) == Decode(m.last)
  }

  lemma {:induction false} ActiveKeys(frames: seq<Frame>)
    ensures forall c :: c in Active(frames) <==> exists i :: 0 <= i < |frames| && CellOf(frames[i]) == c
  {
    if frames != [] {
      var n := |frames| - 1;
      ActiveKeys(frames[..n]);
      forall c | c in Active(frames)
        ensures exists i :: 0 <= i < |frames| && CellOf(frames[i]) == c
      {
        if c == CellOf(frames[n]) {
        } else {
          assert c in Active(frames[..n]);
          var below := frames[..n];
          var i :| 0 <= i < |below| && CellOf(below[i]) == c;
          assert frames[i] == below[i];
        }
      }
      forall i | 0 <= i < |frames|
        ensures CellOf(frames[i]) in Active(frames)
      {
        if i < n {
          assert frames[..n][i] == frames[i];
        }
      }
    }
  }

  lemma {:induction false} PlugInvalid(r: Run, frames: seq<Frame>)
    requires r.Ok() && StackOk(r, frames)
    ensures Plug(r, frames, Invalid) == Invalid
  {
    if frames != [] {
      PlugInvalid(r, frames[..|frames| - 1]);
    }
  }

  // ---------- one step keeps the meaning ----------

  ghost predicate Extends(memo: map<Cell, int>, memo': map<Cell, int>) {
    memo'.Keys == memo.Keys && forall c :: c in Cached(memo) ==> c in Cached(memo') && memo'[c] == memo[c]
  }

  /** A memo that keeps the old cached values keeps what the frames learned. */
  lemma {:induction false} LearnedKeeps(r: Run, m: Machine, m': Machine)
    requires Sane(r, m) && EpochsOk(m.frames, m.epoch) && Extends(m.memo, m'.memo) && m.epoch <= m'.epoch
    requires AllLearned(r, m)
    ensures forall i :: 0 <= i < |m.frames| && m.frames[i].cycleEpoch == m'.epoch ==> Learned(r, m'.memo, m.frames[i])
  {
    forall i | 0 <= i < |m.frames| && m.frames[i].cycleEpoch == m'.epoch
      ensures Learned(r, m'.memo, m.frames[i])
    {
      assert m.frames[i].cycleEpoch <= m.epoch;
      assert Learned(r, m.memo, m.frames[i]);
    }
  }

  /** The machine after popping the top frame with a result. */
  ghost predicate Popped(r: Run, m: Machine, m': Machine) {
    && Sane(r, m) && m'.frames == m.frames[..|m.frames| - 1] && -1 <= m'.last && m.epoch <= m'.epoch
    && Extends(m.memo, m'.memo) && MemoSound(r, m'.memo)
    && Visiting(m'.memo) == Active(m'.frames).Keys
    && (var f := m.frames[|m.frames| - 1];
        m'.epoch == m.epoch && f.cycleEpoch == m.epoch ==>
          CellOf(f) in Cached(m'.memo) && MemoAnswer(m'.memo[CellOf(f)]) == Decode(m'.last))
  }

  /** Popping keeps the invariant when the popped cell is cached with the
      result or the epoch has moved on. */
  lemma {:induction false} PopKeeps(r: Run, m: Machine, m': Machine)
    requires Invariant(r, m) && Popped(r, m, m') && m'.frames != []
    ensures Invariant(r, m') && Started(m'.frames) == m'.frames
  {
    var n := |m.frames| - 1;
    assert forall i :: 0 <= i < n ==> m'.frames[i] == m.frames[i];
    assert Sane(r, m');
    assert Linked(r, m');
    assert Started(m'.frames) == m'.frames;
    assert Distinct(m'.frames);
    assert EpochsOk(m'.frames, m'.epoch);
    LearnedKeeps(r, m, m');
    assert AllLearned(r, m');
    assert CellOf(m.frames[n]) == Pending(r, m.frames[n - 1]);
    assert m.frames[n - 1].cycleEpoch <= m.frames[n].cycleEpoch;
    assert Returned(r, m');
  }

  // ---------- finishing a frame ----------

  /** Adding one justified value keeps every cached value sound. */
  lemma {:induction false} StoreSound(r: Run, memo: map<Cell, int>, cell: Cell, value: int)
    requires r.Ok() && memo.Keys == Cells(r.program, r.input, 0) && MemoSound(r, memo)
    requires cell in memo && cell !in Cached(memo) && -2 <= value
    requires IsCached(value) ==> forall depth: nat, active: map<Cell, nat> ::
               cell !in active && active.Keys !! Cached(memo) ==>
                 Eval(r.program, r.input, cell.0, cell.1, depth, active) == MemoAnswer(value)
    ensures Extends(memo, memo[cell := value]) && MemoSound(r, memo[cell := value])
    ensures Cached(memo[cell := value]) == if IsCached(value) then Cached(memo) + {cell} else Cached(memo)
    ensures Visiting(memo[cell := value]) == if value == VISITING then Visiting(memo) + {cell}
            else Visiting(memo) - {cell}
  {
    var memo' := memo[cell := value];
    assert Cached(memo') == if IsCached(value) then Cached(memo) + {cell} else Cached(memo);
    forall c: Cell, depth: nat, active: map<Cell, nat> | c in Cached(memo') && active.Keys !! Cached(memo')
      ensures Eval(r.program, r.input, c.0, c.1, depth, active) == MemoAnswer(memo'[c])
    {
      if c == cell {
        assert cell !in active;
      } else {
        assert c in Cached(memo);
      }
    }
  }

  /** A frame that finishes with all its children cached has the search's answer,
      on every path that avoids the cached cells. */
  lemma {:induction false} ResumeJustified(r: Run, memo: map<Cell, int>, f: Frame, last: int, depth: nat,
                                           active: map<Cell, nat>)
    requires r.Ok() && memo.Keys == Cells(r.program, r.input, 0) && MemoSound(r, memo)
    requires FrameOk(r, f) && PhaseOk(r, f) && f.phase != 0 && Learned(r, memo, f) && -1 <= last
    requires Pending(r, f) in Cached(memo) && MemoAnswer(memo[Pending(r, f)]) == Decode(last)
    requires Resume(r, f, last).Finish?
    requires CellOf(f) !in Cached(memo) && CellOf(f) !in active && active.Keys !! Cached(memo)
    ensures Eval(r.program, r.input, f.instruction, f.position, depth, active) == Decode(Resume(r, f, last).last)
  {
    var c := r.program.code[f.instruction];
    assert InstructionOk(r.program, c);
    var path := active[CellOf(f) := depth];
    assert path.Keys == active.Keys + {CellOf(f)};
    assert path.Keys !! Cached(memo);
    var pending := Pending(r, f);
    assert forall d: nat :: Eval(r.program, r.input, pending.0, pending.1, d, path) == Decode(last);
    if f.phase == 2 || (f.phase == 3 && IsAssertion(c.op)) {
      var first := (c.first, f.position);
      assert forall d: nat :: Eval(r.program, r.input, first.0, first.1, d, path) == MemoAnswer(memo[first]);
    }
  }

  lemma {:induction false} BeginJustified(r: Run, pc: nat, pos: nat, depth: nat, active: map<Cell, nat>)
    requires r.Ok() && pc < |r.program.code| && r.start <= pos <= |r.input|
    requires Begin(r, pc, pos).Finish? && (pc, pos) !in active
    ensures Eval(r.program, r.input, pc, pos, depth, active) == Decode(Begin(r, pc, pos).last)
  {
    assert InstructionOk(r.program, r.program.code[pc]);
  }

  /** Storing a finished frame's value and popping it. */
  lemma {:induction false} FinishKeeps(r: Run, m: Machine, f: Frame, last: int, memo: map<Cell, int>)
    requires Invariant(r, m) && -1 <= last
    requires CellOf(f) == CellOf(m.frames[|m.frames| - 1]) && f.cycleEpoch <= m.epoch
    requires f.cycleEpoch != m.epoch ==> m.frames[|m.frames| - 1].cycleEpoch != m.epoch
    requires CellOf(f) in m.memo && CellOf(f) !in Cached(m.memo)
    requires f.cycleEpoch == m.epoch ==> forall depth: nat, active: map<Cell, nat> ::
               CellOf(f) !in active && active.Keys !! Cached(m.memo) ==>
                 Eval(r.program, r.input, f.instruction, f.position, depth, active) == Decode(last)
    requires CellOf(f) !in Active(m.frames[..|m.frames| - 1])
    requires Visiting(m.memo) - {CellOf(f)} == Active(m.frames[..|m.frames| - 1]).Keys
    requires memo == m.memo[CellOf(f) := StoredValue(f.cycleEpoch, m.epoch, last)]
    ensures Popped(r, m, Pop(m.(last := last, memo := memo)))
  {
    var cell := CellOf(f);
    assert cell == (f.instruction, f.position);
    var value := StoredValue(f.cycleEpoch, m.epoch, last);
    StoreSound(r, m.memo, cell, value);
  }

  // ---------- pushing a child ----------

  /** The stack with its top frame replaced by `f` and `child` pushed on it. */
  ghost function Pushed(m: Machine, f: Frame, child: Frame, memo: map<Cell, int>): Machine
    requires m.frames != []
  {
    Machine(m.frames[..|m.frames| - 1] + [f, child], memo, m.epoch, m.last)
  }

  ghost predicate Pushable(r: Run, m: Machine, f: Frame, child: Frame, memo: map<Cell, int>) {
    && Sane(r, m) && FrameOk(r, f) && PhaseOk(r, f) && f.phase != 0 && FrameOk(r, child) && child.phase == 0
    && (var top := m.frames[|m.frames| - 1];
        CellOf(f) == CellOf(top) && top.cycleEpoch <= f.cycleEpoch <= m.epoch && child.cycleEpoch == m.epoch)
    && Extends(m.memo, memo) && MemoSound(r, memo)
    && CellOf(f) !in Active(m.frames[..|m.frames| - 1])
    && Visiting(memo) == Active(m.frames[..|m.frames| - 1]).Keys + {CellOf(f)}
    && (f.cycleEpoch == m.epoch ==> Learned(r, memo, f))
    && CellOf(child) == Pending(r, f)
  }

  lemma {:induction false} PushKeeps(r: Run, m: Machine, f: Frame, child: Frame, memo: map<Cell, int>, last: int)
    requires Invariant(r, m) && Pushable(r, m, f, child, memo) && -1 <= last
    ensures Invariant(r, Pushed(m, f, child, memo).(last := last))
  {
    PushSane(r, m, f, child, memo, last);
    PushEpochs(r, m, f, child, memo, last);
    MarkedPush(m, f, child, memo);
  }

  lemma {:induction false} PushSane(r: Run, m: Machine, f: Frame, child: Frame, memo: map<Cell, int>, last: int)
    requires Invariant(r, m) && Pushable(r, m, f, child, memo) && -1 <= last
    ensures var m' := Pushed(m, f, child, memo).(last := last); Sane(r, m') && Linked(r, m') && Returned(r, m')
  {
    var n := |m.frames| - 1;
    var m' := Pushed(m, f, child, memo).(last := last);
    assert forall i :: 0 <= i < n ==> m'.frames[i] == m.frames[i];
    assert PhaseOk(r, child);
    assert Sane(r, m');
    forall i | 0 <= i < n
      ensures m'.frames[i].phase != 0 && CellOf(m'.frames[i + 1]) == Pending(r, m'.frames[i])
    {
      assert CellOf(m.frames[i + 1]) == Pending(r, m.frames[i]);
    }
  }

  lemma {:induction false} PushEpochs(r: Run, m: Machine, f: Frame, child: Frame, memo: map<Cell, int>, last: int)
    requires Invariant(r, m) && Pushable(r, m, f, child, memo) && -1 <= last
    requires Sane(r, Pushed(m, f, child, memo).(last := last))
    ensures var m' := Pushed(m, f, child, memo).(last := last); EpochsOk(m'.frames, m'.epoch) && AllLearned(r, m')
  {
    var n := |m.frames| - 1;
    var m' := Pushed(m, f, child, memo).(last := last);
    EpochsPush(m.frames, m.epoch, f, child);
    LearnedKeeps(r, m, m.(memo := memo));
    forall i | 0 <= i < |m'.frames| && m'.frames[i].cycleEpoch == m'.epoch
      ensures Learned(r, m'.memo, m'.frames[i])
    {
      if i < n {
        assert m'.frames[i] == m.frames[i];
      }
    }
  }

  lemma {:induction false} EpochsPush(frames: seq<Frame>, epoch: nat, f: Frame, child: Frame)
    requires frames != [] && EpochsOk(frames, epoch)
    requires frames[|frames| - 1].cycleEpoch <= f.cycleEpoch <= epoch && child.cycleEpoch == epoch
    ensures EpochsOk(frames[..|frames| - 1] + [f, child], epoch)
  {
  }

  lemma {:induction false} MarkedPush(m: Machine, f: Frame, child: Frame, memo: map<Cell, int>)
    requires m.frames != [] && Marked(m) && f.phase != 0 && child.phase == 0
    requires CellOf(f) == CellOf(m.frames[|m.frames| - 1])
    requires CellOf(f) !in Active(m.frames[..|m.frames| - 1])
    requires Visiting(memo) == Active(m.frames[..|m.frames| - 1]).Keys + {CellOf(f)}
    ensures Marked(Pushed(m, f, child, memo))
    ensures Active(m.frames[..|m.frames| - 1] + [f]) ==
            Active(m.frames[..|m.frames| - 1])[CellOf(f) := f.assertionDepth]
  {
    var n := |m.frames| - 1;
    var below := m.frames[..n];
    var s := below + [f];
    assert Pushed(m, f, child, memo).frames[..n + 1] == s;
    assert Started(Pushed(m, f, child, memo).frames) == s;
    assert s[..n] == below;
    DistinctBelow(m.frames);
    DistinctPush(below, f);
  }

  lemma {:induction false} DistinctBelow(frames: seq<Frame>)
    requires frames != [] && Distinct(Started(frames))
    ensures Distinct(frames[..|frames| - 1])
  {
    var below := frames[..|frames| - 1];
    assert forall i :: 0 <= i < |below| ==> Started(frames)[i] == below[i];
  }

  lemma {:induction false} DistinctPush(below: seq<Frame>, f: Frame)
    requires Distinct(below) && CellOf(f) !in Active(below)
    ensures Distinct(below + [f])
  {
    ActiveKeys(below);
    assert forall i :: 0 <= i < |below| ==> CellOf(below[i]) in Active(below);
  }

  // ---------- every step keeps the invariant and the meaning ----------

  /** The configuration after a step still heads for the answer `answer`. */
  ghost predicate Faithful(r: Run, c: Config, answer: Answer) {
    match c
    case Running(m) => Invariant(r, m) && Meaning(r, m) == answer
    case Stopped(Limit) => r.maxFrames > 0
    case Stopped(Answered(a)) => a == answer
  }

  lemma {:induction false} SettleFaithful(r: Run, m: Machine, m': Machine)
    requires Invariant(r, m) && Popped(r, m, m')
    requires Plug(r, m'.frames, Decode(m'.last)) == Meaning(r, m)
    ensures Faithful(r, Settle(m'), Meaning(r, m))
  {
    if m'.frames != [] {
      PopKeeps(r, m, m');
    }
  }

  /** What an invariant says about the cells under the top frame. */
  lemma {:induction false} BelowFacts(r: Run, m: Machine)
    requires Invariant(r, m)
    ensures var n := |m.frames| - 1; var f := m.frames[n]; var below := Active(m.frames[..n]).Keys;
            && CellOf(f) in m.memo
            && (f.phase == 0 ==> below == Visiting(m.memo))
            && (f.phase != 0 ==> CellOf(f) !in below && below + {CellOf(f)} == Visiting(m.memo))
  {
    var n := |m.frames| - 1;
    var f := m.frames[n];
    assert CellOf(f) in Cells(r.program, r.input, 0);
    if f.phase != 0 {
      ActiveKeys(m.frames[..n]);
      assert Active(m.frames) == Active(m.frames[..n])[CellOf(f) := f.assertionDepth];
      assert forall i :: 0 <= i < n ==> CellOf(m.frames[i]) != CellOf(Started(m.frames)[n]);
    }
  }

  /** Cutting an empty cycle answers NoMatch, as the search does. */
  lemma {:induction false} CutPops(r: Run, m: Machine)
    requires Invariant(r, m) && m.frames[|m.frames| - 1].phase == 0
    requires var n := |m.frames| - 1; var below := Active(m.frames[..n]);
             CellOf(m.frames[n]) in below && below[CellOf(m.frames[n])] == m.frames[n].assertionDepth
    ensures Faithful(r, Settle(Pop(m.(epoch := m.epoch + 1, last := -1))), Meaning(r, m))
  {
    BelowFacts(r, m);
    SettleFaithful(r, m, Pop(m.(epoch := m.epoch + 1, last := -1)));
  }

  /** A frame meets a VISITING cell: an empty cycle is cut, one that crosses an
      assertion boundary is an error. */
  lemma {:induction false} CutStep(r: Run, m: Machine)
    requires Invariant(r, m) && m.frames[|m.frames| - 1].phase == 0
    requires CellOf(m.frames[|m.frames| - 1]) in Visiting(m.memo)
    ensures Faithful(r, Step(r, m), Meaning(r, m))
  {
    var n := |m.frames| - 1;
    var below := Active(m.frames[..n]);
    BelowFacts(r, m);
    if below[CellOf(m.frames[n])] == m.frames[n].assertionDepth {
      CutPops(r, m);
    } else {
      PlugInvalid(r, m.frames[..n]);
    }
  }

  /** A frame meets a cached cell. */
  lemma {:induction false} HitStep(r: Run, m: Machine)
    requires Invariant(r, m) && m.frames[|m.frames| - 1].phase == 0
    requires CellOf(m.frames[|m.frames| - 1]) in Cached(m.memo)
    ensures Faithful(r, Step(r, m), Meaning(r, m))
  {
    var n := |m.frames| - 1;
    var cell := CellOf(m.frames[n]);
    BelowFacts(r, m);
    assert Active(m.frames[..n]).Keys !! Cached(m.memo);
    var value := m.memo[cell];
    var m' := Pop(m.(last := if value > 0 then value - 1 else -1));
    assert Decode(m'.last) == MemoAnswer(value);
    assert Step(r, m) == Settle(m');
    SettleFaithful(r, m, m');
  }

  /** A frame enters an unvisited cell and finishes at once. */
  lemma {:induction false} BeginFinishStep(r: Run, m: Machine)
    requires Invariant(r, m)
    requires var f := m.frames[|m.frames| - 1];
             f.phase == 0 && CellOf(f) in m.memo && m.memo[CellOf(f)] == UNVISITED &&
             Begin(r, f.instruction, f.position).Finish?
    ensures Faithful(r, Step(r, m), Meaning(r, m))
  {
    var n := |m.frames| - 1;
    var f := m.frames[n];
    var f' := f.(cycleEpoch := m.epoch);
    var last := Begin(r, f.instruction, f.position).last;
    BelowFacts(r, m);
    forall depth: nat, active: map<Cell, nat> | CellOf(f') !in active
      ensures Eval(r.program, r.input, f.instruction, f.position, depth, active) == Decode(last)
    {
      BeginJustified(r, f.instruction, f.position, depth, active);
    }
    var memo := m.memo[CellOf(f) := StoredValue(m.epoch, m.epoch, last)];
    FinishKeeps(r, m, f', last, memo);
    var m' := Pop(m.(last := last, memo := memo));
    assert m.memo[CellOf(f) := VISITING][CellOf(f) := StoredValue(m.epoch, m.epoch, last)] == memo;
    assert Step(r, m) == Settle(m');
    SettleFaithful(r, m, m');
  }

  /** The search from an unvisited cell, in terms of its first child's answer. */
  lemma {:induction false} BeginAnswer(r: Run, f: Frame, active: map<Cell, nat>)
    requires r.Ok() && FrameOk(r, f) && CellOf(f) !in active
    requires Begin(r, f.instruction, f.position).Descend?
    ensures var a := Begin(r, f.instruction, f.position);
            var f' := f.(phase := a.phase);
            var path := active[CellOf(f) := f.assertionDepth];
            var depth := f.assertionDepth + if a.phase == 4 then 1 else 0;
            && PhaseOk(r, f')
            && CellOf(f) == CellOf(f')
            && (a.instruction, a.position) == Pending(r, f')
            && Eval(r.program, r.input, f.instruction, f.position, f.assertionDepth, active) ==
               FrameAnswer(r, f', Eval(r.program, r.input, a.instruction, a.position, depth, path), path)
  {
    assert InstructionOk(r.program, r.program.code[f.instruction]);
  }

  ghost function BegunFrame(r: Run, m: Machine): Frame
    requires Begins(r, m)
  {
    var f := m.frames[|m.frames| - 1];
    f.(cycleEpoch := m.epoch, phase := Begin(r, f.instruction, f.position).phase)
  }

  ghost function FirstChild(r: Run, m: Machine): Frame
    requires Begins(r, m)
  {
    var f := m.frames[|m.frames| - 1];
    var a := Begin(r, f.instruction, f.position);
    Frame(a.instruction, a.position, 0, f.assertionDepth + if a.phase == 4 then 1 else 0, m.epoch)
  }

  /** The top frame enters an unvisited cell and needs a child. */
  ghost predicate Begins(r: Run, m: Machine) {
    Sane(r, m) &&
    var f := m.frames[|m.frames| - 1];
    f.phase == 0 && CellOf(f) in m.memo && m.memo[CellOf(f)] == UNVISITED &&
    Begin(r, f.instruction, f.position).Descend?
  }

  lemma {:induction false} BeginShape(r: Run, m: Machine)
    requires Begins(r, m)
    ensures var memo := m.memo[CellOf(m.frames[|m.frames| - 1]) := VISITING];
            Step(r, m) == if 0 < r.maxFrames <= |m.frames| then Stopped(Limit)
                          else Running(Pushed(m, BegunFrame(r, m), FirstChild(r, m), memo).(last := -1))
  {
    var n := |m.frames| - 1;
    var below := m.frames[..n];
    assert forall g, h :: (below + [g])[..n] + [h] == below + [h];
    assert forall g, h: Frame :: below + [g] + [h] == below + [g, h];
  }

  /** A frame enters an unvisited cell and pushes its first child. */
  lemma {:induction false} BeginDescendStep(r: Run, m: Machine)
    requires Invariant(r, m) && Begins(r, m)
    ensures Faithful(r, Step(r, m), Meaning(r, m))
  {
    var memo := m.memo[CellOf(m.frames[|m.frames| - 1]) := VISITING];
    BeginInvariant(r, m, memo);
    BeginMeaning(r, m, memo);
    BeginShape(r, m);
  }

  lemma {:induction false} BeginMeaning(r: Run, m: Machine, memo: map<Cell, int>)
    requires Invariant(r, m) && Begins(r, m)
    requires Sane(r, Pushed(m, BegunFrame(r, m), FirstChild(r, m), memo).(last := -1))
    requires CellOf(m.frames[|m.frames| - 1]) !in Active(m.frames[..|m.frames| - 1])
    requires var f' := BegunFrame(r, m); var below := m.frames[..|m.frames| - 1];
             Active(below + [f']) == Active(below)[CellOf(f') := f'.assertionDepth]
    ensures Meaning(r, Pushed(m, BegunFrame(r, m), FirstChild(r, m), memo).(last := -1)) == Meaning(r, m)
  {
    var n := |m.frames| - 1;
    var f := m.frames[n].(cycleEpoch := m.epoch);
    var below := m.frames[..n];
    var f' := BegunFrame(r, m);
    var child := FirstChild(r, m);
    var path := Active(below)[CellOf(f') := f'.assertionDepth];
    var now := Eval(r.program, r.input, f.instruction, f.position, f.assertionDepth, Active(below));
    assert Meaning(r, m) == Plug(r, below, now);
    assert now == FrameAnswer(r, f', Eval(r.program, r.input, child.instruction, child.position, child.assertionDepth,
                                          path), path) by {
      BeginAnswer(r, f, Active(below));
    }
    PushMeaning(r, m, f', child, memo, -1);
  }

  lemma {:induction false} BeginInvariant(r: Run, m: Machine, memo: map<Cell, int>)
    requires Invariant(r, m) && Begins(r, m)
    requires memo == m.memo[CellOf(m.frames[|m.frames| - 1]) := VISITING]
    ensures var f' := BegunFrame(r, m); var child := FirstChild(r, m); var below := m.frames[..|m.frames| - 1];
            && FrameOk(r, f') && PhaseOk(r, f') && FrameOk(r, child)
            && Invariant(r, Pushed(m, f', child, memo).(last := -1))
            && CellOf(f') !in Active(below)
            && Active(below + [f']) == Active(below)[CellOf(f') := f'.assertionDepth]
  {
    var n := |m.frames| - 1;
    var f := m.frames[n];
    var f' := BegunFrame(r, m);
    var child := FirstChild(r, m);
    BelowFacts(r, m);
    BeginAnswer(r, f.(cycleEpoch := m.epoch), Active(m.frames[..n]));
    StoreSound(r, m.memo, CellOf(f), VISITING);
    BeginPushable(r, m, f', child, memo);
    PushKeeps(r, m, f', child, memo, -1);
    MarkedPush(m, f', child, memo);
  }

  lemma {:induction false} BeginPushable(r: Run, m: Machine, f: Frame, child: Frame, memo: map<Cell, int>)
    requires Invariant(r, m)
    requires var top := m.frames[|m.frames| - 1];
             top.phase == 0 && CellOf(top) in m.memo && m.memo[CellOf(top)] == UNVISITED &&
             CellOf(f) == CellOf(top) && Begin(r, top.instruction, top.position).Descend?
    requires FrameOk(r, f) && PhaseOk(r, f) && f.phase != 0 && FrameOk(r, child) && child.phase == 0
    requires f.cycleEpoch == m.epoch && child.cycleEpoch == m.epoch && CellOf(child) == Pending(r, f)
    requires f.phase == Begin(r, f.instruction, f.position).phase
    requires Extends(m.memo, memo) && MemoSound(r, memo)
    requires Visiting(memo) == Visiting(m.memo) + {CellOf(f)}
    ensures Pushable(r, m, f, child, memo)
  {
    BelowFacts(r, m);
    assert InstructionOk(r.program, r.program.code[f.instruction]);
    assert CellOf(f) !in Visiting(m.memo);
    assert Learned(r, memo, f);
  }

  /** The meaning of a stack whose top frame has just pushed a child. */
  lemma {:induction false} PushMeaning(r: Run, m: Machine, f: Frame, child: Frame, memo: map<Cell, int>, last: int)
    requires Sane(r, m) && Sane(r, Pushed(m, f, child, memo).(last := last)) && child.phase == 0
    requires FrameOk(r, f) && PhaseOk(r, f) && FrameOk(r, child)
    requires Active(m.frames[..|m.frames| - 1] + [f]) ==
             Active(m.frames[..|m.frames| - 1])[CellOf(f) := f.assertionDepth]
    ensures var path := Active(m.frames[..|m.frames| - 1])[CellOf(f) := f.assertionDepth];
            var v := Eval(r.program, r.input, child.instruction, child.position, child.assertionDepth, path);
            Meaning(r, Pushed(m, f, child, memo).(last := last)) ==
            Plug(r, m.frames[..|m.frames| - 1], FrameAnswer(r, f, v, path))
  {
    var n := |m.frames| - 1;
    var s := m.frames[..n] + [f];
    assert Pushed(m, f, child, memo).frames[..n + 1] == s;
    assert s[..n] == m.frames[..n];
  }

  /** A frame resumes and finishes. */
  lemma {:induction false} ResumeFinishStep(r: Run, m: Machine)
    requires Invariant(r, m)
    requires var f := m.frames[|m.frames| - 1]; f.phase != 0 && Resume(r, f, m.last).Finish?
    ensures Faithful(r, Step(r, m), Meaning(r, m))
  {
    var n := |m.frames| - 1;
    var f := m.frames[n];
    var last := Resume(r, f, m.last).last;
    BelowFacts(r, m);
    assert CellOf(f) !in Cached(m.memo);
    if f.cycleEpoch == m.epoch {
      forall depth: nat, active: map<Cell, nat> | CellOf(f) !in active && active.Keys !! Cached(m.memo)
        ensures Eval(r.program, r.input, f.instruction, f.position, depth, active) == Decode(last)
      {
        ResumeJustified(r, m.memo, f, m.last, depth, active);
      }
    }
    var memo := m.memo[CellOf(f) := StoredValue(f.cycleEpoch, m.epoch, last)];
    FinishKeeps(r, m, f, last, memo);
    var m' := Pop(m.(last := last, memo := memo));
    assert Step(r, m) == Settle(m');
    ResumeAnswer(r, f, m.last, Active(m.frames));
    SettleFaithful(r, m, m');
  }

  lemma {:induction false} ResumeAnswer(r: Run, f: Frame, last: int, path: map<Cell, nat>)
    requires r.Ok() && FrameOk(r, f) && PhaseOk(r, f) && -1 <= last
    requires f.phase != 0
    ensures var a := Resume(r, f, last);
            FrameAnswer(r, f, Decode(last), path) ==
            if a.Finish? then Decode(a.last)
            else FrameAnswer(r, f.(phase := a.phase),
                             Eval(r.program, r.input, a.instruction, a.position, f.assertionDepth, path), path)
  {
    assert InstructionOk(r.program, r.program.code[f.instruction]);
  }

  /** The top frame resumes and needs another child. */
  ghost predicate Resumes(r: Run, m: Machine) {
    Sane(r, m) &&
    var f := m.frames[|m.frames| - 1];
    f.phase != 0 && Resume(r, f, m.last).Descend?
  }

  ghost function ResumedFrame(r: Run, m: Machine): Frame
    requires Resumes(r, m)
  {
    var f := m.frames[|m.frames| - 1];
    f.(phase := Resume(r, f, m.last).phase)
  }

  ghost function NextChild(r: Run, m: Machine): Frame
    requires Resumes(r, m)
  {
    var f := m.frames[|m.frames| - 1];
    var a := Resume(r, f, m.last);
    Frame(a.instruction, a.position, 0, f.assertionDepth, m.epoch)
  }

  lemma {:induction false} ResumeShape(r: Run, m: Machine)
    requires Resumes(r, m)
    ensures Step(r, m) == if 0 < r.maxFrames <= |m.frames| then Stopped(Limit)
                          else Running(Pushed(m, ResumedFrame(r, m), NextChild(r, m), m.memo))
  {
    var below := m.frames[..|m.frames| - 1];
    assert forall g, h: Frame :: below + [g] + [h] == below + [g, h];
  }

  /** A frame resumes and pushes its second child. */
  lemma {:induction false} ResumeDescendStep(r: Run, m: Machine)
    requires Invariant(r, m) && Resumes(r, m)
    ensures Faithful(r, Step(r, m), Meaning(r, m))
  {
    ResumeInvariant(r, m);
    ResumeMeaning(r, m);
    ResumeShape(r, m);
  }

  lemma {:induction false} ResumeInvariant(r: Run, m: Machine)
    requires Invariant(r, m) && Resumes(r, m)
    ensures var f' := ResumedFrame(r, m); var child := NextChild(r, m); var below := m.frames[..|m.frames| - 1];
            && FrameOk(r, f') && PhaseOk(r, f') && FrameOk(r, child)
            && Invariant(r, Pushed(m, f', child, m.memo))
            && Active(below + [f']) == Active(below)[CellOf(f') := f'.assertionDepth]
  {
    var f' := ResumedFrame(r, m);
    var child := NextChild(r, m);
    assert InstructionOk(r.program, r.program.code[f'.instruction]);
    BelowFacts(r, m);
    PushKeeps(r, m, f', child, m.memo, m.last);
    MarkedPush(m, f', child, m.memo);
    assert Pushed(m, f', child, m.memo).(last := m.last) == Pushed(m, f', child, m.memo);
  }

  lemma {:induction false} ResumeMeaning(r: Run, m: Machine)
    requires Invariant(r, m) && Resumes(r, m)
    requires Sane(r, Pushed(m, ResumedFrame(r, m), NextChild(r, m), m.memo))
    requires var f' := ResumedFrame(r, m); var below := m.frames[..|m.frames| - 1];
             Active(below + [f']) == Active(below)[CellOf(f') := f'.assertionDepth]
    ensures Meaning(r, Pushed(m, ResumedFrame(r, m), NextChild(r, m), m.memo)) == Meaning(r, m)
  {
    var n := |m.frames| - 1;
    var m' := Pushed(m, ResumedFrame(r, m), NextChild(r, m), m.memo);
    assert m'.(last := m.last) == m';
    PushMeaning(r, m, ResumedFrame(r, m), NextChild(r, m), m.memo, m.last);
    ResumeAnswer(r, m.frames[n], m.last, Active(m.frames));
  }

  /** Whatever a step does, the answer the stack is heading for stays the same. */
  lemma {:induction false} StepFaithful(r: Run, m: Machine)
    requires Invariant(r, m)
    ensures Faithful(r, Step(r, m), Meaning(r, m))
  {
    var f := m.frames[|m.frames| - 1];
    BelowFacts(r, m);
    if f.phase != 0 {
      if Resume(r, f, m.last).Finish? {
        ResumeFinishStep(r, m);
      } else {
        ResumeDescendStep(r, m);
      }
    } else if m.memo[CellOf(f)] == VISITING {
      CutStep(r, m);
    } else if m.memo[CellOf(f)] != UNVISITED {
      HitStep(r, m);
    } else if Begin(r, f.instruction, f.position).Finish? {
      BeginFinishStep(r, m);
    } else {
      BeginDescendStep(r, m);
    }
  }
}
