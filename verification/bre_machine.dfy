/** The backtracking machine: one step, and the exhaustive depth-first search
    that tries entering a loop before leaving it. */
module BreMachine {
  import opened BreProgram
  import opened Search

  /** An active loop: its instruction, completed iterations, where the current
      one started, whether the last one was empty, and its scope's opening. */
  datatype Active = Active(pc: nat, count: nat, start: nat, zero: bool, open: nat)

  datatype State = State(pc: nat, loops: seq<Active>, core: Core)

  ghost predicate InstructionOk(m: Machine, i: Instruction) {
    && (i.op.Class? || i.op.NotClass? ==> i.a + i.b <= |m.ranges|)
    && (i.op.Ref? ==> i.a < SLOTS)
    && (i.op.Open? ==> 1 <= i.a <= i.b < SLOTS)
    && (i.op.Close? ==> 1 <= i.a < SLOTS)
  }

  /** Entering or leaving the loop on top of the stack. */
  ghost function LoopMove(i: Instruction, s: State): Move<State>
    requires s.loops != []
  {
    var n := |s.loops| - 1;
    var top := s.loops[n];
    var canExit := top.count >= i.min;
    var canEnter := top.count < i.max && (!top.zero || top.count < i.min);
    var exit := State(i.next, s.loops[..n], CloseScope(s.core, top.open));
    var enter := s.(pc := i.a, loops := s.loops[n := top.(start := s.core.pos)]);
    if canExit && canEnter then Fork(enter, exit)
    else if canEnter then Next(enter)
    else if canExit then Next(exit)
    else Backtrack
  }

  /** A repeat instruction not on top of the loop stack is a new activation. */
  ghost function Activate(i: Instruction, s: State): State {
    if s.loops == [] || s.loops[|s.loops| - 1].pc != s.pc then
      s.(loops := s.loops + [Active(s.pc, 0, s.core.pos, false, |s.core.history|)], core := OpenScope(s.core, i.b))
    else s
  }

  ghost function IterationEnd(m: Machine, i: Instruction, s: State): Move<State> {
    var n := |s.loops| - 1;
    if s.loops == [] || s.loops[n].pc != i.a || s.loops[n].pc >= |m.code| then Broken
    else
      var top := s.loops[n];
      var empty := s.core.pos == top.start;
      if empty && top.count > 0 && top.count >= m.code[top.pc].min then Backtrack
      else if top.count == NONE then Broken
      else Next(s.(pc := top.pc, loops := s.loops[n := top.(zero := empty, count := top.count + 1)]))
  }

  /** One step. Broken stands for the internal errors, the loop limit, and for
      closing a group that is not open, which the program text does not check. */
  ghost function Step(m: Machine, s: State): Move<State>
    requires m.CoreOk(s.core)
  {
    if s.pc >= |m.code| || !InstructionOk(m, m.code[s.pc]) then Broken
    else
      var i := m.code[s.pc];
      match i.op
      case Accept => Accepted
      case Open => Next(s.(pc := i.next, core := OpenGroup(m, s.core, i.max, i.a, i.b)))
      case Close => if s.core.begin[i.a] < 0 then Broken else Next(s.(pc := i.next, core := CloseGroup(m, s.core, i.a)))
      case Repeat =>
        var t := Activate(i, s);
        if |t.loops| > SLOTS then Broken else LoopMove(i, t)
      case RepeatEnd => IterationEnd(m, i, s)
      case _ =>
        var r := UnitStep(m, i.op, i.a, i.b, s.core);
        if r == [] then Backtrack else Next(s.(pc := i.next, core := r[0]))
  }

  ghost function StepOf(m: Machine): State -> Move<State> {
    (s: State) => if m.CoreOk(s.core) then Step(m, s) else Broken
  }

  // ---------- steps one instruction at a time ----------

  /** What an instruction does to the current state. */
  datatype Act = Accepting | Stuck | Going

  /** What the machine does at an instruction that logs a scope. */
  ghost predicate ScopeMove(m: Machine, i: Instruction, s: State, move: Move<State>)
    requires m.CoreOk(s.core)
  {
    match i.op
    case Open =>
      1 <= i.a <= i.b < SLOTS && move == Next(s.(pc := i.next, core := OpenGroup(m, s.core, i.max, i.a, i.b)))
    case Close => 1 <= i.a < SLOTS && s.core.begin[i.a] >= 0
        && move == Next(s.(pc := i.next, core := CloseGroup(m, s.core, i.a)))
    case Repeat => move == LoopMove(i, Activate(i, s))
    case _ => false
  }

  /** What it does at any other. */
  ghost predicate PlainMove(m: Machine, i: Instruction, s: State, move: Move<State>)
    requires m.CoreOk(s.core)
  {
    InstructionOk(m, i) && move != Broken &&
    match i.op
    case Open => false
    case Close => false
    case Repeat => false
    case Accept => move == Accepted
    case RepeatEnd => move == IterationEnd(m, i, s)
    case _ =>
      var r := UnitStep(m, i.op, i.a, i.b, s.core);
      move == if r == [] then Backtrack else Next(s.(pc := i.next, core := r[0]))
  }

  /** `move` is the machine's step at a state that is not broken. */
  ghost predicate Moves(m: Machine, s: State, move: Move<State>) {
    m.CoreOk(s.core) && s.pc < |m.code| &&
    var i := m.code[s.pc];
    if i.op.Open? || i.op.Close? || i.op.Repeat? then ScopeMove(m, i, s, move) else PlainMove(m, i, s, move)
  }

  lemma {:induction false} StepMoves(m: Machine, s: State)
    requires m.CoreOk(s.core) && Step(m, s) != Broken
    ensures Moves(m, s, Step(m, s))
  {
  }
}
