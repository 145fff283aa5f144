/** The steps one instruction takes. */
module BreSearchCost {
  import opened BreProgram
  import opened BreMachine

  /** One step for every scalar compared, up to the first difference. */
  function Agreement(input: seq<nat>, first: nat, last: nat, pos: nat): nat
    requires first <= last <= |input| && pos + (last - first) <= |input|
    decreases last - first
  {
    if first == last then 0 else if input[first] != input[pos] then 1
    else 1 + Agreement(input, first + 1, last, pos + 1)
  }

  /** The steps of a one-instruction match: every range of a class, every scalar of a back-reference. */
  ghost function UnitTicks(m: Machine, i: Instruction, c: Core): nat
    requires m.CoreOk(c) && IsUnit(i.op) && (i.op.Ref? ==> i.a < SLOTS)
  {
    if i.op.Class? || i.op.NotClass? then if c.pos < |m.input| then i.b else 0
    else if i.op.Ref? && Matched(c, i.a) && c.end[i.a] - c.begin[i.a] <= |m.input| - c.pos then
      Agreement(m.input, c.begin[i.a], c.end[i.a], c.pos)
    else 0
  }

  /** Leaving a loop logs its close. */
  ghost function LoopTicks(i: Instruction, s: State): nat {
    if s.loops != [] && s.loops[|s.loops| - 1].count >= i.min then 1 else 0
  }

  ghost function RepeatTicks(i: Instruction, s: State): nat {
    LoopTicks(i, Activate(i, s)) + if s.loops == [] || s.loops[|s.loops| - 1].pc != s.pc then 1 else 0
  }

  /** Every logged event is one step. */
  ghost function InstructionTicks(m: Machine, i: Instruction, s: State): nat
    requires m.CoreOk(s.core) && InstructionOk(m, i)
  {
    match i.op
    case Accept => 0
    case Open => 1
    case Close => 1
    case Repeat => RepeatTicks(i, s)
    case RepeatEnd => 0
    case _ => UnitTicks(m, i, s.core)
  }

  /** Dispatching an instruction is a step, and it may take more. */
  ghost function Price(m: Machine, s: State): nat {
    1 + if m.CoreOk(s.core) && s.pc < |m.code| && InstructionOk(m, m.code[s.pc]) then
        InstructionTicks(m, m.code[s.pc], s) else 0
  }

  ghost function PriceOf(m: Machine): State -> nat {
    (s: State) => Price(m, s)
  }
}
