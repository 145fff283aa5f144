/** Instruction graphs of the ordered engine, their structural validation, and
    the meaning of a graph: an ordered depth-first search that remembers only
    the cells on the path it is currently following. */
module OrderedProgram {

  const ACCEPT := 0
  const CHAR := 1
  const SPLIT := 2
  const CLASS := 3
  const NOT_CLASS := 4
  const END := 5
  const NEGATIVE := 6
  const POSITIVE := 7

  const MAX_UNIT := 65535
  const INT_MAX := 0x7fff_ffff

  datatype Instruction = Instruction(op: int, first: nat, second: nat, next: nat)

  datatype Range = Range(first: nat, last: nat)

  datatype Program = Program(code: seq<Instruction>, ranges: seq<Range>, entry: nat)

  /** What the search says about one cell. */
  datatype Answer = Invalid | NoMatch | EndAt(end: nat)

  /** An instruction paired with an input position. */
  type Cell = (nat, nat)

  predicate IsAssertion(op: int) {
    op == NEGATIVE || op == POSITIVE
  }

  predicate RangeOk(r: Range) {
    r.first <= r.last <= MAX_UNIT
  }

  predicate InstructionOk(p: Program, c: Instruction) {
    && ACCEPT <= c.op <= POSITIVE
    && (c.op == SPLIT ==> c.first < |p.code| && c.second < |p.code|)
    && (c.op != ACCEPT && c.op != SPLIT ==> c.next < |p.code|)
    && (c.op == CHAR ==> c.first <= MAX_UNIT)
    && (IsAssertion(c.op) ==> c.first < |p.code|)
    && (c.op == CLASS || c.op == NOT_CLASS ==> c.first + c.second <= |p.ranges|)
  }

  predicate WellFormed(p: Program) {
    && p.entry < |p.code|
    && (forall i :: 0 <= i < |p.ranges| ==> RangeOk(p.ranges[i]))
    && (forall i :: 0 <= i < |p.code| ==> InstructionOk(p, p.code[i]))
  }

  /** Structural validation: every edge, range and operand is checked before a run. */
  method Validate(p: Program) returns (ok: bool)
    ensures ok <==> WellFormed(p)
  {
    if |p.code| == 0 || p.entry >= |p.code| {
      return false;
    }
    for index := 0 to |p.ranges|
      invariant forall i :: 0 <= i < index ==> RangeOk(p.ranges[i])
    {
      if p.ranges[index].first > p.ranges[index].last || p.ranges[index].last > MAX_UNIT {
        return false;
      }
    }
    var index := 0;
    while index < |p.code|
      invariant 0 <= index <= |p.code|
      invariant forall i :: 0 <= i < index ==> InstructionOk(p, p.code[i])
    {
      var code := p.code[index];
      if code.op < ACCEPT || code.op > POSITIVE {
        return false;
      }
      if code.op == ACCEPT {
        index := index + 1;
        continue;
      }
      if code.op == SPLIT {
        if code.first >= |p.code| || code.second >= |p.code| {
          return false;
        }
        index := index + 1;
        continue;
      }
      if code.next >= |p.code| {
        return false;
      }
      if code.op == CHAR && code.first > MAX_UNIT {
        return false;
      }
      if IsAssertion(code.op) && code.first >= |p.code| {
        return false;
      }
      if code.op == CLASS || code.op == NOT_CLASS {
        if code.first > |p.ranges| || code.second > |p.ranges| - code.first {
          return false;
        }
      }
      index := index + 1;
    }
    return true;
  }

  /** Some range of the instruction's class holds the unit. */
  ghost predicate InClass(p: Program, c: Instruction, unit: nat)
    requires c.first + c.second <= |p.ranges|
  {
    exists k :: c.first <= k < c.first + c.second && p.ranges[k].first <= unit <= p.ranges[k].last
  }

  /** The instruction accepts one input unit. */
  ghost predicate Consumes(p: Program, c: Instruction, unit: nat)
    requires InstructionOk(p, c)
  {
    if c.op == CHAR then unit == c.first
    else if c.op == CLASS then InClass(p, c, unit)
    else c.op == NOT_CLASS && !InClass(p, c, unit)
  }

  method MatchesUnit(p: Program, c: Instruction, unit: nat) returns (matches: bool)
    requires InstructionOk(p, c)
    ensures matches <==> Consumes(p, c, unit)
  {
    matches := c.op == CHAR && unit == c.first;
    if c.op == CLASS || c.op == NOT_CLASS {
      matches := false;
      var index := 0;
      while index < c.second
        invariant 0 <= index <= c.second
        invariant !matches
        invariant forall k :: c.first <= k < c.first + index ==> !(p.ranges[k].first <= unit <= p.ranges[k].last)
      {
        var range := p.ranges[c.first + index];
        if unit >= range.first && unit <= range.last {
          matches := true;
          break;
        }
        index := index + 1;
      }
      assert matches <==> InClass(p, c, unit);
      if c.op == NOT_CLASS {
        matches := !matches;
      }
    }
  }

  /** The cells a search from `start` can visit. */
  ghost function Cells(p: Program, input: seq<nat>, start: nat): set<Cell> {
    set pc, pos | 0 <= pc < |p.code| && start <= pos <= |input| :: (pc, pos)
  }

  /** The unmemoised ordered search. `active` maps every cell of the current
      path to the assertion depth it was entered at: meeting one again at the
      same depth cuts the branch, at another depth the program is invalid. */
  ghost function Eval(p: Program, input: seq<nat>, pc: nat, pos: nat, depth: nat, active: map<Cell, nat>): Answer
    requires WellFormed(p) && pc < |p.code| && pos <= |input|
    decreases Cells(p, input, 0) - active.Keys
  {
    var cell := (pc, pos);
    if cell in active then
      if active[cell] == depth then NoMatch else Invalid
    else
      assert cell in Cells(p, input, 0);
      var path := active[cell := depth];
      assert path.Keys == active.Keys + {cell};
      var c := p.code[pc];
      assert InstructionOk(p, c);
      if c.op == ACCEPT then
        EndAt(pos)
      else if c.op == SPLIT then
        var first := Eval(p, input, c.first, pos, depth, path);
        if first == NoMatch then Eval(p, input, c.second, pos, depth, path) else first
      else if IsAssertion(c.op) then
        var child := Eval(p, input, c.first, pos, depth + 1, path);
        if child == Invalid then Invalid
        else if child.EndAt? == (c.op == POSITIVE) then Eval(p, input, c.next, pos, depth, path)
        else NoMatch
      else if c.op == END then
        if pos == |input| then Eval(p, input, c.next, pos, depth, path) else NoMatch
      else if pos < |input| && Consumes(p, c, input[pos]) then
        Eval(p, input, c.next, pos + 1, depth, path)
      else NoMatch
  }
}
