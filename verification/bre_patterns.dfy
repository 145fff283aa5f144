/** The token patterns of the generated lexer, as programs of the ordered engine,
    and what each of them matches. */
module BrePatterns {
  import opened OrderedProgram

  datatype Pattern = Pattern(program: Program, token: nat)

  const COUNT := 23

  function Single(unit: nat): Program {
    Program([Instruction(ACCEPT, 0, 0, 0), Instruction(CHAR, unit, 0, 0)], [], 1)
  }

  function Between(first: nat, last: nat): Program {
    Program([Instruction(ACCEPT, 0, 0, 0), Instruction(CLASS, 0, 1, 0)], [Range(first, last)], 1)
  }

  /** A dollar sign, at the end of the text or before a closing parenthesis. */
  function EndDollar(): Program {
    Program([Instruction(ACCEPT, 0, 0, 0), Instruction(ACCEPT, 0, 0, 0), Instruction(CHAR, 41, 0, 1),
             Instruction(CHAR, 92, 0, 2),
             Instruction(ACCEPT, 0, 0, 0), Instruction(CLASS, 0, 21, 4), Instruction(NEGATIVE, 5, 0, 1),
                 Instruction(SPLIT, 6, 3, 0),
             Instruction(POSITIVE, 7, 0, 0), Instruction(CHAR, 36, 0, 8)],
            [Range(9, 13), Range(32, 32), Range(160, 160), Range(5760, 5760), Range(8192, 8202), Range(8232, 8233),
             Range(8239, 8239),
             Range(8287, 8287), Range(12288, 12288), Range(65279, 65279), Range(0, 8), Range(14, 31), Range(33, 159),
                 Range(161, 5759),
             Range(5761, 8191), Range(8203, 8231), Range(8234, 8238), Range(8240, 8286), Range(8288, 12287),
                 Range(12289, 65278),
             Range(65280, 65535)], 9)
  }

  /** An opening bracket before a colon, a dot or an equals sign. */
  function OpenSpecial(): Program {
    Program([Instruction(ACCEPT, 0, 0, 0), Instruction(ACCEPT, 0, 0, 0), Instruction(CLASS, 0, 3, 1),
             Instruction(POSITIVE, 2, 0, 0),
             Instruction(CHAR, 91, 0, 3)],
            [Range(58, 58), Range(46, 46), Range(61, 61)], 4)
  }

  /** A surrogate pair, or a unit outside the listed ranges. */
  function AnyOther(): Program {
    Program([Instruction(ACCEPT, 0, 0, 0), Instruction(NOT_CLASS, 0, 21, 0), Instruction(CLASS, 21, 1, 0),
             Instruction(CLASS, 22, 1, 2),
             Instruction(SPLIT, 3, 1, 0)],
            [Range(48, 57), Range(45, 45), Range(122, 122), Range(0, 0), Range(36, 36), Range(40, 40), Range(41, 41),
             Range(42, 42),
             Range(43, 43), Range(44, 46), Range(58, 58), Range(61, 61), Range(63, 63), Range(91, 91), Range(92, 92),
                 Range(93, 93),
             Range(94, 94), Range(123, 123), Range(124, 124), Range(2010, 2010), Range(55296, 57343),
                 Range(56320, 57343),
             Range(55296, 56319)], 4)
  }

  /** The unit of a pattern that is one unit. */
  function UnitOf(i: nat): nat {
    match i
    case 2 => 92
    case 3 => 40
    case 4 => 41
    case 5 => 123
    case 6 => 125
    case 7 => 91
    case 8 => 93
    case 9 => 94
    case 10 => 36
    case 11 => 42
    case 12 => 46
    case 13 => 43
    case 14 => 63
    case 15 => 124
    case 16 => 45
    case 17 => 58
    case 18 => 61
    case _ => 44
  }

  function ProgramAt(i: nat): Program {
    if i == 0 then EndDollar()
    else if i == 1 then OpenSpecial()
    else if i < 20 then Single(UnitOf(i))
    else if i == 20 then Between(97, 122)
    else if i == 21 then Between(48, 57)
    else AnyOther()
  }

  /** The table, in the order of its tokens; EOF has no pattern. */
  function Patterns(): (r: seq<Pattern>)
    ensures |r| == COUNT && forall i :: 0 <= i < COUNT ==> r[i] == Pattern(ProgramAt(i), i + 2)
  {
    seq(COUNT, i requires 0 <= i < COUNT => Pattern(ProgramAt(i), i + 2))
  }

  // ---------- programs whose edges all lead down ----------

  /** Every edge leads to an earlier instruction. */
  ghost predicate Falling(p: Program) {
    && WellFormed(p)
    && forall i :: 0 <= i < |p.code| ==>
         var c := p.code[i];
         if c.op == ACCEPT then true
         else if c.op == SPLIT then c.first < i && c.second < i
         else c.next < i && (IsAssertion(c.op) ==> c.first < i)
  }

  /** The search of such a program needs no memory of its path. */
  ghost function Plain(p: Program, input: seq<nat>, pc: nat, pos: nat): Answer
    requires Falling(p) && pc < |p.code| && pos <= |input|
    decreases pc
  {
    var c := p.code[pc];
    if c.op == ACCEPT then EndAt(pos)
    else if c.op == SPLIT then
      var first := Plain(p, input, c.first, pos);
      if first == NoMatch then Plain(p, input, c.second, pos) else first
    else if IsAssertion(c.op) then
      var child := Plain(p, input, c.first, pos);
      if child == Invalid then Invalid
      else if child.EndAt? == (c.op == POSITIVE) then Plain(p, input, c.next, pos) else NoMatch
    else if c.op == END then if pos == |input| then Plain(p, input, c.next, pos) else NoMatch
    else
      assert InstructionOk(p, c);
      if pos < |input| && Consumes(p, c, input[pos]) then Plain(p, input, c.next, pos + 1) else NoMatch
  }

  /** No cell is met twice, so nothing is ever cut and no such program is invalid. */
  lemma {:induction false} EvalIsPlain(p: Program, input: seq<nat>, pc: nat, pos: nat, depth: nat, active: map<Cell,
                                       nat>)
    requires Falling(p) && pc < |p.code| && pos <= |input| && forall cell :: cell in active ==> cell.0 > pc
    ensures Eval(p, input, pc, pos, depth, active) == Plain(p, input, pc, pos) != Invalid
    decreases pc
  {
    var c := p.code[pc];
    var path := active[(pc, pos) := depth];
    assert InstructionOk(p, c);
    if c.op == SPLIT {
      EvalIsPlain(p, input, c.first, pos, depth, path);
      EvalIsPlain(p, input, c.second, pos, depth, path);
    } else if IsAssertion(c.op) {
      EvalIsPlain(p, input, c.first, pos, depth + 1, path);
      EvalIsPlain(p, input, c.next, pos, depth, path);
    } else if c.op == END {
      EvalIsPlain(p, input, c.next, pos, depth, path);
    } else if c.op != ACCEPT && pos < |input| {
      EvalIsPlain(p, input, c.next, pos + 1, depth, path);
    }
  }

  // ---------- what the patterns match ----------

  predicate Pair(input: seq<nat>, pos: nat) {
    pos + 1 < |input| && 0xD800 <= input[pos] < 0xDC00 <= input[pos + 1] < 0xE000
  }

  /** The units that the last pattern leaves out. */
  predicate Excluded(unit: nat) {
    || unit == 0 || unit == 36 || 40 <= unit <= 46 || 48 <= unit <= 57 || unit == 58 || unit == 61 || unit == 63
    || 91 <= unit <= 94 || 122 <= unit <= 124 || unit == 0x7DA || 0xD800 <= unit <= 0xDFFF
  }

  /** Where pattern `i` ends when it is tried at `pos`. */
  function EndOf(i: nat, input: seq<nat>, pos: nat): Answer
    requires pos < |input|
  {
    var unit := input[pos];
    if i == 0 then
      if unit == 36 && (pos + 1 == |input| || (pos + 2 < |input| && input[pos + 1] == 92 && input[pos + 2] == 41)) then
        EndAt(pos + 1)
      else NoMatch
    else if i == 1 then
      if unit == 91 && pos + 1 < |input| && input[pos + 1] in [58, 46, 61] then EndAt(pos + 1) else NoMatch
    else if i < 20 then if unit == UnitOf(i) then EndAt(pos + 1) else NoMatch
    else if i == 20 then if 97 <= unit <= 122 then EndAt(pos + 1) else NoMatch
    else if i == 21 then if 48 <= unit <= 57 then EndAt(pos + 1) else NoMatch
    else if Pair(input, pos) then EndAt(pos + 2)
    else if Excluded(unit) then NoMatch
    else EndAt(pos + 1)
  }

  /** All ranges of a table are in order. */
  ghost predicate Ranged(p: Program) {
    forall i :: 0 <= i < |p.ranges| ==> RangeOk(p.ranges[i])
  }

  lemma {:induction false} EndDollarRanged()
    ensures Ranged(EndDollar()) && |EndDollar().ranges| == 21
  {
  }

  lemma {:induction false} AnyOtherRanged()
    ensures Ranged(AnyOther()) && |AnyOther().ranges| == 23
  {
  }

  /** Instruction `i` of the first pattern leads down. */
  lemma {:induction false} EndDollarFalls(i: nat)
    requires i < 10 && |EndDollar().ranges| == 21
    ensures var p := EndDollar(); var c := p.code[i];
            && |p.code| == 10 && InstructionOk(p, c)
            && (c.op != ACCEPT ==> if c.op == SPLIT then c.first < i && c.second < i
                                   else c.next < i
                                        && (IsAssertion(c.op) ==> c.first < i))
  {
  }

  lemma {:induction false} FallsEndDollar()
    ensures Falling(EndDollar())
  {
    EndDollarRanged();
    forall i | 0 <= i < 10
      ensures var p := EndDollar(); var c := p.code[i];
              && |p.code| == 10 && InstructionOk(p, c)
              && (c.op != ACCEPT ==> if c.op == SPLIT then c.first < i && c.second < i
                                     else c.next < i
                                          && (IsAssertion(c.op) ==> c.first < i))
    {
      EndDollarFalls(i);
    }
  }

  lemma {:induction false} FallsAnyOther()
    ensures Falling(AnyOther())
  {
    AnyOtherRanged();
  }

  lemma {:induction false} FallsOpenSpecial()
    ensures Falling(OpenSpecial())
  {
  }

  lemma {:induction false} Falls(i: nat)
    requires i < COUNT
    ensures Falling(ProgramAt(i))
  {
    if i == 0 {
      FallsEndDollar();
    } else if i == 1 {
      FallsOpenSpecial();
    } else if i == 22 {
      FallsAnyOther();
    }
  }

  /** Each program matches what it is meant to. */
  lemma {:induction false} PatternEnds(i: nat, input: seq<nat>, pos: nat)
    requires i < COUNT && pos < |input| && forall k :: 0 <= k < |input| ==> input[k] <= MAX_UNIT
    ensures Falling(ProgramAt(i)) && Plain(ProgramAt(i), input, ProgramAt(i).entry, pos) == EndOf(i, input, pos)
  {
    Falls(i);
    if i == 0 {
      EndDollarEnds(input, pos);
    } else if i == 1 {
      OpenSpecialEnds(input, pos);
    } else if i < 20 {
      SingleEnds(UnitOf(i), input, pos);
    } else if i < 22 {
      BetweenEnds(ProgramAt(i).ranges[0].first, ProgramAt(i).ranges[0].last, input, pos);
    } else {
      AnyOtherEnds(input, pos);
    }
  }

  lemma {:induction false} SingleEnds(unit: nat, input: seq<nat>, pos: nat)
    requires pos < |input| && Falling(Single(unit))
    ensures Plain(Single(unit), input, 1, pos) == if input[pos] == unit then EndAt(pos + 1) else NoMatch
  {
    if input[pos] == unit {
      assert Plain(Single(unit), input, 0, pos + 1) == EndAt(pos + 1);
    }
  }

  lemma {:induction false} BetweenEnds(first: nat, last: nat, input: seq<nat>, pos: nat)
    requires pos < |input| && Falling(Between(first, last))
    ensures Plain(Between(first, last), input, 1, pos) == if first <= input[pos] <= last then EndAt(pos + 1)
            else NoMatch
  {
    var p := Between(first, last);
    assert p.ranges[0] == Range(first, last);
    if first <= input[pos] <= last {
      assert Plain(p, input, 0, pos + 1) == EndAt(pos + 1);
    }
  }

  lemma {:induction false} OpenSpecialEnds(input: seq<nat>, pos: nat)
    requires pos < |input| && Falling(OpenSpecial())
    ensures Plain(OpenSpecial(), input, 4, pos) == EndOf(1, input, pos)
  {
    var p := OpenSpecial();
    if input[pos] == 91 {
      assert Plain(p, input, 3, pos + 1) == EndOf(1, input, pos) by {
        if pos + 1 < |input| {
          var u := input[pos + 1];
          assert InClass(p, p.code[2], u) <==> u in [58, 46, 61] by {
            assert p.ranges[0].first <= u <= p.ranges[0].last <==> u == 58;
            assert p.ranges[1].first <= u <= p.ranges[1].last <==> u == 46;
            assert p.ranges[2].first <= u <= p.ranges[2].last <==> u == 61;
          }
          assert Plain(p, input, 1, pos + 2) == EndAt(pos + 2);
        }
        assert Plain(p, input, 0, pos + 1) == EndAt(pos + 1);
      }
    }
  }

  /** The 21 ranges of the first pattern are all units. */
  lemma {:induction false} AnyUnit(unit: nat)
    requires unit <= MAX_UNIT
    ensures exists k :: 0 <= k < 21 && EndDollar().ranges[k].first <= unit <= EndDollar().ranges[k].last
  {
    var r := EndDollar().ranges;
    var k := if unit <= 8 then 10 else if unit <= 13 then 0 else if unit <= 31 then 11 else if unit == 32 then 1
      else if unit <= 159 then 12
             else if unit == 160 then 2 else if unit <= 5759 then 13 else if unit == 5760 then 3
             else if unit <= 8191 then 14
             else if unit <= 8202 then 4 else if unit <= 8231 then 15 else if unit <= 8233 then 5
             else if unit <= 8238 then 16
             else if unit == 8239 then 6 else if unit <= 8286 then 17 else if unit == 8287 then 7
             else if unit <= 12287 then 18
             else if unit == 12288 then 8 else if unit <= 65278 then 19 else if unit == 65279 then 9 else 20;
    assert r[k].first <= unit <= r[k].last;
  }

  lemma {:induction false} EndDollarEnds(input: seq<nat>, pos: nat)
    requires pos < |input| && Falling(EndDollar()) && forall k :: 0 <= k < |input| ==> input[k] <= MAX_UNIT
    ensures Plain(EndDollar(), input, 9, pos) == EndOf(0, input, pos)
  {
    var p := EndDollar();
    if input[pos] == 36 {
      NoMore(input, pos + 1);
      ParenAhead(input, pos + 1);
      assert Plain(p, input, 0, pos + 1) == EndAt(pos + 1);
      assert Plain(p, input, 8, pos + 1) == EndOf(0, input, pos);
    }
  }

  /** The negative assertion holds at the end only. */
  lemma {:induction false} NoMore(input: seq<nat>, at: nat)
    requires at <= |input| && Falling(EndDollar()) && forall k :: 0 <= k < |input| ==> input[k] <= MAX_UNIT
    ensures Plain(EndDollar(), input, 6, at) == if at == |input| then EndAt(at) else NoMatch
  {
    var p := EndDollar();
    if at < |input| {
      AnyUnit(input[at]);
      assert InClass(p, p.code[5], input[at]);
      assert Plain(p, input, 4, at + 1) == EndAt(at + 1);
    }
    assert Plain(p, input, 1, at) == EndAt(at);
  }

  lemma {:induction false} ParenAhead(input: seq<nat>, at: nat)
    requires at <= |input| && Falling(EndDollar())
    ensures Plain(EndDollar(), input, 3, at) == if at + 1 < |input| && input[at] == 92
            && input[at + 1] == 41 then EndAt(at + 2) else NoMatch
  {
    var p := EndDollar();
    if at < |input| && input[at] == 92 {
      if at + 1 < |input| && input[at + 1] == 41 {
        assert Plain(p, input, 1, at + 2) == EndAt(at + 2);
      }
      assert Plain(p, input, 2, at + 1) == if at + 1 < |input| && input[at + 1] == 41 then EndAt(at + 2) else NoMatch;
    }
  }

  /** The ranges before the last two are the excluded units. */
  lemma {:induction false} ExcludedRanges(unit: nat)
    ensures Excluded(unit) <==> exists k :: 0 <= k < 21
                                  && AnyOther().ranges[k].first <= unit <= AnyOther().ranges[k].last
  {
    if Excluded(unit) {
      InSomeRange(unit);
    } else {
      forall k | 0 <= k < 21
        ensures var r := AnyOther().ranges[k]; !(r.first <= unit <= r.last)
      {
        NotInRange(unit, k);
      }
    }
  }

  lemma {:induction false} InSomeRange(unit: nat)
    requires Excluded(unit)
    ensures exists k :: 0 <= k < 21 && AnyOther().ranges[k].first <= unit <= AnyOther().ranges[k].last
  {
    if unit <= 57 {
      InLowRange(unit);
    } else {
      InHighRange(unit);
    }
  }

  lemma {:induction false} InLowRange(unit: nat)
    requires Excluded(unit) && unit <= 57
    ensures exists k :: 0 <= k < 10 && AnyOther().ranges[k].first <= unit <= AnyOther().ranges[k].last
  {
    var k := if 48 <= unit then 0 else if unit == 0 then 3 else if unit == 36 then 4 else if unit == 40 then 5
             else if unit == 41 then 6 else if unit == 42 then 7 else if unit == 43 then 8 else 9;
    assert AnyOther().ranges[k].first <= unit <= AnyOther().ranges[k].last;
  }

  lemma {:induction false} InHighRange(unit: nat)
    requires Excluded(unit) && unit > 57
    ensures exists k :: 0 <= k < 21 && AnyOther().ranges[k].first <= unit <= AnyOther().ranges[k].last
  {
    var k := if unit == 58 then 10 else if unit == 61 then 11 else if unit == 63 then 12 else if unit == 91 then 13
             else if unit == 92 then 14 else if unit == 93 then 15 else if unit == 94 then 16 else if unit == 122 then 2
             else if unit == 123 then 17 else if unit == 124 then 18 else if unit == 0x7DA then 19 else 20;
    assert AnyOther().ranges[k].first <= unit <= AnyOther().ranges[k].last;
  }

  lemma {:induction false} NotInRange(unit: nat, k: nat)
    requires !Excluded(unit) && k < 21
    ensures var r := AnyOther().ranges[k]; !(r.first <= unit <= r.last)
  {
    var r := AnyOther().ranges[k];
    assert r in AnyOther().ranges[..21];
  }

  lemma {:induction false} AnyOtherEnds(input: seq<nat>, pos: nat)
    requires pos < |input| && Falling(AnyOther())
    ensures Plain(AnyOther(), input, 4, pos) == EndOf(22, input, pos)
  {
    var p := AnyOther();
    ExcludedRanges(input[pos]);
    assert InClass(p, p.code[1], input[pos]) <==> Excluded(input[pos]);
    assert Plain(p, input, 0, pos + 1) == EndAt(pos + 1);
    assert Plain(p, input, 1, pos) == if Excluded(input[pos]) then NoMatch else EndAt(pos + 1);
    PairEnds(input, pos);
  }

  lemma {:induction false} PairEnds(input: seq<nat>, pos: nat)
    requires pos < |input| && Falling(AnyOther())
    ensures Plain(AnyOther(), input, 3, pos) == if Pair(input, pos) then EndAt(pos + 2) else NoMatch
  {
    var p := AnyOther();
    assert p.ranges[22] == Range(55296, 56319) && p.ranges[21] == Range(56320, 57343);
    assert InClass(p, p.code[3], input[pos]) <==> 55296 <= input[pos] <= 56319;
    if pos + 1 < |input| {
      assert InClass(p, p.code[2], input[pos + 1]) <==> 56320 <= input[pos + 1] <= 57343;
      assert Plain(p, input, 0, pos + 2) == EndAt(pos + 2);
    }
    assert Plain(p, input, 2, pos + 1) ==
           if pos + 1 < |input| && 56320 <= input[pos + 1] <= 57343 then EndAt(pos + 2) else NoMatch;
  }
}
