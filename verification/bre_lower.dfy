/** Lowering as it runs: the node array is numbered front to back, then its
    nodes are lowered back to front into the code array, links patched in place. */
module BreLower {
  import opened BreProgram
  import opened BreSyntax
  import opened BreStatus
  import opened BreLowerSpec
  import opened BreLowerCorrect
  import opened BreLowerBounds
  import opened Folding
  import opened BreQuantity
  import opened BreOperands
  import opened BreDecode
  import opened BreNodes

  class Compiler {
    const nodes: array<BreNode>
    const code: array<Instruction>
    const positions: array<nat>
    const decoder: Decoder
    ghost const kinds: seq<Kind>
    const limits: CompileLimits
    var codeCount: nat
    var groups: nat
    var depth: nat
    var steps: nat
    var repeatBound: nat

    /** What never changes: what is decoded, and the shape of the array. */
    ghost predicate Shaped()
      reads nodes
    {
      && Settled(decoder.source, kinds, nodes[..]) && nodes.Length == |kinds| == |decoder.source.nodes|
      && decoder.source.Ok() && positions.Length == SLOTS && limits.Ok() && code.Length < NONE
    }

    ghost predicate Valid()
      reads this, nodes
    {
      Shaped() && codeCount <= code.Length && groups <= limits.maxCaptures
    }

    /** The nodes with their operands. */
    ghost function View(): (r: seq<BreNode>)
      requires Shaped()
      reads nodes
      ensures |r| == nodes.Length && RangesOk(r) && ParentsOk(r)
    {
      SettledRanges(decoder.source, kinds, nodes[..]);
      Dressed(nodes[..], kinds)
    }

    /** What is known about one node. */
    lemma {:induction false} NodeAt(i: nat)
      requires Shaped() && i < nodes.Length
      ensures RoughNode(decoder.source, kinds, i, nodes[i]) && View()[i] == nodes[i].(kind := kinds[i])
    {
      SettledAt(decoder.source, kinds, nodes[..], i);
    }

    /** The bounds of the last quantifier of a piece. */
    method PieceBounds(i: nat, q: nat) returns (b: Bounds)
      requires Shaped() && decoder.Valid() && i < nodes.Length && nodes[i].kind.PieceNode? && q < nodes.Length
      requires nodes[q].kind.Quantifier?
      requires LastQuantifier(decoder.source, i, i + 1, NONE) == q
      ensures kinds[i] == PieceNode(BoundsStatus(b)) && (b.Bounds? ==> kinds[q] == Quantifier(b.min, b.max))
    {
      b := decoder.Quantity(q);
      SettledAt(decoder.source, kinds, nodes[..], i);
      SettledAt(decoder.source, kinds, nodes[..], q);
      assert Shown(0);
    }

    /** A piece without a quantifier cannot fail. */
    lemma {:induction false} PieceAt(i: nat)
      requires Shaped() && nodes.Length < NONE && i < nodes.Length && nodes[i].kind.PieceNode?
      requires LastQuantifier(decoder.source, i, i + 1, NONE) == NONE
      ensures kinds[i] == PieceNode(Ok)
    {
      SettledAt(decoder.source, kinds, nodes[..], i);
      assert Shown(0);
    }

    ghost function TheEnv(): Env
      reads this, positions
    {
      Env(groups, positions[..], code.Length, decoder.ranges.Length, Allowance())
    }

    /** The steps that are left for the second pass. */
    function Allowance(): nat {
      if nodes.Length > limits.maxSteps then 0 else limits.maxSteps - nodes.Length
    }

    constructor (source: Source, ghost kinds: seq<Kind>, capacity: nat, rangeCapacity: nat, limits: CompileLimits)
      requires limits.Ok() && capacity < NONE && KindsOf(source, kinds)
      requires forall k :: 0 <= k < |source.nodes| ==> -1 <= source.nodes[k].parent < k
      ensures Valid() && fresh(nodes) && fresh(code) && fresh(positions) && fresh(decoder) && fresh(decoder.ranges)
      ensures code.Length == capacity && decoder.ranges.Length == rangeCapacity && this.limits == limits
      ensures this.kinds == kinds
      ensures Parsed(source, kinds, View()) && decoder.source == source && decoder.Valid() && decoder.Table() == []
      ensures codeCount == 0 && groups == 0 && depth == 0 && steps == 0 && repeatBound == 0
    {
      this.limits := limits;
      nodes := new BreNode[|source.nodes|](i requires 0 <= i < |source.nodes| =>
        BreNode(BlankAt(source, i), source.nodes[i].end, source.nodes[i].parent, NONE, NONE, 0));
      code := new Instruction[capacity](_ => Emit(Accept, 0, 0));
      positions := new nat[SLOTS](_ => 0);
      decoder := new Decoder(source, rangeCapacity);
      this.kinds := kinds;
      codeCount, groups, depth, steps, repeatBound := 0, 0, 0, 0, 0;
      new;
      RoughAtFirst(source, kinds, nodes[..]);
    }

    /** The first `i` nodes of `source` have been seen: their groups are numbered
        in order, with places and nesting recorded, and nothing else changed. */
    ghost predicate Numbered(source: seq<BreNode>, i: nat)
      reads this, nodes, positions
    {
      && Shaped() && i <= |source| && Seen(source, i, groups, positions[..], View())
      && groups <= limits.maxCaptures && depth == MaxDepth(source, i) <= limits.maxParseDepth
    }

    /** First pass: numbers the groups and checks their number and nesting. */
    method Number() returns (status: Status)
      requires Valid() && groups == 0 && depth == 0 && steps == 0
      modifies this`groups, this`depth, this`steps, nodes, positions
      ensures Valid() && status == Survey(old(View()), limits, 0)
      ensures status == Ok ==> Numbered(old(View()), nodes.Length) && steps == nodes.Length <= limits.maxSteps
    {
      ghost var source := View();
      SeenNothing(source, positions[..]);
      status := Ok;
      var i := 0;
      while i < nodes.Length
        invariant Numbered(source, i) && steps == i <= limits.maxSteps && status == Ok && codeCount <= code.Length
        invariant Survey(source, limits, i) == Survey(source, limits, 0)
      {
        status := NumberNode(source, i);
        if status != Ok {
          break;
        }
        i := i + 1;
      }
    }

    /** One node of the first pass. */
    method NumberNode(ghost source: seq<BreNode>, i: nat) returns (status: Status)
      requires RangesOk(source) && ParentsOk(source) && i < nodes.Length && Numbered(source, i)
      requires steps == i <= limits.maxSteps
      modifies this`groups, this`depth, this`steps, nodes, positions
      ensures Shaped() && groups <= limits.maxCaptures && status == NodeSurvey(source, limits, i)
      ensures status == Ok ==> Numbered(source, i + 1) && steps == i + 1 <= limits.maxSteps
    {
      NodeAt(i);
      SeenAt(source, i, groups, positions[..], View(), i);
      if steps == limits.maxSteps {
        return Limit;
      }
      steps := steps + 1;
      if nodes[i].kind.UnsupportedNode? {
        return Unsupported;
      }
      status := Ok;
      if nodes[i].kind.GroupNode? {
        status := NumberGroup(source, i);
      } else {
        SeenMore(source, i, groups, positions[..], View());
      }
    }

    /** A group of the first pass. */
    method NumberGroup(ghost source: seq<BreNode>, i: nat) returns (status: Status)
      requires ParentsOk(source) && i < nodes.Length && Numbered(source, i) && nodes[i].kind.GroupNode?
      modifies this`groups, this`depth, nodes, positions
      ensures Shaped() && groups <= limits.maxCaptures
      ensures status == Ok ==> Numbered(source, i + 1)
      ensures status == if GroupCount(source, i) >= limits.maxCaptures || DepthAt(source, i) > limits.maxParseDepth
              then Limit else Ok
    {
      NodeAt(i);
      SeenAt(source, i, groups, positions[..], View(), i);
      if groups == limits.maxCaptures {
        return Limit;
      }
      SeenGroup(source, i, groups, positions[..], View());
      MarkGroup(i);
      var d := GroupDepthOf(source, i);
      if d > limits.maxParseDepth {
        return Limit;
      }
      if d > depth {
        depth := d;
      }
      status := Ok;
    }

    /** Gives a group its number. */
    method MarkGroup(i: nat)
      requires Shaped() && i < nodes.Length && groups + 1 < SLOTS
      modifies this`groups, nodes, positions
      ensures Shaped() && groups == old(groups) + 1 && positions[..] == old(positions[..])[groups := i]
      ensures View() == old(View())[i := old(View())[i].(group := groups)] && nodes[i].kind == old(nodes[i].kind)
    {
      ghost var rough := nodes[..];
      groups := groups + 1;
      nodes[i] := nodes[i].(group := groups);
      positions[groups] := i;
      assert nodes[..] == rough[i := rough[i].(group := groups)];
      SettledUpdate(decoder.source, kinds, rough, i, nodes[i]);
      DressedUpdate(rough, kinds, i, nodes[i]);
    }

    /** Nesting depth of a group: itself and the groups among its ancestors. */
    method GroupDepthOf(ghost source: seq<BreNode>, i: nat) returns (d: nat)
      requires Shaped() && ParentsOk(source) && i < nodes.Length && nodes[i].kind.GroupNode?
      requires i < |source| && Seen(source, i + 1, groups, positions[..], View())
      ensures d == DepthAt(source, i)
    {
      ghost var view := View();
      NodeAt(i);
      SeenAt(source, i + 1, groups, positions[..], view, i);
      d := 1;
      var a := nodes[i].parent;
      while a >= 0
        invariant -1 <= a < i
        invariant d + DepthAt(source, a) == DepthAt(source, i)
        decreases a
      {
        NodeAt(a);
        SeenAt(source, i + 1, groups, positions[..], view, a);
        if nodes[a].kind.GroupNode? {
          d := d + 1;
        }
        a := nodes[a].parent;
      }
    }

    // ---------- second pass ----------

    /** Numbered groups point into the array, and every recorded tail is emitted code. */
    ghost predicate Lowering()
      reads this, nodes, code, positions
    {
      Valid() && nodes.Length < NONE && Tied(nodes[..], groups, positions[..], codeCount)
    }

    /** What is recorded at one node. */
    lemma {:induction false} RecordedAt(k: nat)
      requires Lowering() && k < nodes.Length
      ensures nodes[k].kind.GroupNode? ==> 1 <= nodes[k].group <= groups
      ensures (nodes[k].entry == NONE <==> nodes[k].tail == NONE)
      ensures (nodes[k].entry != NONE ==> nodes[k].tail < codeCount)
      ensures forall g :: 1 <= g <= groups ==> positions[g] < nodes.Length
    {
      TiedAt(nodes[..], groups, positions[..], codeCount, k);
    }

    ghost function Code(): seq<Instruction>
      requires codeCount <= code.Length
      reads this, code
    {
      code[..codeCount]
    }

    /** Appends an instruction; NONE when the code array is full. */
    method EmitCode(op: Op, a: nat, b: nat) returns (id: nat)
      requires codeCount <= code.Length < NONE
      modifies this`codeCount, code
      ensures codeCount <= code.Length
      ensures old(codeCount) == code.Length ==> id == NONE && Code() == old(Code())
      ensures old(codeCount) < code.Length ==> id == old(codeCount) && Code() == old(Code()) + [Emit(op, a, b)]
    {
      if codeCount == code.Length {
        return NONE;
      }
      id := codeCount;
      code[id] := Instruction(op, a, b, NONE, 0, 0);
      codeCount := codeCount + 1;
    }

    /** Emitting keeps what is recorded. */
    twostate lemma EmittedKeeps()
      requires old(Lowering()) && unchanged(nodes, positions, this`groups) && old(codeCount) <= codeCount <= code.Length
      ensures Lowering()
    {
      TiedEmit(nodes[..], groups, positions[..], old(codeCount), codeCount);
    }

    /** Patches one link in place. */
    method Patch(at: nat, next: nat)
      requires at < codeCount <= code.Length
      modifies code
      ensures Code() == SetNext(old(Code()), at, next)
    {
      code[at] := code[at].(next := next);
    }

    /** The nodes as the parse has them. */
    lemma {:induction false} ViewParsed()
      requires Shaped()
      ensures forall k: nat {:trigger View()[k]} :: k < nodes.Length ==> LikeParsed(decoder.source, k, View()[k])
    {
      forall k: nat {:trigger View()[k]} | k < nodes.Length
        ensures LikeParsed(decoder.source, k, View()[k])
      {
        NodeAt(k);
      }
    }

    /** Chains the children of node `i`. */
    method LinkChildren(i: nat) returns (entry: nat, tail: nat, quantifier: nat)
      requires Lowering() && i < nodes.Length
      modifies code
      ensures Lowering() && (entry == NONE <==> tail == NONE)
      ensures quantifier == NONE || (quantifier < nodes.Length && nodes[quantifier].kind.Quantifier?)
      ensures quantifier == LastQuantifier(decoder.source, i, i + 1, NONE)
      ensures Chain(Code(), entry, tail, quantifier) == Link(View(), i, i + 1, Chain(old(Code()), NONE, NONE, NONE))
      ensures entry != NONE ==> tail < codeCount
    {
      ViewParsed();
      ghost var whole := LinksFirst(decoder.source, View(), i, Code());
      entry, tail, quantifier := LinkAll(i, whole);
    }

    method LinkAll(i: nat, ghost whole: Chain) returns (entry: nat, tail: nat, quantifier: nat)
      requires Lowering() && i < nodes.Length
      requires Links(decoder.source, View(), i, i + 1, Chain(Code(), NONE, NONE, NONE), whole)
      modifies code
      ensures Lowering() && (entry == NONE <==> tail == NONE) && (entry != NONE ==> tail < codeCount)
      ensures quantifier == NONE || (quantifier < nodes.Length && nodes[quantifier].kind.Quantifier?)
      ensures Chain(Code(), entry, tail, quantifier) == whole
    {
      NodeAt(i);
      entry, tail, quantifier := NONE, NONE, NONE;
      var j := i + 1;
      while j < nodes[i].end
        invariant i < j <= nodes.Length
        invariant (entry == NONE <==> tail == NONE) && (entry != NONE ==> tail < codeCount)
        invariant quantifier == NONE || (quantifier < nodes.Length && nodes[quantifier].kind.Quantifier?)
        invariant Links(decoder.source, View(), i, j, Chain(Code(), entry, tail, quantifier), whole)
        decreases nodes.Length - j
      {
        ghost var before := Chain(Code(), entry, tail, quantifier);
        var end := nodes[j].end;
        NodeAt(j);
        entry, tail, quantifier := LinkChild(i, j, entry, tail, quantifier);
        LinksOn(decoder.source, View(), i, j, before, Chain(Code(), entry, tail, quantifier), whole);
        j := end;
      }
      LinksLast(decoder.source, View(), i, j, Chain(Code(), entry, tail, quantifier), whole);
    }

    /** Appends a node to the chain when it is a child of node `i`. */
    method LinkChild(i: nat, j: nat, first: nat, last: nat, seen: nat) returns (entry: nat, tail: nat, quantifier: nat)
      requires Lowering() && i < nodes.Length && j < nodes.Length
      requires (first == NONE <==> last == NONE) && (first != NONE ==> last < codeCount)
      requires seen == NONE || (seen < nodes.Length && nodes[seen].kind.Quantifier?)
      modifies code
      ensures (entry == NONE <==> tail == NONE) && (entry != NONE ==> tail < codeCount)
      ensures quantifier == NONE || (quantifier < nodes.Length && nodes[quantifier].kind.Quantifier?)
      ensures var before := Chain(old(Code()), first, last, seen);
              Chain(Code(), entry, tail, quantifier) ==
              if View()[j].parent != i then before else LinkOne(before, View()[j], j)
    {
      entry, tail, quantifier := first, last, seen;
      var child := nodes[j];
      NodeAt(j);
      RecordedAt(j);
      if child.parent == i {
        if child.entry != NONE {
          if entry == NONE {
            entry := child.entry;
          } else {
            Patch(tail, child.entry);
          }
          tail := child.tail;
        }
        if child.kind.Quantifier? {
          quantifier := j;
        }
      }
    }

    /** Records a node's entry and tail. */
    method Record(i: nat, entry: nat, tail: nat)
      requires Lowering() && i < nodes.Length && (entry != NONE ==> tail < codeCount)
      requires (entry == NONE <==> tail == NONE)
      modifies nodes
      ensures Lowering() && Lowered(View(), Code()) == Finish(old(View()), Code(), i, entry, tail)
    {
      ghost var rough := nodes[..];
      nodes[i] := nodes[i].(entry := entry, tail := tail);
      assert nodes[..] == rough[i := rough[i].(entry := entry, tail := tail)];
      SettledUpdate(decoder.source, kinds, rough, i, nodes[i]);
      DressedUpdate(rough, kinds, i, nodes[i]);
      TiedRecord(rough, groups, positions[..], codeCount, i, entry, tail);
    }

    /** The classes behind node `i` are in the range table. */
    ghost predicate Decoded(i: nat)
      reads this, decoder, decoder.ranges
    {
      decoder.Valid() && IsTable(decoder.source, i, decoder.Table())
    }

    /** A node that is one instruction: its operands are decoded first. */
    method LowerUnit(i: nat) returns (status: Status)
      requires Lowering() && i < nodes.Length && nodes[i].kind.UnitNode? && Decoded(i + 1) && steps <= limits.maxSteps
      requires kinds[i].UnitNode?
      requires EffortFrom(View(), i) > Allowance() <==> steps + kinds[i].work > limits.maxSteps
      modifies this`codeCount, this`steps, code, nodes, decoder, decoder.ranges
      ensures Lowering() && steps <= limits.maxSteps
      ensures status == Ok ==>
                && Becomes(TheEnv(), old(View()), old(Code()), i, Lowered(View(), Code())) && Decoded(i)
                && steps == old(steps) + kinds[i].work && Raises(old(View()), old(Code()), i, repeatBound, repeatBound)
      ensures status != Ok ==> Becomes(TheEnv(), old(View()), old(Code()), i, Failed(status))
    {
      NodeAt(i);
      RecordedAt(i);
      SettledAt(decoder.source, kinds, nodes[..], i);
      var op, a, b;
      status, op, a, b, steps := decoder.Unit(i, kinds[i], steps, limits.maxSteps);
      if status != Ok {
        return;
      }
      if op.Ref? {
        if a == 0 || a > groups || nodes[positions[a]].end > i {
          return BadPattern;
        }
      }
      label Emitting:
      var instruction := EmitCode(op, a, b);
      EmittedKeeps@Emitting();
      if instruction == NONE {
        return Limit;
      }
      Record(i, instruction, instruction);
    }

    /** The highest-numbered group inside the group of node `i`. */
    method LastGroup(i: nat) returns (last: nat)
      requires Lowering() && i < nodes.Length && nodes[i].kind.GroupNode?
      ensures last == LastInside(TheEnv(), nodes[i].group, nodes[i].end)
    {
      RecordedAt(i);
      last := nodes[i].group;
      var k := last + 1;
      while k <= groups
        invariant k == last + 1 <= groups + 1
        invariant LastInside(TheEnv(), last, nodes[i].end) == LastInside(TheEnv(), nodes[i].group, nodes[i].end)
      {
        if positions[k] < nodes[i].end {
          last := k;
        } else {
          break;
        }
        k := k + 1;
      }
    }

    /** Emits a group's two instructions and fills in the opening one. */
    method EmitGroup(i: nat, entry: nat) returns (open: nat, close: nat)
      requires Lowering() && i < nodes.Length && nodes[i].kind.GroupNode?
      modifies this`codeCount, code
      ensures Lowering() && codeCount >= old(codeCount)
      ensures open == NONE || close == NONE <==> old(codeCount) + 1 >= code.Length
      ensures open != NONE && close != NONE ==>
                open == old(codeCount) && close == open + 1 && codeCount == close + 1 &&
                Code() ==
                old(Code()) +
                [Instruction(Open, nodes[i].group, LastInside(TheEnv(), nodes[i].group, nodes[i].end),
                             if entry == NONE then close else entry, 0, i),
                 Emit(Close, nodes[i].group, 0)]
    {
      ghost var before := Code();
      RecordedAt(i);
      var group := nodes[i].group;
      open := EmitCode(Open, group, 0);
      close := EmitCode(Close, group, 0);
      EmittedKeeps();
      if open != NONE && close != NONE {
        var last := LastGroup(i);
        code[open] := code[open].(b := last, max := i, next := if entry == NONE then close else entry);
        assert Code() == before + [Instruction(Open, group, last, if entry == NONE then close else entry, 0, i),
                                   Emit(Close, group, 0)];
      }
    }

    /** A group: its opening and closing instructions around the children's chain. */
    method LowerGroupNode(i: nat, entry: nat, tail: nat, ghost quantifier: nat) returns (status: Status)
      requires Lowering() && i < nodes.Length && nodes[i].kind.GroupNode?
      requires (entry != NONE ==> tail < codeCount) && (entry == NONE <==> tail == NONE)
      modifies this`codeCount, code, nodes
      ensures Lowering()
      ensures LowerGroup(TheEnv(), old(View()), i, Chain(old(Code()), entry, tail, quantifier)) ==
              if status == Ok then Lowered(View(), Code()) else Failed(status)
    {
      var open, close := EmitGroup(i, entry);
      if open == NONE || close == NONE {
        return Limit;
      }
      if tail != NONE {
        Patch(tail, close);
      }
      Record(i, open, close);
      return Ok;
    }

    /** Emits a loop's two instructions and fills in the first one. */
    method EmitLoop(i: nat, entry: nat, min: nat, max: nat) returns (repeat: nat, end: nat)
      requires Lowering() && i < nodes.Length
      modifies this`codeCount, code
      ensures Lowering() && codeCount >= old(codeCount)
      ensures repeat == NONE || end == NONE <==> old(codeCount) + 1 >= code.Length
      ensures repeat != NONE && end != NONE && entry != NONE ==>
                repeat == old(codeCount) && end == repeat + 1 && codeCount == end + 1 &&
                Code() == old(Code()) + [Instruction(Repeat, entry, i, NONE, min, max), Emit(RepeatEnd, repeat, 0)]
    {
      ghost var before := Code();
      repeat := EmitCode(Repeat, entry, 0);
      end := EmitCode(RepeatEnd, repeat, 0);
      EmittedKeeps();
      if repeat != NONE && end != NONE && entry != NONE {
        code[repeat] := code[repeat].(b := i, min := min, max := max);
        assert Code() == before + [Instruction(Repeat, entry, i, NONE, min, max), Emit(RepeatEnd, repeat, 0)];
      }
    }

    /** A repeated piece: the loop instruction before, its end after, the children's chain. */
    method LowerLoopNode(i: nat, entry: nat, tail: nat, quantifier: nat) returns (status: Status)
      requires Lowering() && decoder.Valid() && i < nodes.Length && nodes[i].kind.PieceNode?
      requires quantifier < nodes.Length && nodes[quantifier].kind.Quantifier?
      requires LastQuantifier(decoder.source, i, i + 1, NONE) == quantifier && (entry != NONE ==> tail < codeCount)
      modifies this`codeCount, this`repeatBound, code, nodes
      ensures Lowering() && kinds[i].PieceNode?
      ensures kinds[i].status != Ok ==> status == kinds[i].status
      ensures kinds[i].status == Ok ==>
                && repeatBound == Larger(QuantifierBound(kinds[quantifier]), old(repeatBound))
                && LowerLoop(TheEnv(), old(View()), i, Chain(old(Code()), entry, tail, quantifier)) ==
                   if status == Ok then Lowered(View(), Code()) else Failed(status)
    {
      NodeAt(quantifier);
      var q := PieceBounds(i, quantifier);
      if !q.Bounds? {
        return BoundsStatus(q);
      }
      var bound := if q.max == NONE then q.min else q.max;
      if bound > repeatBound {
        repeatBound := bound;
      }
      status := PlaceLoop(i, entry, tail, quantifier, q.min, q.max);
    }

    /** The loop's instructions, the children's tail linked to the end. */
    method PlaceLoop(i: nat, entry: nat, tail: nat, ghost quantifier: nat, min: nat, max: nat) returns (status: Status)
      requires Lowering() && i < nodes.Length && quantifier < nodes.Length && kinds[quantifier] == Quantifier(min, max)
      requires entry != NONE ==> tail < codeCount
      modifies this`codeCount, code, nodes
      ensures Lowering()
      ensures LowerLoop(TheEnv(), old(View()), i, Chain(old(Code()), entry, tail, quantifier)) ==
              if status == Ok then Lowered(View(), Code()) else Failed(status)
    {
      NodeAt(quantifier);
      var repeat, end := EmitLoop(i, entry, min, max);
      if repeat == NONE || end == NONE || entry == NONE {
        return Limit;
      }
      Patch(tail, end);
      Record(i, repeat, repeat);
      return Ok;
    }

    /** Lowers one node, all later nodes being lowered. */
    method LowerNode(i: nat) returns (status: Status)
      requires Lowering() && i < nodes.Length && Decoded(i + 1)
      requires steps == nodes.Length + EffortFrom(View(), i + 1) <= limits.maxSteps
      modifies this`codeCount, this`steps, this`repeatBound, code, nodes, decoder, decoder.ranges
      ensures Lowering() && steps <= limits.maxSteps
      ensures status == Ok ==>
                && Becomes(TheEnv(), old(View()), old(Code()), i, Lowered(View(), Code())) && Decoded(i)
                && steps == old(steps) + Charge(kinds[i])
                && Raises(old(View()), old(Code()), i, old(repeatBound), repeatBound)
      ensures status != Ok ==> Becomes(TheEnv(), old(View()), old(Code()), i, Failed(status))
    {
      NodeAt(i);
      if nodes[i].kind.Terminal? {
        LeafAt(i);
        return Ok;
      }
      if steps == limits.maxSteps {
        return Limit;
      }
      steps := steps + 1;
      if nodes[i].kind.UnitNode? {
        status := LowerUnit(i);
      } else {
        status := LowerInner(i);
      }
    }

    /** A token is passed over. */
    lemma {:induction false} LeafAt(i: nat)
      requires Lowering() && i < nodes.Length && nodes[i].kind.Terminal? && Decoded(i + 1)
      ensures kinds[i].Terminal? && Decoded(i) && Becomes(TheEnv(), View(), Code(), i, Lowered(View(), Code()))
      ensures Raises(View(), Code(), i, repeatBound, repeatBound)
    {
      NodeAt(i);
      TableAt(i);
    }

    lemma {:induction false} TableAt(i: nat)
      requires Shaped() && i < nodes.Length && !nodes[i].kind.UnitNode? && Decoded(i + 1)
      ensures Decoded(i)
    {
      SettledAt(decoder.source, kinds, nodes[..], i);
      TableKept(decoder.source, i, kinds[i], decoder.Table());
    }

    /** A node that links its children. */
    method LowerInner(i: nat) returns (status: Status)
      requires Lowering() && i < nodes.Length && !nodes[i].kind.Terminal? && !nodes[i].kind.UnitNode? && Decoded(i + 1)
      requires EffortFrom(View(), i) <= Allowance()
      modifies this`codeCount, this`repeatBound, code, nodes
      ensures Lowering() && Decoded(i) && Charge(kinds[i]) == 1
      ensures Becomes(TheEnv(), old(View()), old(Code()), i, if status == Ok then Lowered(View(), Code())
                      else Failed(status))
      ensures status == Ok ==> Raises(old(View()), old(Code()), i, old(repeatBound), repeatBound)
    {
      NodeAt(i);
      TableAt(i);
      ghost var env, here, soFar, bound := TheEnv(), View(), Code(), repeatBound;
      var entry, tail, quantifier := LinkChildren(i);
      ghost var chain := Chain(Code(), entry, tail, quantifier);
      status := LowerChained(i, entry, tail, quantifier);
      BecomesChained(env, here, soFar, i, chain, if status == Ok then Lowered(View(), Code()) else Failed(status));
      if status == Ok {
        RaisesChained(here, soFar, i, chain, bound, repeatBound);
      }
    }

    /** A node whose children are linked. */
    method LowerChained(i: nat, entry: nat, tail: nat, quantifier: nat) returns (status: Status)
      requires Lowering() && decoder.Valid() && i < nodes.Length && !nodes[i].kind.Terminal? && !nodes[i].kind.UnitNode?
      requires (entry != NONE ==> tail < codeCount) && (entry == NONE <==> tail == NONE)
      requires quantifier == LastQuantifier(decoder.source, i, i + 1, NONE)
      requires quantifier == NONE || (quantifier < nodes.Length && nodes[quantifier].kind.Quantifier?)
      modifies this`codeCount, this`repeatBound, code, nodes
      ensures Lowering()
      ensures var env, here, chain := TheEnv(), old(View()), Chain(old(Code()), entry, tail, quantifier);
              (if status == Ok then Lowered(View(), Code()) else Failed(status)) ==
              if FaultOf(kinds[i]) != Ok then Failed(FaultOf(kinds[i]))
              else if kinds[i].GroupNode? then LowerGroup(env, here, i, chain)
              else if kinds[i].PieceNode? && quantifier != NONE then LowerLoop(env, here, i, chain)
              else Finish(here, chain.code, i, entry, tail)
      ensures status == Ok ==> repeatBound == NextBound(old(View()), i, quantifier, old(repeatBound))
    {
      NodeAt(i);
      if nodes[i].kind.GroupNode? {
        status := LowerGroupNode(i, entry, tail, quantifier);
      } else if nodes[i].kind.PieceNode? && quantifier != NONE {
        NodeAt(quantifier);
        status := LowerLoopNode(i, entry, tail, quantifier);
      } else {
        if nodes[i].kind.PieceNode? {
          PieceAt(i);
        }
        Record(i, entry, tail);
        status := Ok;
      }
    }

    /** Second pass: every node, from the last to the first. */
    method LowerNodes(ghost p: Processor) returns (status: Status)
      requires Lowering() && IsProcessor(TheEnv(), p) && steps == nodes.Length <= limits.maxSteps
      requires Decoded(nodes.Length)
      modifies this`codeCount, this`steps, this`repeatBound, code, nodes, decoder, decoder.ranges
      ensures Lowering()
      ensures status == Ok && BoundedBy(old(Code()), old(repeatBound)) ==> BoundedBy(Code(), repeatBound)
      ensures status == Ok ==> Decoded(0)
      ensures ProcessDown(p, old(View()), old(Code()), nodes.Length, 0) ==
              if status == Ok then Lowered(View(), Code()) else Failed(status)
    {
      ghost var before, start := View(), Code();
      ReachesStart(p, before, start);
      status := LowerDown(p, before, start);
      ReachesEnd(p, before, start, 0, if status == Ok then Lowered(View(), Code()) else Failed(status));
    }

    method LowerDown(ghost p: Processor, ghost before: seq<BreNode>, ghost start: seq<Instruction>)
      returns (status: Status)
      requires Lowering() && IsProcessor(TheEnv(), p) && steps == nodes.Length <= limits.maxSteps
      requires Decoded(nodes.Length)
      requires before == View() && start == Code() && Reaches(p, before, start, nodes.Length, Lowered(before, start))
      modifies this`codeCount, this`steps, this`repeatBound, code, nodes, decoder, decoder.ranges
      ensures Lowering()
      ensures status == Ok && BoundedBy(start, old(repeatBound)) ==> BoundedBy(Code(), repeatBound)
      ensures status == Ok ==> Decoded(0)
      ensures Reaches(p, before, start, 0, if status == Ok then Lowered(View(), Code()) else Failed(status))
    {
      ghost var env := TheEnv();
      var i := nodes.Length;
      status := Ok;
      while i > 0
        invariant 0 <= i <= nodes.Length && Lowering() && TheEnv() == env && status == Ok && Decoded(i)
        invariant steps == nodes.Length + EffortFrom(before, i) <= limits.maxSteps
        invariant BoundedBy(start, old(repeatBound)) ==> BoundedBy(Code(), repeatBound)
        invariant Reaches(p, before, start, i, Lowered(View(), Code()))
        invariant forall k :: 0 <= k < |before| ==> before[k].kind == kinds[k]
      {
        i := i - 1;
        EffortLike(before, View(), i + 1);
        status := LowerNext(p, before, start, i);
        if status != Ok {
          return;
        }
      }
    }

    /** One node of the second pass. */
    method LowerNext(ghost p: Processor, ghost before: seq<BreNode>, ghost start: seq<Instruction>, i: nat)
      returns (status: Status)
      requires Lowering() && IsProcessor(TheEnv(), p) && i < nodes.Length && Decoded(i + 1)
      requires steps == nodes.Length + EffortFrom(View(), i + 1) <= limits.maxSteps
      requires Reaches(p, before, start, i + 1, Lowered(View(), Code())) && |before| == nodes.Length
      modifies this`codeCount, this`steps, this`repeatBound, code, nodes, decoder, decoder.ranges
      ensures Lowering() && steps <= limits.maxSteps
      ensures status == Ok ==>
                && Reaches(p, before, start, i, Lowered(View(), Code())) && Decoded(i)
                   && steps == old(steps) + Charge(kinds[i])
                && (BoundedBy(old(Code()), old(repeatBound)) ==> BoundedBy(Code(), repeatBound))
      ensures status != Ok ==> Reaches(p, before, start, 0, Failed(status))
    {
      ghost var env, here, soFar, bound := TheEnv(), View(), Code(), repeatBound;
      NodeAt(i);
      status := LowerNode(i);
      ReachesNext(env, p, before, start, i, here, soFar, if status == Ok then Lowered(View(), Code())
                  else Failed(status));
      if status == Ok {
        BecomesBounded(env, here, soFar, i, Lowered(View(), Code()), bound, repeatBound);
      }
    }

    /** The final instruction, and the link to it. */
    method FinishProgram() returns (status: Status, entry: nat)
      requires Lowering() && nodes.Length > 0
      modifies this`codeCount, code
      ensures codeCount <= code.Length
      ensures status == if old(codeCount) == code.Length then Limit else Ok
      ensures status == Ok ==>
                var accept := old(codeCount); var tail := nodes[0].tail;
                && entry == (if nodes[0].entry == NONE then accept else nodes[0].entry)
                && Code() == if tail != NONE then SetNext(old(Code()) + [Emit(Accept, 0, 0)], tail, accept)
                             else old(Code()) + [Emit(Accept, 0, 0)]
    {
      entry := 0;
      var accept := EmitCode(Accept, 0, 0);
      if accept == NONE {
        return Limit, entry;
      }
      entry := if nodes[0].entry == NONE then accept else nodes[0].entry;
      if nodes[0].tail != NONE && nodes[0].tail < codeCount {
        Patch(nodes[0].tail, accept);
      }
      status := Ok;
    }
  }

  /** Lowering a node changes no role and no range. */
  lemma {:induction false} ProcessKeepsShape(env: Env, nodes: seq<BreNode>, code: seq<Instruction>, i: nat)
    requires RangesOk(nodes) && i < |nodes| && |env.positions| > env.groups
    ensures var r := Process(env, nodes, code, i);
            r.Lowered? ==> forall k :: 0 <= k < |nodes| ==>
                r.nodes[k].kind == nodes[k].kind
                && r.nodes[k].end == nodes[k].end
  {
  }
}
