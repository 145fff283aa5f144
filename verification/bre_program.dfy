/** Compiled BRE programs, the trees they are lowered from, and the states a run goes through. */
module BreProgram {

  /** The largest unsigned value: an unset link, and an unbounded repetition. */
  const NONE := 0xffff_ffff
  const SLOTS := 10
  const MAX_REPEAT := 255
  const MAX_INPUT := 65535

  datatype Op = Accept | Char | Any | Class | NotClass | Begin | End | Open | Close | Ref | Repeat | RepeatEnd

  datatype Instruction = Instruction(op: Op, a: nat, b: nat, next: nat, min: nat, max: nat)

  datatype Range = Range(first: nat, last: nat)

  /** A labelled expression tree. Keys are preorder positions; a group covers
      the groups `id..last`, its own descendants. */
  datatype Tree =
    | Skip
    | Unit(op: Op, a: nat, b: nat)
    | Concat(kids: Forest)
    | Group(key: nat, id: nat, last: nat, kids: Forest)
    | Loop(key: nat, min: nat, max: nat, kids: Forest)

  datatype Forest = Nil | Cons(head: Tree, tail: Forest)

  /** A scope history is the log of the scopes opened and closed so far; a close names its opening's index. */
  datatype Event = Opened(key: nat, at: nat) | Closed(open: nat, at: nat)

  /** What a run carries besides its control: position, capture slots, the
      opening of each group's latest participation, and the scope history. */
  datatype Core = Core(pos: nat, begin: seq<int>, end: seq<int>, opens: seq<nat>, history: seq<Event>)

  /** Code, class ranges and decoded input. */
  datatype Machine = Machine(code: seq<Instruction>, ranges: seq<Range>, input: seq<nat>) {
    predicate CoreOk(c: Core) {
      && c.pos <= |input| && |c.begin| == |c.end| == |c.opens| == SLOTS
      && forall g :: 0 <= g < SLOTS ==>
           -1 <= c.begin[g] <= c.pos && -1 <= c.end[g] <= c.pos
               && (c.begin[g] >= 0 && c.end[g] >= 0 ==> c.begin[g] <= c.end[g])
    }
  }

  predicate IsUnit(op: Op) {
    op.Char? || op.Any? || op.Class? || op.NotClass? || op.Begin? || op.End? || op.Ref?
  }

  predicate Matched(c: Core, g: nat)
    requires g < |c.begin| == |c.end|
  {
    c.begin[g] >= 0 && c.end[g] >= 0
  }

  ghost predicate InClass(m: Machine, first: nat, count: nat, unit: nat)
    requires first + count <= |m.ranges|
  {
    exists k :: first <= k < first + count && m.ranges[k].first <= unit <= m.ranges[k].last
  }

  ghost predicate TreeOk(m: Machine, t: Tree) {
    match t
    case Skip => true
    case Unit(op, a, b) => IsUnit(op) && (op.Ref? ==> a < SLOTS) && (op.Class? || op.NotClass? ==> a + b <= |m.ranges|)
    case Concat(kids) => ForestOk(m, kids)
    case Group(_, id, last, kids) =>
      1 <= id <= last < SLOTS && last == id + ForestGroups(kids) && ForestNumbered(kids, id) && ForestOk(m, kids)
    case Loop(_, min, max, kids) => min <= max <= NONE && min <= MAX_REPEAT && HasCodes(kids) && ForestOk(m, kids)
  }

  ghost predicate ForestOk(m: Machine, f: Forest) {
    f.Cons? ==> TreeOk(m, f.head) && ForestOk(m, f.tail)
  }

  function TreeGroups(t: Tree): nat {
    match t
    case Skip => 0
    case Unit(_, _, _) => 0
    case Concat(kids) => ForestGroups(kids)
    case Group(_, _, _, kids) => 1 + ForestGroups(kids)
    case Loop(_, _, _, kids) => ForestGroups(kids)
  }

  function ForestGroups(f: Forest): nat {
    if f.Nil? then 0 else TreeGroups(f.head) + ForestGroups(f.tail)
  }

  /** Groups are numbered in preorder, `g` of them coming before the tree. */
  predicate TreeNumbered(t: Tree, g: nat) {
    match t
    case Skip => true
    case Unit(_, _, _) => true
    case Concat(kids) => ForestNumbered(kids, g)
    case Group(_, id, last, kids) => id == g + 1 && last == id + ForestGroups(kids) && ForestNumbered(kids, id)
    case Loop(_, _, _, kids) => ForestNumbered(kids, g)
  }

  predicate ForestNumbered(f: Forest, g: nat) {
    f.Cons? ==> TreeNumbered(f.head, g) && ForestNumbered(f.tail, g + TreeGroups(f.head))
  }

  /** The tree lowers to at least one instruction. */
  predicate HasCode(t: Tree) {
    match t
    case Skip => false
    case Unit(_, _, _) => true
    case Concat(kids) => HasCodes(kids)
    case Group(_, _, _, _) => true
    case Loop(_, _, _, _) => true
  }

  predicate HasCodes(f: Forest) {
    f.Cons? && (HasCode(f.head) || HasCodes(f.tail))
  }

  /** Deepest nesting of loops. */
  function LoopDepth(t: Tree): nat {
    match t
    case Skip => 0
    case Unit(_, _, _) => 0
    case Concat(kids) => LoopDepths(kids)
    case Group(_, _, _, kids) => LoopDepths(kids)
    case Loop(_, _, _, kids) => 1 + LoopDepths(kids)
  }

  function LoopDepths(f: Forest): nat {
    if f.Nil? then 0 else if LoopDepth(f.head) > LoopDepths(f.tail) then LoopDepth(f.head) else LoopDepths(f.tail)
  }

  // ---------- effects shared by the path semantics and the machine ----------

  /** One-instruction nodes: the core after matching, or nothing. */
  ghost function UnitStep(m: Machine, op: Op, a: nat, b: nat, c: Core): (r: seq<Core>)
    requires m.CoreOk(c) && IsUnit(op) && (op.Ref? ==> a < SLOTS) && (op.Class? || op.NotClass? ==> a + b <= |m.ranges|)
    ensures |r| <= 1 && forall d :: d in r ==> m.CoreOk(d) && c.pos <= d.pos && d == c.(pos := d.pos)
  {
    var here := c.pos < |m.input|;
    match op
    case Char => if here && m.input[c.pos] == a then [c.(pos := c.pos + 1)] else []
    case Any => if here then [c.(pos := c.pos + 1)] else []
    case Class => if here && InClass(m, a, b, m.input[c.pos]) then [c.(pos := c.pos + 1)] else []
    case NotClass => if here && !InClass(m, a, b, m.input[c.pos]) then [c.(pos := c.pos + 1)] else []
    case Begin => if c.pos == 0 then [c] else []
    case End => if c.pos == |m.input| then [c] else []
    case Ref =>
      if Matched(c, a) && c.end[a] - c.begin[a] <= |m.input| - c.pos &&
         m.input[c.begin[a]..c.end[a]] == m.input[c.pos..c.pos + c.end[a] - c.begin[a]]
      then [c.(pos := c.pos + c.end[a] - c.begin[a])] else []
    case _ => []
  }

  /** A scope is opened at the current position. */
  function OpenScope(c: Core, key: nat): Core {
    c.(history := c.history + [Opened(key, c.pos)])
  }

  function CloseScope(c: Core, open: nat): Core {
    c.(history := c.history + [Closed(open, c.pos)])
  }

  /** A new participation of a group forgets the captures of the group and of the groups inside it. */
  function OpenGroup(m: Machine, c: Core, key: nat, id: nat, last: nat): (d: Core)
    requires m.CoreOk(c) && id <= last < SLOTS
    ensures m.CoreOk(d) && d.pos == c.pos
  {
    var clear :=
      (slots: seq<int>) requires |slots| == SLOTS =>
        seq(SLOTS, g requires 0 <= g < SLOTS => if id <= g <= last then -1 else slots[g]);
    OpenScope(c, key).(begin := clear(c.begin)[id := c.pos], end := clear(c.end), opens := c.opens[id := |c.history|])
  }

  function CloseGroup(m: Machine, c: Core, id: nat): (d: Core)
    requires m.CoreOk(c) && id < SLOTS
    ensures m.CoreOk(d) && d.pos == c.pos
  {
    CloseScope(c, c.opens[id]).(end := c.end[id := c.pos])
  }
}
