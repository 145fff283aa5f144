/** Syntax trees as the parser delivers them, the preorder node array that holds
    one, and the labelled expression tree it stands for. */
module BreSyntax {
  import opened BreProgram
  import opened BreStatus

  /** Node roles. Names that play no part in lowering are Plain. A node lowered to
      one instruction carries its decoded operands, a quantifier its bounds; where
      decoding fails, at a single node or at the piece that is repeated, stands
      the reason. `work` counts the elements of a class that were looked at. */
  datatype Kind =
    | Terminal
    | Plain
    | UnsupportedNode
    | UnitNode(op: Op, a: nat, b: nat, status: Status, work: nat)
    | GroupNode
    | PieceNode(status: Status)
    | Quantifier(min: nat, max: nat)

  datatype Syntax = Syntax(kind: Kind, kids: Nodes)

  datatype Nodes = NoNodes | More(head: Syntax, tail: Nodes)

  datatype BreNode = BreNode(kind: Kind, end: nat, parent: int, entry: nat, tail: nat, group: nat)

  function NodeCount(s: Syntax): (n: nat)
    ensures n > 0
  {
    1 + NodeCounts(s.kids)
  }

  function NodeCounts(ns: Nodes): nat {
    if ns.NoNodes? then 0 else NodeCount(ns.head) + NodeCounts(ns.tail)
  }

  /** The preorder array of a tree placed at index `at`. */
  function Flatten(s: Syntax, at: nat, parent: int): (r: seq<BreNode>)
    ensures |r| == NodeCount(s)
  {
    [BreNode(s.kind, at + NodeCount(s), parent, NONE, NONE, 0)] + FlattenAll(s.kids, at + 1, at)
  }

  function FlattenAll(ns: Nodes, at: nat, parent: int): (r: seq<BreNode>)
    ensures |r| == NodeCounts(ns)
  {
    if ns.NoNodes? then [] else Flatten(ns.head, at, parent) + FlattenAll(ns.tail, at + NodeCount(ns.head), parent)
  }

  function Groups(s: Syntax): nat {
    (if s.kind.GroupNode? then 1 else 0) + GroupsAll(s.kids)
  }

  function GroupsAll(ns: Nodes): nat {
    if ns.NoNodes? then 0 else Groups(ns.head) + GroupsAll(ns.tail)
  }

  /** The last quantifier among a node's children. */
  function QuantifierOf(ns: Nodes): (q: Kind)
    ensures q.Plain? || q.Quantifier?
  {
    if ns.NoNodes? then Plain
    else
      var later := QuantifierOf(ns.tail);
      if later.Plain? && ns.head.kind.Quantifier? then ns.head.kind else later
  }

  predicate Repeats(s: Syntax) {
    s.kind.PieceNode? && QuantifierOf(s.kids).Quantifier?
  }

  /** The expression a syntax tree stands for; `at` numbers its nodes and `g`
      groups come before it. */
  function Elaborate(s: Syntax, at: nat, g: nat): Tree {
    if s.kind.UnitNode? then Unit(s.kind.op, s.kind.a, s.kind.b)
    else if s.kind.GroupNode? then Group(at, g + 1, g + 1 + GroupsAll(s.kids), ElaborateAll(s.kids, at + 1, g + 1))
    else if Repeats(s) then
      Loop(at, QuantifierOf(s.kids).min, QuantifierOf(s.kids).max, ElaborateAll(s.kids, at + 1, g))
    else Concat(ElaborateAll(s.kids, at + 1, g))
  }

  function ElaborateAll(ns: Nodes, at: nat, g: nat): Forest {
    if ns.NoNodes? then Nil
    else Cons(Elaborate(ns.head, at, g), ElaborateAll(ns.tail, at + NodeCount(ns.head), g + Groups(ns.head)))
  }

  // ---------- what the grammar guarantees ----------

  /** Nothing below lowers to an instruction or numbers a group. */
  predicate Inert(ns: Nodes) {
    ns.More? ==>
      && (ns.head.kind.Terminal? || ns.head.kind.Plain? || ns.head.kind.Quantifier?)
      && Inert(ns.head.kids) && Inert(ns.tail)
  }

  /** Every loop below is inside a group below: a piece repeats a single atom. */
  predicate NoBareLoop(ns: Nodes) {
    ns.More? ==> (ns.head.kind.GroupNode? || (!Repeats(ns.head) && NoBareLoop(ns.head.kids))) && NoBareLoop(ns.tail)
  }

  predicate ShapeOk(s: Syntax) {
    && (s.kind.Terminal? || s.kind.UnitNode? || s.kind.Quantifier? ==> Inert(s.kids))
    && (s.kind.UnitNode? ==> IsUnit(s.kind.op))
    && (Repeats(s) ==> NoBareLoop(s.kids) && QuantifierOf(s.kids).min <= QuantifierOf(s.kids).max <= NONE)
    && (Repeats(s) ==> QuantifierOf(s.kids).min <= MAX_REPEAT)
    && ShapesOk(s.kids)
  }

  predicate ShapesOk(ns: Nodes) {
    ns.More? ==> ShapeOk(ns.head) && ShapesOk(ns.tail)
  }

  function GroupDepth(s: Syntax): nat {
    GroupDepths(s.kids) + if s.kind.GroupNode? then 1 else 0
  }

  function GroupDepths(ns: Nodes): nat {
    if ns.NoNodes? then 0
    else if GroupDepth(ns.head) > GroupDepths(ns.tail) then GroupDepth(ns.head) else GroupDepths(ns.tail)
  }

  /** The tree lowers to at least one instruction. */
  predicate Lowers(s: Syntax) {
    s.kind.UnitNode? || s.kind.GroupNode? || Repeats(s) || LowersAny(s.kids)
  }

  predicate LowersAny(ns: Nodes) {
    ns.More? && (Lowers(ns.head) || LowersAny(ns.tail))
  }

  /** Every repeated piece has something to repeat. */
  predicate Bodied(s: Syntax) {
    (Repeats(s) ==> LowersAny(s.kids)) && BodiedAll(s.kids)
  }

  predicate BodiedAll(ns: Nodes) {
    ns.More? ==> Bodied(ns.head) && BodiedAll(ns.tail)
  }

  predicate Supported(s: Syntax) {
    !s.kind.UnsupportedNode? && SupportedAll(s.kids)
  }

  predicate SupportedAll(ns: Nodes) {
    ns.More? ==> Supported(ns.head) && SupportedAll(ns.tail)
  }

  /** Every reference names a group that is complete before it: one of the `g`
      groups begun so far and none of those still open around it. */
  predicate RefsClosed(s: Syntax, g: nat, open: set<nat>) {
    && (s.kind.UnitNode? && s.kind.op.Ref? ==> 1 <= s.kind.a <= g && s.kind.a !in open)
    && (if s.kind.GroupNode? then RefsClosedAll(s.kids, g + 1, open + {g + 1}) else RefsClosedAll(s.kids, g, open))
  }

  predicate RefsClosedAll(ns: Nodes, g: nat, open: set<nat>) {
    ns.More? ==> RefsClosed(ns.head, g, open) && RefsClosedAll(ns.tail, g + Groups(ns.head), open)
  }

  /** What the second pass is charged for a node: a step for a rule, and a step for
      every element of a class. */
  function Charge(k: Kind): nat {
    if k.Terminal? then 0 else if k.UnitNode? then 1 + k.work else 1
  }

  function Effort(s: Syntax): nat {
    EffortAll(s.kids) + Charge(s.kind)
  }

  function EffortAll(ns: Nodes): nat {
    if ns.NoNodes? then 0 else Effort(ns.head) + EffortAll(ns.tail)
  }

  // ---------- decoded operands ----------

  /** Why decoding a node's operands fails. */
  function FaultOf(k: Kind): Status {
    if k.UnitNode? || k.PieceNode? then k.status else Ok
  }

  predicate IsClass(k: Kind) {
    k.UnitNode? && (k.op.Class? || k.op.NotClass?)
  }

  type Trait = Kind -> bool

  /** Decoding does not fail for this reason. */
  function Unlike(status: Status): Trait {
    (k: Kind) => FaultOf(k) != status
  }

  /** Decoding does not fail. */
  function Readable(): Trait {
    (k: Kind) => FaultOf(k) == Ok
  }

  /** A class lies inside the first `ranges` entries of the range table. */
  function Within(ranges: nat): Trait {
    (k: Kind) => IsClass(k) ==> k.a + k.b <= ranges
  }

  /** All nodes of the tree are of a sort. */
  predicate Every(s: Syntax, p: Trait) {
    p(s.kind) && EveryAll(s.kids, p)
  }

  predicate EveryAll(ns: Nodes, p: Trait) {
    ns.More? ==> Every(ns.head, p) && EveryAll(ns.tail, p)
  }

  lemma {:induction false} EveryWider(s: Syntax, p: Trait, q: Trait)
    requires Every(s, p) && forall k :: p(k) ==> q(k)
    ensures Every(s, q)
    decreases s
  {
    EveryAllWider(s.kids, p, q);
  }

  lemma {:induction false} EveryAllWider(ns: Nodes, p: Trait, q: Trait)
    requires EveryAll(ns, p) && forall k :: p(k) ==> q(k)
    ensures EveryAll(ns, q)
    decreases ns
  {
    if ns.More? {
      EveryWider(ns.head, p, q);
      EveryAllWider(ns.tail, p, q);
    }
  }

  lemma {:induction false} LowersHasCode(s: Syntax, at: nat, g: nat)
    ensures HasCode(Elaborate(s, at, g)) == Lowers(s)
  {
    if !s.kind.UnitNode? && !s.kind.GroupNode? && !Repeats(s) {
      LowersAnyHasCodes(s.kids, at + 1, g);
    }
  }

  lemma {:induction false} LowersAnyHasCodes(ns: Nodes, at: nat, g: nat)
    ensures HasCodes(ElaborateAll(ns, at, g)) == LowersAny(ns)
  {
    if ns.More? {
      LowersHasCode(ns.head, at, g);
      LowersAnyHasCodes(ns.tail, at + NodeCount(ns.head), g + Groups(ns.head));
    }
  }

  /** Loops nest at most one deeper than groups, and no deeper when every loop is inside a group. */
  lemma {:induction false} LoopsNestInGroups(s: Syntax, at: nat, g: nat)
    requires ShapeOk(s)
    ensures LoopDepth(Elaborate(s, at, g)) <= GroupDepth(s) + 1
    ensures s.kind.GroupNode? || (!Repeats(s) && NoBareLoop(s.kids)) ==> LoopDepth(Elaborate(s, at, g)) <= GroupDepth(s)
  {
    if s.kind.GroupNode? {
      LoopsNestInGroupsAll(s.kids, at + 1, g + 1);
    } else {
      LoopsNestInGroupsAll(s.kids, at + 1, g);
    }
  }

  lemma {:induction false} LoopsNestInGroupsAll(ns: Nodes, at: nat, g: nat)
    requires ShapesOk(ns)
    ensures LoopDepths(ElaborateAll(ns, at, g)) <= GroupDepths(ns) + 1
    ensures NoBareLoop(ns) ==> LoopDepths(ElaborateAll(ns, at, g)) <= GroupDepths(ns)
  {
    if ns.More? {
      LoopsNestInGroups(ns.head, at, g);
      LoopsNestInGroupsAll(ns.tail, at + NodeCount(ns.head), g + Groups(ns.head));
    }
  }

  /** The expression's groups are the tree's, numbered in preorder. */
  lemma {:induction false} ElaborateNumbered(s: Syntax, at: nat, g: nat)
    requires ShapeOk(s)
    ensures TreeNumbered(Elaborate(s, at, g), g) && TreeGroups(Elaborate(s, at, g)) == Groups(s)
    decreases s
  {
    if s.kind.UnitNode? {
      InertHasNoCode(s.kids, at + 1, g);
    } else {
      ElaborateAllNumbered(s.kids, at + 1, if s.kind.GroupNode? then g + 1 else g);
    }
  }

  lemma {:induction false} ElaborateAllNumbered(ns: Nodes, at: nat, g: nat)
    requires ShapesOk(ns)
    ensures ForestNumbered(ElaborateAll(ns, at, g), g) && ForestGroups(ElaborateAll(ns, at, g)) == GroupsAll(ns)
    decreases ns
  {
    if ns.More? {
      ElaborateNumbered(ns.head, at, g);
      ElaborateAllNumbered(ns.tail, at + NodeCount(ns.head), g + Groups(ns.head));
    }
  }

  lemma {:induction false} InertHasNoCode(ns: Nodes, at: nat, g: nat)
    requires Inert(ns)
    ensures !HasCodes(ElaborateAll(ns, at, g)) && GroupsAll(ns) == 0
  {
    if ns.More? {
      InertHasNoCode(ns.head.kids, at + 1, g);
      InertHasNoCode(ns.tail, at + NodeCount(ns.head), g + Groups(ns.head));
    }
  }
}
