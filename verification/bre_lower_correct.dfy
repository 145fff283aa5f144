/** Lowering the nodes of a syntax tree, back to front, places the code of the
    expression it stands for. */
module BreLowerCorrect {
  import opened BreProgram
  import opened BreSyntax
  import opened BreLayout
  import opened BreLowerSpec

  // ---------- placement depends on little ----------

  /** Two code arrays agree on a range, except for the link of one instruction. */
  ghost predicate Agree(code: seq<Instruction>, code': seq<Instruction>, lo: nat, hi: nat, tail: int) {
    && hi <= |code| && hi <= |code'|
    && forall k :: lo <= k < hi ==> code'[k] == (if k == tail then code[k].(next := code'[k].next) else code[k])
  }

  lemma {:induction false} PlacedAgree(code: seq<Instruction>, code': seq<Instruction>, t: Tree, lo: nat)
    requires Placed(code, t, lo)
    requires Agree(code, code', lo, lo + CodeSize(t), if HasCode(t) then TailOf(t, lo) else -1)
    ensures Placed(code', t, lo)
    decreases t
  {
    match t
    case Skip =>
    case Unit(_, _, _) =>
    case Concat(kids) => PlacedAllAgree(code, code', kids, lo);
    case Group(_, _, _, kids) => PlacedAllAgree(code, code', kids, lo);
    case Loop(_, _, _, kids) => PlacedAllAgree(code, code', kids, lo);
  }

  lemma {:induction false} PlacedAllAgree(code: seq<Instruction>, code': seq<Instruction>, f: Forest, lo: nat)
    requires PlacedAll(code, f, lo)
    requires Agree(code, code', lo, lo + CodeSizes(f), if HasCodes(f) then TailOfs(f, lo) else -1)
    ensures PlacedAll(code', f, lo)
    decreases f
  {
    if f.Cons? {
      PlacedAgree(code, code', f.head, lo + CodeSizes(f.tail));
      PlacedAllAgree(code, code', f.tail, lo);
    }
  }

  /** Every tree of a forest is placed; the links between them are not set yet. */
  ghost predicate PlacedApart(code: seq<Instruction>, f: Forest, lo: nat) {
    lo + CodeSizes(f) <= |code| &&
    (f.Cons? ==> Placed(code, f.head, lo + CodeSizes(f.tail)) && PlacedApart(code, f.tail, lo))
  }

  lemma {:induction false} PlacedApartAgree(code: seq<Instruction>, code': seq<Instruction>, f: Forest, lo: nat)
    requires PlacedApart(code, f, lo) && Agree(code, code', lo, lo + CodeSizes(f), -1)
    ensures PlacedApart(code', f, lo)
  {
    if f.Cons? {
      PlacedAgree(code, code', f.head, lo + CodeSizes(f.tail));
      PlacedApartAgree(code, code', f.tail, lo);
    }
  }

  // ---------- the node array ----------

  /** The array holds the tree `s` at `at`, its groups numbered after the first `g`. */
  ghost predicate Mirrors(nodes: seq<BreNode>, s: Syntax, at: nat, parent: int, g: nat) {
    && at + NodeCount(s) <= |nodes|
    && nodes[at].kind == s.kind && nodes[at].end == at + NodeCount(s) && nodes[at].parent == parent
    && (s.kind.GroupNode? ==> nodes[at].group == g + 1)
    && MirrorsAll(nodes, s.kids, at + 1, at, if s.kind.GroupNode? then g + 1 else g)
  }

  ghost predicate MirrorsAll(nodes: seq<BreNode>, ns: Nodes, at: nat, parent: int, g: nat) {
    at + NodeCounts(ns) <= |nodes| &&
    (ns.More? ==>
       && Mirrors(nodes, ns.head, at, parent, g)
       && MirrorsAll(nodes, ns.tail, at + NodeCount(ns.head), parent, g + Groups(ns.head)))
  }

  /** Only entries and tails differ, and only between `lo` and `hi`. */
  ghost predicate Changed(nodes: seq<BreNode>, nodes': seq<BreNode>, lo: nat, hi: nat) {
    && |nodes'| == |nodes|
    && (forall k :: 0 <= k < |nodes| ==> nodes'[k] == nodes[k].(entry := nodes'[k].entry, tail := nodes'[k].tail))
    && (forall k :: 0 <= k < |nodes| && !(lo <= k < hi) ==> nodes'[k] == nodes[k])
  }

  lemma {:induction false} MirrorsChanged(nodes: seq<BreNode>, nodes': seq<BreNode>, s: Syntax, at: nat, parent: int,
                                          g: nat)
    requires Changed(nodes, nodes', 0, |nodes|) && Mirrors(nodes, s, at, parent, g)
    ensures Mirrors(nodes', s, at, parent, g)
    decreases s
  {
    MirrorsAllChanged(nodes, nodes', s.kids, at + 1, at, if s.kind.GroupNode? then g + 1 else g);
  }

  lemma {:induction false} MirrorsAllChanged(nodes: seq<BreNode>, nodes': seq<BreNode>, ns: Nodes, at: nat, parent: int,
                                             g: nat)
    requires Changed(nodes, nodes', 0, |nodes|) && MirrorsAll(nodes, ns, at, parent, g)
    ensures MirrorsAll(nodes', ns, at, parent, g)
    decreases ns
  {
    if ns.More? {
      MirrorsChanged(nodes, nodes', ns.head, at, parent, g);
      MirrorsAllChanged(nodes, nodes', ns.tail, at + NodeCount(ns.head), parent, g + Groups(ns.head));
    }
  }

  /** A node's recorded entry and tail are those of its tree placed at `lo`. */
  ghost predicate Recorded(n: BreNode, t: Tree, lo: nat) {
    n.entry == EntryOne(t, lo) && n.tail == TailOne(t, lo)
  }

  ghost predicate RecordedAll(nodes: seq<BreNode>, ns: Nodes, at: nat, g: nat, lo: nat) {
    at + NodeCounts(ns) <= |nodes| &&
    (ns.More? ==>
       var rest := ElaborateAll(ns.tail, at + NodeCount(ns.head), g + Groups(ns.head));
       && Recorded(nodes[at], Elaborate(ns.head, at, g), lo + CodeSizes(rest))
       && RecordedAll(nodes, ns.tail, at + NodeCount(ns.head), g + Groups(ns.head), lo))
  }

  lemma {:induction false} RecordedAllKept(nodes: seq<BreNode>, nodes': seq<BreNode>, ns: Nodes, at: nat, g: nat,
                                           lo: nat)
    requires RecordedAll(nodes, ns, at, g, lo) && |nodes'| == |nodes|
    requires forall k :: at <= k < at + NodeCounts(ns) ==> nodes'[k] == nodes[k]
    ensures RecordedAll(nodes', ns, at, g, lo)
  {
    if ns.More? {
      RecordedAllKept(nodes, nodes', ns.tail, at + NodeCount(ns.head), g + Groups(ns.head), lo);
    }
  }

  // ---------- linking the children of a node ----------

  /** A chain whose tail lies in the code above the forest still to be linked. */
  ghost predicate ChainOk(chain: Chain, lo: nat, size: nat) {
    && |chain.code| < NONE
    && (chain.entry == NONE <==> chain.tail == NONE)
    && (chain.entry != NONE ==> lo + size <= chain.tail < |chain.code|)
  }

  /** The chain after linking a forest of `size` instructions at `lo`, entered at
      `entry` and left at `tail` if it has code: the old tail links to the entry,
      and nothing else outside the forest changes. */
  ghost predicate Linked(before: Chain, after: Chain, lo: nat, size: nat, entry: nat, tail: nat) {
    && |after.code| == |before.code|
    && after.entry == (if before.entry != NONE || size == 0 then before.entry else entry)
    && after.tail == (if size > 0 then tail else before.tail)
    && Agree(before.code, after.code, lo + size, |before.code|, before.tail)
    && Agree(before.code, after.code, 0, lo, -1)
    && (before.entry != NONE && before.tail < |after.code| ==>
          after.code[before.tail].next == if size > 0 then entry else before.code[before.tail].next)
  }

  function EntryOr(f: Forest, lo: nat): nat {
    if HasCodes(f) then EntryOfs(f, lo) else NONE
  }

  function EntryOne(t: Tree, lo: nat): nat {
    if HasCode(t) then EntryOf(t, lo) else NONE
  }

  function TailOne(t: Tree, lo: nat): nat {
    if HasCode(t) then TailOf(t, lo) else NONE
  }

  function TailOr(f: Forest, lo: nat): nat {
    if HasCodes(f) then TailOfs(f, lo) else NONE
  }

  /** The chain after appending one tree of `size` instructions, placed above `rest` instructions still to be linked. */
  ghost predicate HeadLinked(chain: Chain, next: Chain, lo: nat, rest: nat, size: nat, entry: nat, tail: nat) {
    && ChainOk(next, lo, rest) && |next.code| == |chain.code|
    && Agree(chain.code, next.code, 0, |chain.code|, chain.tail)
    && next.entry == (if chain.entry != NONE || size == 0 then chain.entry else entry)
    && next.tail == (if size > 0 then tail else chain.tail)
    && (chain.entry != NONE && chain.tail < |chain.code| ==>
          next.code[chain.tail].next == if size > 0 then entry else chain.code[chain.tail].next)
  }

  /** Appending one child to the chain. */
  lemma {:induction false} LinkHead(chain: Chain, child: BreNode, j: nat, lo: nat, rest: nat, size: nat, entry: nat,
                                    tail: nat)
    requires child.entry == (if size > 0 then entry else NONE) && child.tail == (if size > 0 then tail else NONE)
    requires size > 0 ==> lo + rest <= entry < lo + rest + size && lo + rest <= tail < lo + rest + size
    requires ChainOk(chain, lo, rest + size) && lo + rest + size <= |chain.code|
    ensures HeadLinked(chain, LinkOne(chain, child, j), lo, rest, size, entry, tail)
  {
  }

  /** The chain after a tree and then a forest is the chain after both. */
  lemma {:induction false} LinkedCons(chain: Chain, next: Chain, after: Chain, lo: nat, rest: nat, size: nat,
                   entry: nat, tail: nat, entry': nat, tail': nat)
    requires ChainOk(chain, lo, rest + size) && lo + rest + size <= |chain.code|
    requires size > 0 ==> lo + rest <= entry < lo + rest + size && lo + rest <= tail < lo + rest + size
    requires HeadLinked(chain, next, lo, rest, size, entry, tail)
    requires Linked(next, after, lo, rest, entry', tail')
    ensures Linked(chain, after, lo, rest + size, if size > 0 then entry else entry', if rest > 0 then tail' else tail)
    ensures Agree(next.code, after.code, lo + rest, lo + rest + size, if size > 0 then tail else -1)
    ensures size > 0 && rest > 0 ==> after.code[tail].next == entry'
  {
  }

  /** From index `j` on, the children of node `i` are recorded as the trees of `f`, placed at `lo`. */
  ghost predicate Roots(nodes: seq<BreNode>, i: nat, j: nat, f: Forest, lo: nat)
    requires i < |nodes|
    decreases f
  {
    if f.Nil? then j == nodes[i].end
    else
      && j < nodes[i].end && j < |nodes| && nodes[j].parent == i
      && Recorded(nodes[j], f.head, lo + CodeSizes(f.tail))
      && Roots(nodes, i, nodes[j].end, f.tail, lo)
  }

  lemma {:induction false} RootsOf(nodes: seq<BreNode>, i: nat, ns: Nodes, j: nat, g: nat, lo: nat)
    requires RangesOk(nodes) && i < |nodes| && MirrorsAll(nodes, ns, j, i, g) && nodes[i].end == j + NodeCounts(ns)
    requires RecordedAll(nodes, ns, j, g, lo)
    ensures Roots(nodes, i, j, ElaborateAll(ns, j, g), lo)
    decreases ns
  {
    if ns.More? {
      RootsOf(nodes, i, ns.tail, j + NodeCount(ns.head), g + Groups(ns.head), lo);
    }
  }

  /** Linking a forest's roots: what changes in the code and in the chain. */
  lemma {:induction false} LinkForest(nodes: seq<BreNode>, i: nat, j: nat, f: Forest, lo: nat, chain: Chain)
    requires RangesOk(nodes) && i < |nodes| && Roots(nodes, i, j, f, lo)
    requires ChainOk(chain, lo, CodeSizes(f)) && lo + CodeSizes(f) <= |chain.code|
    ensures Linked(chain, Link(nodes, i, j, chain), lo, CodeSizes(f), EntryOr(f, lo), TailOr(f, lo))
    decreases f
  {
    if f.Cons? {
      var mid := lo + CodeSizes(f.tail);
      var next := LinkOne(chain, nodes[j], j);
      LinkHead(chain, nodes[j], j, lo, CodeSizes(f.tail), CodeSize(f.head), EntryOne(f.head, mid),
               TailOne(f.head, mid));
      LinkForest(nodes, i, nodes[j].end, f.tail, lo, next);
      LinkedCons(chain, next, Link(nodes, i, j, chain), lo, CodeSizes(f.tail), CodeSize(f.head), EntryOne(f.head, mid),
                 TailOne(f.head, mid), EntryOr(f.tail, lo), TailOr(f.tail, lo));
    }
  }

  /** A tree placed apart from the rest of its forest, then moved past two code changes, joins the placed rest. */
  lemma {:induction false} PlacedJoin(code: seq<Instruction>, code': seq<Instruction>, code'': seq<Instruction>,
                                      f: Forest, lo: nat)
    requires f.Cons? && PlacedApart(code, f, lo) && PlacedAll(code'', f.tail, lo)
    requires Agree(code, code', 0, lo + CodeSizes(f), -1)
    requires var mid := lo + CodeSizes(f.tail);
             Agree(code', code'', mid, mid + CodeSize(f.head), if CodeSize(f.head) > 0 then TailOne(f.head, mid)
                   else -1)
    requires CodeSize(f.head) > 0 && CodeSizes(f.tail) > 0 ==>
               code''[TailOne(f.head, lo + CodeSizes(f.tail))].next == EntryOr(f.tail, lo)
    ensures PlacedAll(code'', f, lo)
  {
    PlacedAgree(code, code', f.head, lo + CodeSizes(f.tail));
    PlacedAgree(code', code'', f.head, lo + CodeSizes(f.tail));
  }

  /** The code around one step of linking: the new tail's link is the only change to the head's code. */
  lemma {:induction false} LinkCode(nodes: seq<BreNode>, i: nat, j: nat, f: Forest, lo: nat, chain: Chain)
    requires RangesOk(nodes) && i < |nodes| && Roots(nodes, i, j, f, lo) && f.Cons?
    requires ChainOk(chain, lo, CodeSizes(f)) && lo + CodeSizes(f) <= |chain.code|
    ensures var next := LinkOne(chain, nodes[j], j);
            var after := Link(nodes, i, j, chain);
            var mid := lo + CodeSizes(f.tail);
            && ChainOk(next, lo, CodeSizes(f.tail)) && after == Link(nodes, i, nodes[j].end, next)
            && Agree(chain.code, next.code, 0, lo + CodeSizes(f), -1)
            && Agree(next.code, after.code, mid, mid + CodeSize(f.head),
                     if CodeSize(f.head) > 0 then TailOne(f.head, mid) else -1)
            && (CodeSize(f.head) > 0 && CodeSizes(f.tail) > 0 ==>
                after.code[TailOne(f.head, mid)].next == EntryOr(f.tail, lo))
  {
    var mid := lo + CodeSizes(f.tail);
    var next := LinkOne(chain, nodes[j], j);
    LinkHead(chain, nodes[j], j, lo, CodeSizes(f.tail), CodeSize(f.head), EntryOne(f.head, mid), TailOne(f.head, mid));
    LinkForest(nodes, i, nodes[j].end, f.tail, lo, next);
    LinkedCons(chain, next, Link(nodes, i, j, chain), lo, CodeSizes(f.tail), CodeSize(f.head), EntryOne(f.head, mid),
               TailOne(f.head, mid), EntryOr(f.tail, lo), TailOr(f.tail, lo));
  }

  /** Linking the roots of separately placed trees places their forest. */
  lemma {:induction false} LinkPlaces(nodes: seq<BreNode>, i: nat, j: nat, f: Forest, lo: nat, chain: Chain)
    requires RangesOk(nodes) && i < |nodes| && Roots(nodes, i, j, f, lo)
    requires ChainOk(chain, lo, CodeSizes(f)) && PlacedApart(chain.code, f, lo)
    ensures PlacedAll(Link(nodes, i, j, chain).code, f, lo)
    decreases f
  {
    if f.Cons? {
      var next := LinkOne(chain, nodes[j], j);
      LinkCode(nodes, i, j, f, lo, chain);
      PlacedApartAgree(chain.code, next.code, f.tail, lo);
      LinkPlaces(nodes, i, nodes[j].end, f.tail, lo, next);
      PlacedJoin(chain.code, next.code, Link(nodes, i, j, chain).code, f, lo);
    }
  }

  lemma {:induction false} LinkQuantifier(nodes: seq<BreNode>, i: nat, ns: Nodes, j: nat, g: nat, chain: Chain)
    requires RangesOk(nodes) && i < |nodes| && MirrorsAll(nodes, ns, j, i, g) && nodes[i].end == j + NodeCounts(ns)
    ensures var r := Link(nodes, i, j, chain);
            if QuantifierOf(ns).Plain? then r.quantifier == chain.quantifier
            else r.quantifier < |nodes| && nodes[r.quantifier].kind == QuantifierOf(ns)
    decreases ns
  {
    if ns.More? {
      LinkQuantifier(nodes, i, ns.tail, nodes[j].end, g + Groups(ns.head), LinkOne(chain, nodes[j], j));
    }
  }

  // ---------- numbering ----------

  /** Groups among the first `i` nodes. */
  ghost function GroupCount(nodes: seq<BreNode>, i: nat): nat
    requires i <= |nodes|
  {
    if i == 0 then 0 else GroupCount(nodes, i - 1) + if nodes[i - 1].kind.GroupNode? then 1 else 0
  }

  /** `positions[k]` is the node of the k-th group. */
  ghost predicate EnvOk(env: Env, nodes: seq<BreNode>) {
    && |env.positions| > env.groups && env.capacity < NONE
    && env.groups == GroupCount(nodes, |nodes|)
    && forall k :: 1 <= k <= env.groups ==>
         env.positions[k] < |nodes| && nodes[env.positions[k]].kind.GroupNode?
             && GroupCount(nodes, env.positions[k]) == k - 1
  }

  lemma {:induction false} GroupCountGrows(nodes: seq<BreNode>, i: nat, j: nat)
    requires i <= j <= |nodes|
    ensures GroupCount(nodes, i) <= GroupCount(nodes, j)
    decreases j
  {
    if i < j {
      GroupCountGrows(nodes, i, j - 1);
    }
  }

  lemma {:induction false} GroupCountSame(nodes: seq<BreNode>, nodes': seq<BreNode>, i: nat)
    requires i <= |nodes| == |nodes'| && forall k :: 0 <= k < |nodes| ==> nodes'[k].kind == nodes[k].kind
    ensures GroupCount(nodes', i) == GroupCount(nodes, i)
  {
    if i > 0 {
      GroupCountSame(nodes, nodes', i - 1);
    }
  }

  lemma {:induction false} GroupCountTree(nodes: seq<BreNode>, s: Syntax, at: nat, parent: int, g: nat)
    requires Mirrors(nodes, s, at, parent, g)
    ensures GroupCount(nodes, at + NodeCount(s)) == GroupCount(nodes, at) + Groups(s)
    decreases s
  {
    GroupCountForest(nodes, s.kids, at + 1, at, if s.kind.GroupNode? then g + 1 else g);
  }

  lemma {:induction false} GroupCountForest(nodes: seq<BreNode>, ns: Nodes, at: nat, parent: int, g: nat)
    requires MirrorsAll(nodes, ns, at, parent, g)
    ensures GroupCount(nodes, at + NodeCounts(ns)) == GroupCount(nodes, at) + GroupsAll(ns)
    decreases ns
  {
    if ns.More? {
      GroupCountTree(nodes, ns.head, at, parent, g);
      GroupCountForest(nodes, ns.tail, at + NodeCount(ns.head), parent, g + Groups(ns.head));
    }
  }

  /** The groups inside a range are consecutive, so counting them one by one stops at the last. */
  lemma {:induction false} LastInsideIs(env: Env, nodes: seq<BreNode>, group: nat, end: nat)
    requires EnvOk(env, nodes) && end <= |nodes| && 1 <= group <= GroupCount(nodes, end)
    ensures LastInside(env, group, end) == GroupCount(nodes, end)
    decreases env.groups - group
  {
    GroupCountGrows(nodes, end, |nodes|);
    if group < env.groups {
      var next := env.positions[group + 1];
      if next < end {
        GroupCountGrows(nodes, next + 1, end);
        LastInsideIs(env, nodes, group + 1, end);
      } else {
        GroupCountGrows(nodes, end, next);
      }
    }
  }

  // ---------- one node ----------

  /** The children of a node, lowered to code that starts at `lo`. */
  ghost predicate KidsDone(nodes: seq<BreNode>, code: seq<Instruction>, ns: Nodes, at: nat, g: nat, lo: nat) {
    var f := ElaborateAll(ns, at, g);
    && RecordedAll(nodes, ns, at, g, lo) && PlacedApart(code, f, lo) && |code| == lo + CodeSizes(f) < NONE
  }

  /** Node `at` itself, lowered after its children. */
  ghost predicate NodeDone(nodes: seq<BreNode>, code: seq<Instruction>, r: Lowered, t: Tree, at: nat, lo: nat) {
    r.Lowered? ==>
      && |r.code| == lo + CodeSize(t) && lo <= |code| && r.code[..lo] == code[..lo]
      && Placed(r.code, t, lo) && Changed(nodes, r.nodes, at, at + 1)
      && at < |r.nodes| && Recorded(r.nodes[at], t, lo)
  }

  function InnerGroups(s: Syntax, g: nat): nat {
    if s.kind.GroupNode? then g + 1 else g
  }

  /** A node that lowers to at most one instruction. */
  lemma {:induction false} LeafDone(env: Env, nodes: seq<BreNode>, code: seq<Instruction>, s: Syntax, at: nat,
                                    parent: int, g: nat, lo: nat)
    requires RangesOk(nodes) && EnvOk(env, nodes) && ShapeOk(s) && Mirrors(nodes, s, at, parent, g)
    requires KidsDone(nodes, code, s.kids, at + 1, g, lo)
    requires nodes[at].entry == NONE && nodes[at].tail == NONE
    requires s.kind.Terminal? || s.kind.UnitNode?
    ensures NodeDone(nodes, code, Process(env, nodes, code, at), Elaborate(s, at, g), at, lo)
  {
    InertHasNoCode(s.kids, at + 1, g);
    var r := Process(env, nodes, code, at);
    if s.kind.Terminal? {
      assert Placed(code, Concat(ElaborateAll(s.kids, at + 1, g)), lo) by {
        NoCodePlaced(code, ElaborateAll(s.kids, at + 1, g), lo);
      }
    }
  }

  lemma {:induction false} NoCodePlaced(code: seq<Instruction>, f: Forest, lo: nat)
    requires !HasCodes(f) && PlacedApart(code, f, lo)
    ensures PlacedAll(code, f, lo)
  {
    if f.Cons? {
      NoCodePlaced(code, f.tail, lo);
    }
  }

  /** The children of a node, linked. */
  lemma {:induction false} KidsLinked(nodes: seq<BreNode>, code: seq<Instruction>, s: Syntax, at: nat, parent: int,
                                      g: nat, lo: nat)
    requires RangesOk(nodes) && Mirrors(nodes, s, at, parent, g)
    requires KidsDone(nodes, code, s.kids, at + 1, InnerGroups(s, g), lo)
    ensures var f := ElaborateAll(s.kids, at + 1, InnerGroups(s, g));
            var chain := Link(nodes, at, at + 1, Chain(code, NONE, NONE, NONE));
            && |chain.code| == |code| && chain.code[..lo] == code[..lo] && PlacedAll(chain.code, f, lo)
            && chain.entry == EntryOr(f, lo) && chain.tail == TailOr(f, lo)
            && (if QuantifierOf(s.kids).Plain? then chain.quantifier == NONE
                else chain.quantifier < |nodes| && nodes[chain.quantifier].kind == QuantifierOf(s.kids))
  {
    var f := ElaborateAll(s.kids, at + 1, InnerGroups(s, g));
    var chain := Chain(code, NONE, NONE, NONE);
    RootsOf(nodes, at, s.kids, at + 1, InnerGroups(s, g), lo);
    LinkForest(nodes, at, at + 1, f, lo, chain);
    LinkPlaces(nodes, at, at + 1, f, lo, chain);
    LinkQuantifier(nodes, at, s.kids, at + 1, InnerGroups(s, g), chain);
  }

  /** Code extended by a node's own instructions, with the children's last link set. */
  lemma {:induction false} OwnCode(code: seq<Instruction>, own: seq<Instruction>, f: Forest, lo: nat, next: nat)
    requires PlacedAll(code, f, lo) && |code| == lo + CodeSizes(f)
    ensures var code' := if HasCodes(f) then SetNext(code + own, TailOfs(f, lo), next) else code + own;
            && |code'| == |code| + |own| && code'[..lo] == code[..lo] && code'[|code|..] == own
            && PlacedAll(code', f, lo) && (HasCodes(f) ==> code'[TailOfs(f, lo)].next == next)
  {
    var code' := if HasCodes(f) then SetNext(code + own, TailOfs(f, lo), next) else code + own;
    PlacedAllAgree(code, code', f, lo);
  }

  lemma {:induction false} GroupPlaced(code: seq<Instruction>, f: Forest, lo: nat, at: nat, id: nat, last: nat)
    requires PlacedAll(code, f, lo) && |code| == lo + CodeSizes(f) + 2
    requires var open := lo + CodeSizes(f);
             && code[open] == Instruction(Open, id, last, if HasCodes(f) then EntryOfs(f, lo) else open + 1, 0, at)
             && code[open + 1] == Emit(Close, id, 0)
             && (HasCodes(f) ==> code[TailOfs(f, lo)].next == open + 1)
    ensures Placed(code, Group(at, id, last, f), lo)
  {
  }

  lemma {:induction false} LoopPlaced(code: seq<Instruction>, f: Forest, lo: nat, at: nat, min: nat, max: nat)
    requires HasCodes(f) && PlacedAll(code, f, lo) && |code| == lo + CodeSizes(f) + 2
    requires var repeat := lo + CodeSizes(f);
             && code[repeat] == Instruction(Repeat, EntryOfs(f, lo), at, NONE, min, max)
             && code[repeat + 1] == Emit(RepeatEnd, repeat, 0)
             && code[TailOfs(f, lo)].next == repeat + 1
    ensures Placed(code, Loop(at, min, max, f), lo)
  {
  }

  lemma {:induction false} GroupCode(env: Env, nodes: seq<BreNode>, chain: Chain, at: nat, f: Forest, lo: nat)
    requires at < |nodes| && |env.positions| > env.groups
    requires PlacedAll(chain.code, f, lo) && |chain.code| == lo + CodeSizes(f) < NONE
    requires chain.entry == EntryOr(f, lo) && chain.tail == TailOr(f, lo)
    ensures var r := LowerGroup(env, nodes, at, chain);
            r.Lowered? ==>
              && |r.code| == |chain.code| + 2 && r.code[..lo] == chain.code[..lo]
              && Placed(r.code, Group(at, nodes[at].group, LastInside(env, nodes[at].group, nodes[at].end), f), lo)
  {
    var open := |chain.code|;
    var r := LowerGroup(env, nodes, at, chain);
    if r.Lowered? {
      var last := LastInside(env, nodes[at].group, nodes[at].end);
      var own := [Instruction(Open, nodes[at].group, last, if HasCodes(f) then EntryOfs(f, lo) else open + 1, 0, at),
                  Emit(Close, nodes[at].group, 0)];
      OwnCode(chain.code, own, f, lo, open + 1);
      assert r.code[open] == r.code[open..][0] && r.code[open + 1] == r.code[open..][1];
      GroupPlaced(r.code, f, lo, at, nodes[at].group, last);
    }
  }

  lemma {:induction false} LoopCode(env: Env, nodes: seq<BreNode>, chain: Chain, at: nat, f: Forest, lo: nat, min: nat,
                                    max: nat)
    requires at < |nodes| && chain.quantifier < |nodes| && nodes[chain.quantifier].kind == Quantifier(min, max)
    requires PlacedAll(chain.code, f, lo) && |chain.code| == lo + CodeSizes(f) < NONE
    requires chain.entry == EntryOr(f, lo) && chain.tail == TailOr(f, lo)
    ensures var r := LowerLoop(env, nodes, at, chain);
            r.Lowered? ==>
              HasCodes(f) && |r.code| == |chain.code| + 2 && r.code[..lo] == chain.code[..lo]
                  && Placed(r.code, Loop(at, min, max, f), lo)
  {
    var repeat := |chain.code|;
    var r := LowerLoop(env, nodes, at, chain);
    if r.Lowered? {
      var own := [Instruction(Repeat, EntryOfs(f, lo), at, NONE, min, max), Emit(RepeatEnd, repeat, 0)];
      assert r.code == SetNext(chain.code + own, TailOfs(f, lo), repeat + 1);
      OwnCode(chain.code, own, f, lo, repeat + 1);
      assert r.code[repeat] == r.code[repeat..][0] && r.code[repeat + 1] == r.code[repeat..][1];
      LoopPlaced(r.code, f, lo, at, min, max);
    }
  }

  /** The operands of a group's opening: its number and the last number inside it. */
  lemma {:induction false} GroupOperands(env: Env, nodes: seq<BreNode>, s: Syntax, at: nat, parent: int, g: nat)
    requires RangesOk(nodes) && EnvOk(env, nodes) && s.kind.GroupNode? && Mirrors(nodes, s, at, parent, g)
    requires g == GroupCount(nodes, at)
    ensures nodes[at].group == g + 1 && |env.positions| > env.groups
    ensures LastInside(env, g + 1, nodes[at].end) == g + 1 + GroupsAll(s.kids)
  {
    GroupCountTree(nodes, s, at, parent, g);
    LastInsideIs(env, nodes, g + 1, at + NodeCount(s));
  }

  lemma {:induction false} GroupStep(env: Env, nodes: seq<BreNode>, code: seq<Instruction>, chain: Chain, s: Syntax,
                                     at: nat, g: nat, lo: nat)
    requires s.kind.GroupNode? && at < |nodes| && |env.positions| > env.groups
    requires nodes[at].group == g + 1 && LastInside(env, g + 1, nodes[at].end) == g + 1 + GroupsAll(s.kids)
    requires var f := ElaborateAll(s.kids, at + 1, g + 1);
             && PlacedAll(chain.code, f, lo) && |chain.code| == |code| == lo + CodeSizes(f) < NONE
                && chain.code[..lo] == code[..lo]
             && chain.entry == EntryOr(f, lo) && chain.tail == TailOr(f, lo)
    ensures NodeDone(nodes, code, LowerGroup(env, nodes, at, chain), Elaborate(s, at, g), at, lo)
  {
    var f := ElaborateAll(s.kids, at + 1, g + 1);
    GroupCode(env, nodes, chain, at, f, lo);
    assert Elaborate(s, at, g) == Group(at, g + 1, g + 1 + GroupsAll(s.kids), f);
  }

  lemma {:induction false} LoopStep(env: Env, nodes: seq<BreNode>, code: seq<Instruction>, chain: Chain, s: Syntax,
                                    at: nat, parent: int, g: nat, lo: nat)
    requires Repeats(s) && Mirrors(nodes, s, at, parent, g) && |env.positions| > env.groups
    requires chain.quantifier < |nodes| && nodes[chain.quantifier].kind == QuantifierOf(s.kids)
    requires var f := ElaborateAll(s.kids, at + 1, g);
             && PlacedAll(chain.code, f, lo) && |chain.code| == |code| == lo + CodeSizes(f) < NONE
                && chain.code[..lo] == code[..lo]
             && chain.entry == EntryOr(f, lo) && chain.tail == TailOr(f, lo)
    ensures NodeDone(nodes, code, LowerLoop(env, nodes, at, chain), Elaborate(s, at, g), at, lo)
  {
    var f := ElaborateAll(s.kids, at + 1, g);
    var q := QuantifierOf(s.kids);
    LoopCode(env, nodes, chain, at, f, lo, q.min, q.max);
    assert Elaborate(s, at, g) == Loop(at, q.min, q.max, f);
  }

  lemma {:induction false} PlainStep(nodes: seq<BreNode>, code: seq<Instruction>, chain: Chain, s: Syntax, at: nat,
                                     g: nat, lo: nat)
    requires !s.kind.UnitNode? && !s.kind.GroupNode? && !Repeats(s) && at < |nodes|
    requires var f := ElaborateAll(s.kids, at + 1, g);
             && PlacedAll(chain.code, f, lo) && |chain.code| == |code| == lo + CodeSizes(f)
                && chain.code[..lo] == code[..lo]
             && chain.entry == EntryOr(f, lo) && chain.tail == TailOr(f, lo)
    ensures NodeDone(nodes, code, Finish(nodes, chain.code, at, chain.entry, chain.tail), Elaborate(s, at, g), at, lo)
  {
    assert Elaborate(s, at, g) == Concat(ElaborateAll(s.kids, at + 1, g));
  }

  lemma {:induction false} NodeStep(env: Env, nodes: seq<BreNode>, code: seq<Instruction>, s: Syntax, at: nat,
                                    parent: int, g: nat, lo: nat)
    requires RangesOk(nodes) && EnvOk(env, nodes) && |nodes| <= NONE && ShapeOk(s) && Mirrors(nodes, s, at, parent, g)
    requires g == GroupCount(nodes, at) && nodes[at].entry == NONE && nodes[at].tail == NONE
    requires KidsDone(nodes, code, s.kids, at + 1, InnerGroups(s, g), lo)
    ensures NodeDone(nodes, code, Process(env, nodes, code, at), Elaborate(s, at, g), at, lo)
  {
    if s.kind.Terminal? || s.kind.UnitNode? {
      LeafDone(env, nodes, code, s, at, parent, g, lo);
    } else {
      var chain := Link(nodes, at, at + 1, Chain(code, NONE, NONE, NONE));
      KidsLinked(nodes, code, s, at, parent, g, lo);
      if s.kind.GroupNode? {
        GroupOperands(env, nodes, s, at, parent, g);
        GroupStep(env, nodes, code, chain, s, at, g, lo);
      } else if Repeats(s) {
        LoopStep(env, nodes, code, chain, s, at, parent, g, lo);
      } else {
        PlainStep(nodes, code, chain, s, at, g, lo);
      }
    }
  }

  // ---------- whole trees ----------

  ghost predicate Untouched(nodes: seq<BreNode>, lo: nat, hi: nat) {
    hi <= |nodes| && forall k :: lo <= k < hi ==> nodes[k].entry == NONE && nodes[k].tail == NONE
  }

  /** A range of the array, lowered to a tree's code at `lo`. */
  ghost predicate TreeDone(nodes: seq<BreNode>, code: seq<Instruction>, r: Lowered, t: Tree, at: nat, end: nat) {
    r.Lowered? ==>
      && |r.code| == |code| + CodeSize(t) < NONE && r.code[..|code|] == code
      && Placed(r.code, t, |code|) && Changed(nodes, r.nodes, at, end)
      && at < |r.nodes| && Recorded(r.nodes[at], t, |code|)
  }

  ghost predicate ForestDone(nodes: seq<BreNode>, code: seq<Instruction>, r: Lowered, ns: Nodes, at: nat, g: nat) {
    r.Lowered? ==>
      && |code| <= |r.code| && r.code[..|code|] == code && Changed(nodes, r.nodes, at, at + NodeCounts(ns))
      && KidsDone(r.nodes, r.code, ns, at, g, |code|)
  }

  /** The children's result and the node's own make the tree's. */
  lemma {:induction false} TreeFromNode(nodes: seq<BreNode>, code: seq<Instruction>, kids: Lowered, r: Lowered,
                                        s: Syntax, at: nat, g: nat)
    requires kids.Lowered? && ForestDone(nodes, code, kids, s.kids, at + 1, InnerGroups(s, g))
    requires NodeDone(kids.nodes, kids.code, r, Elaborate(s, at, g), at, |code|)
    requires r.Lowered? ==> |r.code| < NONE
    ensures TreeDone(nodes, code, r, Elaborate(s, at, g), at, at + NodeCount(s))
  {
  }

  /** The main result: lowering the nodes of a tree places the tree's code. */
  lemma {:induction false} LowerTree(env: Env, p: Processor, nodes: seq<BreNode>, code: seq<Instruction>, s: Syntax,
                                     at: nat, end: nat, parent: int, g: nat, r: Lowered)
    requires IsProcessor(env, p) && RangesOk(nodes) && EnvOk(env, nodes) && |nodes| <= NONE && |code| <= env.capacity
    requires ShapeOk(s) && Mirrors(nodes, s, at, parent, g) && g == GroupCount(nodes, at)
    requires Untouched(nodes, at, at + NodeCount(s))
    requires end == at + NodeCount(s) && r == ProcessDown(p, nodes, code, end, at)
    ensures TreeDone(nodes, code, r, Elaborate(s, at, g), at, end)
    decreases s, 0, 0
  {
    var kids := ProcessDown(p, nodes, code, end, at + 1);
    LowerForest(env, p, nodes, code, s.kids, at + 1, end, at, InnerGroups(s, g), kids);
    ProcessKeeps(env, p, nodes, code, end, at + 1);
    LowerNode(env, p, nodes, code, s, at, end, parent, g, kids, r);
  }

  /** The children being lowered, the node itself is lowered next. */
  lemma {:induction false} LowerNode(env: Env, p: Processor, nodes: seq<BreNode>, code: seq<Instruction>, s: Syntax,
                                     at: nat, end: nat, parent: int, g: nat, kids: Lowered, r: Lowered)
    requires IsProcessor(env, p) && RangesOk(nodes) && EnvOk(env, nodes) && |nodes| <= NONE && |code| <= env.capacity
    requires ShapeOk(s) && Mirrors(nodes, s, at, parent, g) && g == GroupCount(nodes, at)
    requires Untouched(nodes, at, at + 1) && end == at + NodeCount(s)
    requires kids == ProcessDown(p, nodes, code, end, at + 1) && r == ProcessDown(p, nodes, code, end, at)
    requires kids.Lowered? ==> RangesOk(kids.nodes) && |kids.nodes| == |nodes|
    requires ForestDone(nodes, code, kids, s.kids, at + 1, InnerGroups(s, g))
    ensures TreeDone(nodes, code, r, Elaborate(s, at, g), at, end)
  {
    ProcessSplit(p, nodes, code, end, at + 1, at);
    if kids.Lowered? {
      ProcessOne(env, p, kids.nodes, kids.code, at);
      ProcessKeeps(env, p, nodes, code, end, at);
      AfterKids(env, nodes, kids, s, at, parent, g, |code|);
      TreeFromNode(nodes, code, kids, r, s, at, g);
    }
  }

  /** Once its children are done, the node itself can be. */
  lemma {:induction false} AfterKids(env: Env, nodes: seq<BreNode>, kids: Lowered, s: Syntax, at: nat, parent: int,
                                     g: nat, lo: nat)
    requires RangesOk(nodes) && EnvOk(env, nodes) && |nodes| <= NONE
    requires ShapeOk(s) && Mirrors(nodes, s, at, parent, g) && g == GroupCount(nodes, at)
    requires Untouched(nodes, at, at + 1)
    requires kids.Lowered? && RangesOk(kids.nodes) && Changed(nodes, kids.nodes, at + 1, at + NodeCount(s))
    requires KidsDone(kids.nodes, kids.code, s.kids, at + 1, InnerGroups(s, g), lo)
    ensures at < |kids.nodes| && |env.positions| > env.groups
    ensures NodeDone(kids.nodes, kids.code, Process(env, kids.nodes, kids.code, at), Elaborate(s, at, g), at, lo)
  {
    MirrorsChanged(nodes, kids.nodes, s, at, parent, g);
    GroupCountSame(nodes, kids.nodes, at);
    EnvChanged(env, nodes, kids.nodes);
    NodeStep(env, kids.nodes, kids.code, s, at, parent, g, lo);
  }

  lemma {:induction false} EnvChanged(env: Env, nodes: seq<BreNode>, nodes': seq<BreNode>)
    requires EnvOk(env, nodes) && Changed(nodes, nodes', 0, |nodes|)
    ensures EnvOk(env, nodes')
  {
    GroupCountSame(nodes, nodes', |nodes|);
    forall k | 1 <= k <= env.groups
      ensures GroupCount(nodes', env.positions[k]) == k - 1
    {
      GroupCountSame(nodes, nodes', env.positions[k]);
    }
  }

  lemma {:induction false} LowerForest(env: Env, p: Processor, nodes: seq<BreNode>, code: seq<Instruction>, ns: Nodes,
                                       at: nat, end: nat, parent: int, g: nat, r: Lowered)
    requires IsProcessor(env, p) && RangesOk(nodes) && EnvOk(env, nodes) && |nodes| <= NONE && |code| <= env.capacity
    requires ShapesOk(ns) && MirrorsAll(nodes, ns, at, parent, g) && g == GroupCount(nodes, at)
    requires Untouched(nodes, at, at + NodeCounts(ns))
    requires end == at + NodeCounts(ns) && r == ProcessDown(p, nodes, code, end, at)
    ensures ForestDone(nodes, code, r, ns, at, g)
    decreases ns, 1, 0
  {
    if ns.More? {
      var rest := ProcessDown(p, nodes, code, end, at + NodeCount(ns.head));
      LowerRest(env, p, nodes, code, ns, at, end, parent, g, rest, r);
      if rest.Lowered? {
        LowerHead(env, p, nodes, rest, ns, at, parent, g, r);
        if r.Lowered? {
          JoinKids(nodes, code, rest, r, ns, at, g);
        }
      }
    } else {
      assert r == Lowered(nodes, code);
    }
  }

  /** The later trees of a forest are lowered first. */
  lemma {:induction false} LowerRest(env: Env, p: Processor, nodes: seq<BreNode>, code: seq<Instruction>, ns: Nodes,
                                     at: nat, end: nat, parent: int, g: nat, rest: Lowered, r: Lowered)
    requires IsProcessor(env, p) && RangesOk(nodes) && EnvOk(env, nodes) && |nodes| <= NONE && |code| <= env.capacity
    requires ns.More? && ShapesOk(ns) && MirrorsAll(nodes, ns, at, parent, g) && g == GroupCount(nodes, at)
    requires Untouched(nodes, at, at + NodeCounts(ns)) && end == at + NodeCounts(ns)
    requires rest == ProcessDown(p, nodes, code, end, at + NodeCount(ns.head))
    requires r == ProcessDown(p, nodes, code, end, at)
    ensures ForestDone(nodes, code, rest, ns.tail, at + NodeCount(ns.head), g + Groups(ns.head))
    ensures rest.Failed? ==> r == rest
    ensures rest.Lowered? ==>
              && |rest.code| <= env.capacity && RangesOk(rest.nodes)
              && r == ProcessDown(p, rest.nodes, rest.code, at + NodeCount(ns.head), at)
    decreases ns, 0, 1
  {
    var mid := at + NodeCount(ns.head);
    TailReady(nodes, ns, at, parent, g);
    LowerForest(env, p, nodes, code, ns.tail, mid, end, parent, g + Groups(ns.head), rest);
    ProcessKeeps(env, p, nodes, code, end, mid);
    ProcessSplit(p, nodes, code, end, mid, at);
  }

  lemma {:induction false} TailReady(nodes: seq<BreNode>, ns: Nodes, at: nat, parent: int, g: nat)
    requires ns.More? && ShapesOk(ns) && MirrorsAll(nodes, ns, at, parent, g) && g == GroupCount(nodes, at)
    requires Untouched(nodes, at, at + NodeCounts(ns))
    ensures var mid := at + NodeCount(ns.head);
            && mid + NodeCounts(ns.tail) == at + NodeCounts(ns) && ShapesOk(ns.tail)
            && MirrorsAll(nodes, ns.tail, mid, parent, g + Groups(ns.head))
               && g + Groups(ns.head) == GroupCount(nodes, mid)
            && Untouched(nodes, mid, mid + NodeCounts(ns.tail))
  {
    GroupCountTree(nodes, ns.head, at, parent, g);
  }

  /** The rest of a forest being lowered, its head is lowered next. */
  lemma {:induction false} LowerHead(env: Env, p: Processor, nodes: seq<BreNode>, rest: Lowered, ns: Nodes, at: nat,
                                     parent: int, g: nat, r: Lowered)
    requires IsProcessor(env, p) && EnvOk(env, nodes) && |nodes| <= NONE
    requires ns.More? && ShapeOk(ns.head) && MirrorsAll(nodes, ns, at, parent, g) && g == GroupCount(nodes, at)
    requires Untouched(nodes, at, at + NodeCounts(ns))
    requires rest.Lowered? && |rest.code| <= env.capacity && RangesOk(rest.nodes)
    requires Changed(nodes, rest.nodes, at + NodeCount(ns.head), at + NodeCounts(ns))
    requires r == ProcessDown(p, rest.nodes, rest.code, at + NodeCount(ns.head), at)
    ensures TreeDone(rest.nodes, rest.code, r, Elaborate(ns.head, at, g), at, at + NodeCount(ns.head))
    decreases ns, 0, 0
  {
    var head := ns.head;
    HeadReady(env, nodes, rest.nodes, ns, at, parent, g);
    LowerTree(env, p, rest.nodes, rest.code, head, at, at + NodeCount(head), parent, g, r);
  }

  lemma {:induction false} HeadReady(env: Env, nodes: seq<BreNode>, nodes': seq<BreNode>, ns: Nodes, at: nat,
                                     parent: int, g: nat)
    requires ns.More? && EnvOk(env, nodes) && MirrorsAll(nodes, ns, at, parent, g) && g == GroupCount(nodes, at)
    requires Untouched(nodes, at, at + NodeCounts(ns))
    requires Changed(nodes, nodes', at + NodeCount(ns.head), at + NodeCounts(ns))
    ensures EnvOk(env, nodes') && Mirrors(nodes', ns.head, at, parent, g) && g == GroupCount(nodes', at)
    ensures Untouched(nodes', at, at + NodeCount(ns.head))
  {
    MirrorsChanged(nodes, nodes', ns.head, at, parent, g);
    GroupCountSame(nodes, nodes', at);
    EnvChanged(env, nodes, nodes');
  }

  /** A tree lowered after the rest of its forest completes the forest. */
  lemma {:induction false} JoinKids(nodes: seq<BreNode>, code: seq<Instruction>, rest: Lowered, r: Lowered, ns: Nodes,
                                    at: nat, g: nat)
    requires ns.More? && rest.Lowered? && r.Lowered?
    requires ForestDone(nodes, code, rest, ns.tail, at + NodeCount(ns.head), g + Groups(ns.head))
    requires TreeDone(rest.nodes, rest.code, r, Elaborate(ns.head, at, g), at, at + NodeCount(ns.head))
    ensures ForestDone(nodes, code, r, ns, at, g)
  {
    var mid := at + NodeCount(ns.head);
    ChangedJoin(nodes, rest.nodes, r.nodes, at, mid, at + NodeCounts(ns));
    JoinDone(code, rest, r, ns, at, g, mid, Elaborate(ns.head, at, g), ElaborateAll(ns.tail, mid, g + Groups(ns.head)));
  }

  lemma {:induction false} JoinDone(code: seq<Instruction>, rest: Lowered, r: Lowered, ns: Nodes, at: nat, g: nat,
                                    mid: nat, t: Tree, f: Forest)
    requires ns.More? && mid == at + NodeCount(ns.head) && rest.Lowered? && r.Lowered? && |code| <= |rest.code|
    requires t == Elaborate(ns.head, at, g) && f == ElaborateAll(ns.tail, mid, g + Groups(ns.head))
    requires rest.code[..|code|] == code && KidsDone(rest.nodes, rest.code, ns.tail, mid, g + Groups(ns.head), |code|)
    requires |r.code| == |rest.code| + CodeSize(t) < NONE && r.code[..|rest.code|] == rest.code
    requires Placed(r.code, t, |rest.code|)
    requires Changed(rest.nodes, r.nodes, at, mid) && at < |r.nodes| && Recorded(r.nodes[at], t, |rest.code|)
    ensures |code| <= |r.code| && r.code[..|code|] == code && KidsDone(r.nodes, r.code, ns, at, g, |code|)
  {
    JoinCode(code, rest.code, r.code, f);
    RecordedAllKept(rest.nodes, r.nodes, ns.tail, mid, g + Groups(ns.head), |code|);
    KidsJoin(r.nodes, r.code, ns, at, g, |code|, t, f);
  }

  /** What a forest's first tree and the others left behind. */
  lemma {:induction false} KidsJoin(nodes: seq<BreNode>, code: seq<Instruction>, ns: Nodes, at: nat, g: nat, lo: nat,
                                    t: Tree, f: Forest)
    requires ns.More? && at < |nodes| && t == Elaborate(ns.head, at, g)
    requires f == ElaborateAll(ns.tail, at + NodeCount(ns.head), g + Groups(ns.head))
    requires RecordedAll(nodes, ns.tail, at + NodeCount(ns.head), g + Groups(ns.head), lo) && PlacedApart(code, f, lo)
    requires Recorded(nodes[at], t, lo + CodeSizes(f)) && Placed(code, t, lo + CodeSizes(f))
    requires |code| == lo + CodeSizes(f) + CodeSize(t) < NONE
    ensures KidsDone(nodes, code, ns, at, g, lo)
  {
    RecordedJoin(nodes, ns, at, g, lo, t, f);
    PlacedApartJoin(code, t, f, lo);
  }

  lemma {:induction false} RecordedJoin(nodes: seq<BreNode>, ns: Nodes, at: nat, g: nat, lo: nat, t: Tree, f: Forest)
    requires ns.More? && at < |nodes| && t == Elaborate(ns.head, at, g)
    requires f == ElaborateAll(ns.tail, at + NodeCount(ns.head), g + Groups(ns.head))
    requires RecordedAll(nodes, ns.tail, at + NodeCount(ns.head), g + Groups(ns.head), lo)
    requires Recorded(nodes[at], t, lo + CodeSizes(f))
    ensures RecordedAll(nodes, ns, at, g, lo) && ElaborateAll(ns, at, g) == Cons(t, f)
  {
  }

  lemma {:induction false} PlacedApartJoin(code: seq<Instruction>, t: Tree, f: Forest, lo: nat)
    requires PlacedApart(code, f, lo) && Placed(code, t, lo + CodeSizes(f)) && lo + CodeSizes(f) + CodeSize(t) <= |code|
    ensures PlacedApart(code, Cons(t, f), lo) && CodeSizes(Cons(t, f)) == CodeSizes(f) + CodeSize(t)
  {
  }

  /** Code behind a forest leaves it, and what is before it, as it was. */
  lemma {:induction false} JoinCode(code: seq<Instruction>, rest: seq<Instruction>, all: seq<Instruction>, f: Forest)
    requires |code| <= |rest| <= |all| && rest[..|code|] == code && all[..|rest|] == rest
    requires PlacedApart(rest, f, |code|) && |rest| == |code| + CodeSizes(f)
    ensures PlacedApart(all, f, |code|) && all[..|code|] == code
  {
    assert forall k :: 0 <= k < |rest| ==> all[k] == all[..|rest|][k];
    PlacedApartAgree(rest, all, f, |code|);
    assert all[..|code|] == all[..|rest|][..|code|];
  }

  lemma {:induction false} ChangedJoin(a: seq<BreNode>, b: seq<BreNode>, c: seq<BreNode>, lo: nat, mid: nat, hi: nat)
    requires Changed(a, b, mid, hi) && Changed(b, c, lo, mid) && lo <= mid <= hi
    ensures Changed(a, c, lo, hi)
  {
  }
}
