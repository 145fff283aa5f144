/** Parsed patterns and their operands: the node array of a parse can be decoded,
    its classes need no more ranges than there are tokens, and texts that are
    single scalars cannot be malformed. */
module BrePattern {
  import opened Folding
  import opened PegGrammar
  import opened PegAnalysis
  import opened PegSyntax
  import opened BreGrammar
  import opened BreGrammarFacts
  import opened BreParsed
  import BreProgram
  import opened BreStatus
  import opened BreSyntax
  import opened BreOperands
  import opened BreNodes
  import Events = PegEvents

  /** The kinds that decoding gives the nodes of a parse. */
  function Decoded(d: Source): Naming {
    (r: nat, i: nat) => if d.Ok() && i < |d.nodes| then KindOf(d, r, i) else Blank(r)
  }

  lemma {:induction false} DecodedFits(d: Source)
    ensures Fitting(Decoded(d))
  {
    forall r: nat, i: nat {:trigger Decoded(d)(r, i)}
      ensures Fits(RoleOf(r), Decoded(d)(r, i))
    {
      assert Decoded(d)(r, i) == if d.Ok() && i < |d.nodes| then KindOf(d, r, i) else Blank(r);
    }
  }

  /** A tree's array stands at index `at`. Kept folded, as the next is. */
  ghost predicate Holds(d: Source, t: PegGrammar.Tree, at: nat, parent: int) {
    && at + Events.Size(t) <= |d.nodes|
    && forall z: nat {:trigger Shown(z)} :: Shown(z) ==>
         d.nodes[at..at + Events.Size(t)] == Events.Flatten(t, at, parent)
  }

  ghost predicate HoldsAll(d: Source, ts: Trees, at: nat, parent: int) {
    && at + Events.Sizes(ts) <= |d.nodes|
    && forall z: nat {:trigger Shown(z)} :: Shown(z) ==>
         d.nodes[at..at + Events.Sizes(ts)] == Events.FlattenAll(ts, at, parent)
  }

  /** The parts of a rule's array. */
  lemma {:induction false} HoldsRule(d: Source, t: PegGrammar.Tree, at: nat, parent: int)
    requires Holds(d, t, at, parent) && t.Branch?
    ensures at < |d.nodes| && d.nodes[at] == Events.Entry(true, t.rule, at + Events.Size(t), parent)
    ensures HoldsAll(d, t.kids, at + 1, at)
  {
    assert Shown(0);
    var e := Events.Entry(true, t.rule, at + Events.Size(t), parent);
    SliceParts(d.nodes, at, at + Events.Size(t), [e], Events.FlattenAll(t.kids, at + 1, at));
    assert d.nodes[at] == d.nodes[at..at + 1][0];
  }

  lemma {:induction false} HoldsLeaf(d: Source, t: PegGrammar.Tree, at: nat, parent: int)
    requires Holds(d, t, at, parent) && t.Leaf?
    ensures at < |d.nodes| && d.nodes[at] == Events.Entry(false, t.position, at + 1, parent)
  {
    assert Shown(0);
    assert d.nodes[at] == d.nodes[at..at + 1][0];
  }

  /** The parts of the array of some trees. */
  lemma {:induction false} HoldsTrees(d: Source, ts: Trees, at: nat, parent: int)
    requires HoldsAll(d, ts, at, parent) && ts.Cons?
    ensures Holds(d, ts.head, at, parent) && HoldsAll(d, ts.tail, at + Events.Size(ts.head), parent)
  {
    assert Shown(0);
    var mid := at + Events.Size(ts.head);
    SliceParts(d.nodes, at, at + Events.Sizes(ts), Events.Flatten(ts.head, at, parent),
               Events.FlattenAll(ts.tail, mid, parent));
  }

  lemma {:induction false} SliceParts(es: seq<Events.Entry>, at: nat, end: nat, a: seq<Events.Entry>,
                                      b: seq<Events.Entry>)
    requires at <= end <= |es| && es[at..end] == a + b
    ensures at + |a| <= end && es[at..at + |a|] == a && es[at + |a|..end] == b
  {
    var all := es[at..end];
    assert |all| == |a| + |b| && es[at..at + |a|] == all[..|a|] && es[at + |a|..end] == all[|a|..];
  }

  lemma {:induction false} HoldsWhole(d: Source, t: PegGrammar.Tree)
    requires d.nodes == Events.Flatten(t, 0, -1)
    ensures Holds(d, t, 0, -1) && Events.Size(t) == |d.nodes|
  {
    assert d.nodes[0..|d.nodes|] == d.nodes;
  }

  // ---------- the node array can be decoded ----------

  /** The leaves of trees are among the first `n` tokens. */
  ghost predicate LeavesIn(es: seq<Events.Entry>, n: nat) {
    forall k :: 0 <= k < |es| ==> es[k].isRule || es[k].name < n
  }

  lemma {:induction false} LeavesJoin(a: seq<Events.Entry>, b: seq<Events.Entry>, n: nat)
    requires LeavesIn(a, n) && LeavesIn(b, n)
    ensures LeavesIn(a + b, n)
  {
  }

  lemma {:induction false} LeavesFlatten(g: PegGrammar.Grammar, c: Rules, n: nat, ts: Trees, at: nat, parent: int)
    requires GrownAll(g, c, n, ts)
    ensures LeavesIn(Events.FlattenAll(ts, at, parent), n)
    decreases ts, 1
  {
    if ts.Cons? {
      var mid := at + Events.Size(ts.head);
      LeavesOne(g, c, n, ts.head, at, parent);
      LeavesFlatten(g, c, n, ts.tail, mid, parent);
      LeavesJoin(Events.Flatten(ts.head, at, parent), Events.FlattenAll(ts.tail, mid, parent), n);
    }
  }

  lemma {:induction false} LeavesOne(g: PegGrammar.Grammar, c: Rules, n: nat, t: PegGrammar.Tree, at: nat, parent: int)
    requires Grown(g, c, n, t)
    ensures LeavesIn(Events.Flatten(t, at, parent), n)
    decreases t, 0
  {
    if t.Branch? {
      LeavesFlatten(g, c, n, t.kids, at + 1, at);
      LeavesJoin([Events.Entry(true, t.rule, at + Events.Size(t), parent)], Events.FlattenAll(t.kids, at + 1, at), n);
    }
  }

  /** Ranges of the array lie inside it, and parents come first. */
  lemma {:induction false} NodesInside(t: PegGrammar.Tree, at: nat, parent: int, es: seq<Events.Entry>)
    requires parent < at && es == Events.Flatten(t, at, parent)
    ensures forall k :: 0 <= k < |es| ==> at + k < es[k].end <= at + |es| && parent <= es[k].parent < at + k
  {
    Events.FlattenNested(t, at, parent);
    forall k: nat | k < |es|
      ensures at + k < es[k].end <= at + |es| && parent <= es[k].parent < at + k
    {
      assert Events.Tiles(es, at, parent, k);
    }
  }

  /** The node array of a parse, with texts for its tokens. */
  lemma {:induction false} SourceOk(c: Rules, n: nat, t: PegGrammar.Tree, d: Source)
    requires GrownAll(Table(), c, n, Cons(t, Nil)) && n <= |d.texts| && d.maxRepeat <= BreProgram.MAX_REPEAT
    requires d.nodes == Events.Flatten(t, 0, -1)
    ensures d.Ok() && forall k :: 0 <= k < |d.nodes| ==> -1 <= d.nodes[k].parent < k
  {
    LeavesFlatten(Table(), c, n, Cons(t, Nil), 0, -1);
    assert Events.FlattenAll(Cons(t, Nil), 0, -1) == d.nodes + [] == d.nodes;
    NodesInside(t, 0, -1, d.nodes);
  }

  function Kinds(d: Source): (r: seq<Kind>)
    requires d.Ok()
    ensures |r| == |d.nodes|
  {
    seq(|d.nodes|, k requires 0 <= k < |d.nodes| => KindAt(d, k))
  }

  lemma {:induction false} KindsDecoded(d: Source)
    requires d.Ok()
    ensures KindsOf(d, Kinds(d))
  {
    forall k: nat {:trigger Kinds(d)[k]} | k < |d.nodes|
      ensures IsKind(d, k, Kinds(d)[k])
    {
    }
  }

  lemma {:induction false} NamedAt(d: Source, k: nat)
    requires d.Ok() && k < |d.nodes|
    ensures NodeOf(Decoded(d), d.nodes[k], k) ==
            BreNode(Kinds(d)[k], d.nodes[k].end, d.nodes[k].parent, BreProgram.NONE, BreProgram.NONE, 0)
  {
  }

  /** The decoded parse is the flattened syntax tree. */
  lemma {:induction false} SyntaxParsed(d: Source, t: PegGrammar.Tree)
    requires d.Ok() && d.nodes == Events.Flatten(t, 0, -1)
    ensures Parsed(d, Kinds(d), Flatten(Shape(Decoded(d), t, 0), 0, -1))
  {
    ShapeFlattens(Decoded(d), t, 0, -1);
    KindsDecoded(d);
    forall k: nat {:trigger d.nodes[k]} | k < |d.nodes|
      ensures Named(Decoded(d), d.nodes, 0)[k] ==
              BreNode(Kinds(d)[k], d.nodes[k].end, d.nodes[k].parent, BreProgram.NONE, BreProgram.NONE, 0)
    {
      NamedAt(d, k);
    }
  }

  // ---------- ranges are paid for by tokens ----------

  /** What the rules among the nodes from `lo` up to `hi` may add to the range table. */
  function Price(d: Source, lo: nat, hi: nat): nat
    requires hi <= |d.nodes|
    decreases hi - lo
  {
    if lo >= hi then 0 else Price(d, lo + 1, hi) + if d.nodes[lo].isRule then RangePrice(d.nodes[lo].name) else 0
  }

  lemma {:induction false} PriceParts(d: Source, lo: nat, mid: nat, hi: nat)
    requires lo <= mid <= hi <= |d.nodes|
    ensures Price(d, lo, hi) == Price(d, lo, mid) + Price(d, mid, hi)
    decreases mid - lo
  {
    if lo < mid {
      PriceParts(d, lo + 1, mid, hi);
    }
  }

  /** Reading a class adds no more ranges than its nodes may add. */
  lemma {:induction false} ClassCost(d: Source, node: nat, i: nat, s: Scan)
    requires d.Ok() && node < |d.nodes|
    ensures |ClassFrom(d, node, i, s).ranges| <= |s.ranges| + Price(d, i, d.nodes[node].end)
    decreases |d.nodes| - i
  {
    var end := d.nodes[node].end;
    if i < end {
      var t := OneNode(d, node, i, s);
      assert |t.0.ranges| <= |s.ranges| + if d.nodes[i].isRule then RangePrice(d.nodes[i].name) else 0;
      ClassCost(d, node, t.1, t.0);
      if t.1 <= end {
        PriceParts(d, i + 1, t.1, end);
      }
    }
  }

  lemma {:induction false} PriceIsCost(d: Source, ts: Trees, at: nat, parent: int)
    requires HoldsAll(d, ts, at, parent)
    ensures Price(d, at, at + Events.Sizes(ts)) == CostAll(RangeTariff(), ts)
    decreases ts, 1
  {
    if ts.Cons? {
      var mid := at + Events.Size(ts.head);
      HoldsTrees(d, ts, at, parent);
      PriceOfOne(d, ts.head, at, parent);
      PriceIsCost(d, ts.tail, mid, parent);
      PriceParts(d, at, mid, at + Events.Sizes(ts));
    }
  }

  lemma {:induction false} PriceOfOne(d: Source, t: PegGrammar.Tree, at: nat, parent: int)
    requires Holds(d, t, at, parent)
    ensures Price(d, at, at + Events.Size(t)) == Cost(RangeTariff(), t)
    decreases t, 0
  {
    if t.Branch? {
      HoldsRule(d, t, at, parent);
      PriceIsCost(d, t.kids, at + 1, at);
    } else {
      HoldsLeaf(d, t, at, parent);
      assert Price(d, at + 1, at + 1) == 0;
    }
  }

  /** `f` is the size of the range table from each node on. Kept folded. */
  ghost predicate IsSize(d: Source, f: nat -> nat) {
    d.Ok() && forall z: nat {:trigger Shown(z)} :: Shown(z) ==>
                forall i: nat {:trigger f(i)} :: f(i) == |RangeTable(d, i)|
  }

  /** A class adds at most what the nodes below it may add, any other node nothing. */
  lemma {:induction false} SizeStep(d: Source, f: nat -> nat, i: nat)
    requires IsSize(d, f) && i < |d.nodes|
    ensures f(i) <= f(i + 1) + if d.Is(i, CLASS) then Price(d, i + 1, d.nodes[i].end) else 0
    ensures !d.Is(i, CLASS) ==> f(i) == f(i + 1)
  {
    assert Shown(0);
    if d.Is(i, CLASS) {
      ClassCost(d, i, i + 1, Scan(Status.Ok, false, [], 0));
    }
  }

  /** There is no class below quiet rules. */
  lemma {:induction false} QuietTable(d: Source, f: nat -> nat, ts: Trees, at: nat, end: nat, parent: int)
    requires IsSize(d, f) && AllOurs(ts) && TopIn(Quiet(), ts) && HoldsAll(d, ts, at, parent)
    requires end == at + Events.Sizes(ts)
    ensures f(at) == f(end)
    decreases ts, 0
  {
    if ts.Cons? {
      var mid := at + Events.Size(ts.head);
      HoldsTrees(d, ts, at, parent);
      QuietOne(d, f, ts.head, at, mid, parent);
      QuietTable(d, f, ts.tail, mid, end, parent);
    }
  }

  lemma {:induction false} QuietOne(d: Source, f: nat -> nat, t: PegGrammar.Tree, at: nat, end: nat, parent: int)
    requires IsSize(d, f) && Ours(t) && (t.Branch? ==> Quiet()(t.rule)) && Holds(d, t, at, parent)
    requires end == at + Events.Size(t)
    ensures f(at) == f(end)
    decreases t, 0
  {
    SizeStep(d, f, at);
    if t.Branch? {
      HoldsRule(d, t, at, parent);
      Below(t);
      QuietBelow(t.rule, t.kids);
      QuietTable(d, f, t.kids, at + 1, end, at);
    } else {
      HoldsLeaf(d, t, at, parent);
    }
  }

  lemma {:induction false} TableCost(d: Source, f: nat -> nat, t: PegGrammar.Tree, at: nat, end: nat, parent: int)
    requires IsSize(d, f) && Ours(t) && Holds(d, t, at, parent) && end == at + Events.Size(t)
    ensures f(at) <= f(end) + Cost(RangeTariff(), t)
    decreases t
  {
    SizeStep(d, f, at);
    if t.Leaf? {
      HoldsLeaf(d, t, at, parent);
    } else {
      HoldsRule(d, t, at, parent);
      Below(t);
      if t.rule == CLASS {
        ClassTable(d, f, t, at, end);
        PriceIsCost(d, t.kids, at + 1, at);
      } else {
        TableCosts(d, f, t.kids, at + 1, end, at);
      }
    }
  }

  /** Below a class there is no other. */
  lemma {:induction false} ClassTable(d: Source, f: nat -> nat, t: PegGrammar.Tree, at: nat, end: nat)
    requires IsSize(d, f) && Ours(t) && t.Branch? && t.rule == CLASS && HoldsAll(d, t.kids, at + 1, at)
    requires end == at + Events.Size(t)
    ensures f(at + 1) == f(end)
  {
    ClassQuiet(t);
    QuietTable(d, f, t.kids, at + 1, end, at);
  }

  lemma {:induction false} ClassQuiet(t: PegGrammar.Tree)
    requires Ours(t) && t.Branch? && t.rule == CLASS
    ensures AllOurs(t.kids) && TopIn(Quiet(), t.kids)
  {
    Below(t);
    QuietBelow(t.rule, t.kids);
  }

  lemma {:induction false} TableCosts(d: Source, f: nat -> nat, ts: Trees, at: nat, end: nat, parent: int)
    requires IsSize(d, f) && AllOurs(ts) && HoldsAll(d, ts, at, parent) && end == at + Events.Sizes(ts)
    ensures f(at) <= f(end) + CostAll(RangeTariff(), ts)
    decreases ts
  {
    if ts.Cons? {
      var mid := at + Events.Size(ts.head);
      HoldsTrees(d, ts, at, parent);
      TableCost(d, f, ts.head, at, mid, parent);
      TableCosts(d, f, ts.tail, mid, end, parent);
    }
  }

  /** The whole table of one tree. */
  lemma {:induction false} WholeTable(d: Source, t: PegGrammar.Tree)
    requires d.Ok() && Ours(t) && d.nodes == Events.Flatten(t, 0, -1)
    ensures |RangeTable(d, 0)| <= Cost(RangeTariff(), t)
  {
    var f := (i: nat) => if d.Ok() then |RangeTable(d, i)| else 0;
    assert IsSize(d, f);
    HoldsWhole(d, t);
    TableCost(d, f, t, 0, |d.nodes|, -1);
    assert f(|d.nodes|) == 0;
  }

  /** The classes of a pattern add at most one range for every token before the end. */
  lemma {:induction false} PatternRanges(tokens: seq<nat>, d: Source)
    requires d.Ok()
    ensures GrammarOk(Table())
    ensures var p := ParseRule(Table(), tokens, 0, 0);
            p.Match? && p.trees.Cons? && d.nodes == Events.Flatten(p.trees.head, 0, -1) ==>
                |RangeTable(d, 0)| + 1 <= p.next
  {
    PatternPrice(tokens);
    var p := ParseRule(Table(), tokens, 0, 0);
    if p.Match? && d.nodes == Events.Flatten(p.trees.head, 0, -1) {
      WholeTable(d, p.trees.head);
    }
  }

  lemma {:induction false} PatternPrice(tokens: seq<nat>)
    ensures GrammarOk(Table())
    ensures var p := ParseRule(Table(), tokens, 0, 0);
            p.Match? ==> p.trees.Cons? && Ours(p.trees.head) && Cost(RangeTariff(), p.trees.head) + 1 <= p.next
  {
    TableOk();
    TablePays();
    RulePaid(Table(), tokens, RangeTariff(), 0, 0);
    RuleGrown(Table(), tokens, Bearing(), 0, 0);
    var p := ParseRule(Table(), tokens, 0, 0);
    if p.Match? {
      GrownOurs(p.next, p.trees);
      assert CostAll(RangeTariff(), p.trees) == Cost(RangeTariff(), p.trees.head);
    }
  }

  // ---------- ranges are in order ----------

  ghost predicate Ordered(ranges: seq<BreProgram.Range>) {
    forall k :: 0 <= k < |ranges| ==> ranges[k].first <= ranges[k].last
  }

  lemma {:induction false} ClassOrdered(d: Source, node: nat, i: nat, s: Scan)
    requires d.Ok() && node < |d.nodes| && Ordered(s.ranges)
    ensures Ordered(ClassFrom(d, node, i, s).ranges)
    decreases |d.nodes| - i
  {
    if i < d.nodes[node].end {
      var t := OneNode(d, node, i, s);
      ClassOrdered(d, node, t.1, t.0);
    }
  }

  /** Every range of the table runs upwards. */
  lemma {:induction false} TableOrdered(d: Source, i: nat)
    requires d.Ok()
    ensures Ordered(RangeTable(d, i))
    decreases |d.nodes| - i
  {
    if i < |d.nodes| {
      TableOrdered(d, i + 1);
      ClassOrdered(d, i, i + 1, Scan(Status.Ok, false, [], 0));
    }
  }

  // ---------- texts that are single scalars ----------

  /** Whole trees stand among these nodes, and every token there is one scalar. */
  ghost predicate Clean(d: Source, lo: nat, hi: nat) {
    && d.Ok() && hi <= |d.nodes|
    && forall k :: lo <= k < hi ==>
        d.nodes[k].end <= hi
        && (!d.nodes[k].isRule ==> ScalarOf(d.texts[d.nodes[k].name]).Value?)
  }

  lemma {:induction false} CleanTexts(d: Source, lo: nat, hi: nat, i: nat, j: nat)
    requires Clean(d, lo, hi) && lo <= i && j <= hi
    ensures forall n :: 0 <= n < |d.Texts(i, j)| ==> ScalarOf(d.Texts(i, j)[n]).Value?
    decreases j
  {
    if i < j {
      CleanTexts(d, lo, hi, i, j - 1);
    }
  }

  lemma {:induction false} CleanScalar(d: Source, lo: nat, hi: nat, i: nat, n: nat)
    requires Clean(d, lo, hi) && lo <= i < hi
    ensures var r := ScalarAt(d, i, n); r.Fault? ==> r.status == BadPattern
  {
    CleanTexts(d, lo, hi, i + 1, d.nodes[i].end);
  }

  lemma {:induction false} CleanScalars(d: Source, lo: nat, hi: nat, i: nat, j: nat, read: seq<nat>)
    requires Clean(d, lo, hi) && lo <= i && j <= hi
    ensures var r := ScalarsFrom(d, i, j, read); r.Unreadable? ==> r.status == BadPattern
    decreases |d.nodes| - i
  {
    if i < j {
      if d.Is(i, CLASS_SCALAR) {
        CleanScalar(d, lo, hi, i, 0);
        var r := ScalarAt(d, i, 0);
        if r.Value? {
          CleanScalars(d, lo, hi, d.nodes[i].end, j, read + [r.value]);
        }
      } else {
        CleanScalars(d, lo, hi, i + 1, j, read);
      }
    }
  }

  lemma {:induction false} CleanElement(d: Source, lo: nat, hi: nat, node: nat, i: nat, begun: bool)
    requires Clean(d, lo, hi) && lo <= i < hi && node < |d.nodes| && IsElement(d, i)
    ensures var f := ElementAt(d, node, i, begun); f.status == Status.Ok || f.status == BadPattern
  {
    CleanScalar(d, lo, hi, i, 0);
    CleanScalars(d, lo, hi, i + 1, d.nodes[i].end, if d.Is(i, INITIAL_CLOSE_RANGE) then [93] else []);
  }

  /** What can be wrong with a class. */
  predicate ClassFault(status: Status) {
    status == Status.Ok || status == BadPattern || status == Unsupported
  }

  lemma {:induction false} CleanNode(d: Source, lo: nat, hi: nat, node: nat, i: nat, s: Scan)
    requires Clean(d, lo, hi) && lo <= i < hi && node < |d.nodes| && ClassFault(s.status)
    ensures ClassFault(OneNode(d, node, i, s).0.status)
  {
    if IsElement(d, i) {
      CleanElement(d, lo, hi, node, i, s.ranges != []);
    }
  }

  lemma {:induction false} CleanClass(d: Source, lo: nat, hi: nat, node: nat, i: nat, s: Scan)
    requires Clean(d, lo, hi) && lo <= node < i && node < hi && ClassFault(s.status)
    ensures ClassFault(ClassFrom(d, node, i, s).status)
    decreases |d.nodes| - i
  {
    if i < d.nodes[node].end {
      var t := OneNode(d, node, i, s);
      CleanNode(d, lo, hi, node, i, s);
      CleanClass(d, lo, hi, node, t.1, t.0);
    }
  }

  /** What can be wrong with a node. */
  predicate NodeFault(status: Status) {
    ClassFault(status) || status == Limit
  }

  lemma {:induction false} CleanKind(d: Source, lo: nat, hi: nat, i: nat)
    requires Clean(d, lo, hi) && lo <= i < hi
    ensures NodeFault(FaultOf(KindAt(d, i)))
  {
    CleanScalar(d, lo, hi, i, 0);
    CleanScalar(d, lo, hi, i, 1);
    CleanClass(d, lo, hi, i, i + 1, Scan(Status.Ok, false, [], 0));
  }

  // ---------- the last token ----------

  /** A complete parse is one tree and the end of the text. */
  lemma {:induction false} LastToken(tokens: seq<nat>, c: Rules)
    ensures GrammarOk(Table())
    ensures var p := ParseRule(Table(), tokens, 0, 0);
            p.Match? ==>
              && p.next > 0 && p.trees.Cons? && p.trees.tail.Nil? && p.trees.head.Branch? && p.trees.head.rule == 0
              && var kids := p.trees.head.kids;
                 kids.Cons? && kids.tail == Cons(Leaf(p.next - 1), Nil)
                     && GrownAll(Table(), c, p.next - 1, Cons(kids.head, Nil))
  {
    TableOk();
    assert Body(0) == Then(Call(1), Then(Expect(EOF), Items.End));
    RuleAndToken(Table(), tokens, c, 0, 1, EOF, 0);
  }

  /** With one scalar for every token but the last, no text is malformed. */
  lemma {:induction false} PatternClean(tokens: seq<nat>, d: Source, i: nat)
    requires d.Ok() && i < |d.nodes| && |d.texts| == |tokens|
    requires forall k :: 0 <= k < |tokens| - 1 ==> ScalarOf(d.texts[k]).Value?
    ensures GrammarOk(Table())
    ensures var p := ParseRule(Table(), tokens, 0, 0);
            p.Match? && p.trees.Cons? && d.nodes == Events.Flatten(p.trees.head, 0, -1) && p.next == |tokens| ==>
              NodeFault(FaultOf(KindAt(d, i)))
  {
    TableOk();
    var p := ParseRule(Table(), tokens, 0, 0);
    if p.Match? && p.trees.Cons? && d.nodes == Events.Flatten(p.trees.head, 0, -1) && p.next == |tokens| {
      ParseEnds(tokens, p.trees.head);
      ParseClean(tokens, d, p.trees.head, i);
    }
  }

  lemma {:induction false} ParseEnds(tokens: seq<nat>, t: PegGrammar.Tree)
    requires GrammarOk(Table())
    requires var p := ParseRule(Table(), tokens, 0, 0);
             p.Match? && p.trees.Cons? && p.trees.head == t && p.next == |tokens|
    ensures |tokens| > 0 && t.Branch? && t.rule == 0 && t.kids.Cons? && t.kids.tail == Cons(Leaf(|tokens| - 1), Nil)
    ensures GrownAll(Table(), None(), |tokens| - 1, Cons(t.kids.head, Nil))
  {
    LastToken(tokens, None());
  }

  /** The tree of a parse, the end token last. */
  lemma {:induction false} ParseClean(tokens: seq<nat>, d: Source, t: PegGrammar.Tree, i: nat)
    requires d.Ok() && i < |d.nodes| && |d.texts| == |tokens| > 0 && d.nodes == Events.Flatten(t, 0, -1)
    requires forall k :: 0 <= k < |tokens| - 1 ==> ScalarOf(d.texts[k]).Value?
    requires t.Branch? && t.rule == 0 && t.kids.Cons? && t.kids.tail == Cons(Leaf(|tokens| - 1), Nil)
    requires GrownAll(Table(), None(), |tokens| - 1, Cons(t.kids.head, Nil))
    ensures NodeFault(FaultOf(KindAt(d, i)))
  {
    WholeClean(d, t, |tokens| - 1, i);
  }

  lemma {:induction false} WholeClean(d: Source, t: PegGrammar.Tree, n: nat, i: nat)
    requires d.Ok() && i < |d.nodes| && d.nodes == Events.Flatten(t, 0, -1) && n < |d.texts|
    requires forall k :: 0 <= k < n ==> ScalarOf(d.texts[k]).Value?
    requires t.Branch? && t.rule == 0 && t.kids.Cons? && t.kids.tail == Cons(Leaf(n), Nil)
    requires GrownAll(Table(), None(), n, Cons(t.kids.head, Nil))
    ensures NodeFault(FaultOf(KindAt(d, i)))
  {
    var hi := 1 + Events.Size(t.kids.head);
    HoldsWhole(d, t);
    HoldsRule(d, t, 0, -1);
    HoldsTrees(d, t.kids, 1, 0);
    if 0 < i < hi {
      FirstClean(d, t.kids.head, n, hi);
      CleanKind(d, 1, hi, i);
    } else {
      HoldsTrees(d, t.kids.tail, hi, 0);
      HoldsLeaf(d, t.kids.tail.head, hi, 0);
      EndsClean(d, i);
      assert |d.nodes| == hi + 1;
    }
  }

  /** The start rule and tokens are not decoded. */
  lemma {:induction false} EndsClean(d: Source, i: nat)
    requires d.Ok() && i < |d.nodes|
    ensures !d.nodes[i].isRule || d.nodes[i].name == 0 ==> FaultOf(KindAt(d, i)) == Status.Ok
  {
  }

  lemma {:induction false} FirstClean(d: Source, first: PegGrammar.Tree, n: nat, hi: nat)
    requires d.Ok() && hi == 1 + Events.Size(first) && Holds(d, first, 1, 0) && n <= |d.texts|
    requires GrownAll(Table(), None(), n, Cons(first, Nil)) && forall k :: 0 <= k < n ==> ScalarOf(d.texts[k]).Value?
    ensures Clean(d, 1, hi)
  {
    var es := Events.Flatten(first, 1, 0);
    NodesInside(first, 1, 0, es);
    LeavesFlatten(Table(), None(), n, Cons(first, Nil), 1, 0);
    assert Events.FlattenAll(Cons(first, Nil), 1, 0) == es + [] == es;
    assert Shown(0);
    forall k | 1 <= k < hi
      ensures d.nodes[k] == es[k - 1]
    {
      assert d.nodes[k] == d.nodes[1..1 + |es|][k - 1];
    }
  }
}
