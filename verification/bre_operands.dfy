/** What lowering reads out of the node array and the texts of the tokens: the
    scalar of a literal, the bounds of a quantifier, the ranges of a class. */
module BreOperands {
  import opened BreProgram
  import opened BreSyntax
  import opened BreStatus
  import opened BreGrammar
  import opened BreGrammarFacts
  import opened BreQuantity
  import opened Folding
  import Utf8 = BreUtf8
  import Events = PegEvents

  /** The node array, the bytes of every token, and the largest number of a quantifier. */
  datatype Source = Source(nodes: seq<Events.Entry>, texts: seq<seq<nat>>, maxRepeat: nat) {
    predicate Ok() {
      && maxRepeat <= MAX_REPEAT
      && forall k :: 0 <= k < |nodes| ==> k < nodes[k].end <= |nodes| && (nodes[k].isRule || nodes[k].name < |texts|)
    }

    predicate Is(i: nat, rule: nat)
      requires i < |nodes|
    {
      nodes[i].isRule && nodes[i].name == rule
    }

    /** The texts of the tokens among the nodes from `lo` up to `hi`. */
    function Texts(lo: nat, hi: nat): (ts: seq<seq<nat>>)
      requires Ok() && hi <= |nodes|
      decreases hi
    {
      if hi <= lo then []
      else if nodes[hi - 1].isRule then Texts(lo, hi - 1) else Texts(lo, hi - 1) + [texts[nodes[hi - 1].name]]
    }

    /** The texts of the tokens below node `i`. */
    function Below(i: nat): seq<seq<nat>>
      requires Ok() && i < |nodes|
    {
      Texts(i + 1, nodes[i].end)
    }
  }

  lemma {:induction false} TextsGrow(d: Source, lo: nat, mid: nat, hi: nat)
    requires d.Ok() && mid <= hi <= |d.nodes|
    ensures d.Texts(lo, mid) <= d.Texts(lo, hi)
    decreases hi
  {
    if mid < hi {
      TextsGrow(d, lo, mid, hi - 1);
    }
  }

  // ---------- scalars ----------

  datatype Reading = Value(value: nat) | Fault(status: Status)

  /** The text is one scalar, and not NUL. */
  function ScalarOf(text: seq<nat>): Reading {
    if text == [] then Fault(Encoding)
    else if text[0] == 0 then Fault(Argument)
    else if !Utf8.WellFormed(text) then Fault(Encoding)
    else if |text| == Utf8.More(text[0]) + 1 then Value(Utf8.ValueOf(text)) else Fault(BadPattern)
  }

  /** The scalar of token number `n` below node `i`. */
  function ScalarAt(d: Source, i: nat, n: nat): Reading
    requires d.Ok() && i < |d.nodes|
  {
    if n < |d.Below(i)| then ScalarOf(d.Below(i)[n]) else Fault(BadPattern)
  }

  // ---------- numbers ----------

  /** The first byte of a text; the source ends with a NUL byte. */
  function FirstByte(text: seq<nat>): nat {
    if text == [] then 0 else text[0]
  }

  /** Subtraction of unsigned integers. */
  function Minus(a: nat, b: nat): nat
    requires b <= NONE
  {
    if a >= b then a - b else a + (NONE + 1 - b)
  }

  /** The value of the tokens among the nodes from `lo` up to `hi`. */
  function NumberIn(d: Source, lo: nat, hi: nat): nat
    requires d.Ok() && hi <= |d.nodes|
  {
    Decimal(Digits(d.Texts(lo, hi)))
  }

  /** One token more is one digit more, and the number only grows after it. */
  lemma {:induction false} NumberGrows(d: Source, lo: nat, j: nat, hi: nat)
    requires d.Ok() && lo <= j < hi <= |d.nodes|
    ensures d.nodes[j].isRule ==> NumberIn(d, lo, j + 1) == NumberIn(d, lo, j)
    ensures !d.nodes[j].isRule ==>
              NumberIn(d, lo, j + 1) == NumberIn(d, lo, j) * 10 + Minus(FirstByte(d.texts[d.nodes[j].name]), 48)
    ensures NumberIn(d, lo, j + 1) <= NumberIn(d, lo, hi)
  {
    var before, after, all := d.Texts(lo, j), d.Texts(lo, j + 1), d.Texts(lo, hi);
    if !d.nodes[j].isRule {
      assert Digits(after)[..|after| - 1] == Digits(before);
    }
    TextsGrow(d, lo, j + 1, hi);
    assert Digits(all)[..|after|] == Digits(after);
    DecimalGrows(Digits(all), |after|);
  }

  function Digits(texts: seq<seq<nat>>): (r: seq<nat>)
    ensures |r| == |texts|
  {
    seq(|texts|, k requires 0 <= k < |texts| => Minus(FirstByte(texts[k]), 48))
  }

  /** The numbers among the nodes from `lo` up to `hi`. */
  function Numbers(d: Source, lo: nat, hi: nat): (ns: seq<seq<nat>>)
    requires d.Ok() && hi <= |d.nodes|
    decreases hi
  {
    if hi <= lo then []
    else if d.Is(hi - 1, NUMBER) then Numbers(d, lo, hi - 1) + [Digits(d.Below(hi - 1))] else Numbers(d, lo, hi - 1)
  }

  lemma {:induction false} NumbersGrow(d: Source, lo: nat, mid: nat, hi: nat)
    requires d.Ok() && mid <= hi <= |d.nodes|
    ensures Numbers(d, lo, mid) <= Numbers(d, lo, hi)
    decreases hi
  {
    if mid < hi {
      NumbersGrow(d, lo, mid, hi - 1);
    }
  }

  function FormOf(d: Source, q: nat): Form
    requires q < |d.nodes|
  {
    if d.Is(q, STAR_REPEAT) then StarForm
    else if d.Is(q, EXACT_REPEAT) then ExactForm
    else if d.Is(q, BOUNDED_REPEAT) then BoundedForm
    else OpenForm
  }

  /** The bounds of the quantifier at node `q`. */
  function QuantityAt(d: Source, q: nat): (b: Bounds)
    requires d.Ok() && q < |d.nodes|
    ensures b.Bounds? ==> b.min <= b.max <= NONE && b.min <= d.maxRepeat
  {
    if q + 1 >= d.nodes[q].end then BadBounds
    else BoundsOf(FormOf(d, q + 1), Numbers(d, q + 2, d.nodes[q + 1].end), d.maxRepeat)
  }

  function BoundsStatus(b: Bounds): Status {
    match b
    case BadBounds => BadPattern
    case TooLarge => Limit
    case Bounds(_, _) => Status.Ok
  }

  /** The last quantifier among the children of node `i` from `j` on, or else `q`. */
  function LastQuantifier(d: Source, i: nat, j: nat, q: nat): nat
    requires d.Ok() && i < |d.nodes|
    decreases |d.nodes| - j
  {
    if j >= d.nodes[i].end then q
    else LastQuantifier(d, i, d.nodes[j].end, if d.nodes[j].parent == i && d.Is(j, QUANTIFIER) then j else q)
  }

  /** Whether the piece at node `i` can be repeated as its quantifier says. */
  function PieceStatus(d: Source, i: nat): Status
    requires d.Ok() && i < |d.nodes|
  {
    var q := LastQuantifier(d, i, i + 1, NONE);
    if q < |d.nodes| then BoundsStatus(QuantityAt(d, q)) else Status.Ok
  }

  // ---------- classes ----------

  function Codes(s: string): (r: seq<nat>)
    ensures |r| == |s|
  {
    seq(|s|, k requires 0 <= k < |s| => s[k] as nat)
  }

  /** The ranges of a named class of the C locale; none for an unknown name. */
  function NamedRanges(name: seq<nat>): (r: seq<Range>)
    ensures |r| <= 4 && (r != [] ==> |name| <= 6)
    ensures forall k :: 0 <= k < |r| ==> r[k].first <= r[k].last
  {
    if name == Codes("alnum") then [Range(48, 57), Range(65, 90), Range(97, 122)]
    else if name == Codes("alpha") then [Range(65, 90), Range(97, 122)]
    else if name == Codes("blank") then [Range(9, 9), Range(32, 32)]
    else if name == Codes("cntrl") then [Range(0, 31), Range(127, 127)]
    else if name == Codes("digit") then [Range(48, 57)]
    else if name == Codes("graph") then [Range(33, 126)]
    else if name == Codes("lower") then [Range(97, 122)]
    else if name == Codes("print") then [Range(32, 126)]
    else if name == Codes("punct") then [Range(33, 47), Range(58, 64), Range(91, 96), Range(123, 126)]
    else if name == Codes("space") then [Range(9, 13), Range(32, 32)]
    else if name == Codes("upper") then [Range(65, 90)]
    else if name == Codes("xdigit") then [Range(48, 57), Range(65, 70), Range(97, 102)]
    else []
  }

  /** What an element of a class adds. */
  datatype Found = Found(status: Status, ranges: seq<Range>)

  function OneRange(a: nat, b: nat): Found {
    if a > b then Found(BadPattern, []) else Found(Status.Ok, [Range(a, b)])
  }

  /** The first node from `lo` up to `hi` that is of the rule, or else `hi`. */
  function FirstOf(d: Source, rule: nat, lo: nat, hi: nat): (i: nat)
    requires lo <= hi <= |d.nodes|
    ensures lo <= i <= hi && (i < hi ==> d.Is(i, rule))
    decreases hi - lo
  {
    if lo == hi || d.Is(lo, rule) then lo else FirstOf(d, rule, lo + 1, hi)
  }

  function Letters(texts: seq<seq<nat>>): (r: seq<nat>)
    ensures |r| == |texts|
  {
    seq(|texts|, k requires 0 <= k < |texts| => FirstByte(texts[k]))
  }

  /** The name in the class name below node `i`. */
  function NameAt(d: Source, i: nat): seq<nat>
    requires d.Ok() && i < |d.nodes|
  {
    var n := FirstOf(d, CLASS_NAME, i + 1, d.nodes[i].end);
    if n == d.nodes[i].end then [] else Letters(d.Below(n))
  }

  datatype Readings = Values(values: seq<nat>) | Unreadable(status: Status)

  /** The scalars of class scalars from node `lo` up to `hi`, after those already read. */
  function ScalarsFrom(d: Source, lo: nat, hi: nat, read: seq<nat>): Readings
    requires d.Ok() && hi <= |d.nodes|
    decreases |d.nodes| - lo
  {
    if lo >= hi then Values(read)
    else if !d.Is(lo, CLASS_SCALAR) then ScalarsFrom(d, lo + 1, hi, read)
    else
      match ScalarAt(d, lo, 0)
      case Fault(status) => Unreadable(status)
      case Value(v) => ScalarsFrom(d, d.nodes[lo].end, hi, read + [v])
  }

  /** The two ends of a range, the first of them given if it is `]`. */
  function RangeAt(d: Source, i: nat): Found
    requires d.Ok() && i < |d.nodes|
  {
    match ScalarsFrom(d, i + 1, d.nodes[i].end, if d.Is(i, INITIAL_CLOSE_RANGE) then [93] else [])
    case Unreadable(status) => Found(status, [])
    case Values(values) => if |values| != 2 then Found(BadPattern, []) else OneRange(values[0], values[1])
  }

  predicate IsElement(d: Source, i: nat)
    requires i < |d.nodes|
  {
    || d.Is(i, NAMED_CLASS) || d.Is(i, INITIAL_CLOSE) || d.Is(i, RANGE) || d.Is(i, INITIAL_CLOSE_RANGE)
       || d.Is(i, CLASS_SCALAR)
  }

  /** The element at node `i` of the class at `node`; a hyphen stands for itself
      only at either end of the class. */
  function ElementAt(d: Source, node: nat, i: nat, begun: bool): (f: Found)
    requires d.Ok() && node < |d.nodes| && i < |d.nodes| && IsElement(d, i)
    ensures |f.ranges| <= RangePrice(d.nodes[i].name)
            && forall k :: 0 <= k < |f.ranges| ==> f.ranges[k].first <= f.ranges[k].last
  {
    if d.Is(i, NAMED_CLASS) then
      var ranges := NamedRanges(NameAt(d, i));
      Found(if ranges == [] then BadPattern else Status.Ok, ranges)
    else if d.Is(i, INITIAL_CLOSE) then OneRange(93, 93)
    else if d.Is(i, CLASS_SCALAR) then
      match ScalarAt(d, i, 0)
      case Fault(status) => Found(status, [])
      case Value(v) => if v == 45 && begun && d.nodes[i].end + 1 != d.nodes[node].end then Found(BadPattern, [])
        else OneRange(v, v)
    else RangeAt(d, i)
  }

  /** How far a class has been read. */
  datatype Scan = Scan(status: Status, negative: bool, ranges: seq<Range>, work: nat)

  /** Looks at node `i` of the class at `node`, and says where to go on. */
  function OneNode(d: Source, node: nat, i: nat, s: Scan): (r: (Scan, nat))
    requires d.Ok() && node < |d.nodes| && i < |d.nodes|
    ensures i < r.1 <= |d.nodes| && r.0.work == s.work + 1 && s.ranges <= r.0.ranges
  {
    var t := s.(work := s.work + 1);
    var end := d.nodes[i].end;
    if d.Is(i, NEGATION) then (t.(negative := true), end)
    else if d.Is(i, COLLATING) || d.Is(i, EQUIVALENCE) then (t.(status := Unsupported), end)
    else if !IsElement(d, i) then (t, i + 1)
    else
      var f := ElementAt(d, node, i, s.ranges != []);
      (t.(status := f.status, ranges := s.ranges + f.ranges), end)
  }

  /** Reads the class at `node` from node `i` on. */
  function ClassFrom(d: Source, node: nat, i: nat, s: Scan): (r: Scan)
    requires d.Ok() && node < |d.nodes|
    ensures r.work >= s.work && s.ranges <= r.ranges
    decreases |d.nodes| - i
  {
    if i >= d.nodes[node].end then if s.ranges == [] then s.(status := BadPattern) else s
    else
      var t := OneNode(d, node, i, s);
      if t.0.status != Status.Ok then t.0 else ClassFrom(d, node, t.1, t.0)
  }

  function ClassAt(d: Source, i: nat): (r: Scan)
    requires d.Ok() && i < |d.nodes|
  {
    ClassFrom(d, i, i + 1, Scan(Status.Ok, false, [], 0))
  }

  /** The ranges of all classes from node `i` on, the last class's first. */
  function RangeTable(d: Source, i: nat): (r: seq<Range>)
    requires d.Ok()
    decreases |d.nodes| - i
  {
    if i >= |d.nodes| then []
    else if d.Is(i, CLASS) then RangeTable(d, i + 1) + ClassAt(d, i).ranges else RangeTable(d, i + 1)
  }

  // ---------- nodes ----------

  /** A node lowered to one instruction on a scalar below it. */
  function ScalarUnit(op: Op, r: Reading): Kind {
    match r
    case Fault(status) => UnitNode(op, 0, 0, status, 0)
    case Value(v) => UnitNode(op, if op.Ref? then Minus(v, 48) else v, 0, Status.Ok, 0)
  }

  /** What a node of the rule is, with its operands. */
  function KindOf(d: Source, r: nat, i: nat): (k: Kind)
    requires d.Ok() && i < |d.nodes|
    ensures Fits(RoleOf(r), k)
  {
    match RoleOf(r)
    case Silent => Plain
    case Grouping => GroupNode
    case Refused => UnsupportedNode
    case Repeatable => PieceNode(PieceStatus(d, i))
    case Repeating => (match QuantityAt(d, i) case Bounds(min, max) => Quantifier(min, max) case _ => Quantifier(0, 0))
    case Bracket =>
      var s := ClassAt(d, i);
      UnitNode(if s.negative then NotClass else Class, |RangeTable(d, i + 1)|, |s.ranges|, s.status, s.work)
    case Single(op) =>
      if r == LITERAL || r == ESCAPE || r == REFERENCE then
        ScalarUnit(op, ScalarAt(d, i, if r == LITERAL then 0 else 1))
      else UnitNode(op, if r == INITIAL_STAR then 42 else 0, 0, Status.Ok, 0)
  }

  /** A node's role alone. */
  function Blank(r: nat): (k: Kind)
    ensures Fits(RoleOf(r), k)
  {
    match RoleOf(r)
    case Silent => Plain
    case Grouping => GroupNode
    case Refused => UnsupportedNode
    case Repeatable => PieceNode(Status.Ok)
    case Repeating => Quantifier(0, 0)
    case Bracket => UnitNode(Class, 0, 0, Status.Ok, 0)
    case Single(op) => UnitNode(op, 0, 0, Status.Ok, 0)
  }

  /** The kind of node `i`, with its operands. */
  function KindAt(d: Source, i: nat): Kind
    requires d.Ok() && i < |d.nodes|
  {
    if d.nodes[i].isRule then KindOf(d, d.nodes[i].name, i) else Terminal
  }

  function BlankAt(d: Source, i: nat): Kind
    requires i < |d.nodes|
  {
    if d.nodes[i].isRule then Blank(d.nodes[i].name) else Terminal
  }

  /** Two kinds that differ at most in operands. */
  predicate SameSort(a: Kind, b: Kind) {
    match a
    case Terminal => b.Terminal?
    case Plain => b.Plain?
    case UnsupportedNode => b.UnsupportedNode?
    case UnitNode(_, _, _, _, _) => b.UnitNode?
    case GroupNode => b.GroupNode?
    case PieceNode(_) => b.PieceNode?
    case Quantifier(_, _) => b.Quantifier?
  }

  lemma {:induction false} SameSorts(d: Source, i: nat)
    requires d.Ok() && i < |d.nodes|
    ensures SameSort(BlankAt(d, i), KindAt(d, i))
    ensures BlankAt(d, i).Quantifier? <==> d.Is(i, QUANTIFIER)
    ensures KindAt(d, i).UnitNode? ==> IsUnit(KindAt(d, i).op)
  {
  }

  /** Node `i` is of this kind. Kept folded. */
  ghost predicate IsKind(d: Source, i: nat, k: Kind) {
    d.Ok() && i < |d.nodes| && forall z: nat {:trigger Shown(z)} :: Shown(z) ==> KindAt(d, i) == k
  }

  /** The table holds the ranges of the classes from node `i` on. Kept folded. */
  ghost predicate IsTable(d: Source, i: nat, table: seq<Range>) {
    d.Ok() && forall z: nat {:trigger Shown(z)} :: Shown(z) ==> RangeTable(d, i) == table
  }

  /** Only classes add to the table. */
  lemma {:induction false} TableKept(d: Source, i: nat, k: Kind, table: seq<Range>)
    requires IsKind(d, i, k) && !k.UnitNode? && IsTable(d, i + 1, table)
    ensures IsTable(d, i, table)
  {
    assert Shown(0);
  }

  lemma {:induction false} TableGrows(d: Source, i: nat, j: nat)
    requires d.Ok() && i <= j
    ensures RangeTable(d, j) <= RangeTable(d, i)
    decreases j - i
  {
    if i < j {
      TableGrows(d, i + 1, j);
    }
  }

  /** A class's instruction names the part of the table that holds its ranges. */
  lemma {:induction false} ClassPlaced(d: Source, i: nat, k: Kind)
    requires IsKind(d, i, k) && IsClass(k)
    ensures var table := RangeTable(d, 0);
            k.a + k.b <= |table| && table[k.a..k.a + k.b] == ClassAt(d, i).ranges
                && (k.op.NotClass? <==> ClassAt(d, i).negative)
  {
    assert Shown(0);
    TableGrows(d, 0, i);
  }
}
