/** Decoding as it runs, while nodes are lowered: loops over the node array, and a
    range table of limited size that classes are appended to. */
module BreDecode {
  import opened BreProgram
  import opened BreSyntax
  import opened BreStatus
  import opened BreGrammar
  import opened BreQuantity
  import opened Folding
  import opened BreOperands
  import Utf8 = BreUtf8
  import Budget = BreBudget

  /** Ranges `found` by decoding were appended to the table, or decoding failed,
      or there was no room for all of them. */
  ghost predicate Appended(before: seq<Range>, found: Found, status: Status, after: seq<Range>, room: nat) {
    && (status == Ok ==> found.status == Ok && after == before + found.ranges)
    && (status != Ok ==> status == found.status || (status == Limit && |before| + |found.ranges| > room))
  }

  lemma {:induction false} ScalarOfNext(text: seq<nat>, report: Budget.Report, value: nat, next: nat)
    requires report == Budget.Fine ==>
               Utf8.Scalar(value) && value != 0 && next == |Utf8.Encode(value)| <= |text|
                   && Utf8.Encode(value) == text[..next]
    requires forall c :: Utf8.Scalar(c) && Utf8.Encode(c) <= text && c != 0 ==> report == Budget.Fine && value == c
    requires report.Failed? ==> report.error == if text != [] && text[0] == 0 then Budget.Argument else Budget.Encoding
    ensures ScalarOf(text) ==
            if report == Budget.Failed(Budget.Argument) then Fault(Argument)
            else if report != Budget.Fine then Fault(Encoding)
            else if next == |text| then Value(value) else Fault(BadPattern)
  {
    if text != [] {
      assert text[0..] == text;
      Utf8.WellFormedStarts(text, 0);
    }
    if report == Budget.Fine {
      Utf8.EncodedDecodes(value, text);
      Utf8.EncodesNoNul(value);
    }
  }

  /** The values of at most two numbers, none of them above the limit. */
  ghost predicate Reads(values: seq<nat>, numbers: seq<seq<nat>>, maxRepeat: nat) {
    |values| == |numbers| <= 2 && forall k :: 0 <= k < |values| ==> values[k] == Decimal(numbers[k]) <= maxRepeat
  }

  /** One number more: above the limit it settles the matter, and so does a third one. */
  lemma {:induction false} NextNumber(numbers: seq<seq<nat>>, next: seq<nat>, values: seq<nat>, all: seq<seq<nat>>,
                                      maxRepeat: nat)
    requires Reads(values, numbers, maxRepeat) && numbers + [next] <= all
    ensures forall form: Form :: !form.StarForm? ==>
              BoundsOf(form, all, maxRepeat) ==
              if Decimal(next) > maxRepeat then TooLarge
              else if |values| == 2 then BadBounds else BoundsOf(form, all, maxRepeat)
    ensures Decimal(next) <= maxRepeat && |values| < 2 ==> Reads(values + [Decimal(next)], numbers + [next], maxRepeat)
  {
    assert all[|numbers|] == next;
    assert forall k :: 0 <= k < |numbers| ==> all[k] == numbers[k];
  }

  /** Reading the class on from node `i` gives `whole`. Kept folded. */
  ghost predicate Leads(d: Source, node: nat, i: nat, s: Scan, whole: Scan) {
    && d.Ok() && node < |d.nodes| && s.work <= whole.work && s.ranges <= whole.ranges
    && forall z: nat {:trigger Shown(z)} :: Shown(z) ==> ClassFrom(d, node, i, s) == whole
  }

  lemma {:induction false} LeadsFirst(d: Source, node: nat) returns (s: Scan, whole: Scan)
    requires d.Ok() && node < |d.nodes|
    ensures s == Scan(Ok, false, [], 0) && whole == ClassAt(d, node) && Leads(d, node, node + 1, s, whole)
  {
    s, whole := Scan(Ok, false, [], 0), ClassAt(d, node);
  }

  lemma {:induction false} LeadsOn(d: Source, node: nat, i: nat, s: Scan, whole: Scan) returns (t: Scan)
    requires Leads(d, node, i, s, whole) && i < d.nodes[node].end && s.status == Ok
    ensures t.work == s.work + 1 && (t.status != Ok ==> t.ranges == s.ranges)
    ensures t == OneNode(d, node, i, s).0 && t.work <= whole.work && t.ranges <= whole.ranges
    ensures if t.status == Ok then Leads(d, node, OneNode(d, node, i, s).1, t, whole) else whole == t
  {
    assert Shown(0);
    t := OneNode(d, node, i, s).0;
  }

  lemma {:induction false} LeadsLast(d: Source, node: nat, i: nat, s: Scan, whole: Scan)
    requires Leads(d, node, i, s, whole) && i >= d.nodes[node].end
    ensures whole == if s.ranges == [] then s.(status := BadPattern) else s
  {
    assert Shown(0);
  }

  class Decoder {
    const source: Source
    const ranges: array<Range>
    var count: nat

    ghost predicate Valid()
      reads this
    {
      source.Ok() && count <= ranges.Length
    }

    ghost function Table(): seq<Range>
      requires Valid()
      reads this, ranges
    {
      ranges[..count]
    }

    constructor (source: Source, capacity: nat)
      requires source.Ok()
      ensures Valid() && fresh(ranges) && this.source == source && ranges.Length == capacity && Table() == []
    {
      this.source := source;
      ranges := new Range[capacity](_ => Range(0, 0));
      count := 0;
    }

    /** The scalar of token number `n` below a node. */
    method Scalar(i: nat, n: nat) returns (r: Reading)
      requires Valid() && i < |source.nodes|
      ensures r == ScalarAt(source, i, n)
    {
      var seen := 0;
      var end := source.nodes[i].end;
      for j := i + 1 to end
        invariant seen == |source.Texts(i + 1, j)| <= n
      {
        if !source.nodes[j].isRule {
          if seen == n {
            TextsGrow(source, i + 1, j + 1, end);
            var text := source.texts[source.nodes[j].name];
            assert source.Texts(i + 1, j + 1)[n] == text;
            r := Decode(text);
            return;
          }
          seen := seen + 1;
        }
      }
      r := Fault(BadPattern);
    }

    /** A text that has to be one scalar. */
    method Decode(text: seq<nat>) returns (r: Reading)
      ensures r == ScalarOf(text)
    {
      var report, value, next := Utf8.Next(text, 0);
      assert text[0..] == text;
      ScalarOfNext(text, report, value, next);
      if report.Failed? {
        return Fault(if report.error == Budget.Argument then Argument else Encoding);
      }
      return if next == |text| then Value(value) else Fault(BadPattern);
    }

    // ---------- numbers ----------

    /** Reads a number digit by digit; it is refused exactly when its value is
        above the limit, and no intermediate value ever is. */
    method Number(i: nat) returns (ok: bool, value: nat)
      requires Valid() && i < |source.nodes|
      ensures ok <==> Decimal(Digits(source.Below(i))) <= source.maxRepeat
      ensures ok ==> value == Decimal(Digits(source.Below(i)))
    {
      value := 0;
      var end := source.nodes[i].end;
      for j := i + 1 to end
        invariant value == NumberIn(source, i + 1, j) <= source.maxRepeat
      {
        NumberGrows(source, i + 1, j, end);
        if !source.nodes[j].isRule {
          var d := Minus(FirstByte(source.texts[source.nodes[j].name]), 48);
          if d > source.maxRepeat || value > (source.maxRepeat - d) / 10 {
            return false, 0;
          }
          value := value * 10 + d;
        }
      }
      ok := true;
    }

    /** Reads the numbers among the nodes from `lo` up to `hi`, or says what is wrong with them. */
    method ReadNumbers(lo: nat, hi: nat) returns (wrong: Bounds, values: seq<nat>)
      requires Valid() && lo <= hi <= |source.nodes|
      ensures wrong.Bounds? ==> Reads(values, Numbers(source, lo, hi), source.maxRepeat)
      ensures !wrong.Bounds? ==>
                forall form: Form :: !form.StarForm? ==>
                    BoundsOf(form, Numbers(source, lo, hi), source.maxRepeat) ==
                    wrong
    {
      values := [];
      for i := lo to hi
        invariant Reads(values, Numbers(source, lo, i), source.maxRepeat)
      {
        if source.Is(i, NUMBER) {
          NumbersGrow(source, lo, i + 1, hi);
          var ok, value := Number(i);
          NextNumber(Numbers(source, lo, i), Digits(source.Below(i)), values, Numbers(source, lo, hi),
                     source.maxRepeat);
          if !ok {
            return TooLarge, values;
          }
          if |values| == 2 {
            return BadBounds, values;
          }
          values := values + [value];
        }
      }
      wrong := Bounds(0, 0);
    }

    /** The bounds of a quantifier. */
    method Quantity(q: nat) returns (b: Bounds)
      requires Valid() && q < |source.nodes|
      ensures b == QuantityAt(source, q)
    {
      if q + 1 >= source.nodes[q].end {
        return BadBounds;
      }
      if source.Is(q + 1, STAR_REPEAT) {
        return Bounds(0, NONE);
      }
      var wrong, values := ReadNumbers(q + 2, source.nodes[q + 1].end);
      if !wrong.Bounds? {
        return wrong;
      }
      if values == [] {
        return BadBounds;
      }
      b := Bounds(values[0], NONE);
      if source.Is(q + 1, EXACT_REPEAT) {
        b := Bounds(values[0], values[0]);
      }
      if source.Is(q + 1, BOUNDED_REPEAT) {
        if |values| != 2 || values[0] > values[1] {
          return BadBounds;
        }
        b := Bounds(values[0], values[1]);
      }
    }

    // ---------- classes ----------

    /** Appends one range. */
    method AddRange(a: nat, b: nat) returns (status: Status)
      requires Valid()
      modifies this`count, ranges
      ensures Valid()
      ensures Appended(old(Table()), OneRange(a, b), status, Table(), ranges.Length)
    {
      if a > b {
        return BadPattern;
      }
      if count == ranges.Length {
        return Limit;
      }
      ranges[count] := Range(a, b);
      count := count + 1;
      status := Ok;
    }

    /** The name of a named class; none when it is longer than any name can be. */
    method Name(i: nat) returns (ok: bool, name: seq<nat>)
      requires Valid() && i < |source.nodes|
      ensures ok ==> name == NameAt(source, i)
      ensures !ok ==> |NameAt(source, i)| > 31
    {
      name := [];
      var end := source.nodes[i].end;
      var n := i + 1;
      while n < end && !source.Is(n, CLASS_NAME)
        invariant i + 1 <= n <= end
        invariant FirstOf(source, CLASS_NAME, n, end) == FirstOf(source, CLASS_NAME, i + 1, end)
      {
        n := n + 1;
      }
      if n < end {
        for j := n + 1 to source.nodes[n].end
          invariant name == Letters(source.Texts(n + 1, j)) && |name| <= 31
        {
          if !source.nodes[j].isRule {
            TextsGrow(source, n + 1, j + 1, source.nodes[n].end);
            if |name| == 31 {
              return false, name;
            }
            name := name + [FirstByte(source.texts[source.nodes[j].name])];
          }
        }
      }
      ok := true;
    }

    /** Appends the ranges of a named class. */
    method NamedClass(i: nat) returns (status: Status)
      requires Valid() && i < |source.nodes| && source.Is(i, NAMED_CLASS)
      modifies this`count, ranges
      ensures Valid()
      ensures forall node: nat, begun :: node < |source.nodes| ==>
                Appended(old(Table()), ElementAt(source, node, i, begun), status, Table(), ranges.Length)
    {
      var ok, name := Name(i);
      var named := NamedRanges(name);
      if !ok || named == [] {
        return BadPattern;
      }
      for k := 0 to |named|
        invariant Valid() && Table() == old(Table()) + named[..k]
      {
        ghost var before := Table();
        status := AddRange(named[k].first, named[k].last);
        assert Appended(before, OneRange(named[k].first, named[k].last), status, Table(), ranges.Length);
        if status != Ok {
          return;
        }
        assert named[..k + 1] == named[..k] + [named[k]];
      }
      status := Ok;
    }

    /** Appends the range between two class scalars, or between `]` and one. */
    method TwoEnds(i: nat) returns (status: Status)
      requires Valid() && i < |source.nodes|
      modifies this`count, ranges
      ensures Valid()
      ensures Appended(old(Table()), RangeAt(source, i), status, Table(), ranges.Length)
    {
      var first := if source.Is(i, INITIAL_CLOSE_RANGE) then [93] else [];
      var read: seq<nat> := first;
      var end := source.nodes[i].end;
      var j := i + 1;
      while j < end
        invariant i < j <= |source.nodes| && Valid() && Table() == old(Table())
        invariant ScalarsFrom(source, j, end, read) == ScalarsFrom(source, i + 1, end, first)
        decreases |source.nodes| - j
      {
        if source.Is(j, CLASS_SCALAR) {
          var r := Scalar(j, 0);
          if r.Fault? {
            return r.status;
          }
          read := read + [r.value];
          j := source.nodes[j].end;
        } else {
          j := j + 1;
        }
      }
      if |read| != 2 {
        return BadPattern;
      }
      status := AddRange(read[0], read[1]);
    }

    /** Appends what one element of a class says. */
    method Element(node: nat, i: nat, first: nat) returns (status: Status)
      requires Valid() && node < |source.nodes| && i < |source.nodes| && IsElement(source, i) && first <= count
      modifies this`count, ranges
      ensures Valid()
      ensures Appended(old(Table()), ElementAt(source, node, i, old(count) != first), status, Table(), ranges.Length)
    {
      if source.Is(i, NAMED_CLASS) {
        status := NamedClass(i);
      } else if source.Is(i, INITIAL_CLOSE) {
        status := AddRange(93, 93);
      } else if source.Is(i, RANGE) || source.Is(i, INITIAL_CLOSE_RANGE) {
        status := TwoEnds(i);
      } else {
        var r := Scalar(i, 0);
        if r.Fault? {
          return r.status;
        }
        if r.value == 45 && count != first && source.nodes[i].end + 1 != source.nodes[node].end {
          return BadPattern;
        }
        status := AddRange(r.value, r.value);
      }
    }

    /** Looks at one node of a class. */
    method ClassNode(node: nat, i: nat, first: nat, ghost s: Scan, ghost whole: Scan)
      returns (status: Status, negation: bool, next: nat, ghost t: Scan)
      requires Valid() && Leads(source, node, i, s, whole) && i < source.nodes[node].end && first <= count
      requires |s.ranges| == count - first
      requires s.status == Ok
      modifies this`count, ranges
      ensures Valid() && i < next <= |source.nodes| && t.work <= whole.work && t.ranges <= whole.ranges
      ensures if t.status == Ok then Leads(source, node, next, t, whole) else whole == t && t.ranges == s.ranges
      ensures t.negative == (s.negative || negation) && t.work == s.work + 1 && s.ranges <= t.ranges
      ensures Appended(old(Table()), Found(t.status, t.ranges[|s.ranges|..]), status, Table(), ranges.Length)
    {
      status, negation, next := Ok, false, source.nodes[i].end;
      t := LeadsOn(source, node, i, s, whole);
      if source.Is(i, NEGATION) {
        negation := true;
      } else if source.Is(i, COLLATING) || source.Is(i, EQUIVALENCE) {
        status := Unsupported;
      } else if IsElement(source, i) {
        status := Element(node, i, first);
      } else {
        next := i + 1;
      }
    }

    /** Reads a class, charging a step for every node looked at. Ranges read
        before a failure may stay in the table. */
    method ReadClass(node: nat, before: nat, maxSteps: nat) returns (status: Status, negative: bool, steps: nat)
      requires Valid() && node < |source.nodes| && before <= maxSteps
      modifies this`count, ranges
      ensures Valid() && before <= steps <= maxSteps
      ensures var s := ClassAt(source, node);
              && (status == Ok ==>
                    && s.status == Ok && Table() == old(Table()) + s.ranges && negative == s.negative
                    && steps == before + s.work)
              && (status != Ok ==>
                    || (status == s.status && before + s.work <= maxSteps && old(count) + |s.ranges| <= ranges.Length)
                    || (status == Limit && (before + s.work > maxSteps || old(count) + |s.ranges| > ranges.Length)))
    {
      var first := count;
      ghost var table := Table();
      ghost var s, whole := LeadsFirst(source, node);
      negative, steps := false, before;
      var i := node + 1;
      while i < source.nodes[node].end
        invariant node < i <= |source.nodes| && Valid() && steps == before + s.work <= maxSteps
        invariant s.negative == negative
        invariant s.status == Ok && Table() == table + s.ranges && count == first + |s.ranges|
        invariant Leads(source, node, i, s, whole)
        decreases |source.nodes| - i
      {
        if steps == maxSteps {
          ghost var more := LeadsOn(source, node, i, s, whole);
          return Limit, negative, steps;
        }
        steps := steps + 1;
        var negation, next;
        ghost var t;
        status, negation, next, t := ClassNode(node, i, first, s, whole);
        if status != Ok {
          return;
        }
        negative, i := negative || negation, next;
        s := t;
      }
      LeadsLast(source, node, i, s, whole);
      status := if count == first then BadPattern else Ok;
    }

    /** What a node that lowers to one instruction is, the classes behind it being read. */
    method Unit(i: nat, ghost k: Kind, before: nat, maxSteps: nat)
      returns (status: Status, op: Op, a: nat, b: nat, steps: nat)
      requires Valid() && i < |source.nodes| && before <= maxSteps && IsKind(source, i, k) && k.UnitNode?
      requires IsTable(source, i + 1, Table())
      modifies this`count, ranges
      ensures Valid() && before <= steps <= maxSteps
      ensures status == Ok ==>
                k == UnitNode(op, a, b, Ok, steps - before) && Within(ranges.Length)(k) && IsTable(source, i, Table())
      ensures status != Ok ==>
                || (status == k.status && before + k.work <= maxSteps && Within(ranges.Length)(k))
                || (status == Limit && (before + k.work > maxSteps || !Within(ranges.Length)(k)))
    {
      assert Shown(0);
      var name := source.nodes[i].name;
      status, op, a, b, steps := Ok, Char, 0, 0, before;
      if name == CLASS {
        var negative;
        a := count;
        status, negative, steps := ReadClass(i, before, maxSteps);
        op := if negative then NotClass else Class;
        b := if status == Ok then count - a else 0;
      } else if name == LITERAL || name == ESCAPE || name == REFERENCE {
        var r := Scalar(i, if name == LITERAL then 0 else 1);
        if r.Fault? {
          status := r.status;
          return;
        }
        op := if name == REFERENCE then Ref else Char;
        a := if name == REFERENCE then Minus(r.value, 48) else r.value;
      } else if name == INITIAL_STAR {
        a := 42;
      } else {
        op := if name == ANY then Op.Any else if name == BEGIN_ANCHOR then Begin else Op.End;
      }
    }
  }
}
