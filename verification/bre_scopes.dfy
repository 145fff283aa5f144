/** Scope trees, the history a nested run leaves, and the trace it is ranked by. */
module BreScopes {
  import opened BreProgram

  /** A completed participation of a group or a loop, with what happened inside. */
  datatype Scope = Scope(key: nat, from: nat, length: nat, inner: Scopes)

  datatype Scopes = Flat | Then(head: Scope, tail: Scopes)

  /** One element of a trace: which scope, and how much it matched. */
  datatype Mark = Mark(key: nat, length: int)

  function Append(a: Scopes, b: Scopes): Scopes {
    match a
    case Flat => b
    case Then(head, tail) => Then(head, Append(tail, b))
  }

  /** Enclosing scopes come before those inside them. */
  function Preorder(s: Scopes): seq<Mark> {
    match s
    case Flat => []
    case Then(head, tail) => [Mark(head.key, head.length)] + Preorder(head.inner) + Preorder(tail)
  }

  /** The events of nested scopes that are logged from index `base` on. */
  function Block(s: Scopes, base: nat): seq<Event> {
    match s
    case Flat => []
    case Then(head, tail) => ScopeBlock(head, base) + Block(tail, base + |ScopeBlock(head, base)|)
  }

  function ScopeBlock(s: Scope, base: nat): seq<Event> {
    [Opened(s.key, s.from)] + Block(s.inner, base + 1) + [Closed(base, s.from + s.length)]
  }

  lemma {:induction false} BlockAppend(a: Scopes, b: Scopes, base: nat)
    ensures Block(Append(a, b), base) == Block(a, base) + Block(b, base + |Block(a, base)|)
  {
    if a.Then? {
      BlockAppend(a.tail, b, base + |ScopeBlock(a.head, base)|);
    }
  }

  lemma {:induction false} PreorderAppend(a: Scopes, b: Scopes)
    ensures Preorder(Append(a, b)) == Preorder(a) + Preorder(b)
  {
    if a.Then? {
      PreorderAppend(a.tail, b);
    }
  }

  // ---------- ranking a history ----------

  /** A closed scope, named by the index of its opening. */
  datatype Record = Record(index: nat, mark: Mark)

  predicate ClosesSomething(h: seq<Event>, k: nat)
    requires k < |h|
  {
    h[k].Closed? && h[k].open < k && h[h[k].open].Opened?
  }

  function RecordAt(h: seq<Event>, k: nat): Record
    requires k < |h| && ClosesSomething(h, k)
  {
    Record(h[k].open, Mark(h[h[k].open].key, h[k].at - h[h[k].open].at))
  }

  /** The closed scopes among the first `n` events, the last one first. */
  function Records(h: seq<Event>, n: nat): seq<Record>
    requires n <= |h|
  {
    if n == 0 then []
    else (if ClosesSomething(h, n - 1) then [RecordAt(h, n - 1)] else []) + Records(h, n - 1)
  }

  /** Every close in the history names an earlier opening. */
  ghost predicate ClosesOk(h: seq<Event>) {
    forall k :: 0 <= k < |h| && h[k].Closed? ==> ClosesSomething(h, k)
  }

  /** The records of nested scopes in the order of their openings. */
  function Listing(s: Scopes, base: nat): (r: seq<Record>)
    ensures |r| == |Preorder(s)|
  {
    match s
    case Flat => []
    case Then(head, tail) =>
      [Record(base, Mark(head.key, head.length))] + Listing(head.inner, base + 1) + Listing(tail,
            base + |ScopeBlock(head, base)|)
  }

  lemma {:induction false} ListingMarks(s: Scopes, base: nat)
    ensures forall i :: 0 <= i < |Preorder(s)| ==> Preorder(s)[i] == Listing(s, base)[i].mark
  {
    if s.Then? {
      ListingMarks(s.head.inner, base + 1);
      ListingMarks(s.tail, base + |ScopeBlock(s.head, base)|);
    }
  }

  /** Openings are listed in the order they were logged. */
  lemma {:induction false} ListingSorted(s: Scopes, base: nat)
    ensures forall i :: 0 <= i < |Listing(s, base)| ==> base <= Listing(s, base)[i].index < base + |Block(s, base)|
    ensures forall i, j :: 0 <= i < j < |Listing(s, base)| ==> Listing(s, base)[i].index < Listing(s, base)[j].index
  {
    if s.Then? {
      ListingSorted(s.head.inner, base + 1);
      ListingSorted(s.tail, base + |ScopeBlock(s.head, base)|);
    }
  }

  lemma {:induction false} RecordsPrefix(h: seq<Event>, h': seq<Event>, n: nat)
    requires n <= |h| && h <= h'
    ensures Records(h', n) == Records(h, n)
  {
    if n > 0 {
      RecordsPrefix(h, h', n - 1);
    }
  }

  /** Logging one event adds at most its own record. */
  lemma {:induction false} RecordsPush(h: seq<Event>, e: Event)
    ensures var h' := h + [e];
            Records(h', |h'|) == (if ClosesSomething(h', |h|) then [RecordAt(h', |h|)] else []) + Records(h, |h|)
  {
    RecordsPrefix(h, h + [e], |h|);
  }

  /** The longer history closes the scopes `rs` besides those of the shorter one. */
  ghost predicate Adds(h: seq<Event>, h': seq<Event>, rs: seq<Record>) {
    ClosesOk(h') && multiset(Records(h', |h'|)) == multiset(Records(h, |h|)) + multiset(rs)
  }

  lemma {:induction false} AddsBoth(h: seq<Event>, h1: seq<Event>, h2: seq<Event>, xs: seq<Record>, ys: seq<Record>)
    requires Adds(h, h1, xs) && Adds(h1, h2, ys)
    ensures Adds(h, h2, xs + ys)
  {
  }

  /** Closing the innermost open scope. */
  lemma {:induction false} AddsClose(h: seq<Event>, s: Scope, rs: seq<Record>)
    requires Adds(h + [Opened(s.key, s.from)], h + [Opened(s.key, s.from)] + Block(s.inner, |h| + 1), rs)
    ensures Adds(h, h + ScopeBlock(s, |h|), [Record(|h|, Mark(s.key, s.length))] + rs)
  {
    var h1 := h + [Opened(s.key, s.from)];
    var h2 := h1 + Block(s.inner, |h| + 1);
    var h3 := h2 + [Closed(|h|, s.from + s.length)];
    RecordsPush(h, Opened(s.key, s.from));
    RecordsPush(h2, Closed(|h|, s.from + s.length));
    assert h3[|h|] == Opened(s.key, s.from);
    forall k | 0 <= k < |h3| && h3[k].Closed?
      ensures ClosesSomething(h3, k)
    {
      if k < |h2| {
        assert ClosesSomething(h2, k);
      }
    }
    assert Records(h3, |h3|) == [Record(|h|, Mark(s.key, s.length))] + Records(h2, |h2|);
    assert h + ScopeBlock(s, |h|) == h3;
  }

  /** Nested scopes add their records, one for each, and only close themselves. */
  lemma {:induction false} BlockRecords(h: seq<Event>, s: Scopes)
    requires ClosesOk(h)
    ensures Adds(h, h + Block(s, |h|), Listing(s, |h|))
    decreases s
  {
    match s
    case Flat =>
      assert h + [] == h;
    case Then(head, tail) =>
      var h1 := h + [Opened(head.key, head.from)];
      var h3 := h + ScopeBlock(head, |h|);
      BlockRecords(h1, head.inner);
      AddsClose(h, head, Listing(head.inner, |h1|));
      BlockRecords(h3, tail);
      AddsBoth(h, h3, h3 + Block(tail, |h3|), [Record(|h|, Mark(head.key, head.length))] + Listing(head.inner, |h1|),
               Listing(tail, |h3|));
      assert h + Block(s, |h|) == h3 + Block(tail, |h3|);
  }
}
