/** Heapsort of priority records by opening serial, in place and charged to the budget. */
module BrePriority {
  import opened Folding
  import opened BreScopes
  import opened BreBudget

  datatype Priority = Priority(order: nat, mark: Mark)

  /** From index `lo` on, no record is below its children. */
  ghost predicate Heap(s: seq<Priority>, lo: nat, count: nat)
    requires count <= |s|
  {
    forall i, c :: lo <= i && (c == 2 * i + 1 || c == 2 * i + 2) && c < count ==> s[i].order >= s[c].order
  }

  /** Like a heap, but the record at `hole` may be below its children; its
      parent, if it has one, is not below them. */
  ghost predicate HeapBut(s: seq<Priority>, lo: nat, count: nat, hole: nat)
    requires count <= |s|
  {
    && (forall i, c :: lo <= i && i != hole && (c == 2 * i + 1 || c == 2 * i + 2) && c < count ==>
          s[i].order >= s[c].order)
    && (forall i, c ::
          && lo <= i && (hole == 2 * i + 1 || hole == 2 * i + 2)
          && (c == 2 * hole + 1 || c == 2 * hole + 2) && c < count ==>
            s[i].order >= s[c].order)
  }

  /** The same records in the first `count` places, everything else in place. */
  ghost predicate Shuffled(before: seq<Priority>, after: seq<Priority>, count: nat)
    requires count <= |before|
  {
    |after| == |before| && multiset(after[..count]) == multiset(before[..count]) && after[count..] == before[count..]
  }

  lemma {:induction false} SwapShuffles(s: seq<Priority>, i: nat, j: nat, count: nat)
    requires i < count <= |s| && j < count
    ensures Shuffled(s, s[i := s[j]][j := s[i]], count)
  {
    var t := s[i := s[j]][j := s[i]];
    assert t[..count] == s[..count][i := s[..count][j]][j := s[..count][i]];
  }

  lemma {:induction false} ShuffledBoth(a: seq<Priority>, b: seq<Priority>, c: seq<Priority>, few: nat, count: nat)
    requires few <= count <= |a| && Shuffled(a, b, count) && Shuffled(b, c, few)
    ensures Shuffled(a, c, count)
  {
    assert b[..count] == b[..few] + b[few..][..count - few];
    assert c[..count] == c[..few] + c[few..][..count - few];
    assert c[count..] == c[few..][count - few..] && b[count..] == b[few..][count - few..];
  }

  /** The first record of a heap is a largest one. */
  lemma {:induction false} HeapTop(s: seq<Priority>, count: nat, i: nat)
    requires i < count <= |s| && Heap(s, 0, count)
    ensures s[0].order >= s[i].order
    decreases i
  {
    if i > 0 {
      var p := (i - 1) / 2;
      assert i == 2 * p + 1 || i == 2 * p + 2;
      HeapTop(s, count, p);
    }
  }

  function Swapped(s: seq<Priority>, i: nat, j: nat): seq<Priority>
    requires i < |s| && j < |s|
  {
    s[i := s[j]][j := s[i]]
  }

  /** Exchanging the record in the hole with its larger child moves the hole down. */
  lemma {:induction false} SinkOne(s: seq<Priority>, lo: nat, count: nat, at: nat, child: nat)
    requires lo <= at && count <= |s| && child < count && HeapBut(s, lo, count, at)
    requires child == 2 * at + 1 || child == 2 * at + 2
    requires forall c :: (c == 2 * at + 1 || c == 2 * at + 2) && c < count ==> s[child].order >= s[c].order
    requires s[at].order < s[child].order
    ensures HeapBut(Swapped(s, at, child), lo, count, child)
  {
  }

  /** A record that is not below its children leaves no hole. */
  lemma {:induction false} SinkEnds(s: seq<Priority>, lo: nat, count: nat, at: nat)
    requires count <= |s| && HeapBut(s, lo, count, at)
    requires forall c :: (c == 2 * at + 1 || c == 2 * at + 2) && c < count ==> s[at].order >= s[c].order
    ensures Heap(s, lo, count)
  {
  }

  // ---------- sorting as a function ----------

  /** What sorting leaves, and the steps it takes. */
  datatype Sorting = Sorting(records: seq<Priority>, ticks: nat)

  /** The larger child of `at`. */
  function LargerOf(s: seq<Priority>, count: nat, at: nat): (child: nat)
    requires count <= |s| && at < count / 2
    ensures child < count && (child == 2 * at + 1 || child == 2 * at + 2)
    ensures forall c :: (c == 2 * at + 1 || c == 2 * at + 2) && c < count ==> s[child].order >= s[c].order
  {
    var child := at * 2 + 1;
    if child + 1 < count && s[child].order < s[child + 1].order then child + 1 else child
  }

  /** One step for every level the record at `at` is compared on. */
  function Sinking(s: seq<Priority>, count: nat, at: nat): (r: Sorting)
    requires count <= |s|
    ensures |r.records| == |s|
    decreases count - at
  {
    if at >= count / 2 then Sorting(s, 0)
    else
      var child := LargerOf(s, count, at);
      if s[at].order >= s[child].order then Sorting(s, 1)
      else
        var r := Sinking(Swapped(s, at, child), count, child);
        Sorting(r.records, 1 + r.ticks)
  }

  /** Making a heap of the records, from `i` down. */
  function Heaping(s: seq<Priority>, count: nat, i: nat): (r: Sorting)
    requires i <= count <= |s|
    ensures |r.records| == |s|
    decreases i
  {
    if i == 0 then Sorting(s, 0)
    else
      var a := Sinking(s, count, i - 1);
      var b := Heaping(a.records, count, i - 1);
      Sorting(b.records, a.ticks + b.ticks)
  }

  /** Taking the largest of the first `i` records out, again and again. */
  function Taking(s: seq<Priority>, i: nat): (r: Sorting)
    requires i <= |s|
    ensures |r.records| == |s|
    decreases i
  {
    if i <= 1 then Sorting(s, 0)
    else
      var a := Sinking(Swapped(s, 0, i - 1), i - 1, 0);
      var b := Taking(a.records, i - 1);
      Sorting(b.records, a.ticks + b.ticks)
  }

  function Heapsort(s: seq<Priority>, count: nat): (r: Sorting)
    requires count <= |s|
    ensures |r.records| == |s|
  {
    var a := Heaping(s, count, count / 2);
    var b := Taking(a.records, count);
    Sorting(b.records, a.ticks + b.ticks)
  }

  /** The first `count` records compare alike. */
  ghost predicate SameOrder(a: seq<Priority>, b: seq<Priority>, count: nat) {
    && count <= |a| && count <= |b|
    && forall i, j :: 0 <= i < count && 0 <= j < count ==> (a[i].order < a[j].order <==> b[i].order < b[j].order)
  }

  lemma {:induction false} SinkingSame(a: seq<Priority>, b: seq<Priority>, few: nat, count: nat, at: nat)
    requires few <= count && SameOrder(a, b, count)
    ensures Sinking(a, few, at).ticks == Sinking(b, few, at).ticks
    ensures SameOrder(Sinking(a, few, at).records, Sinking(b, few, at).records, count)
    decreases few - at
  {
    if at < few / 2 {
      var child := LargerOf(a, few, at);
      assert child == LargerOf(b, few, at);
      if a[at].order < a[child].order {
        SinkingSame(Swapped(a, at, child), Swapped(b, at, child), few, count, child);
      }
    }
  }

  lemma {:induction false} HeapingStep(s: seq<Priority>, count: nat, i: nat)
    requires 0 < i <= count <= |s|
    ensures var x := Sinking(s, count, i - 1); var y := Heaping(x.records, count, i - 1);
            Heaping(s, count, i) == Sorting(y.records, x.ticks + y.ticks)
  {
  }

  lemma {:induction false} HeapingSame(a: seq<Priority>, b: seq<Priority>, count: nat, i: nat)
    requires i <= count && SameOrder(a, b, count)
    ensures Heaping(a, count, i).ticks == Heaping(b, count, i).ticks
    ensures SameOrder(Heaping(a, count, i).records, Heaping(b, count, i).records, count)
    decreases i
  {
    if i > 0 {
      var x, y := Sinking(a, count, i - 1), Sinking(b, count, i - 1);
      SinkingSame(a, b, count, count, i - 1);
      HeapingSame(x.records, y.records, count, i - 1);
      HeapingStep(a, count, i);
      HeapingStep(b, count, i);
    }
  }

  lemma {:induction false} TakingSame(a: seq<Priority>, b: seq<Priority>, count: nat, i: nat)
    requires i <= count && SameOrder(a, b, count)
    ensures Taking(a, i).ticks == Taking(b, i).ticks
    decreases i
  {
    if i > 1 {
      var a', b' := Swapped(a, 0, i - 1), Swapped(b, 0, i - 1);
      SinkingSame(a', b', i - 1, count, 0);
      TakingSame(Sinking(a', i - 1, 0).records, Sinking(b', i - 1, 0).records, count, i - 1);
    }
  }

  /** The steps sorting takes depend only on how the records compare. */
  lemma {:induction false} HeapsortSame(a: seq<Priority>, b: seq<Priority>, count: nat)
    requires SameOrder(a, b, count)
    ensures Heapsort(a, count).ticks == Heapsort(b, count).ticks
  {
    HeapingSame(a, b, count, count / 2);
    TakingSame(Heaping(a, count, count / 2).records, Heaping(b, count, count / 2).records, count, count);
  }

  // ---------- in place ----------

  method Swap(records: array<Priority>, i: nat, j: nat)
    requires i < records.Length && j < records.Length
    modifies records
    ensures records[..] == Swapped(old(records[..]), i, j)
  {
    records[i], records[j] := records[j], records[i];
  }

  /** The larger child of `at`. */
  method LargerChild(records: array<Priority>, count: nat, at: nat) returns (child: nat)
    requires count <= records.Length && at < count / 2
    ensures child == LargerOf(records[..], count, at)
  {
    child := at * 2 + 1;
    if child + 1 < count && records[child].order < records[child + 1].order {
      child := child + 1;
    }
  }

  /** Lets the record at `root` sink until no child is above it. */
  method Sift(budget: Budget, records: array<Priority>, count: nat, root: nat) returns (ok: bool)
    requires budget.Valid() && count <= records.Length && Heap(records[..], root + 1, count)
    modifies budget`steps, records
    ensures budget.Valid() && Shuffled(old(records[..]), records[..], count)
    ensures ok ==> Heap(records[..], root, count) && records[..] == Sinking(old(records[..]), count, root).records
    ensures budget.Charged(old(budget.steps), Sinking(old(records[..]), count, root).ticks, ok)
  {
    ghost var all := Sinking(records[..], count, root);
    var at := root;
    while at < count / 2
      invariant budget.Valid() && root <= at
      invariant HeapBut(records[..], root, count, at) && Shuffled(old(records[..]), records[..], count)
      invariant Sinking(records[..], count, at).records == all.records
      invariant budget.steps + Sinking(records[..], count, at).ticks == old(budget.steps) + all.ticks
      decreases count - at
    {
      ok := budget.Tick(1);
      if !ok {
        return;
      }
      var child := LargerChild(records, count, at);
      if records[at].order >= records[child].order {
        SinkEnds(records[..], root, count, at);
        return;
      }
      ghost var before := records[..];
      SinkOne(before, root, count, at, child);
      SwapShuffles(before, at, child, count);
      ShuffledBoth(old(records[..]), before, Swapped(before, at, child), count, count);
      Swap(records, at, child);
      at := child;
    }
    SinkEnds(records[..], root, count, at);
    ok := true;
  }

  /** The records from `from` on are in order, and none before them is larger. */
  ghost predicate SortedFrom(s: seq<Priority>, from: nat, count: nat)
    requires from <= count <= |s|
  {
    forall i, j :: 0 <= i < j < count && from <= j ==> s[i].order <= s[j].order
  }

  /** Shuffling the records before `few` keeps the order of the rest. */
  lemma {:induction false} SortedShuffled(s: seq<Priority>, t: seq<Priority>, few: nat, count: nat)
    requires few <= count <= |s| && SortedFrom(s, few, count) && Shuffled(s, t, few)
    ensures SortedFrom(t, few, count)
  {
    forall i, j | 0 <= i < j < count && few <= j
      ensures t[i].order <= t[j].order
    {
      assert t[j] == t[few..][j - few] && s[j] == s[few..][j - few];
      if i < few {
        assert t[i] == t[..few][i] && t[i] in multiset(t[..few]);
        var k :| 0 <= k < few && s[..few][k] == t[i];
        assert s[k] == t[i];
      } else {
        assert t[i] == t[few..][i - few] && s[i] == s[few..][i - few];
      }
    }
  }

  /** Moving the first record of a heap behind the others extends the sorted part. */
  lemma {:induction false} TakeTop(s: seq<Priority>, i: nat, count: nat)
    requires 1 < i <= count <= |s| && Heap(s, 0, i) && SortedFrom(s, i, count)
    ensures var t := Swapped(s, 0, i - 1); Heap(t, 1, i - 1) && SortedFrom(t, i - 1, count) && Shuffled(s, t, count)
  {
    var t := Swapped(s, 0, i - 1);
    SwapShuffles(s, 0, i - 1, count);
    forall k | 0 <= k < i
      ensures s[k].order <= s[0].order
    {
      HeapTop(s, i, k);
    }
  }

  /** Records without children are a heap. */
  lemma {:induction false} LeavesHeap(s: seq<Priority>, count: nat)
    requires count <= |s|
    ensures Heap(s, count / 2, count)
  {
  }

  /** Making a heap has come down to `i`, with `paid` steps, and will end as `all`. */
  ghost predicate HeapingOn(s: seq<Priority>, count: nat, i: nat, paid: int, all: Sorting) {
    forall k: nat {:trigger Shown(k)} :: Shown(k) ==>
      && i <= count <= |s| && Heaping(s, count, i).records == all.records
         && paid + Heaping(s, count, i).ticks == all.ticks
  }

  lemma {:induction false} HeapingBegins(s: seq<Priority>, count: nat, i: nat) returns (all: Sorting)
    requires i <= count <= |s|
    ensures all == Heaping(s, count, i) && HeapingOn(s, count, i, 0, all)
  {
    all := Heaping(s, count, i);
  }

  /** Sinking a record comes to this. Kept folded. */
  ghost predicate Sinks(s: seq<Priority>, count: nat, root: nat, x: Sorting) {
    count <= |s| && forall z: nat {:trigger Shown(z)} :: Shown(z) ==> Sinking(s, count, root) == x
  }

  lemma {:induction false} HeapingGoesOn(s: seq<Priority>, count: nat, i: nat, paid: int, all: Sorting)
    returns (x: Sorting)
    requires i < count <= |s| && HeapingOn(s, count, i + 1, paid, all)
    ensures Sinks(s, count, i, x) && paid + x.ticks <= all.ticks
    ensures HeapingOn(x.records, count, i, paid + x.ticks, all)
  {
    assert Shown(0);
    x := Sinking(s, count, i);
    HeapingStep(s, count, i + 1);
  }

  /** Sifting, with its result given by name. */
  method SiftTo(budget: Budget, records: array<Priority>, count: nat, root: nat, ghost x: Sorting) returns (ok: bool)
    requires budget.Valid() && count <= records.Length && Heap(records[..], root + 1, count)
    requires Sinks(records[..], count, root, x)
    modifies budget`steps, records
    ensures budget.Valid() && Shuffled(old(records[..]), records[..], count)
    ensures ok ==> Heap(records[..], root, count) && records[..] == x.records
    ensures budget.Charged(old(budget.steps), x.ticks, ok)
  {
    assert Shown(0);
    ok := Sift(budget, records, count, root);
  }

  lemma {:induction false} HeapingEnds(s: seq<Priority>, count: nat, paid: int, all: Sorting)
    requires HeapingOn(s, count, 0, paid, all)
    ensures s == all.records && paid == all.ticks
  {
    assert Shown(0);
  }

  /** Makes a heap of the first `count` records. */
  method MakeHeap(budget: Budget, records: array<Priority>, count: nat) returns (ok: bool)
    requires budget.Valid() && count <= records.Length
    modifies budget`steps, records
    ensures budget.Valid() && Shuffled(old(records[..]), records[..], count)
    ensures ok ==> Heap(records[..], 0, count) && records[..] == Heaping(old(records[..]), count, count / 2).records
    ensures budget.Charged(old(budget.steps), Heaping(old(records[..]), count, count / 2).ticks, ok)
  {
    var i := count / 2;
    LeavesHeap(records[..], count);
    ghost var all := HeapingBegins(records[..], count, i);
    while i > 0
      invariant 0 <= i <= count && budget.Valid() && Heap(records[..], i, count)
      invariant Shuffled(old(records[..]), records[..], count)
      invariant HeapingOn(records[..], count, i, budget.steps - old(budget.steps), all)
    {
      ghost var before := records[..];
      i := i - 1;
      ghost var sunk := HeapingGoesOn(before, count, i, budget.steps - old(budget.steps), all);
      ok := SiftTo(budget, records, count, i, sunk);
      ShuffledBoth(old(records[..]), before, records[..], count, count);
      if !ok {
        return;
      }
    }
    HeapingEnds(records[..], count, budget.steps - old(budget.steps), all);
    ok := true;
  }

  /** Takes the records of a heap out, the largest first. */
  method TakeAll(budget: Budget, records: array<Priority>, count: nat) returns (ok: bool)
    requires budget.Valid() && count <= records.Length && Heap(records[..], 0, count)
    modifies budget`steps, records
    ensures budget.Valid() && Shuffled(old(records[..]), records[..], count)
    ensures ok ==> SortedFrom(records[..], 0, count) && records[..] == Taking(old(records[..]), count).records
    ensures budget.Charged(old(budget.steps), Taking(old(records[..]), count).ticks, ok)
  {
    ghost var all := Taking(records[..], count);
    var i := count;
    while i > 1
      invariant 0 <= i <= count && budget.Valid() && Heap(records[..], 0, i) && SortedFrom(records[..], i, count)
      invariant Shuffled(old(records[..]), records[..], count) && Taking(records[..], i).records == all.records
      invariant budget.steps + Taking(records[..], i).ticks == old(budget.steps) + all.ticks
    {
      i := i - 1;
      ghost var before := records[..];
      TakeTop(before, i + 1, count);
      Swap(records, 0, i);
      ghost var swapped := records[..];
      ShuffledBoth(old(records[..]), before, swapped, count, count);
      ok := Sift(budget, records, i, 0);
      ShuffledBoth(old(records[..]), swapped, records[..], i, count);
      if !ok {
        return;
      }
      SortedShuffled(swapped, records[..], i, count);
    }
    ok := true;
  }

  /** Sorts the first `count` records by opening serial. */
  method Sort(budget: Budget, records: array<Priority>, count: nat) returns (ok: bool)
    requires budget.Valid() && count <= records.Length
    modifies budget`steps, records
    ensures budget.Valid() && Shuffled(old(records[..]), records[..], count)
    ensures ok ==> forall i, j :: 0 <= i < j < count ==> records[i].order <= records[j].order
    ensures budget.Charged(old(budget.steps), Heapsort(old(records[..]), count).ticks, ok)
  {
    ok := MakeHeap(budget, records, count);
    if ok {
      ghost var heap := records[..];
      ok := TakeAll(budget, records, count);
      ShuffledBoth(old(records[..]), heap, records[..], count, count);
    }
  }
}
