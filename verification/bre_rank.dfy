/** Ranking two matches: their closed scopes are collected from the arena,
    sorted by opening serial, and compared in that order. */
module BreRank {
  import opened Folding
  import opened BreProgram
  import opened BreScopes
  import opened BreSelect
  import opened BreBudget
  import opened BrePriority
  import opened BreRankCost
  import opened BreArenaSpec
  import opened BreArena

  /** The serials along a chain. */
  ghost function Serials(nodes: seq<Node>, chain: seq<nat>): (r: seq<nat>)
    ensures |r| == |chain| && forall k :: 0 <= k < |chain| && chain[k] < |nodes| ==> r[k] == nodes[chain[k]].order
  {
    seq(|chain|, k requires 0 <= k < |chain| => if chain[k] < |nodes| then nodes[chain[k]].order else 0)
  }

  ghost predicate Increasing(serials: seq<nat>) {
    forall i, j :: 0 <= i < j < |serials| ==> serials[i] < serials[j]
  }

  /** Records with the serial of their opening in place of its index. */
  ghost function Prioritized(serials: seq<nat>, rs: seq<Record>): (r: seq<Priority>)
    ensures |r| == |rs|
    ensures forall k :: 0 <= k < |rs| ==>
              r[k] == Priority(if rs[k].index < |serials| then serials[rs[k].index] else 0, rs[k].mark)
  {
    seq(|rs|, k requires 0 <= k < |rs| =>
      Priority(if rs[k].index < |serials| then serials[rs[k].index] else 0, rs[k].mark))
  }

  /** A sequence's elements without the one at `k`. */
  lemma {:induction false} Without<T>(s: seq<T>, k: nat)
    requires k < |s|
    ensures multiset(s[..k] + s[k + 1..]) == multiset(s) - multiset{s[k]}
  {
    assert s == s[..k] + [s[k]] + s[k + 1..];
  }

  lemma {:induction false} WithoutFirst<T>(s: seq<T>)
    requires s != []
    ensures multiset(s[1..]) == multiset(s) - multiset{s[0]}
  {
    assert s == [s[0]] + s[1..];
  }

  lemma {:induction false} SameLength<T>(a: seq<T>, b: seq<T>)
    requires multiset(a) == multiset(b)
    ensures |a| == |b|
  {
    assert |multiset(a)| == |a| && |multiset(b)| == |b|;
  }

  /** Where an element of one sequence is in another with the same elements. */
  lemma {:induction false} Whereabouts<T>(x: T, a: seq<T>, b: seq<T>) returns (k: nat)
    requires multiset(a) == multiset(b) && x in a
    ensures k < |b| && b[k] == x
  {
    assert x in multiset(b);
    k :| 0 <= k < |b| && b[k] == x;
  }

  lemma {:induction false} PrioritizedSame(serials: seq<nat>, rs: seq<Record>, ls: seq<Record>)
    requires multiset(rs) == multiset(ls)
    ensures multiset(Prioritized(serials, rs)) == multiset(Prioritized(serials, ls))
    decreases |rs|
  {
    SameLength(rs, ls);
    if rs != [] {
      var k := Whereabouts(rs[0], rs, ls);
      var rest := ls[..k] + ls[k + 1..];
      WithoutFirst(rs);
      Without(ls, k);
      PrioritizedSame(serials, rs[1..], rest);
      PrioritizedRest(serials, rs);
      PrioritizedWithout(serials, ls, k, rest);
      PutBack(Prioritized(serials, rs), Prioritized(serials, rs[1..]), Prioritized(serials, ls),
              Prioritized(serials, rest),
              Prioritized(serials, rs)[0]);
    }
  }

  lemma {:induction false} PrioritizedRest(serials: seq<nat>, s: seq<Record>)
    requires s != []
    ensures var p := Prioritized(serials, s);
            multiset(Prioritized(serials, s[1..])) == multiset(p) - multiset{p[0]}
            && p[0] in multiset(p)
  {
    assert s[..0] + s[0 + 1..] == s[1..];
    PrioritizedWithout(serials, s, 0, s[1..]);
  }

  lemma {:induction false} PutBack<T>(a: seq<T>, a': seq<T>, b: seq<T>, b': seq<T>, x: T)
    requires x in multiset(a) && x in multiset(b) && multiset(a') == multiset(b')
    requires multiset(a') == multiset(a) - multiset{x} && multiset(b') == multiset(b) - multiset{x}
    ensures multiset(a) == multiset(b)
  {
    assert multiset(a) == multiset(a') + multiset{x} && multiset(b) == multiset(b') + multiset{x};
  }

  lemma {:induction false} PrioritizedWithout(serials: seq<nat>, s: seq<Record>, k: nat, rest: seq<Record>)
    requires k < |s| && rest == s[..k] + s[k + 1..]
    ensures var p := Prioritized(serials, s);
            multiset(Prioritized(serials, rest)) == multiset(p) - multiset{p[k]} && p[k] in multiset(p)
  {
    var p := Prioritized(serials, s);
    assert Prioritized(serials, rest) == p[..k] + p[k + 1..];
    Without(p, k);
  }

  lemma {:induction false} SameFirst(a: seq<Priority>, b: seq<Priority>)
    requires multiset(a) == multiset(b) && a != [] && b != []
    requires forall i, j :: 0 <= i < j < |a| ==> a[i].order <= a[j].order
    requires forall i, j :: 0 <= i < j < |b| ==> b[i].order < b[j].order
    ensures a[0] == b[0]
  {
    var i := Whereabouts(a[0], a, b);
    var j := Whereabouts(b[0], b, a);
  }

  /** Records in order, with distinct serials, are determined by what they are. */
  lemma {:induction false} SortedUnique(a: seq<Priority>, b: seq<Priority>)
    requires multiset(a) == multiset(b)
    requires forall i, j :: 0 <= i < j < |a| ==> a[i].order <= a[j].order
    requires forall i, j :: 0 <= i < j < |b| ==> b[i].order < b[j].order
    ensures a == b
    decreases |a|
  {
    SameLength(a, b);
    if a != [] {
      SameFirst(a, b);
      WithoutFirst(a);
      WithoutFirst(b);
      SortedUnique(a[1..], b[1..]);
      assert a == [a[0]] + a[1..] && b == [b[0]] + b[1..];
    }
  }

  /** The listing of a properly nested history is in the order of its serials. */
  lemma {:induction false} ListingIncreasing(serials: seq<nat>, s: Scopes)
    requires |serials| == |Block(s, 0)| && Increasing(serials)
    ensures var p := Prioritized(serials, Listing(s, 0)); forall i, j :: 0 <= i < j < |p| ==> p[i].order < p[j].order
  {
    ListingSorted(s, 0);
    var l := Listing(s, 0);
    var p := Prioritized(serials, l);
    forall i, j | 0 <= i < j < |p|
      ensures p[i].order < p[j].order
    {
      assert l[i].index < l[j].index < |serials|;
    }
  }

  lemma {:induction false} RecordsOfBlock(s: Scopes)
    ensures multiset(Records(Block(s, 0), |Block(s, 0)|)) == multiset(Listing(s, 0))
  {
    BlockRecords([], s);
    assert [] + Block(s, 0) == Block(s, 0);
    AddsToNothing(Block(s, 0), Listing(s, 0));
  }

  lemma {:induction false} AddsToNothing(h: seq<Event>, rs: seq<Record>)
    requires Adds([], h, rs)
    ensures multiset(Records(h, |h|)) == multiset(rs)
  {
  }

  /** What sorting leaves for a properly nested history: its scopes in preorder. */
  lemma {:induction false} SortedIsPreorder(serials: seq<nat>, s: Scopes, filled: seq<Priority>, sorted: seq<Priority>)
    requires |serials| == |Block(s, 0)| && Increasing(serials)
    requires filled == Prioritized(serials, Records(Block(s, 0), |Block(s, 0)|)) && multiset(sorted) == multiset(filled)
    requires forall i, j :: 0 <= i < j < |sorted| ==> sorted[i].order <= sorted[j].order
    ensures |sorted| == |Preorder(s)| && forall i :: 0 <= i < |sorted| ==> sorted[i].mark == Preorder(s)[i]
  {
    RecordsOfBlock(s);
    PrioritizedSame(serials, Records(Block(s, 0), |Block(s, 0)|), Listing(s, 0));
    ListingIncreasing(serials, s);
    SortedUnique(sorted, Prioritized(serials, Listing(s, 0)));
    ListingMarks(s, 0);
  }

  /** One element of a live chain, as the walk up from its end meets it. */
  lemma {:induction false} ChainElement(nodes: seq<Node>, chains: seq<seq<nat>>, id: nat, k: nat)
    requires NodesOk(nodes, chains) && |nodes| < NONE && Live(nodes, id) && k < |chains[id]|
    ensures var x := chains[id][k]; Live(nodes, x) && nodes[x].prev == if k == 0 then NONE else chains[id][k - 1]
  {
    var x := chains[id][k];
    ChainLive(nodes, chains, id, k);
    assert NodeOk(nodes, chains, x);
    var p := nodes[x].prev;
    assert chains[x][..|chains[x]| - 1] == chains[id][..k];
    if p != NONE {
      assert NodeOk(nodes, chains, p);
    }
  }

  /** A close met on the way, and the record it makes. */
  lemma {:induction false} ChainClose(nodes: seq<Node>, chains: seq<seq<nat>>, id: nat, k: nat)
    requires NodesOk(nodes, chains) && |nodes| < NONE && Live(nodes, id) && k < |chains[id]|
    ensures var x := chains[id][k]; var h := History(nodes, chains, id);
            && Live(nodes, x) && (nodes[x].closed <==> ClosesSomething(h, k))
            && (nodes[x].closed ==>
                 var o := nodes[x].open; var r := RecordAt(h, k);
                 o < |nodes| && r.index < |chains[id]| && chains[id][r.index] == o
                     && r.mark == Mark(nodes[o].key, nodes[x].pos - nodes[o].pos))
  {
    var x := chains[id][k];
    ChainLive(nodes, chains, id, k);
    if nodes[x].closed {
      OpenLive(nodes, chains, x);
      var o := nodes[x].open;
      var l := |chains[o]| - 1;
      assert chains[id][l] == chains[x][l] == o;
      var h := History(nodes, chains, id);
      assert h[k] == Closed(l, nodes[x].pos) && h[l] == Opened(nodes[o].key, nodes[o].pos);
    }
  }

  /** Serials grow along a live chain. */
  lemma {:induction false} ChainIncreasing(nodes: seq<Node>, chains: seq<seq<nat>>, id: nat)
    requires NodesOk(nodes, chains) && |nodes| < NONE && Live(nodes, id)
    ensures Increasing(Serials(nodes, chains[id]))
  {
    forall i, j | 0 <= i < j < |chains[id]|
      ensures Serials(nodes, chains[id])[i] < Serials(nodes, chains[id])[j]
    {
      ChainOrdered(nodes, chains, id, i, j);
    }
  }

  // ---------- reading histories back ----------

  /** A reference whose history can be walked. */
  ghost predicate Readable(a: Arena, head: nat)
    reads a
  {
    NodesOk(a.nodes, a.chains) && |a.nodes| < NONE && (head == NONE || Live(a.nodes, head))
  }

  /** The record of a close, ready for ranking. */
  function RecordOf(nodes: seq<Node>, at: nat): Priority
    requires at < |nodes| && nodes[at].open < |nodes|
  {
    var o := nodes[nodes[at].open];
    Priority(o.order, Mark(o.key, nodes[at].pos - o.pos))
  }

  lemma {:induction false} ChainRecord(nodes: seq<Node>, chains: seq<seq<nat>>, id: nat, k: nat)
    requires NodesOk(nodes, chains) && |nodes| < NONE && Live(nodes, id) && k < |chains[id]|
    requires ClosesSomething(History(nodes, chains, id), k)
    ensures chains[id][k] < |nodes| && nodes[chains[id][k]].open < |nodes|
    ensures Prioritized(Serials(nodes, chains[id]), [RecordAt(History(nodes, chains, id), k)]) ==
            [RecordOf(nodes, chains[id][k])]
  {
    ChainClose(nodes, chains, id, k);
    var r := RecordAt(History(nodes, chains, id), k);
    assert Serials(nodes, chains[id])[r.index] == nodes[nodes[chains[id][k]].open].order;
  }

  /** The record of event `n - 1` of a history, if it is a close. */
  lemma {:induction false} WalkClose(a: Arena, head: nat, n: nat)
    requires Readable(a, head) && 0 < n <= |ChainOf(a.chains, head)|
    ensures var at := ChainOf(a.chains, head)[n - 1];
            && at < |a.nodes| && (a.nodes[at].closed <==> ClosesSomething(a.Past(head), n - 1))
            && (a.nodes[at].closed ==>
                 && a.nodes[at].open < |a.nodes|
                 && Prioritized(Serials(a.nodes, ChainOf(a.chains, head)), [RecordAt(a.Past(head), n - 1)]) ==
                    [RecordOf(a.nodes, at)])
  {
    ChainClose(a.nodes, a.chains, head, n - 1);
    if ClosesSomething(a.Past(head), n - 1) {
      ChainRecord(a.nodes, a.chains, head, n - 1);
    }
  }

  /** The records of a history in the order the walk meets them. */
  ghost function Filled(a: Arena, head: nat, n: nat): (r: seq<Priority>)
    requires n <= |ChainOf(a.chains, head)|
    reads a
    ensures |r| == |Records(a.Past(head), n)|
  {
    Prioritized(Serials(a.nodes, ChainOf(a.chains, head)), Records(a.Past(head), n))
  }

  /** The record an event leaves, if it is a close. */
  function Made(nodes: seq<Node>, at: nat): (r: seq<Priority>)
    requires at < |nodes| && (nodes[at].closed ==> nodes[at].open < |nodes|)
  {
    if nodes[at].closed then [RecordOf(nodes, at)] else []
  }

  /** The links from `at` pass `n` nodes and end. */
  ghost predicate Linked(nodes: seq<Node>, at: nat, n: nat)
    decreases n
  {
    if n == 0 then at == NONE
    else at != NONE && at < |nodes| && (nodes[at].closed ==> nodes[at].open < |nodes|)
         && Linked(nodes, nodes[at].prev, n - 1)
  }

  /** The records met on the way from `at`. */
  ghost function Met(nodes: seq<Node>, at: nat, n: nat): seq<Priority>
    requires Linked(nodes, at, n)
    decreases n
  {
    if n == 0 then [] else Made(nodes, at) + Met(nodes, nodes[at].prev, n - 1)
  }

  lemma {:induction false} PrioritizedSplit(serials: seq<nat>, a: seq<Record>, b: seq<Record>)
    ensures Prioritized(serials, a + b) == Prioritized(serials, a) + Prioritized(serials, b)
  {
  }

  lemma {:induction false} FilledStep(a: Arena, head: nat, n: nat)
    requires Readable(a, head) && 0 < n <= |ChainOf(a.chains, head)|
    ensures var at := ChainOf(a.chains, head)[n - 1];
            && at < |a.nodes| && (a.nodes[at].closed ==> a.nodes[at].open < |a.nodes|)
            && Filled(a, head, n) == Made(a.nodes, at) + Filled(a, head, n - 1)
  {
    WalkClose(a, head, n);
    if ClosesSomething(a.Past(head), n - 1) {
      var h := a.Past(head);
      PrioritizedSplit(Serials(a.nodes, ChainOf(a.chains, head)), [RecordAt(h, n - 1)], Records(h, n - 1));
    }
  }

  /** Following the links meets the records of the history. */
  lemma {:induction false} FilledMet(a: Arena, head: nat, at: nat, n: nat)
    requires Readable(a, head) && n <= |ChainOf(a.chains, head)|
    requires at == if n == 0 then NONE else ChainOf(a.chains, head)[n - 1]
    ensures Linked(a.nodes, at, n) && Met(a.nodes, at, n) == Filled(a, head, n)
    decreases n
  {
    if n > 0 {
      var prev := FilledBefore(a, head, at, n);
      FilledMet(a, head, prev, n - 1);
      FilledStep(a, head, n);
      MetOnce(a.nodes, at, n, Filled(a, head, n - 1), Filled(a, head, n));
    } else {
      assert Filled(a, head, 0) == [];
    }
  }

  lemma {:induction false} FilledBefore(a: Arena, head: nat, at: nat, n: nat) returns (prev: nat)
    requires Readable(a, head) && 0 < n <= |ChainOf(a.chains, head)| && at == ChainOf(a.chains, head)[n - 1]
    ensures at < |a.nodes| && at != NONE && prev == a.nodes[at].prev && prev == if n == 1 then NONE
            else ChainOf(a.chains, head)[n - 2]
  {
    ChainElement(a.nodes, a.chains, head, n - 1);
    prev := a.nodes[at].prev;
  }

  lemma {:induction false} MetOnce(nodes: seq<Node>, at: nat, n: nat, rest: seq<Priority>, all: seq<Priority>)
    requires n > 0 && at != NONE && at < |nodes| && (nodes[at].closed ==> nodes[at].open < |nodes|)
    requires Linked(nodes, nodes[at].prev, n - 1) && rest == Met(nodes, nodes[at].prev, n - 1)
    requires all == Made(nodes, at) + rest
    ensures Linked(nodes, at, n) && all == Met(nodes, at, n)
  {
  }

  /** All the records of a history, latest close first. */
  ghost predicate Listed(nodes: seq<Node>, head: nat, n: nat, all: seq<Priority>) {
    Linked(nodes, head, n) && all == Met(nodes, head, n)
  }

  lemma {:induction false} MovedOver<T>(done: seq<T>, made: seq<T>, rest: seq<T>)
    ensures done + (made + rest) == done + made + rest
  {
  }

  lemma {:induction false} MetStep(nodes: seq<Node>, at: nat, n: nat, done: seq<Priority>, all: seq<Priority>)
    requires Linked(nodes, at, n) && at != NONE && done + Met(nodes, at, n) == all
    ensures n > 0 && at < |nodes| && (nodes[at].closed ==> nodes[at].open < |nodes|)
    ensures Linked(nodes, nodes[at].prev, n - 1)
    ensures done + Made(nodes, at) + Met(nodes, nodes[at].prev, n - 1) == all
  {
    MovedOver(done, Made(nodes, at), Met(nodes, nodes[at].prev, n - 1));
  }

  /** Counts the closed scopes of a history. */
  method CountScopes(a: Arena, budget: Budget, head: nat, ghost length: nat, ghost all: seq<Priority>)
    returns (ok: bool, count: nat)
    requires Listed(a.nodes, head, length, all) && budget.Valid()
    modifies budget`steps
    ensures budget.Valid() && budget.Charged(old(budget.steps), length, ok)
    ensures ok ==> count == |all|
  {
    count := 0;
    var at := head;
    ghost var done, n := [], length;
    while at != NONE
      invariant budget.Valid() && budget.steps + n == old(budget.steps) + length && count == |done|
      invariant Linked(a.nodes, at, n) && done + Met(a.nodes, at, n) == all
      decreases n
    {
      ok := budget.Tick(1);
      if !ok {
        return;
      }
      MetStep(a.nodes, at, n, done, all);
      done := done + Made(a.nodes, at);
      if a.nodes[at].closed {
        count := count + 1;
      }
      at := a.nodes[at].prev;
      n := n - 1;
    }
    ok := true;
  }

  /** Writes the records of a history, the latest close first. */
  method Fill(a: Arena, budget: Budget, head: nat, output: array<Priority>, ghost length: nat, ghost all: seq<Priority>)
    returns (ok: bool)
    requires Listed(a.nodes, head, length, all) && budget.Valid() && |all| <= output.Length
    modifies budget`steps, output
    ensures budget.Valid() && budget.Charged(old(budget.steps), length, ok)
    ensures ok ==> output[..|all|] == all
  {
    var count := 0;
    var at := head;
    ghost var done, n := [], length;
    while at != NONE
      invariant budget.Valid() && budget.steps + n == old(budget.steps) + length
      invariant Linked(a.nodes, at, n) && done + Met(a.nodes, at, n) == all
      invariant 0 <= count == |done| <= output.Length && forall i :: 0 <= i < count ==> output[i] == done[i]
      decreases n
    {
      ok := budget.Tick(1);
      if !ok {
        return;
      }
      MetStep(a.nodes, at, n, done, all);
      done := done + Made(a.nodes, at);
      if a.nodes[at].closed {
        var open := a.nodes[at].open;
        output[count] := Priority(a.nodes[open].order, Mark(a.nodes[open].key, a.nodes[at].pos - a.nodes[open].pos));
        count := count + 1;
      }
      at := a.nodes[at].prev;
      n := n - 1;
    }
    ok := true;
  }

  // ---------- comparing two matches ----------

  /** The first records of `output` are the marks of a trace, in order. */
  ghost predicate Holds(output: array<Priority>, marks: seq<Mark>)
    reads output
  {
    |marks| <= output.Length && forall i :: 0 <= i < |marks| ==> output[i].mark == marks[i]
  }

  /** A history to be ranked: how many events it has, its records, latest close
      first, the trace they sort to, and the steps that sorting takes. */
  datatype Side = Side(events: nat, all: seq<Priority>, trace: seq<Mark>, ticks: nat)

  /** The side is that of the nested scopes `s`. */
  ghost predicate Ranks(x: Side, s: Scopes) {
    forall k: nat {:trigger Shown(k)} :: Shown(k) ==>
      && x.events == |Block(s, 0)| && x.trace == Preorder(s) && x.ticks == SortTicks(s)
      && exists serials: seq<nat> {:trigger Increasing(serials)} :: Increasing(serials)
           && RecordsWith(serials, x.all, s)
  }

  ghost predicate RecordsWith(serials: seq<nat>, all: seq<Priority>, s: Scopes) {
    |serials| == |Block(s, 0)| && all == Prioritized(serials, Records(Block(s, 0), |Block(s, 0)|))
  }

  /** The links from `head` lead through the events of a side. */
  ghost predicate Reads(nodes: seq<Node>, head: nat, x: Side) {
    Listed(nodes, head, x.events, x.all) && |x.all| == |x.trace|
  }

  /** The side of a nested history. */
  lemma {:induction false} SideOf(a: Arena, head: nat, s: Scopes) returns (x: Side)
    requires Readable(a, head) && a.Past(head) == Block(s, 0)
    ensures Reads(a.nodes, head, x) && Ranks(x, s)
  {
    var n := |ChainOf(a.chains, head)|;
    var serials := Serials(a.nodes, ChainOf(a.chains, head));
    x := Side(n, Filled(a, head, n), Preorder(s), SortTicks(s));
    if head != NONE {
      assert NodeOk(a.nodes, a.chains, head);
      ChainIncreasing(a.nodes, a.chains, head);
    }
    FilledMet(a, head, head, n);
    RecordsCounted(s);
    assert Increasing(serials) && RecordsWith(serials, x.all, s);
  }

  lemma {:induction false} RecordsCounted(s: Scopes)
    ensures |Records(Block(s, 0), |Block(s, 0)|)| == |Preorder(s)|
  {
    RecordsOfBlock(s);
    SameLength(Records(Block(s, 0), |Block(s, 0)|), Listing(s, 0));
  }

  /** Sorting the records of a nested history gives its trace. */
  lemma {:induction false} SortedHolds(x: Side, s: Scopes, filled: seq<Priority>, output: array<Priority>)
    requires Ranks(x, s) && |x.all| <= |filled| == output.Length && filled[..|x.all|] == x.all
    requires Shuffled(filled, output[..], |x.all|)
    requires forall i, j :: 0 <= i < j < |x.all| ==> output[i].order <= output[j].order
    ensures Holds(output, x.trace)
  {
    assert Shown(0);
    var serials :| Increasing(serials) && RecordsWith(serials, x.all, s);
    SortedIsPreorder(serials, s, filled[..|x.all|], output[..|x.all|]);
  }

  /** Sorting the records takes the steps of sorting by opening. */
  lemma {:induction false} FilledTicks(x: Side, s: Scopes, filled: seq<Priority>)
    requires Ranks(x, s) && |x.all| <= |filled| && filled[..|x.all|] == x.all
    ensures Heapsort(filled, |x.all|).ticks == x.ticks
  {
    SideFacts(x, s);
    assert Shown(0);
    var serials :| Increasing(serials) && RecordsWith(serials, x.all, s);
    FilledTicksWith(serials, x.all, s, filled, SortTicks(s));
  }

  lemma {:induction false} FilledTicksWith(serials: seq<nat>, all: seq<Priority>, s: Scopes, filled: seq<Priority>,
                                           ticks: nat)
    requires Increasing(serials) && RecordsWith(serials, all, s) && |all| <= |filled| && filled[..|all|] == all
    requires ticks == SortTicks(s)
    ensures Heapsort(filled, |all|).ticks == ticks
  {
    var rs := Records(Block(s, 0), |Block(s, 0)|);
    var keys := Keys(s);
    RecordsIndexed(Block(s, 0), |Block(s, 0)|);
    PrioritizedOrder(serials, rs, filled, keys);
    HeapsortSame(filled, keys, |rs|);
  }

  lemma {:induction false} PrioritizedOrder(serials: seq<nat>, rs: seq<Record>, filled: seq<Priority>,
                                            keys: seq<Priority>)
    requires Increasing(serials) && (forall k :: 0 <= k < |rs| ==> rs[k].index < |serials|)
    requires |rs| <= |filled| && filled[..|rs|] == Prioritized(serials, rs)
    requires |keys| == |rs| && forall k :: 0 <= k < |rs| ==> keys[k] == Priority(rs[k].index, rs[k].mark)
    ensures SameOrder(filled, keys, |rs|)
  {
    forall i, j | 0 <= i < |rs| && 0 <= j < |rs|
      ensures filled[i].order < filled[j].order <==> keys[i].order < keys[j].order
    {
      assert filled[i] == filled[..|rs|][i] && filled[j] == filled[..|rs|][j];
    }
  }

  /** Compares two traces record by record. */
  method Compare(budget: Budget, left: array<Priority>, a: nat, right: array<Priority>, b: nat, ghost x: seq<Mark>,
                 ghost y: seq<Mark>)
    returns (ok: bool, better: bool)
    requires budget.Valid() && Holds(left, x) && Holds(right, y) && a == |x| && b == |y|
    modifies budget`steps
    ensures budget.Valid() && budget.Charged(old(budget.steps), CompareTicks(x, y), ok)
    ensures ok ==> better == Better(x, y)
  {
    better := false;
    var i := 0;
    while i < a && i < b
      invariant 0 <= i <= a && i <= b && budget.Valid() && Better(x[i..], y[i..]) == Better(x, y)
      invariant budget.steps + CompareTicks(x[i..], y[i..]) == old(budget.steps) + CompareTicks(x, y)
    {
      ok := budget.Tick(1);
      if !ok {
        return;
      }
      if left[i].mark.key != right[i].mark.key {
        return true, left[i].mark.key < right[i].mark.key;
      }
      if left[i].mark.length != right[i].mark.length {
        return true, left[i].mark.length > right[i].mark.length;
      }
      assert x[i..][1..] == x[i + 1..] && y[i..][1..] == y[i + 1..];
      i := i + 1;
    }
    return true, a > b;
  }

  /** The two buffers records are sorted in. */
  class Ranking {
    var left: array<Priority>
    var right: array<Priority>

    ghost predicate Valid()
      reads this
    {
      left != right && left.Length == right.Length
    }

    constructor ()
      ensures Valid() && fresh(left) && fresh(right)
    {
      left := new Priority[0];
      right := new Priority[0];
    }

    /** Makes room for `required` records on each side, doubling the buffers. */
    method Reserve(budget: Budget, required: nat) returns (report: Report)
      requires Valid()
      modifies this, budget`refused
      ensures Valid() && (left == old(left) || fresh(left)) && (right == old(right) || fresh(right))
      ensures (budget.refused <==> old(budget.refused) || report.Failed?)
      ensures report.Failed? ==> report.error == Limit || report.error == NoMemory
      ensures report == Fine ==> required <= left.Length
    {
      report := Fine;
      if required <= left.Length {
        return;
      }
      var size := if left.Length > 0 then left.Length else 16;
      while size < required
        invariant size > 0
      {
        if size > NONE / 4 {
          report := budget.Reserve(false);
          return;
        }
        size := size * 2;
      }
      report := budget.Reserve(true);
      if report == Fine {
        left := new Priority[size](_ => Priority(0, Mark(0, 0)));
        right := new Priority[size](_ => Priority(0, Mark(0, 0)));
      }
    }

    /** Whether the history at `candidate` outranks the one at `best`. */
    method Outranks(a: Arena, budget: Budget, candidate: nat, best: nat, ghost s: Scopes, ghost t: Scopes)
      returns (report: Report, better: bool)
      requires Valid() && budget.Valid() && Readable(a, candidate) && Readable(a, best)
      requires a.Past(candidate) == Block(s, 0) && a.Past(best) == Block(t, 0)
      modifies this, left, right, budget
      ensures Valid() && budget.Valid() && (old(budget.refused) ==> budget.refused)
      ensures (left == old(left) || fresh(left)) && (right == old(right) || fresh(right))
      ensures report == Fine || report == Failed(Limit) || (report == Failed(NoMemory) && budget.refused)
      ensures budget.Charged(old(budget.steps), BetterTicks(s, t), report == Fine)
      ensures report == Fine ==> better == Better(Preorder(s), Preorder(t))
    {
      ghost var x := SideOf(a, candidate, s);
      ghost var y := SideOf(a, best, t);
      report, better := RankSides(a, budget, candidate, best, x, y, s, t);
      SidesTicks(x, y, s, t);
    }

    /** Counts the scopes of both sides and ranks them if there are any. */
    method RankSides(a: Arena, budget: Budget, candidate: nat, best: nat, ghost x: Side, ghost y: Side, ghost s: Scopes,
                     ghost t: Scopes)
      returns (report: Report, better: bool)
      requires Valid() && budget.Valid() && Reads(a.nodes, candidate, x) && Reads(a.nodes, best, y) && Ranks(x, s)
      requires Ranks(y, t)
      modifies this, left, right, budget
      ensures Valid() && budget.Valid() && (old(budget.refused) ==> budget.refused)
      ensures (left == old(left) || fresh(left)) && (right == old(right) || fresh(right))
      ensures report == Fine || report == Failed(Limit) || (report == Failed(NoMemory) && budget.refused)
      ensures budget.Charged(old(budget.steps), SideTicks(x, y), report == Fine)
      ensures report == Fine ==> better == Better(x.trace, y.trace)
    {
      better := false;
      var ok, m := CountScopes(a, budget, candidate, x.events, x.all);
      if !ok {
        return Failed(Limit), false;
      }
      var n;
      ok, n := CountScopes(a, budget, best, y.events, y.all);
      if !ok {
        return Failed(Limit), false;
      }
      if m == 0 && n == 0 {
        return Fine, false;
      }
      report := Reserve(budget, if m > n then m else n);
      if report.Failed? {
        return;
      }
      ok := Collect(a, budget, candidate, best, m, n, x, y, s, t);
      if !ok {
        return Failed(Limit), false;
      }
      ok, better := Compare(budget, left, m, right, n, x.trace, y.trace);
      report := if ok then Fine else Failed(Limit);
    }

    /** Fills and sorts both buffers. */
    method Collect(a: Arena, budget: Budget, candidate: nat, best: nat, m: nat, n: nat,
                   ghost x: Side, ghost y: Side, ghost s: Scopes, ghost t: Scopes)
      returns (ok: bool)
      requires Valid() && budget.Valid() && m == |x.all| <= left.Length && n == |y.all| <= right.Length
      requires Reads(a.nodes, candidate, x) && Reads(a.nodes, best, y) && Ranks(x, s) && Ranks(y, t)
      modifies left, right, budget`steps
      ensures budget.Valid() && budget.Charged(old(budget.steps), x.events + y.events + x.ticks + y.ticks, ok)
      ensures ok ==> Holds(left, x.trace) && Holds(right, y.trace)
    {
      ok := Fill(a, budget, candidate, left, x.events, x.all);
      if !ok {
        return;
      }
      ok := Fill(a, budget, best, right, y.events, y.all);
      if !ok {
        return;
      }
      ok := SortOne(budget, left, m, x, s);
      if !ok {
        return;
      }
      ok := SortOne(budget, right, n, y, t);
    }
  }

  /** The steps of ranking two sides. */
  function SideTicks(x: Side, y: Side): nat {
    x.events + y.events +
    if x.all == [] && y.all == [] then 0
    else x.events + y.events + x.ticks + y.ticks + CompareTicks(x.trace, y.trace)
  }

  lemma {:induction false} SideFacts(x: Side, s: Scopes)
    requires Ranks(x, s)
    ensures x.events == |Block(s, 0)| && x.trace == Preorder(s) && x.ticks == SortTicks(s)
  {
    assert Shown(0);
  }

  lemma {:induction false} TicksAddUp(x: Side, y: Side, s: Scopes, t: Scopes, p: nat, q: nat, c: nat)
    requires x.events == |Block(s, 0)| && y.events == |Block(t, 0)| && (x.all == [] <==> x.trace == [])
    requires (y.all == [] <==> y.trace == [])
    requires x.trace == Preorder(s) && y.trace == Preorder(t) && x.ticks == p == SortTicks(s)
    requires y.ticks == q == SortTicks(t)
    requires c == CompareTicks(x.trace, y.trace)
    ensures SideTicks(x, y) == BetterTicks(s, t)
  {
  }

  lemma {:induction false} SidesTicks(x: Side, y: Side, s: Scopes, t: Scopes)
    requires Ranks(x, s) && Ranks(y, t) && |x.all| == |x.trace| && |y.all| == |y.trace|
    ensures SideTicks(x, y) == BetterTicks(s, t) && x.trace == Preorder(s) && y.trace == Preorder(t)
  {
    SideFacts(x, s);
    SideFacts(y, t);
    TicksAddUp(x, y, s, t, x.ticks, y.ticks, CompareTicks(x.trace, y.trace));
  }

  /** Sorts one side. */
  method SortOne(budget: Budget, output: array<Priority>, count: nat, ghost x: Side, ghost s: Scopes) returns (ok: bool)
    requires budget.Valid() && Ranks(x, s) && count == |x.all| <= output.Length && output[..count] == x.all
    modifies output, budget`steps
    ensures budget.Valid() && budget.Charged(old(budget.steps), x.ticks, ok)
    ensures ok ==> Holds(output, x.trace)
  {
    ghost var filled := output[..];
    assert filled[..count] == output[..count];
    FilledTicks(x, s, filled);
    ok := Sort(budget, output, count);
    if ok {
      SortedHolds(x, s, filled, output);
    }
  }
}
