/** The event collector: parse events become a preorder node array, and a
    checkpoint brings back what was there before. */
module PegEvents {
  import opened PegGrammar

  /** A node: a rule or a token, the end of its range, and its parent. */
  datatype Entry = Entry(isRule: bool, name: nat, end: nat, parent: int)

  function Size(t: Tree): (n: nat)
    ensures n > 0
  {
    if t.Leaf? then 1 else 1 + Sizes(t.kids)
  }

  function Sizes(ts: Trees): nat {
    if ts.Nil? then 0 else Size(ts.head) + Sizes(ts.tail)
  }

  /** The preorder array of a tree placed at `at`. */
  function Flatten(t: Tree, at: nat, parent: int): (r: seq<Entry>)
    ensures |r| == Size(t) && r[0].parent == parent
  {
    match t
    case Leaf(position) => [Entry(false, position, at + 1, parent)]
    case Branch(rule, kids) => [Entry(true, rule, at + Size(t), parent)] + FlattenAll(kids, at + 1, at)
  }

  function FlattenAll(ts: Trees, at: nat, parent: int): (r: seq<Entry>)
    ensures |r| == Sizes(ts) && (r != [] ==> r[0].parent == parent)
  {
    if ts.Nil? then [] else Flatten(ts.head, at, parent) + FlattenAll(ts.tail, at + Size(ts.head), parent)
  }

  lemma {:induction false} FlattenAppend(a: Trees, b: Trees, at: nat, parent: int)
    ensures Sizes(Append(a, b)) == Sizes(a) + Sizes(b)
    ensures FlattenAll(Append(a, b), at, parent) == FlattenAll(a, at, parent) + FlattenAll(b, at + Sizes(a), parent)
    decreases a
  {
    if a.Cons? {
      FlattenAppend(a.tail, b, at + Size(a.head), parent);
    }
  }

  /** Node `k` of an array that starts at `at`: its range lies inside its
      parent's, and is followed there by a sibling or by the parent's end. */
  ghost predicate Tiles(nodes: seq<Entry>, at: nat, parent: int, k: nat)
    requires k < |nodes|
  {
    var n := nodes[k];
    && at + k < n.end <= at + |nodes| && (n.parent == parent || at <= n.parent < at + k)
    && (var limit := if n.parent == parent then at + |nodes| else nodes[n.parent - at].end;
        n.end <= limit && (n.end < limit ==> n.end - at < |nodes| && nodes[n.end - at].parent == n.parent))
  }

  ghost predicate Nested(nodes: seq<Entry>, at: nat, parent: int) {
    forall k: nat {:trigger Tiles(nodes, at, parent, k)} :: k < |nodes| ==> Tiles(nodes, at, parent, k)
  }

  /** The array of a tree is a well-nested preorder tree. */
  lemma {:induction false} FlattenNested(t: Tree, at: nat, parent: int)
    requires parent < at
    ensures Nested(Flatten(t, at, parent), at, parent)
    decreases t
  {
    if t.Branch? {
      var inner := FlattenAll(t.kids, at + 1, at);
      FlattenAllNested(t.kids, at + 1, at);
      forall k: nat | k < |Flatten(t, at, parent)|
        ensures Tiles(Flatten(t, at, parent), at, parent, k)
      {
        BranchTiles(t, at, parent, inner, k);
      }
    }
  }

  lemma {:induction false} BranchTiles(t: Tree, at: nat, parent: int, inner: seq<Entry>, k: nat)
    requires t.Branch? && parent < at && inner == FlattenAll(t.kids, at + 1, at) && Nested(inner, at + 1, at)
    requires k <= |inner|
    ensures Tiles(Flatten(t, at, parent), at, parent, k)
  {
    var all := Flatten(t, at, parent);
    assert all == [all[0]] + inner;
    if k > 0 {
      assert Tiles(inner, at + 1, at, k - 1);
    }
  }

  lemma {:induction false} FlattenAllNested(ts: Trees, at: nat, parent: int)
    requires parent < at
    ensures Nested(FlattenAll(ts, at, parent), at, parent)
    decreases ts
  {
    if ts.Cons? {
      var a := Flatten(ts.head, at, parent);
      var b := FlattenAll(ts.tail, at + Size(ts.head), parent);
      FlattenNested(ts.head, at, parent);
      FlattenAllNested(ts.tail, at + Size(ts.head), parent);
      forall k: nat | k < |a + b|
        ensures Tiles(a + b, at, parent, k)
      {
        JoinTiles(a, b, at, parent, k);
      }
    }
  }

  lemma {:induction false} JoinTiles(a: seq<Entry>, b: seq<Entry>, at: nat, parent: int, k: nat)
    requires parent < at && Nested(a, at, parent) && Nested(b, at + |a|, parent) && k < |a + b|
    requires b != [] ==> b[0].parent == parent
    ensures Tiles(a + b, at, parent, k)
  {
    if k < |a| {
      assert Tiles(a, at, parent, k);
    } else {
      assert Tiles(b, at + |a|, parent, k - |a|);
    }
  }

  // ---------- the collector ----------

  /** What the collector holds: the nodes so far, the open one, whether one was
      dropped, and whether the watched rule was ever completed. */
  datatype Collected = Collected(nodes: seq<Entry>, active: int, overflow: bool, noted: bool)

  class Collector {
    const nodes: array<Entry>
    const watched: nat
    var count: nat
    var active: int
    var overflow: bool
    var noted: bool

    ghost predicate Valid()
      reads this, nodes
    {
      && count <= nodes.Length <= 8192 && -1 <= active < nodes.Length
      && forall k :: 0 <= k < nodes.Length ==> -1 <= nodes[k].parent < nodes.Length
    }

    ghost function Now(): Collected
      requires Valid()
      reads this, nodes
    {
      Collected(nodes[..count], active, overflow, noted)
    }

    constructor (capacity: nat, watched: nat)
      requires capacity <= 8192
      ensures Valid() && fresh(nodes) && nodes.Length == capacity && this.watched == watched
      ensures Now() == Collected([], -1, false, false)
    {
      nodes := new Entry[capacity](_ => Entry(false, 0, 0, -1));
      this.watched := watched;
      count, active, overflow, noted := 0, -1, false, false;
    }

    /** Count and open node in one word. */
    method Checkpoint() returns (mark: nat)
      requires Valid()
      ensures mark / 65536 == count && mark % 65536 - 1 == active
    {
      mark := count * 65536 + (active + 1);
    }

    method Restore(mark: nat)
      requires Valid() && mark / 65536 <= nodes.Length && mark % 65536 - 1 < nodes.Length
      modifies this`count, this`active
      ensures Valid() && Now() == Collected(nodes[..mark / 65536], mark % 65536 - 1, overflow, noted)
    {
      count := mark / 65536;
      active := mark % 65536 - 1;
    }

    /** One more node; a rule becomes the open one. */
    method Append(isRule: bool, name: nat)
      requires Valid()
      modifies this, nodes
      ensures Valid() && noted == old(noted)
      ensures old(count) < nodes.Length ==>
                Now() == Collected(old(Now()).nodes + [Entry(isRule, name, old(count) + 1, old(active))],
                                   if isRule then old(count) else old(active), old(overflow), old(noted))
      ensures old(count) == nodes.Length ==> overflow
    {
      if count == nodes.Length {
        overflow := true;
        return;
      }
      nodes[count] := Entry(isRule, name, count + 1, active);
      if isRule {
        active := count;
      }
      count := count + 1;
      assert nodes[..count] == nodes[..count - 1] + [nodes[count - 1]];
    }

    /** The open rule ends here. */
    method Close(name: nat)
      requires Valid()
      modifies this, nodes
      ensures Valid() && (old(overflow) ==> overflow) && (old(noted) ==> noted)
      ensures 0 <= old(active) < old(count) ==>
                var before := old(Now()); var n := before.nodes[before.active];
                Now() == Collected(before.nodes[before.active := n.(end := old(count))], n.parent, before.overflow,
                                   before.noted || name == watched)
    {
      if active < 0 {
        overflow := true;
        return;
      }
      ghost var before := nodes[..count];
      nodes[active] := nodes[active].(end := count);
      assert active < count ==> nodes[..count] == before[active := before[active].(end := count)];
      active := nodes[active].parent;
      if name == watched {
        noted := true;
      }
    }
  }
}
