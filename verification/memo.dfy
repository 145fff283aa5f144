/** Memo storage of the ordered engine: a dense array, or an open-addressing
    table that grows before it is half full. Both stand for a total map from
    cells to values whose default is UNVISITED. */
module Memo {
  import opened OrderedMachine

  /** Key zero marks an empty entry; a cell's key is its number plus one. */
  datatype Entry = Entry(key: nat, value: int)

  const EMPTY := Entry(0, 0)

  /** Probes needed to get from `home` to `at` in a table of `n` entries. */
  function Distance(home: nat, at: nat, n: nat): int {
    if home <= at then at - home else at + n - home
  }

  /** Where the probe of a key starts. The mixing function is arbitrary. */
  function Home(mix: nat -> nat, key: nat, n: nat): (h: nat)
    requires n > 0
    ensures h < n
  {
    mix(key) % n
  }

  /** A probe for `key` reaches entry `j` before entry `at`. */
  predicate Before(mix: nat -> nat, key: nat, j: nat, at: nat, n: nat)
    requires n > 0
  {
    Distance(Home(mix, key, n), j, n) < Distance(Home(mix, key, n), at, n)
  }

  ghost predicate UniqueKeys(es: seq<Entry>) {
    forall i, j :: 0 <= i < j < |es| && es[i].key != 0 ==> es[i].key != es[j].key
  }

  /** No empty entry lies between a key's home and its place. */
  ghost predicate Reachable(mix: nat -> nat, es: seq<Entry>) {
    forall i, j :: 0 <= i < |es| && 0 <= j < |es| && es[i].key != 0 && Before(mix, es[i].key, j, i, |es|) ==>
      es[j].key != 0
  }

  ghost function Occupied(es: seq<Entry>): nat {
    if es == [] then 0 else Occupied(es[..|es| - 1]) + if es[|es| - 1].key != 0 then 1 else 0
  }

  lemma {:induction false} OccupiedFull(es: seq<Entry>)
    requires forall i :: 0 <= i < |es| ==> es[i].key != 0
    ensures Occupied(es) == |es|
  {
    if es != [] {
      OccupiedFull(es[..|es| - 1]);
    }
  }

  lemma {:induction false} OccupiedNone(es: seq<Entry>)
    requires forall i :: 0 <= i < |es| ==> es[i].key == 0
    ensures Occupied(es) == 0
  {
    if es != [] {
      OccupiedNone(es[..|es| - 1]);
    }
  }

  lemma {:induction false} OccupiedUpdate(es: seq<Entry>, at: nat, e: Entry)
    requires at < |es|
    ensures Occupied(es[at := e]) ==
            Occupied(es) + (if e.key != 0 then 1 else 0) - (if es[at].key != 0 then 1 else 0)
  {
    var n := |es| - 1;
    if at == n {
      assert es[at := e][..n] == es[..n];
    } else {
      assert es[at := e][..n] == es[..n][at := e];
      OccupiedUpdate(es[..n], at, e);
    }
  }

  /** A table: unique keys, each found by probing from its home. */
  ghost predicate TableOk(mix: nat -> nat, es: seq<Entry>) {
    |es| > 0 && UniqueKeys(es) && Reachable(mix, es)
  }

  ghost predicate Holds(es: seq<Entry>, key: nat) {
    exists i :: 0 <= i < |es| && es[i].key == key
  }

  /** The value a table gives a key: that of its entry, or UNVISITED. */
  ghost function ValueOf(es: seq<Entry>, key: nat): int {
    if Holds(es, key) then
      var i :| 0 <= i < |es| && es[i].key == key;
      es[i].value
    else UNVISITED
  }

  lemma {:induction false} ValueAt(es: seq<Entry>, i: nat)
    requires UniqueKeys(es) && i < |es| && es[i].key != 0
    ensures ValueOf(es, es[i].key) == es[i].value
  {
  }

  /** The probe loop: stops at the key, or at the empty entry that ends its run. */
  method Probe(mix: nat -> nat, entries: array<Entry>, key: nat) returns (at: nat)
    requires TableOk(mix, entries[..]) && key != 0
    requires Occupied(entries[..]) < entries.Length
    ensures at < entries.Length
    ensures entries[at].key == key || entries[at].key == 0
    ensures entries[at].key == 0 ==> !Holds(entries[..], key)
    ensures forall j :: 0 <= j < entries.Length && Before(mix, key, j, at, entries.Length) ==> entries[j].key != 0
  {
    var n := entries.Length;
    var home := Home(mix, key, n);
    at := home;
    var probe := 0;
    while probe < n
      invariant 0 <= probe <= n && at < n
      invariant probe < n ==> Distance(home, at, n) == probe
      invariant forall j :: 0 <= j < n && Distance(home, j, n) < probe ==> entries[j].key != 0 && entries[j].key != key
    {
      if entries[at].key == key {
        return;
      }
      if entries[at].key == 0 {
        assert !Holds(entries[..], key) by {
          forall i | 0 <= i < n
            ensures entries[i].key != key
          {
            assert entries[i].key == key ==> Before(mix, key, at, i, n);
          }
        }
        return;
      }
      at := if at + 1 == n then 0 else at + 1;
      probe := probe + 1;
    }
    OccupiedFull(entries[..]);
    assert false;
  }

  /** Filling the empty entry a probe ended at binds the key and nothing else. */
  lemma {:induction false} InsertKeeps(mix: nat -> nat, es: seq<Entry>, at: nat, e: Entry)
    requires TableOk(mix, es) && at < |es| && es[at].key == 0 && e.key != 0 && !Holds(es, e.key)
    requires forall j :: 0 <= j < |es| && Before(mix, e.key, j, at, |es|) ==> es[j].key != 0
    ensures TableOk(mix, es[at := e]) && Occupied(es[at := e]) == Occupied(es) + 1
    ensures ValueOf(es[at := e], e.key) == e.value
    ensures forall key :: key != 0 && key != e.key ==> ValueOf(es[at := e], key) == ValueOf(es, key)
    ensures forall key :: Holds(es[at := e], key) ==> Holds(es, key) || key == e.key
  {
    var es' := es[at := e];
    OccupiedUpdate(es, at, e);
    assert UniqueKeys(es');
    ValueAt(es', at);
    forall key | key != 0 && key != e.key
      ensures ValueOf(es', key) == ValueOf(es, key)
    {
      if Holds(es, key) {
        var i :| 0 <= i < |es| && es[i].key == key;
        assert es'[i] == es[i];
        ValueAt(es, i);
        ValueAt(es', i);
      } else {
        assert forall i :: 0 <= i < |es| ==> es[i].key != key;
      }
    }
  }

  /** The sparse table. `Slot` hands out the entry of a cell, creating it on
      first use and growing before the table is more than half full. */
  class SparseMemo {
    const mix: nat -> nat
    var entries: array<Entry>
    var used: nat

    ghost predicate Valid()
      reads this, entries
    {
      && entries.Length >= 16
      && TableOk(mix, entries[..])
      && used == Occupied(entries[..]) <= entries.Length / 2
    }

    /** The abstract memo. */
    ghost function Value(cell: nat): int
      reads this, entries
    {
      ValueOf(entries[..], cell + 1)
    }

    constructor (mix: nat -> nat)
      ensures Valid() && fresh(entries) && this.mix == mix
      ensures forall cell: nat :: Value(cell) == UNVISITED
    {
      this.mix := mix;
      entries := new Entry[16](_ => EMPTY);
      used := 0;
      new;
      OccupiedNone(entries[..]);
      assert forall key :: key != 0 ==> !Holds(entries[..], key);
    }

    /** The entry of a cell. The table keeps every value, whatever it does to its storage. */
    method Slot(cell: nat) returns (at: nat)
      requires Valid()
      modifies this, entries
      ensures Valid() && (entries == old(entries) || fresh(entries))
      ensures at < entries.Length && entries[at].key == cell + 1 && entries[at].value == Value(cell)
      ensures forall c: nat :: Value(c) == old(Value(c))
    {
      var key := cell + 1;
      Room();
      at := Probe(mix, entries, key);
      if entries[at].key == key {
        ValueAt(entries[..], at);
        return;
      }
      if used >= entries.Length / 2 {
        Grow();
        Room();
        at := Probe(mix, entries, key);
      }
      InsertKeeps(mix, entries[..], at, Entry(key, UNVISITED));
      ghost var before := entries[..];
      entries[at] := Entry(key, UNVISITED);
      assert entries[..] == before[at := Entry(key, UNVISITED)];
      used := used + 1;
      ValueAt(entries[..], at);
    }

    /** Half-full at most means there is room for a probe to end. */
    lemma {:induction false} Room()
      requires Valid()
      ensures Occupied(entries[..]) < entries.Length
    {
    }

    /** Doubles the table and rehashes every occupied entry. */
    method Grow()
      requires Valid()
      modifies this`entries
      ensures TableOk(mix, entries[..]) && fresh(entries) && entries.Length == 2 * old(entries.Length)
      ensures used == Occupied(entries[..])
      ensures forall key :: key != 0 ==> ValueOf(entries[..], key) == old(ValueOf(entries[..], key))
      ensures forall key :: key != 0 && Holds(entries[..], key) ==> old(Holds(entries[..], key))
    {
      var grown := new Entry[2 * entries.Length](_ => EMPTY);
      OccupiedNone(grown[..]);
      ghost var table := entries[..];
      assert table[..0] == [];
      var index := 0;
      while index < entries.Length
        invariant 0 <= index <= entries.Length && entries == old(entries) && entries[..] == table
        invariant fresh(grown) && grown.Length == 2 * entries.Length
        invariant TableOk(mix, grown[..]) && Copies(grown[..], table[..index])
      {
        Prefix(table, index);
        if entries[index].key != 0 {
          Place(mix, grown, entries[index]);
        }
        index := index + 1;
      }
      assert table[..index] == table;
      entries := grown;
    }
  }

  /** `es` binds what `part` binds, with as many entries. */
  ghost predicate Copies(es: seq<Entry>, part: seq<Entry>) {
    && Occupied(es) == Occupied(part)
    && (forall key :: key != 0 ==> ValueOf(es, key) == ValueOf(part, key))
    && (forall key :: key != 0 && Holds(es, key) ==> Holds(part, key))
  }

  /** Rehashes one entry into a table that does not have its key. */
  method Place(mix: nat -> nat, grown: array<Entry>, e: Entry)
    requires TableOk(mix, grown[..]) && e.key != 0 && !Holds(grown[..], e.key) && Occupied(grown[..]) < grown.Length
    modifies grown
    ensures TableOk(mix, grown[..]) && Occupied(grown[..]) == old(Occupied(grown[..])) + 1
    ensures forall key :: key != 0 ==>
              ValueOf(grown[..], key) == if key == e.key then e.value else old(ValueOf(grown[..], key))
    ensures forall key :: Holds(grown[..], key) ==> old(Holds(grown[..], key)) || key == e.key
  {
    var at := Probe(mix, grown, e.key);
    InsertKeeps(mix, grown[..], at, e);
    ghost var before := grown[..];
    grown[at] := e;
    assert grown[..] == before[at := e];
  }

  lemma {:induction false} OccupiedAtMost(es: seq<Entry>)
    ensures Occupied(es) <= |es|
  {
    if es != [] {
      OccupiedAtMost(es[..|es| - 1]);
    }
  }

  /** Extending a table prefix by its next entry. */
  lemma {:induction false} Prefix(table: seq<Entry>, index: nat)
    requires index < |table| && UniqueKeys(table)
    ensures Occupied(table[..index + 1]) == Occupied(table[..index]) + (if table[index].key != 0 then 1 else 0)
    ensures Occupied(table[..index]) <= index
    ensures table[index].key != 0 ==>
              !Holds(table[..index], table[index].key)
              && Holds(table[..index + 1], table[index].key)
    ensures forall key :: key != 0 ==>
              ValueOf(table[..index + 1], key) ==
              if key == table[index].key then table[index].value else ValueOf(table[..index], key)
    ensures forall key :: Holds(table[..index], key) ==> Holds(table[..index + 1], key)
  {
    var short, long := table[..index], table[..index + 1];
    assert long[..index] == short;
    OccupiedAtMost(short);
    assert long[index] == table[index];
    forall key | Holds(short, key)
      ensures Holds(long, key)
    {
      var i :| 0 <= i < |short| && short[i].key == key;
      assert long[i].key == key;
    }
    forall key | key != 0
      ensures ValueOf(long, key) == if key == table[index].key then table[index].value else ValueOf(short, key)
    {
      if key == table[index].key {
        ValueAt(long, index);
      } else if Holds(short, key) {
        var i :| 0 <= i < |short| && short[i].key == key;
        ValueAt(short, i);
        ValueAt(long, i);
      } else {
        assert forall i :: 0 <= i < |short| ==> short[i].key != key;
      }
    }
  }

  /** The memo of one run: dense when the caller bounds it or it is small, else sparse. */
  class Store {
    const cells: nat
    const dense: array?<int>
    const sparse: SparseMemo?

    ghost function Repr(): set<object?>
      reads this, sparse
    {
      if dense != null then {dense} else if sparse != null then {sparse, sparse.entries} else {}
    }

    ghost predicate Valid()
      reads this, sparse, Repr()
    {
      if dense != null then dense.Length == cells else sparse != null && sparse.Valid()
    }

    ghost function Value(cell: nat): int
      requires Valid()
      reads this, sparse, Repr()
    {
      if dense == null then sparse.Value(cell)
      else if cell < cells then dense[cell] else UNVISITED
    }

    constructor (cells: nat, small: bool, mix: nat -> nat)
      ensures Valid() && fresh(Repr()) && this.cells == cells
      ensures forall cell: nat :: cell < cells ==> Value(cell) == UNVISITED
    {
      this.cells := cells;
      if small {
        dense := new int[cells](_ => UNVISITED);
        sparse := null;
      } else {
        dense := null;
        sparse := new SparseMemo(mix);
      }
    }

    /** `at` is where the value of `cell` is kept. */
    ghost predicate Handle(at: nat, cell: nat)
      requires Valid()
      reads this, sparse, Repr()
    {
      if dense != null then at == cell < cells
      else at < sparse.entries.Length && sparse.entries[at].key == cell + 1
    }

    method Find(cell: nat) returns (at: nat, value: int)
      requires Valid() && cell < cells
      modifies Repr()
      ensures Valid() && fresh(Repr() - old(Repr()))
      ensures Handle(at, cell) && value == Value(cell)
      ensures forall c: nat :: Value(c) == old(Value(c))
    {
      if dense != null {
        at := cell;
        value := dense[at];
      } else {
        at := sparse.Slot(cell);
        value := sparse.entries[at].value;
      }
    }

    method Write(at: nat, value: int, ghost cell: nat)
      requires Valid() && Handle(at, cell) && cell < cells
      modifies Repr()
      ensures Valid() && Repr() == old(Repr())
      ensures Handle(at, cell)
      ensures forall c: nat :: Value(c) == if c == cell then value else old(Value(c))
    {
      if dense != null {
        dense[at] := value;
      } else {
        var entries := sparse.entries;
        ghost var before := entries[..];
        entries[at] := entries[at].(value := value);
        RewriteKeeps(sparse.mix, before, at, value);
        assert entries[..] == before[at := before[at].(value := value)];
      }
    }
  }

  /** Changing an entry's value changes the binding of its key and nothing else. */
  lemma {:induction false} RewriteKeeps(mix: nat -> nat, es: seq<Entry>, at: nat, value: int)
    requires TableOk(mix, es) && at < |es| && es[at].key != 0
    ensures var es' := es[at := es[at].(value := value)];
            && TableOk(mix, es') && Occupied(es') == Occupied(es)
            && forall key :: key != 0 ==> ValueOf(es', key) == if key == es[at].key then value else ValueOf(es, key)
  {
    var es' := es[at := es[at].(value := value)];
    OccupiedUpdate(es, at, es[at].(value := value));
    assert forall i :: 0 <= i < |es| ==> es'[i].key == es[i].key;
    forall key | key != 0
      ensures ValueOf(es', key) == if key == es[at].key then value else ValueOf(es, key)
    {
      if key == es[at].key {
        ValueAt(es', at);
      } else if Holds(es, key) {
        var i :| 0 <= i < |es| && es[i].key == key;
        ValueAt(es, i);
        ValueAt(es', i);
      } else {
        assert forall i :: 0 <= i < |es'| ==> es'[i].key != key;
      }
    }
  }
}
