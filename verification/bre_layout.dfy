/** Where lowering puts the code of a tree, and what that code has to be. A
    forest's last tree comes first in memory; a node's own instructions come
    after those of its children. */
module BreLayout {
  import opened BreProgram

  function CodeSize(t: Tree): (n: nat)
    ensures n > 0 <==> HasCode(t)
  {
    match t
    case Skip => 0
    case Unit(_, _, _) => 1
    case Concat(kids) => CodeSizes(kids)
    case Group(_, _, _, kids) => CodeSizes(kids) + 2
    case Loop(_, _, _, kids) => CodeSizes(kids) + 2
  }

  function CodeSizes(f: Forest): (n: nat)
    ensures n > 0 <==> HasCodes(f)
  {
    if f.Nil? then 0 else CodeSize(f.head) + CodeSizes(f.tail)
  }

  /** The instruction that starts a tree placed at `lo`. */
  function EntryOf(t: Tree, lo: nat): (e: nat)
    requires HasCode(t)
    ensures lo <= e < lo + CodeSize(t)
  {
    match t
    case Unit(_, _, _) => lo
    case Concat(kids) => EntryOfs(kids, lo)
    case Group(_, _, _, kids) => lo + CodeSizes(kids)
    case Loop(_, _, _, kids) => lo + CodeSizes(kids)
  }

  function EntryOfs(f: Forest, lo: nat): (e: nat)
    requires HasCodes(f)
    ensures lo <= e < lo + CodeSizes(f)
  {
    if HasCode(f.head) then EntryOf(f.head, lo + CodeSizes(f.tail)) else EntryOfs(f.tail, lo)
  }

  /** The instruction whose link leaves a tree placed at `lo`. */
  function TailOf(t: Tree, lo: nat): (e: nat)
    requires HasCode(t)
    ensures lo <= e < lo + CodeSize(t)
  {
    match t
    case Unit(_, _, _) => lo
    case Concat(kids) => TailOfs(kids, lo)
    case Group(_, _, _, kids) => lo + CodeSizes(kids) + 1
    case Loop(_, _, _, kids) => lo + CodeSizes(kids)
  }

  function TailOfs(f: Forest, lo: nat): (e: nat)
    requires HasCodes(f)
    ensures lo <= e < lo + CodeSizes(f)
  {
    if HasCodes(f.tail) then TailOfs(f.tail, lo) else TailOf(f.head, lo + CodeSizes(f.tail))
  }

  /** `code` holds the tree at `lo`. Nothing is said about the link of its tail. */
  ghost predicate Placed(code: seq<Instruction>, t: Tree, lo: nat) {
    lo + CodeSize(t) <= |code| &&
    match t
    case Skip => true
    case Unit(op, a, b) => code[lo].op == op && code[lo].a == a && code[lo].b == b
    case Concat(kids) => PlacedAll(code, kids, lo)
    case Group(key, id, last, kids) =>
      var open := lo + CodeSizes(kids);
      && PlacedAll(code, kids, lo)
      && code[open] == Instruction(Open, id, last, if HasCodes(kids) then EntryOfs(kids, lo) else open + 1, 0, key)
      && code[open + 1].op == Close && code[open + 1].a == id
      && (HasCodes(kids) ==> code[TailOfs(kids, lo)].next == open + 1)
    case Loop(key, min, max, kids) =>
      var repeat := lo + CodeSizes(kids);
      && HasCodes(kids) && PlacedAll(code, kids, lo)
      && code[repeat].op == Repeat && code[repeat].a == EntryOfs(kids, lo) && code[repeat].b == key
      && code[repeat].min == min && code[repeat].max == max
      && code[repeat + 1].op == RepeatEnd && code[repeat + 1].a == repeat
      && code[TailOfs(kids, lo)].next == repeat + 1
  }

  ghost predicate PlacedAll(code: seq<Instruction>, f: Forest, lo: nat) {
    lo + CodeSizes(f) <= |code| &&
    (f.Cons? ==>
       && Placed(code, f.head, lo + CodeSizes(f.tail))
       && PlacedAll(code, f.tail, lo)
       && (HasCode(f.head) && HasCodes(f.tail) ==>
             code[TailOf(f.head, lo + CodeSizes(f.tail))].next == EntryOfs(f.tail, lo)))
  }
}
