/** Grammars of the generated parser, and their meaning: ordered choice without
    a memo, giving the parse tree. */
module PegGrammar {

  /** The templates a rule is generated from. */
  datatype Item =
    | Expect(token: nat)
    | Many(token: nat)
    | Call(rule: nat)
    | Maybe(rule: nat)
    | Star(rule: nat)
    | Plus(rule: nat)
    | Choose(alternatives: Alternatives)

  datatype Items = End | Then(head: Item, tail: Items)

  datatype Alternatives = Nothing | Or(first: Items, others: Alternatives)

  type Grammar = seq<Items>

  function ItemSize(i: Item): nat {
    if i.Choose? then 1 + ChoiceSize(i.alternatives) else 1
  }

  function ItemsSize(i: Items): nat {
    if i.End? then 0 else 1 + ItemSize(i.head) + ItemsSize(i.tail)
  }

  function ChoiceSize(a: Alternatives): nat {
    if a.Nothing? then 0 else 1 + ItemsSize(a.first) + ChoiceSize(a.others)
  }

  /** Rules only call later ones, so the grammar is not recursive. */
  predicate ItemOk(g: Grammar, r: nat, i: Item)
    decreases i
  {
    match i
    case Expect(_) => true
    case Many(_) => true
    case Call(rule) => r < rule < |g|
    case Maybe(rule) => r < rule < |g|
    case Star(rule) => r < rule < |g|
    case Plus(rule) => r < rule < |g|
    case Choose(alternatives) => ChoiceOk(g, r, alternatives)
  }

  predicate ItemsOk(g: Grammar, r: nat, i: Items)
    decreases i
  {
    i.Then? ==> ItemOk(g, r, i.head) && ItemsOk(g, r, i.tail)
  }

  predicate ChoiceOk(g: Grammar, r: nat, a: Alternatives)
    decreases a
  {
    a.Or? ==> ItemsOk(g, r, a.first) && ChoiceOk(g, r, a.others)
  }

  predicate GrammarOk(g: Grammar) {
    forall r :: 0 <= r < |g| ==> ItemsOk(g, r, g[r])
  }

  /** Parse trees: tokens by position, and rules. */
  datatype Tree = Leaf(position: nat) | Branch(rule: nat, kids: Trees)

  datatype Trees = Nil | Cons(head: Tree, tail: Trees)

  function Append(a: Trees, b: Trees): Trees {
    match a
    case Nil => b
    case Cons(head, tail) => Cons(head, Append(tail, b))
  }

  datatype Parse = Fail | Match(next: nat, trees: Trees)

  function Both(first: Parse, rest: Parse): Parse {
    if first.Match? && rest.Match? then Match(rest.next, Append(first.trees, rest.trees)) else Fail
  }

  // ---------- the meaning of a grammar ----------

  function Token(ts: seq<nat>, token: nat, at: nat): (p: Parse)
    ensures p.Match? ==> at < p.next <= |ts|
  {
    if at < |ts| && ts[at] == token then Match(at + 1, Cons(Leaf(at), Nil)) else Fail
  }

  function ManyTokens(ts: seq<nat>, token: nat, at: nat): (p: Parse)
    requires at <= |ts|
    ensures p.Match? && at <= p.next <= |ts|
    decreases |ts| - at
  {
    var first := Token(ts, token, at);
    if first.Fail? then Match(at, Nil) else Both(first, ManyTokens(ts, token, first.next))
  }

  function ParseRule(g: Grammar, ts: seq<nat>, r: nat, at: nat): (p: Parse)
    requires GrammarOk(g) && r < |g| && at <= |ts|
    ensures p.Match? ==> at <= p.next <= |ts|
    decreases |g| - r, ItemsSize(g[r]) + 1, 0
  {
    var body := ParseItems(g, ts, r, g[r], at);
    if body.Fail? then Fail else Match(body.next, Cons(Branch(r, body.trees), Nil))
  }

  function ParseItems(g: Grammar, ts: seq<nat>, r: nat, i: Items, at: nat): (p: Parse)
    requires GrammarOk(g) && r < |g| && at <= |ts| && ItemsOk(g, r, i)
    ensures p.Match? ==> at <= p.next <= |ts|
    decreases |g| - r, ItemsSize(i), 0
  {
    if i.End? then Match(at, Nil)
    else
      var first := ParseItem(g, ts, r, i.head, at);
      if first.Fail? then Fail else Both(first, ParseItems(g, ts, r, i.tail, first.next))
  }

  function ParseItem(g: Grammar, ts: seq<nat>, r: nat, i: Item, at: nat): (p: Parse)
    requires GrammarOk(g) && r < |g| && at <= |ts| && ItemOk(g, r, i)
    ensures p.Match? ==> at <= p.next <= |ts|
    decreases |g| - r, ItemSize(i), 0
  {
    match i
    case Expect(token) => Token(ts, token, at)
    case Many(token) => ManyTokens(ts, token, at)
    case Call(rule) => ParseRule(g, ts, rule, at)
    case Maybe(rule) =>
      var p := ParseRule(g, ts, rule, at);
      if p.Fail? then Match(at, Nil) else p
    case Star(rule) => ParseStar(g, ts, rule, at)
    case Plus(rule) =>
      var p := ParseStar(g, ts, rule, at);
      if p.next == at then Fail else p
    case Choose(alternatives) => ParseChoice(g, ts, r, alternatives, at)
  }

  function ParseChoice(g: Grammar, ts: seq<nat>, r: nat, a: Alternatives, at: nat): (p: Parse)
    requires GrammarOk(g) && r < |g| && at <= |ts| && ChoiceOk(g, r, a)
    ensures p.Match? ==> at <= p.next <= |ts|
    decreases |g| - r, ChoiceSize(a), 0
  {
    if a.Nothing? then Fail
    else
      var first := ParseItems(g, ts, r, a.first, at);
      if first.Match? then first else ParseChoice(g, ts, r, a.others, at)
  }

  /** A rule as often as it matches; a match of nothing is kept and ends the repetition. */
  function ParseStar(g: Grammar, ts: seq<nat>, r: nat, at: nat): (p: Parse)
    requires GrammarOk(g) && r < |g| && at <= |ts|
    ensures p.Match? && at <= p.next <= |ts|
    decreases |g| - r, ItemsSize(g[r]) + 2, |ts| - at
  {
    var first := ParseRule(g, ts, r, at);
    if first.Fail? then Match(at, Nil)
    else if first.next == at then first
    else Both(first, ParseStar(g, ts, r, first.next))
  }
}
