/** What can be read off a grammar's table about every parse: which rules stand
    below which, and how a tree's size is bounded by the tokens it consumed. */
module PegAnalysis {
  import opened PegGrammar
  import opened PegEvents
  import opened PegTrace

  // ---------- which rules stand below which ----------

  predicate Calls(i: Items, r: nat)
    decreases i
  {
    i.Then? && (CallsItem(i.head, r) || Calls(i.tail, r))
  }

  predicate CallsItem(i: Item, r: nat)
    decreases i
  {
    match i
    case Expect(_) => false
    case Many(_) => false
    case Call(rule) => rule == r
    case Maybe(rule) => rule == r
    case Star(rule) => rule == r
    case Plus(rule) => rule == r
    case Choose(alternatives) => CallsChoice(alternatives, r)
  }

  predicate CallsChoice(a: Alternatives, r: nat)
    decreases a
  {
    a.Or? && (Calls(a.first, r) || CallsChoice(a.others, r))
  }

  /** One step of checking the items, at any of them. */
  lemma {:induction false} ItemsUnfold(g: Grammar, r: nat)
    ensures ItemsOk(g, r, End)
    ensures forall i, b {:trigger ItemsOk(g, r, Then(i, b))} :: ItemsOk(g, r, Then(i, b)) <==>
              ItemOk(g, r, i)
              && ItemsOk(g, r, b)
  {
  }

  /** One step of reading the items, at any of them. */
  lemma {:induction false} CallsUnfold(r: nat)
    ensures forall i, b {:trigger Calls(Then(i, b), r)} :: Calls(Then(i, b), r) <==> CallsItem(i, r) || Calls(b, r)
    ensures !Calls(End, r)
    ensures forall i {:trigger CallsItem(i, r)} ::
              CallsItem(i, r) <==>
              match i
              case Expect(_) => false
              case Many(_) => false
              case Call(rule) => rule == r
              case Maybe(rule) => rule == r
              case Star(rule) => rule == r
              case Plus(rule) => rule == r
              case Choose(alternatives) => CallsChoice(alternatives, r)
  {
  }

  type Rules = nat -> bool

  /** Some rule of the set has to match. */
  predicate Needs(i: Items, c: Rules)
    decreases i
  {
    i.Then? && (NeedsItem(i.head, c) || Needs(i.tail, c))
  }

  predicate NeedsItem(i: Item, c: Rules)
    decreases i
  {
    match i
    case Call(rule) => c(rule)
    case Plus(rule) => c(rule)
    case Choose(alternatives) => alternatives.Or? && NeedsChoice(alternatives, c)
    case _ => false
  }

  predicate NeedsChoice(a: Alternatives, c: Rules)
    decreases a
  {
    a.Or? ==> Needs(a.first, c) && NeedsChoice(a.others, c)
  }

  function CalledBy(i: Items): Rules {
    (r: nat) => Calls(i, r)
  }

  function CalledByItem(i: Item): Rules {
    (r: nat) => CallsItem(i, r)
  }

  function CalledByChoice(a: Alternatives): Rules {
    (r: nat) => CallsChoice(a, r)
  }

  function Just(rule: nat): Rules {
    (r: nat) => r == rule
  }

  function None(): Rules {
    (r: nat) => false
  }

  /** Every top rule of the trees is in the set. */
  predicate TopIn(calls: Rules, ts: Trees) {
    ts.Cons? ==> (ts.head.Branch? ==> calls(ts.head.rule)) && TopIn(calls, ts.tail)
  }

  predicate HasTop(c: Rules, ts: Trees) {
    ts.Cons? && ((ts.head.Branch? && c(ts.head.rule)) || HasTop(c, ts.tail))
  }

  /** Below every rule stand only rules it calls, and one of `c` if it needs one;
      leaves are among the first `n` tokens. */
  predicate Grown(g: Grammar, c: Rules, n: nat, t: Tree) {
    if t.Leaf? then t.position < n
    else
      && t.rule < |g| && TopIn(CalledBy(g[t.rule]), t.kids) && (Needs(g[t.rule], c) ==> HasTop(c, t.kids))
      && GrownAll(g, c, n, t.kids)
  }

  predicate GrownAll(g: Grammar, c: Rules, n: nat, ts: Trees) {
    ts.Cons? ==> Grown(g, c, n, ts.head) && GrownAll(g, c, n, ts.tail)
  }

  lemma {:induction false} GrownAppend(g: Grammar, c: Rules, n: nat, calls: Rules, a: Trees, b: Trees)
    ensures GrownAll(g, c, n, Append(a, b)) <==> GrownAll(g, c, n, a) && GrownAll(g, c, n, b)
    ensures TopIn(calls, Append(a, b)) <==> TopIn(calls, a) && TopIn(calls, b)
    ensures HasTop(c, Append(a, b)) <==> HasTop(c, a) || HasTop(c, b)
    decreases a
  {
    if a.Cons? {
      GrownAppend(g, c, n, calls, a.tail, b);
    }
  }

  lemma {:induction false} TopWiden(calls: Rules, wider: Rules, ts: Trees)
    requires TopIn(calls, ts) && forall r :: calls(r) ==> wider(r)
    ensures TopIn(wider, ts)
  {
    if ts.Cons? {
      TopWiden(calls, wider, ts.tail);
    }
  }

  lemma {:induction false} GrownWiden(g: Grammar, c: Rules, n: nat, m: nat, ts: Trees)
    requires GrownAll(g, c, n, ts) && n <= m
    ensures GrownAll(g, c, m, ts)
    decreases ts
  {
    if ts.Cons? {
      GrownWiden(g, c, n, m, ts.tail);
      if ts.head.Branch? {
        GrownWiden(g, c, n, m, ts.head.kids);
      }
    }
  }

  /** Every parse tree is grown from the table, with the tokens it consumed as its leaves. */
  lemma {:induction false} RuleGrown(g: Grammar, ts: seq<nat>, c: Rules, r: nat, at: nat)
    requires GrammarOk(g) && r < |g| && at <= |ts|
    ensures var p := ParseRule(g, ts, r, at);
            p.Match? ==>
                p.trees.Cons? && p.trees.tail.Nil? && p.trees.head.Branch? && p.trees.head.rule == r
                && GrownAll(g, c, p.next, p.trees)
    decreases |g| - r, ItemsSize(g[r]) + 1, 0
  {
    ItemsGrown(g, ts, c, r, g[r], at);
  }

  lemma {:induction false} ItemsGrown(g: Grammar, ts: seq<nat>, c: Rules, r: nat, i: Items, at: nat)
    requires GrammarOk(g) && r < |g| && at <= |ts| && ItemsOk(g, r, i)
    ensures var p := ParseItems(g, ts, r, i, at);
            p.Match? ==>
                GrownAll(g, c, p.next, p.trees) && TopIn(CalledBy(i), p.trees)
                && (Needs(i, c) ==> HasTop(c, p.trees))
    decreases |g| - r, ItemsSize(i), 0
  {
    if i.Then? {
      var first := ParseItem(g, ts, r, i.head, at);
      ItemGrown(g, ts, c, r, i.head, at);
      if first.Match? {
        var rest := ParseItems(g, ts, r, i.tail, first.next);
        ItemsGrown(g, ts, c, r, i.tail, first.next);
        if rest.Match? {
          TopWiden(CalledByItem(i.head), CalledBy(i), first.trees);
          TopWiden(CalledBy(i.tail), CalledBy(i), rest.trees);
          GrownWiden(g, c, first.next, rest.next, first.trees);
          GrownAppend(g, c, rest.next, CalledBy(i), first.trees, rest.trees);
        }
      }
    }
  }

  lemma {:induction false} ItemGrown(g: Grammar, ts: seq<nat>, c: Rules, r: nat, i: Item, at: nat)
    requires GrammarOk(g) && r < |g| && at <= |ts| && ItemOk(g, r, i)
    ensures var p := ParseItem(g, ts, r, i, at);
            p.Match? ==>
                GrownAll(g, c, p.next, p.trees) && TopIn(CalledByItem(i), p.trees)
                && (NeedsItem(i, c) ==> HasTop(c, p.trees))
    decreases |g| - r, ItemSize(i), 0
  {
    match i
    case Expect(token) =>
    case Many(token) => ManyGrown(g, ts, c, CalledByItem(i), token, at);
    case Call(rule) => RuleGrown(g, ts, c, rule, at);
    case Maybe(rule) => RuleGrown(g, ts, c, rule, at);
    case Star(rule) =>
      StarGrown(g, ts, c, rule, at);
      TopWiden(Just(rule), CalledByItem(i), ParseStar(g, ts, rule, at).trees);
    case Plus(rule) =>
      StarGrown(g, ts, c, rule, at);
      TopWiden(Just(rule), CalledByItem(i), ParseStar(g, ts, rule, at).trees);
    case Choose(alternatives) =>
      ChoiceGrown(g, ts, c, r, alternatives, at);
      if ParseChoice(g, ts, r, alternatives, at).Match? {
        TopWiden(CalledByChoice(alternatives), CalledByItem(i), ParseChoice(g, ts, r, alternatives, at).trees);
      }
  }

  lemma {:induction false} ManyGrown(g: Grammar, ts: seq<nat>, c: Rules, calls: Rules, token: nat, at: nat)
    requires at <= |ts|
    ensures var p := ManyTokens(ts, token, at); GrownAll(g, c, p.next, p.trees) && TopIn(calls, p.trees)
    decreases |ts| - at
  {
    var first := Token(ts, token, at);
    if first.Match? {
      ManyGrown(g, ts, c, calls, token, first.next);
      var rest := ManyTokens(ts, token, first.next);
      GrownWiden(g, c, first.next, rest.next, first.trees);
      GrownAppend(g, c, rest.next, calls, first.trees, rest.trees);
    }
  }

  lemma {:induction false} ChoiceGrown(g: Grammar, ts: seq<nat>, c: Rules, r: nat, a: Alternatives, at: nat)
    requires GrammarOk(g) && r < |g| && at <= |ts| && ChoiceOk(g, r, a)
    ensures var p := ParseChoice(g, ts, r, a, at);
            p.Match? ==>
              a.Or? && GrownAll(g, c, p.next, p.trees) && TopIn(CalledByChoice(a), p.trees)
                  && (NeedsChoice(a, c) ==> HasTop(c, p.trees))
    decreases |g| - r, ChoiceSize(a), 0
  {
    if a.Or? {
      var first := ParseItems(g, ts, r, a.first, at);
      ItemsGrown(g, ts, c, r, a.first, at);
      if first.Match? {
        TopWiden(CalledBy(a.first), CalledByChoice(a), first.trees);
      } else {
        ChoiceGrown(g, ts, c, r, a.others, at);
        var p := ParseChoice(g, ts, r, a.others, at);
        if p.Match? {
          TopWiden(CalledByChoice(a.others), CalledByChoice(a), p.trees);
        }
      }
    }
  }

  lemma {:induction false} StarGrown(g: Grammar, ts: seq<nat>, c: Rules, r: nat, at: nat)
    requires GrammarOk(g) && r < |g| && at <= |ts|
    ensures var p := ParseStar(g, ts, r, at);
            GrownAll(g, c, p.next, p.trees) && TopIn(Just(r), p.trees) && (p.next > at && c(r) ==> HasTop(c, p.trees))
    decreases |g| - r, ItemsSize(g[r]) + 2, |ts| - at
  {
    var first := ParseRule(g, ts, r, at);
    RuleGrown(g, ts, c, r, at);
    if first.Match? && first.next > at {
      StarGrown(g, ts, c, r, first.next);
      var rest := ParseStar(g, ts, r, first.next);
      GrownWiden(g, c, first.next, rest.next, first.trees);
      GrownAppend(g, c, rest.next, Just(r), first.trees, rest.trees);
    }
  }

  /** A rule that is another rule and a token: its tree has that rule's tree and
      the token below it. */
  lemma {:induction false} RuleAndToken(g: Grammar, ts: seq<nat>, c: Rules, r: nat, rule: nat, token: nat, at: nat)
    requires GrammarOk(g) && r < rule < |g| && at <= |ts| && g[r] == Then(Call(rule), Then(Expect(token), End))
    ensures var p := ParseRule(g, ts, r, at); var first := ParseRule(g, ts, rule, at);
            p.Match? ==>
              && first.Match? && first.next < |ts| && ts[first.next] == token && p.next == first.next + 1
              && first.trees.Cons? && first.trees.tail.Nil? && GrownAll(g, c, first.next, first.trees)
              && p.trees == Cons(Branch(r, Cons(first.trees.head, Cons(Leaf(first.next), Nil))), Nil)
  {
    RuleGrown(g, ts, c, rule, at);
    var rest := Then(Expect(token), End);
    assert ItemsOk(g, r, g[r]) && ItemsOk(g, r, rest);
    var first := ParseRule(g, ts, rule, at);
    assert ParseItem(g, ts, r, Call(rule), at) == first;
    if first.Match? {
      var last := Token(ts, token, first.next);
      assert ParseItem(g, ts, r, Expect(token), first.next) == last;
      if last.Match? {
        assert ParseItems(g, ts, r, End, last.next) == Match(last.next, Nil);
        assert Append(last.trees, Nil) == last.trees by { assert Append(Nil, Nil) == Nil; }
      }
      assert ParseItems(g, ts, r, rest, first.next) == if last.Match? then Match(last.next, last.trees) else Fail;
      assert ParseItems(g, ts, r, g[r], at) == if last.Match? then Match(last.next, Append(first.trees, last.trees))
        else Fail;
      assert last.Match? ==> Append(first.trees, last.trees) == Cons(first.trees.head, last.trees);
    }
  }

  // ---------- a rule that was not completed is not in the tree ----------

  predicate Absent(w: nat, t: Tree) {
    t.Branch? ==> t.rule != w && AbsentAll(w, t.kids)
  }

  predicate AbsentAll(w: nat, ts: Trees) {
    ts.Cons? ==> Absent(w, ts.head) && AbsentAll(w, ts.tail)
  }

  lemma {:induction false} AbsentAppend(w: nat, a: Trees, b: Trees)
    ensures AbsentAll(w, Append(a, b)) <==> AbsentAll(w, a) && AbsentAll(w, b)
    decreases a
  {
    if a.Cons? {
      AbsentAppend(w, a.tail, b);
    }
  }

  lemma {:induction false} UnseenRule(g: Grammar, ts: seq<nat>, w: nat, r: nat, at: nat)
    requires GrammarOk(g) && r < |g| && at <= |ts| && !SeesRule(g, ts, w, r, at)
    ensures ParseRule(g, ts, r, at).Match? ==> AbsentAll(w, ParseRule(g, ts, r, at).trees)
    decreases |g| - r, ItemsSize(g[r]) + 1, 0
  {
    UnseenItems(g, ts, w, r, g[r], at);
  }

  lemma {:induction false} UnseenItems(g: Grammar, ts: seq<nat>, w: nat, r: nat, i: Items, at: nat)
    requires GrammarOk(g) && r < |g| && at <= |ts| && ItemsOk(g, r, i) && !SeesItems(g, ts, w, r, i, at)
    ensures ParseItems(g, ts, r, i, at).Match? ==> AbsentAll(w, ParseItems(g, ts, r, i, at).trees)
    decreases |g| - r, ItemsSize(i), 0
  {
    if i.Then? {
      var first := ParseItem(g, ts, r, i.head, at);
      UnseenItem(g, ts, w, r, i.head, at);
      if first.Match? {
        UnseenItems(g, ts, w, r, i.tail, first.next);
        var rest := ParseItems(g, ts, r, i.tail, first.next);
        if rest.Match? {
          AbsentAppend(w, first.trees, rest.trees);
        }
      }
    }
  }

  lemma {:induction false} UnseenItem(g: Grammar, ts: seq<nat>, w: nat, r: nat, i: Item, at: nat)
    requires GrammarOk(g) && r < |g| && at <= |ts| && ItemOk(g, r, i) && !SeesItem(g, ts, w, r, i, at)
    ensures ParseItem(g, ts, r, i, at).Match? ==> AbsentAll(w, ParseItem(g, ts, r, i, at).trees)
    decreases |g| - r, ItemSize(i), 0
  {
    match i
    case Expect(token) =>
    case Many(token) => UnseenMany(ts, w, token, at);
    case Call(rule) => UnseenRule(g, ts, w, rule, at);
    case Maybe(rule) => UnseenRule(g, ts, w, rule, at);
    case Star(rule) => UnseenStar(g, ts, w, rule, at);
    case Plus(rule) => UnseenStar(g, ts, w, rule, at);
    case Choose(alternatives) => UnseenChoice(g, ts, w, r, alternatives, at);
  }

  lemma {:induction false} UnseenMany(ts: seq<nat>, w: nat, token: nat, at: nat)
    requires at <= |ts|
    ensures AbsentAll(w, ManyTokens(ts, token, at).trees)
    decreases |ts| - at
  {
    var first := Token(ts, token, at);
    if first.Match? {
      UnseenMany(ts, w, token, first.next);
      AbsentAppend(w, first.trees, ManyTokens(ts, token, first.next).trees);
    }
  }

  lemma {:induction false} UnseenChoice(g: Grammar, ts: seq<nat>, w: nat, r: nat, a: Alternatives, at: nat)
    requires GrammarOk(g) && r < |g| && at <= |ts| && ChoiceOk(g, r, a) && !SeesChoice(g, ts, w, r, a, at)
    ensures ParseChoice(g, ts, r, a, at).Match? ==> AbsentAll(w, ParseChoice(g, ts, r, a, at).trees)
    decreases |g| - r, ChoiceSize(a), 0
  {
    if a.Or? {
      UnseenItems(g, ts, w, r, a.first, at);
      if ParseItems(g, ts, r, a.first, at).Fail? {
        UnseenChoice(g, ts, w, r, a.others, at);
      }
    }
  }

  lemma {:induction false} UnseenStar(g: Grammar, ts: seq<nat>, w: nat, r: nat, at: nat)
    requires GrammarOk(g) && r < |g| && at <= |ts| && !SeesStar(g, ts, w, r, at)
    ensures AbsentAll(w, ParseStar(g, ts, r, at).trees)
    decreases |g| - r, ItemsSize(g[r]) + 2, |ts| - at
  {
    var first := ParseRule(g, ts, r, at);
    UnseenRule(g, ts, w, r, at);
    if first.Match? && first.next > at {
      UnseenStar(g, ts, w, r, first.next);
      AbsentAppend(w, first.trees, ParseStar(g, ts, r, first.next).trees);
    }
  }

  // ---------- tokens pay for trees ----------

  /** Every token is worth `weight`; a leaf and a rule's node have their price;
      after a rule is paid at least `left` remains. */
  datatype Tariff = Tariff(weight: nat, leaf: nat, own: nat -> nat, left: nat -> int)

  function Cost(f: Tariff, t: Tree): nat {
    if t.Leaf? then f.leaf else f.own(t.rule) + CostAll(f, t.kids)
  }

  function CostAll(f: Tariff, ts: Trees): nat {
    if ts.Nil? then 0 else Cost(f, ts.head) + CostAll(f, ts.tail)
  }

  lemma {:induction false} CostAppend(f: Tariff, a: Trees, b: Trees)
    ensures CostAll(f, Append(a, b)) == CostAll(f, a) + CostAll(f, b)
    decreases a
  {
    if a.Cons? {
      CostAppend(f, a.tail, b);
    }
  }

  function Least(a: int, b: int): int {
    if a < b then a else b
  }

  /** What remains at least once the items are paid. */
  function Left(f: Tariff, i: Items): int
    decreases i
  {
    if i.End? then 0 else LeftItem(f, i.head) + Left(f, i.tail)
  }

  function LeftItem(f: Tariff, i: Item): int
    decreases i
  {
    match i
    case Expect(_) => f.weight - f.leaf
    case Many(_) => 0
    case Call(rule) => f.left(rule)
    case Maybe(rule) => Least(f.left(rule), 0)
    case Star(_) => 0
    case Plus(_) => 0
    case Choose(alternatives) => LeftChoice(f, alternatives)
  }

  function LeftChoice(f: Tariff, a: Alternatives): int
    decreases a
  {
    if a.Nothing? then 0
    else if a.others.Nothing? then Left(f, a.first)
    else Least(Left(f, a.first), LeftChoice(f, a.others))
  }

  /** Repeated rules pay for themselves. */
  predicate Steady(f: Tariff, i: Items)
    decreases i
  {
    i.Then? ==> SteadyItem(f, i.head) && Steady(f, i.tail)
  }

  predicate SteadyItem(f: Tariff, i: Item)
    decreases i
  {
    match i
    case Star(rule) => f.left(rule) >= 0
    case Plus(rule) => f.left(rule) >= 0
    case Choose(alternatives) => SteadyChoice(f, alternatives)
    case _ => true
  }

  predicate SteadyChoice(f: Tariff, a: Alternatives)
    decreases a
  {
    a.Or? ==> Steady(f, a.first) && SteadyChoice(f, a.others)
  }

  /** Every rule of the table pays for itself. */
  ghost predicate Pays(f: Tariff, g: Grammar) {
    f.leaf <= f.weight && forall r: nat {:trigger g[r]} :: r < |g| ==>
        f.own(r) + f.left(r) <= Left(f, g[r])
        && Steady(f, g[r])
  }

  /** The tokens from `at` on pay for the trees and leave `left`. */
  predicate Paid(f: Tariff, p: Parse, at: nat, left: int) {
    p.Match? ==> at <= p.next && CostAll(f, p.trees) + left <= f.weight * (p.next - at)
  }

  lemma {:induction false} PaidBoth(f: Tariff, p: Parse, q: Parse, at: nat, left: int, left': int)
    requires p.Match? && Paid(f, p, at, left) && Paid(f, q, p.next, left')
    ensures Paid(f, Both(p, q), at, left + left')
  {
    if q.Match? {
      CostAppend(f, p.trees, q.trees);
      assert f.weight * (q.next - at) == f.weight * (p.next - at) + f.weight * (q.next - p.next);
    }
  }

  lemma {:induction false} RulePaid(g: Grammar, ts: seq<nat>, f: Tariff, r: nat, at: nat)
    requires GrammarOk(g) && Pays(f, g) && r < |g| && at <= |ts|
    ensures Paid(f, ParseRule(g, ts, r, at), at, f.left(r))
    decreases |g| - r, ItemsSize(g[r]) + 1, 0
  {
    ItemsPaid(g, ts, f, r, g[r], at);
  }

  lemma {:induction false} ItemsPaid(g: Grammar, ts: seq<nat>, f: Tariff, r: nat, i: Items, at: nat)
    requires GrammarOk(g) && Pays(f, g) && r < |g| && at <= |ts| && ItemsOk(g, r, i) && Steady(f, i)
    ensures Paid(f, ParseItems(g, ts, r, i, at), at, Left(f, i))
    decreases |g| - r, ItemsSize(i), 0
  {
    if i.Then? {
      var first := ParseItem(g, ts, r, i.head, at);
      ItemPaid(g, ts, f, r, i.head, at);
      if first.Match? {
        ItemsPaid(g, ts, f, r, i.tail, first.next);
        PaidBoth(f, first, ParseItems(g, ts, r, i.tail, first.next), at, LeftItem(f, i.head), Left(f, i.tail));
      }
    }
  }

  lemma {:induction false} ItemPaid(g: Grammar, ts: seq<nat>, f: Tariff, r: nat, i: Item, at: nat)
    requires GrammarOk(g) && Pays(f, g) && r < |g| && at <= |ts| && ItemOk(g, r, i) && SteadyItem(f, i)
    ensures Paid(f, ParseItem(g, ts, r, i, at), at, LeftItem(f, i))
    decreases |g| - r, ItemSize(i), 0
  {
    match i
    case Expect(token) => TokenPaid(ts, f, token, at);
    case Many(token) => ManyPaid(ts, f, token, at);
    case Call(rule) => RulePaid(g, ts, f, rule, at);
    case Maybe(rule) => RulePaid(g, ts, f, rule, at);
    case Star(rule) => StarPaid(g, ts, f, rule, at);
    case Plus(rule) => StarPaid(g, ts, f, rule, at);
    case Choose(alternatives) => ChoicePaid(g, ts, f, r, alternatives, at);
  }

  lemma {:induction false} TokenPaid(ts: seq<nat>, f: Tariff, token: nat, at: nat)
    ensures Paid(f, Token(ts, token, at), at, f.weight - f.leaf)
  {
    var p := Token(ts, token, at);
    if p.Match? {
      assert CostAll(f, p.trees) == f.leaf && f.weight * (p.next - at) == f.weight;
    }
  }

  lemma {:induction false} ManyPaid(ts: seq<nat>, f: Tariff, token: nat, at: nat)
    requires at <= |ts| && f.leaf <= f.weight
    ensures Paid(f, ManyTokens(ts, token, at), at, 0)
    decreases |ts| - at
  {
    var first := Token(ts, token, at);
    if first.Match? {
      TokenPaid(ts, f, token, at);
      ManyPaid(ts, f, token, first.next);
      PaidBoth(f, first, ManyTokens(ts, token, first.next), at, 0, 0);
    }
  }

  lemma {:induction false} ChoicePaid(g: Grammar, ts: seq<nat>, f: Tariff, r: nat, a: Alternatives, at: nat)
    requires GrammarOk(g) && Pays(f, g) && r < |g| && at <= |ts| && ChoiceOk(g, r, a) && SteadyChoice(f, a)
    ensures Paid(f, ParseChoice(g, ts, r, a, at), at, LeftChoice(f, a))
    decreases |g| - r, ChoiceSize(a), 0
  {
    if a.Or? {
      ItemsPaid(g, ts, f, r, a.first, at);
      if ParseItems(g, ts, r, a.first, at).Fail? {
        ChoicePaid(g, ts, f, r, a.others, at);
      }
    }
  }

  lemma {:induction false} StarPaid(g: Grammar, ts: seq<nat>, f: Tariff, r: nat, at: nat)
    requires GrammarOk(g) && Pays(f, g) && r < |g| && at <= |ts| && f.left(r) >= 0
    ensures Paid(f, ParseStar(g, ts, r, at), at, 0)
    decreases |g| - r, ItemsSize(g[r]) + 2, |ts| - at
  {
    var first := ParseRule(g, ts, r, at);
    RulePaid(g, ts, f, r, at);
    if first.Match? && first.next > at {
      StarPaid(g, ts, f, r, first.next);
      PaidBoth(f, first, ParseStar(g, ts, r, first.next), at, 0, 0);
    }
  }

  /** One step of adding up what remains and what is exceeded, at any of the items. */
  lemma {:induction false} CostsUnfold(f: Tariff, h: nat -> int)
    ensures Left(f, End) == 0 && Excess(f, h, End) == 0 && Steady(f, End)
    ensures forall i, b {:trigger Left(f, Then(i, b))} :: Left(f, Then(i, b)) == LeftItem(f, i) + Left(f, b)
    ensures forall i, b {:trigger Excess(f, h, Then(i, b))} ::
              Excess(f, h, Then(i, b)) == Most(ExcessItem(f, h, i), Excess(f, h, b) - LeftItem(f, i))
    ensures forall i, b {:trigger Steady(f, Then(i, b))} :: Steady(f, Then(i, b)) <==> SteadyItem(f, i) && Steady(f, b)
  {
  }

  // ---------- the most nodes at once ----------

  function Most(a: int, b: int): int {
    if a > b then a else b
  }

  /** What the nodes of a rule's body may exceed the worth of the remaining tokens by. */
  function Excess(f: Tariff, h: nat -> int, i: Items): int
    decreases i
  {
    if i.End? then 0 else Most(ExcessItem(f, h, i.head), Excess(f, h, i.tail) - LeftItem(f, i.head))
  }

  function ExcessItem(f: Tariff, h: nat -> int, i: Item): int
    decreases i
  {
    match i
    case Expect(_) => 0
    case Many(_) => 0
    case Call(rule) => h(rule)
    case Maybe(rule) => h(rule)
    case Star(rule) => h(rule)
    case Plus(rule) => h(rule)
    case Choose(alternatives) => ExcessChoice(f, h, alternatives)
  }

  function ExcessChoice(f: Tariff, h: nat -> int, a: Alternatives): int
    decreases a
  {
    if a.Nothing? then 0 else Most(Excess(f, h, a.first), ExcessChoice(f, h, a.others))
  }

  /** Every node costs one, and a rule exceeds by at most `h`. */
  ghost predicate Bounds(f: Tariff, h: nat -> int, g: Grammar) {
    f.leaf == 1 <= f.weight && forall r: nat {:trigger g[r]} :: r < |g| ==>
        f.own(r) == 1
        && 1 + Excess(f, h, g[r]) <= h(r)
  }

  lemma {:induction false} SizeIsCost(g: Grammar, c: Rules, n: nat, f: Tariff, h: nat -> int, t: Tree)
    requires Bounds(f, h, g) && Grown(g, c, n, t)
    ensures Size(t) == Cost(f, t)
    decreases t
  {
    if t.Branch? {
      var body := g[t.rule];
      SizesAreCost(g, c, n, f, h, t.kids);
    }
  }

  lemma {:induction false} SizesAreCost(g: Grammar, c: Rules, n: nat, f: Tariff, h: nat -> int, ts: Trees)
    requires Bounds(f, h, g) && GrownAll(g, c, n, ts)
    ensures Sizes(ts) == CostAll(f, ts)
    decreases ts
  {
    if ts.Cons? {
      SizeIsCost(g, c, n, f, h, ts.head);
      SizesAreCost(g, c, n, f, h, ts.tail);
    }
  }

  /** The worth of the tokens from `at` on. */
  function Worth(f: Tariff, ts: seq<nat>, at: nat): int {
    f.weight * (|ts| - at)
  }

  /** Trees already paid leave room for what follows them. */
  lemma {:induction false} Onwards(g: Grammar, ts: seq<nat>, f: Tariff, h: nat -> int, p: Parse, at: nat, left: int,
                                   peak: int, excess: int)
    requires Bounds(f, h, g) && p.Match? && GrownAll(g, None(), p.next, p.trees) && Paid(f, p, at, left)
    requires p.next <= |ts| && peak <= Worth(f, ts, p.next) + excess
    ensures Sizes(p.trees) + peak <= Worth(f, ts, at) + excess - left
  {
    SizesAreCost(g, None(), p.next, f, h, p.trees);
    assert f.weight * (|ts| - at) == f.weight * (p.next - at) + f.weight * (|ts| - p.next);
  }

  lemma {:induction false} RulePeak(g: Grammar, ts: seq<nat>, f: Tariff, h: nat -> int, r: nat, at: nat)
    requires GrammarOk(g) && Pays(f, g) && Bounds(f, h, g) && r < |g| && at <= |ts|
    ensures PeakRule(g, ts, r, at) <= Worth(f, ts, at) + h(r)
    decreases |g| - r, ItemsSize(g[r]) + 1, 0
  {
    ItemsPeak(g, ts, f, h, r, g[r], at);
  }

  lemma {:induction false} ItemsPeak(g: Grammar, ts: seq<nat>, f: Tariff, h: nat -> int, r: nat, i: Items, at: nat)
    requires GrammarOk(g) && Pays(f, g) && Bounds(f, h, g) && r < |g| && at <= |ts| && ItemsOk(g, r, i) && Steady(f, i)
    ensures PeakItems(g, ts, r, i, at) <= Worth(f, ts, at) + Excess(f, h, i)
    decreases |g| - r, ItemsSize(i), 0
  {
    WorthPositive(f, ts, at);
    if i.Then? {
      var first := ParseItem(g, ts, r, i.head, at);
      ItemPeak(g, ts, f, h, r, i.head, at);
      if first.Match? {
        ItemPaid(g, ts, f, r, i.head, at);
        ItemGrown(g, ts, None(), r, i.head, at);
        ItemsPeak(g, ts, f, h, r, i.tail, first.next);
        Onwards(g, ts, f, h, first, at, LeftItem(f, i.head), PeakItems(g, ts, r, i.tail, first.next),
                Excess(f, h, i.tail));
      }
    }
  }

  lemma {:induction false} WorthPositive(f: Tariff, ts: seq<nat>, at: nat)
    requires at <= |ts|
    ensures Worth(f, ts, at) >= 0
  {
  }

  lemma {:induction false} ItemPeak(g: Grammar, ts: seq<nat>, f: Tariff, h: nat -> int, r: nat, i: Item, at: nat)
    requires GrammarOk(g) && Pays(f, g) && Bounds(f, h, g) && r < |g| && at <= |ts| && ItemOk(g, r, i)
    requires SteadyItem(f, i)
    ensures PeakItem(g, ts, r, i, at) <= Worth(f, ts, at) + ExcessItem(f, h, i)
    decreases |g| - r, ItemSize(i), 0
  {
    match i
    case Expect(token) => TokensPeak(g, ts, f, h, Token(ts, token, at), at) by { TokenPaid(ts, f, token, at); }
    case Many(token) =>
      ManyPaid(ts, f, token, at);
      ManyGrown(g, ts, None(), None(), token, at);
      TokensPeak(g, ts, f, h, ManyTokens(ts, token, at), at);
    case Call(rule) => RulePeak(g, ts, f, h, rule, at);
    case Maybe(rule) => RulePeak(g, ts, f, h, rule, at);
    case Star(rule) => StarPeak(g, ts, f, h, rule, at);
    case Plus(rule) => StarPeak(g, ts, f, h, rule, at);
    case Choose(alternatives) => ChoicePeak(g, ts, f, h, r, alternatives, at);
  }

  lemma {:induction false} TokensPeak(g: Grammar, ts: seq<nat>, f: Tariff, h: nat -> int, p: Parse, at: nat)
    requires Bounds(f, h, g) && at <= |ts| && Paid(f, p, at, 0)
    requires (p.Match? ==> p.next <= |ts| && GrownAll(g, None(), p.next, p.trees))
    ensures Sizes(TreesOf(p)) <= Worth(f, ts, at)
  {
    WorthPositive(f, ts, at);
    if p.Match? {
      WorthPositive(f, ts, p.next);
      Onwards(g, ts, f, h, p, at, 0, 0, 0);
    }
  }

  lemma {:induction false} ChoicePeak(g: Grammar, ts: seq<nat>, f: Tariff, h: nat -> int, r: nat, a: Alternatives,
                                      at: nat)
    requires GrammarOk(g) && Pays(f, g) && Bounds(f, h, g) && r < |g| && at <= |ts| && ChoiceOk(g, r, a)
    requires SteadyChoice(f, a)
    ensures PeakChoice(g, ts, r, a, at) <= Worth(f, ts, at) + ExcessChoice(f, h, a)
    decreases |g| - r, ChoiceSize(a), 0
  {
    WorthPositive(f, ts, at);
    if a.Or? {
      ItemsPeak(g, ts, f, h, r, a.first, at);
      ChoicePeak(g, ts, f, h, r, a.others, at);
    }
  }

  lemma {:induction false} StarPeak(g: Grammar, ts: seq<nat>, f: Tariff, h: nat -> int, r: nat, at: nat)
    requires GrammarOk(g) && Pays(f, g) && Bounds(f, h, g) && r < |g| && at <= |ts| && f.left(r) >= 0
    ensures PeakStar(g, ts, r, at) <= Worth(f, ts, at) + h(r)
    decreases |g| - r, ItemsSize(g[r]) + 2, |ts| - at
  {
    var first := ParseRule(g, ts, r, at);
    RulePeak(g, ts, f, h, r, at);
    if first.Match? && first.next > at {
      RulePaid(g, ts, f, r, at);
      RuleGrown(g, ts, None(), r, at);
      StarPeak(g, ts, f, h, r, first.next);
      Onwards(g, ts, f, h, first, at, f.left(r), PeakStar(g, ts, r, first.next), h(r));
    }
  }
}
