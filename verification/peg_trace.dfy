/** What happens during a plain parse, abandoned branches included: the most
    nodes there are at once, and whether a watched rule is ever completed. */
module PegTrace {
  import opened PegGrammar
  import opened PegEvents

  function Max(a: nat, b: nat): nat {
    if a > b then a else b
  }

  function TreesOf(p: Parse): Trees {
    if p.Match? then p.trees else Nil
  }

  // ---------- nodes at once ----------

  /** The most nodes a rule adds to those that were there when it began. */
  function PeakRule(g: Grammar, ts: seq<nat>, r: nat, at: nat): nat
    requires GrammarOk(g) && r < |g| && at <= |ts|
    decreases |g| - r, ItemsSize(g[r]) + 1, 0
  {
    1 + PeakItems(g, ts, r, g[r], at)
  }

  function PeakItems(g: Grammar, ts: seq<nat>, r: nat, i: Items, at: nat): nat
    requires GrammarOk(g) && r < |g| && at <= |ts| && ItemsOk(g, r, i)
    decreases |g| - r, ItemsSize(i), 0
  {
    if i.End? then 0
    else
      var first := ParseItem(g, ts, r, i.head, at);
      if first.Fail? then PeakItem(g, ts, r, i.head, at)
      else Max(PeakItem(g, ts, r, i.head, at), Sizes(first.trees) + PeakItems(g, ts, r, i.tail, first.next))
  }

  function PeakItem(g: Grammar, ts: seq<nat>, r: nat, i: Item, at: nat): nat
    requires GrammarOk(g) && r < |g| && at <= |ts| && ItemOk(g, r, i)
    decreases |g| - r, ItemSize(i), 0
  {
    match i
    case Expect(token) => Sizes(TreesOf(Token(ts, token, at)))
    case Many(token) => Sizes(TreesOf(ManyTokens(ts, token, at)))
    case Call(rule) => PeakRule(g, ts, rule, at)
    case Maybe(rule) => PeakRule(g, ts, rule, at)
    case Star(rule) => PeakStar(g, ts, rule, at)
    case Plus(rule) => PeakStar(g, ts, rule, at)
    case Choose(alternatives) => PeakChoice(g, ts, r, alternatives, at)
  }

  function PeakChoice(g: Grammar, ts: seq<nat>, r: nat, a: Alternatives, at: nat): nat
    requires GrammarOk(g) && r < |g| && at <= |ts| && ChoiceOk(g, r, a)
    decreases |g| - r, ChoiceSize(a), 0
  {
    if a.Nothing? then 0
    else
      var first := PeakItems(g, ts, r, a.first, at);
      if ParseItems(g, ts, r, a.first, at).Match? then first else Max(first, PeakChoice(g, ts, r, a.others, at))
  }

  function PeakStar(g: Grammar, ts: seq<nat>, r: nat, at: nat): nat
    requires GrammarOk(g) && r < |g| && at <= |ts|
    decreases |g| - r, ItemsSize(g[r]) + 2, |ts| - at
  {
    var first := ParseRule(g, ts, r, at);
    if first.Fail? || first.next == at then PeakRule(g, ts, r, at)
    else Max(PeakRule(g, ts, r, at), Sizes(first.trees) + PeakStar(g, ts, r, first.next))
  }

  // ---------- completing a rule ----------

  /** Rule `w` is completed at some point while rule `r` is tried. */
  predicate SeesRule(g: Grammar, ts: seq<nat>, w: nat, r: nat, at: nat)
    requires GrammarOk(g) && r < |g| && at <= |ts|
    decreases |g| - r, ItemsSize(g[r]) + 1, 0
  {
    SeesItems(g, ts, w, r, g[r], at) || (r == w && ParseRule(g, ts, r, at).Match?)
  }

  predicate SeesItems(g: Grammar, ts: seq<nat>, w: nat, r: nat, i: Items, at: nat)
    requires GrammarOk(g) && r < |g| && at <= |ts| && ItemsOk(g, r, i)
    decreases |g| - r, ItemsSize(i), 0
  {
    i.Then? &&
    (var first := ParseItem(g, ts, r, i.head, at);
     SeesItem(g, ts, w, r, i.head, at) || (first.Match? && SeesItems(g, ts, w, r, i.tail, first.next)))
  }

  predicate SeesItem(g: Grammar, ts: seq<nat>, w: nat, r: nat, i: Item, at: nat)
    requires GrammarOk(g) && r < |g| && at <= |ts| && ItemOk(g, r, i)
    decreases |g| - r, ItemSize(i), 0
  {
    match i
    case Expect(_) => false
    case Many(_) => false
    case Call(rule) => SeesRule(g, ts, w, rule, at)
    case Maybe(rule) => SeesRule(g, ts, w, rule, at)
    case Star(rule) => SeesStar(g, ts, w, rule, at)
    case Plus(rule) => SeesStar(g, ts, w, rule, at)
    case Choose(alternatives) => SeesChoice(g, ts, w, r, alternatives, at)
  }

  predicate SeesChoice(g: Grammar, ts: seq<nat>, w: nat, r: nat, a: Alternatives, at: nat)
    requires GrammarOk(g) && r < |g| && at <= |ts| && ChoiceOk(g, r, a)
    decreases |g| - r, ChoiceSize(a), 0
  {
    a.Or? &&
    (SeesItems(g, ts, w, r, a.first, at) || (ParseItems(g, ts, r, a.first, at).Fail?
                                             && SeesChoice(g, ts, w, r, a.others, at)))
  }

  predicate SeesStar(g: Grammar, ts: seq<nat>, w: nat, r: nat, at: nat)
    requires GrammarOk(g) && r < |g| && at <= |ts|
    decreases |g| - r, ItemsSize(g[r]) + 2, |ts| - at
  {
    var first := ParseRule(g, ts, r, at);
    SeesRule(g, ts, w, r, at) || (first.Match? && first.next > at && SeesStar(g, ts, w, r, first.next))
  }

  /** A collector with `room` nodes goes through a part of the parse that needs
      `peak` of them and completes the watched rule if `seen`. */
  ghost predicate Told(before: Collected, after: Collected, room: nat, peak: nat, seen: bool) {
    && (!before.overflow && |before.nodes| + peak <= room ==> !after.overflow)
    && (before.overflow ==> after.overflow) && (before.noted ==> after.noted)
    && (!after.overflow ==> (after.noted <==> before.noted || seen))
  }
}
