/** Syntax trees of parsed patterns have the shape that lowering relies on, and
    their code and nodes are bounded by the pattern's tokens. */
module BreParsed {
  import opened Folding
  import opened PegGrammar
  import opened PegTrace
  import opened PegAnalysis
  import opened PegSyntax
  import opened BreGrammar
  import opened BreGrammarFacts
  import Events = PegEvents
  import opened BreProgram
  import opened BreSyntax
  import opened BreLayout

  /** Every rule's node has a kind that fits its role. */
  ghost predicate Fitting(name: Naming) {
    forall r: nat, i: nat {:trigger name(r, i)} :: Fits(RoleOf(r), name(r, i))
  }

  /** Below a rule's node stand rules it calls, and a bearing one if it needs one.
      The statement is kept folded until `Below` is asked for it. */
  ghost predicate Seated(r: nat, kids: Trees) {
    forall k: nat {:trigger Shown(k)} :: Shown(k) ==>
      r < RULES && TopIn(CalledBy(Body(r)), kids) && (Needs(Body(r), Bearing()) ==> HasTop(Bearing(), kids))
  }

  ghost predicate Ours(t: PegGrammar.Tree) {
    t.Branch? ==> Seated(t.rule, t.kids) && AllOurs(t.kids)
  }

  ghost predicate AllOurs(ts: Trees) {
    ts.Cons? ==> Ours(ts.head) && AllOurs(ts.tail)
  }

  /** What stands directly below a rule's node. */
  lemma {:induction false} Below(t: PegGrammar.Tree)
    requires Ours(t) && t.Branch?
    ensures t.rule < RULES && AllOurs(t.kids) && TopIn(CalledBy(Body(t.rule)), t.kids)
    ensures Needs(Body(t.rule), Bearing()) ==> HasTop(Bearing(), t.kids)
  {
    assert Shown(0);
  }

  lemma {:induction false} GrownOurs(n: nat, ts: Trees)
    requires GrownAll(Table(), Bearing(), n, ts)
    ensures AllOurs(ts)
    decreases ts
  {
    if ts.Cons? {
      GrownOurs(n, ts.tail);
      if ts.head.Branch? {
        GrownOurs(n, ts.head.kids);
        assert Seated(ts.head.rule, ts.head.kids);
      }
    }
  }

  // ---------- nothing lowers below quiet rules ----------

  lemma {:induction false} QuietInert(name: Naming, ts: Trees, at: nat)
    requires Fitting(name) && AllOurs(ts) && TopIn(Quiet(), ts)
    ensures BreSyntax.Inert(Shapes(name, ts, at))
    decreases ts
  {
    if ts.Cons? {
      QuietInert(name, ts.tail, at + Events.Size(ts.head));
      if ts.head.Branch? {
        Below(ts.head);
        QuietBelow(ts.head.rule, ts.head.kids);
        QuietInert(name, ts.head.kids, at + 1);
        assert Fits(RoleOf(ts.head.rule), name(ts.head.rule, at));
      }
    }
  }

  lemma {:induction false} QuietBelow(r: nat, ts: Trees)
    requires r < RULES && TopIn(CalledBy(Body(r)), ts)
    requires (Quiet()(r) || RoleOf(r).Single? || RoleOf(r).Bracket? || RoleOf(r).Refused?)
    ensures TopIn(Quiet(), ts)
  {
    if ts.Cons? {
      QuietBelow(r, ts.tail);
      if ts.head.Branch? {
        QuietCalls(r, ts.head.rule);
      }
    }
  }

  // ---------- no loop below loop-free rules ----------

  lemma {:induction false} LoopFreeBare(name: Naming, ts: Trees, at: nat)
    requires Fitting(name) && AllOurs(ts) && TopIn(LoopFree(), ts)
    ensures NoBareLoop(Shapes(name, ts, at))
    decreases ts
  {
    if ts.Cons? {
      LoopFreeBare(name, ts.tail, at + Events.Size(ts.head));
      if ts.head.Branch? {
        var r := ts.head.rule;
        assert Fits(RoleOf(r), name(r, at));
        if !RoleOf(r).Grouping? {
          Below(ts.head);
          LoopFreeBelow(r, ts.head.kids);
          LoopFreeBare(name, ts.head.kids, at + 1);
        }
      }
    }
  }

  lemma {:induction false} LoopFreeBelow(r: nat, ts: Trees)
    requires r < RULES && TopIn(CalledBy(Body(r)), ts) && (LoopFree()(r) || RoleOf(r).Repeatable?)
    requires !RoleOf(r).Grouping?
    ensures TopIn(LoopFree(), ts)
  {
    if ts.Cons? {
      LoopFreeBelow(r, ts.tail);
      if ts.head.Branch? {
        LoopFreeCalls(r, ts.head.rule);
      }
    }
  }

  // ---------- the shape ----------

  lemma {:induction false} ParsedShape(name: Naming, t: PegGrammar.Tree, at: nat)
    requires Fitting(name) && Ours(t)
    ensures ShapeOk(Shape(name, t, at))
    decreases t
  {
    if t.Branch? {
      var r := t.rule;
      var kids := Shapes(name, t.kids, at + 1);
      Below(t);
      ParsedShapes(name, t.kids, at + 1);
      assert Fits(RoleOf(r), name(r, at));
      if RoleOf(r).Single? || RoleOf(r).Bracket? || RoleOf(r).Repeating? {
        QuietBelow(r, t.kids);
        QuietInert(name, t.kids, at + 1);
      } else if RoleOf(r).Repeatable? {
        LoopFreeBelow(r, t.kids);
        LoopFreeBare(name, t.kids, at + 1);
        QuantifierFits(name, t.kids, at + 1);
      }
    }
  }

  lemma {:induction false} ParsedShapes(name: Naming, ts: Trees, at: nat)
    requires Fitting(name) && AllOurs(ts)
    ensures ShapesOk(Shapes(name, ts, at))
    decreases ts
  {
    if ts.Cons? {
      ParsedShape(name, ts.head, at);
      ParsedShapes(name, ts.tail, at + Events.Size(ts.head));
    }
  }

  lemma {:induction false} QuantifierFits(name: Naming, ts: Trees, at: nat)
    requires Fitting(name)
    ensures var q := QuantifierOf(Shapes(name, ts, at)); q.Quantifier? ==> q.min <= q.max <= NONE && q.min <= MAX_REPEAT
    decreases ts
  {
    if ts.Cons? {
      QuantifierFits(name, ts.tail, at + Events.Size(ts.head));
      if ts.head.Branch? {
        assert Fits(RoleOf(ts.head.rule), name(ts.head.rule, at));
      }
    }
  }

  // ---------- repeated pieces have something to repeat ----------

  lemma {:induction false} BearingLowers(name: Naming, t: PegGrammar.Tree, at: nat)
    requires Fitting(name) && Ours(t) && t.Branch? && Bearing()(t.rule) && Absent(DEPTH_OVERFLOW, t)
    requires Supported(Shape(name, t, at))
    ensures Lowers(Shape(name, t, at))
    decreases t
  {
    var r := t.rule;
    assert Fits(RoleOf(r), name(r, at));
    if RoleOf(r).Silent? {
      Below(t);
      BearingNeeds(r);
      BearingLowersAny(name, t.kids, at + 1);
    }
  }

  lemma {:induction false} BearingLowersAny(name: Naming, ts: Trees, at: nat)
    requires Fitting(name) && AllOurs(ts) && HasTop(Bearing(), ts) && AbsentAll(DEPTH_OVERFLOW, ts)
    requires SupportedAll(Shapes(name, ts, at))
    ensures LowersAny(Shapes(name, ts, at))
    decreases ts
  {
    if ts.head.Branch? && Bearing()(ts.head.rule) {
      BearingLowers(name, ts.head, at);
    } else {
      BearingLowersAny(name, ts.tail, at + Events.Size(ts.head));
    }
  }

  lemma {:induction false} ParsedBodied(name: Naming, t: PegGrammar.Tree, at: nat)
    requires Fitting(name) && Ours(t) && Absent(DEPTH_OVERFLOW, t) && Supported(Shape(name, t, at))
    ensures Bodied(Shape(name, t, at))
    decreases t
  {
    if t.Branch? {
      var r := t.rule;
      Below(t);
      ParsedBodiedAll(name, t.kids, at + 1);
      assert Fits(RoleOf(r), name(r, at));
      if RoleOf(r).Repeatable? {
        BearingNeeds(r);
        BearingLowersAny(name, t.kids, at + 1);
      }
    }
  }

  lemma {:induction false} ParsedBodiedAll(name: Naming, ts: Trees, at: nat)
    requires Fitting(name) && AllOurs(ts) && AbsentAll(DEPTH_OVERFLOW, ts) && SupportedAll(Shapes(name, ts, at))
    ensures BodiedAll(Shapes(name, ts, at))
    decreases ts
  {
    if ts.Cons? {
      ParsedBodied(name, ts.head, at);
      ParsedBodiedAll(name, ts.tail, at + Events.Size(ts.head));
    }
  }

  // ---------- groups nest at most nine deep ----------

  function NestedWithin(d: int): Rules {
    (r: nat) => Nesting(r) <= d
  }

  lemma {:induction false} ParsedNesting(name: Naming, t: PegGrammar.Tree, at: nat)
    requires Fitting(name) && Ours(t)
    ensures GroupDepth(Shape(name, t, at)) <= if t.Leaf? then 0 else Nesting(t.rule)
    decreases t
  {
    if t.Branch? {
      var r := t.rule;
      var inner := Nesting(r) - if RoleOf(r).Grouping? then 1 else 0;
      Below(t);
      assert Fits(RoleOf(r), name(r, at));
      NestingBelow(r, t.kids, inner);
      ParsedNestings(name, t.kids, inner, at + 1);
    }
  }

  lemma {:induction false} NestingBelow(r: nat, ts: Trees, inner: int)
    requires r < RULES && TopIn(CalledBy(Body(r)), ts) && inner == Nesting(r) - if RoleOf(r).Grouping? then 1 else 0
    ensures inner >= 0 && TopIn(NestedWithin(inner), ts)
  {
    if ts.Cons? {
      NestingBelow(r, ts.tail, inner);
      if ts.head.Branch? {
        NestingCalls(r, ts.head.rule);
      }
    }
  }

  lemma {:induction false} ParsedNestings(name: Naming, ts: Trees, d: nat, at: nat)
    requires Fitting(name) && AllOurs(ts) && TopIn(NestedWithin(d), ts)
    ensures GroupDepths(Shapes(name, ts, at)) <= d
    decreases ts
  {
    if ts.Cons? {
      ParsedNesting(name, ts.head, at);
      ParsedNestings(name, ts.tail, d, at + Events.Size(ts.head));
    }
  }

  // ---------- code is paid for by tokens ----------

  lemma {:induction false} CodeCost(name: Naming, t: PegGrammar.Tree, at: nat, g: nat)
    requires Fitting(name) && Ours(t)
    ensures CodeSize(Elaborate(Shape(name, t, at), at, g)) <= Cost(CodeTariff(), t)
    decreases t, 0
  {
    if t.Branch? {
      var r := t.rule;
      Below(t);
      assert Fits(RoleOf(r), name(r, at));
      CodeCosts(name, t.kids, at + 1, if RoleOf(r).Grouping? then g + 1 else g);
    }
  }

  lemma {:induction false} CodeCosts(name: Naming, ts: Trees, at: nat, g: nat)
    requires Fitting(name) && AllOurs(ts)
    ensures CodeSizes(ElaborateAll(Shapes(name, ts, at), at,
                                   g)) + LoopPrice(QuantifierOf(Shapes(name, ts, at))) <= CostAll(CodeTariff(), ts)
    decreases ts, 0
  {
    if ts.Cons? {
      var head := Shape(name, ts.head, at);
      var tail := Shapes(name, ts.tail, at + Events.Size(ts.head));
      HeadCost(name, ts.head, at, g);
      CodeCosts(name, ts.tail, at + Events.Size(ts.head), g + Groups(head));
      ShapeSize(name, ts.head, at);
      SizesOfMore(head, tail, at, g);
      assert Shapes(name, ts, at) == More(head, tail);
    }
  }

  lemma {:induction false} HeadCost(name: Naming, t: PegGrammar.Tree, at: nat, g: nat)
    requires Fitting(name) && Ours(t)
    ensures CodeSize(Elaborate(Shape(name, t, at), at, g)) + LoopPrice(Shape(name, t, at).kind) <= Cost(CodeTariff(), t)
    decreases t, 1
  {
    CodeCost(name, t, at, g);
    if t.Branch? && Shape(name, t, at).kind.Quantifier? {
      QuantifierCost(name, t, at, g);
    }
  }

  function LoopPrice(k: Kind): nat {
    if k.Quantifier? then 2 else 0
  }

  lemma {:induction false} SizesOfMore(head: Syntax, tail: Nodes, at: nat, g: nat)
    ensures CodeSizes(ElaborateAll(More(head, tail), at, g)) ==
            CodeSize(Elaborate(head, at, g)) + CodeSizes(ElaborateAll(tail, at + NodeCount(head), g + Groups(head)))
    ensures LoopPrice(QuantifierOf(More(head, tail))) <= LoopPrice(head.kind) + LoopPrice(QuantifierOf(tail))
  {
  }

  /** A quantifier lowers to nothing itself. */
  lemma {:induction false} QuantifierCost(name: Naming, t: PegGrammar.Tree, at: nat, g: nat)
    requires Fitting(name) && Ours(t) && t.Branch? && name(t.rule, at).Quantifier?
    ensures CodeSize(Elaborate(Shape(name, t, at), at, g)) == 0 && Cost(CodeTariff(), t) >= 2
  {
    assert Fits(RoleOf(t.rule), name(t.rule, at));
    Below(t);
    QuietBelow(t.rule, t.kids);
    QuietInert(name, t.kids, at + 1);
    InertHasNoCode(Shapes(name, t.kids, at + 1), at + 1, g);
  }

  // ---------- a whole pattern ----------

  /** The syntax tree of a token string that the grammar accepts. */
  function SyntaxOf(name: Naming, p: Parse): Syntax
    requires p.Match? && p.trees.Cons?
  {
    Shape(name, p.trees.head, 0)
  }

  /** A pattern's syntax tree has the shape lowering relies on, its groups nest
      at most nine deep, and its code needs at most two instructions for every
      token before the end, and one more. */
  lemma {:induction false} ParsedPattern(name: Naming, tokens: seq<nat>)
    requires Fitting(name)
    ensures GrammarOk(Table())
    ensures var p := ParseRule(Table(), tokens, 0, 0);
            p.Match? ==>
              && p.trees.Cons? && p.trees.tail.Nil?
              && (var s := SyntaxOf(name, p);
                  && ShapeOk(s) && GroupDepth(s) <= 9
                  && CodeSize(Elaborate(s, 0, 0)) + 2 <= 2 * p.next
                  && (!SeesRule(Table(), tokens, DEPTH_OVERFLOW, 0, 0) && Supported(s) ==> Bodied(s)))
  {
    TableOk();
    var p := ParseRule(Table(), tokens, 0, 0);
    RuleGrown(Table(), tokens, Bearing(), 0, 0);
    if p.Match? {
      GrownOurs(p.next, p.trees);
      var t := p.trees.head;
      ParsedShape(name, t, 0);
      ParsedNesting(name, t, 0);
      PatternCode(name, tokens, p);
      if !SeesRule(Table(), tokens, DEPTH_OVERFLOW, 0, 0) && Supported(SyntaxOf(name, p)) {
        UnseenRule(Table(), tokens, DEPTH_OVERFLOW, 0, 0);
        ParsedBodied(name, t, 0);
      }
    }
  }

  lemma {:induction false} PatternCode(name: Naming, tokens: seq<nat>, p: Parse)
    requires Fitting(name) && GrammarOk(Table()) && p == ParseRule(Table(), tokens, 0, 0) && p.Match?
    requires p.trees.Cons? && p.trees.tail.Nil? && Ours(p.trees.head)
    ensures CodeSize(Elaborate(SyntaxOf(name, p), 0, 0)) + 2 <= 2 * p.next
  {
    TablePays();
    RulePaid(Table(), tokens, CodeTariff(), 0, 0);
    CodeCost(name, p.trees.head, 0, 0);
    assert CostAll(CodeTariff(), p.trees) == Cost(CodeTariff(), p.trees.head);
  }

  /** Parsing never has more than four nodes for every token, and nine more. */
  lemma {:induction false} PatternPeak(tokens: seq<nat>)
    ensures GrammarOk(Table()) && PeakRule(Table(), tokens, 0, 0) <= 4 * |tokens| + 9
  {
    TableOk();
    TablePays();
    RulePeak(Table(), tokens, NodeTariff(), NodeExcess, 0, 0);
  }
}
