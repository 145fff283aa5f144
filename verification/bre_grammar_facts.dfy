/** What the rule table of BRE patterns says about every parse: the roles of its
    rules, what stands below them, and what they cost. */
module BreGrammarFacts {
  import opened PegGrammar
  import opened PegAnalysis
  import opened BreGrammar
  import opened BreProgram
  import opened BreSyntax

  // ---------- who calls whom ----------

  predicate MayCall(r: nat, c: nat) {
    if r == 0 then c == 1
    else if r <= DEPTH_OVERFLOW then
      if r % 4 == 1 then c == BEGIN_ANCHOR || c == INITIAL_STAR_PIECE || c == r + 1 || c == END_ANCHOR
      else if r % 4 == 2 then c == r + 1 || c == QUANTIFIER
      else if r % 4 == 3 then c == r + 1 || c == CLASS || ANY <= c <= LITERAL
      else if r == DEPTH_OVERFLOW then c == GROUP_OPEN
      else c == GROUP_OPEN || c == r + 1 || c == GROUP_CLOSE
    else if r == INITIAL_STAR_PIECE then c == INITIAL_STAR || c == QUANTIFIER
    else if r == QUANTIFIER then STAR_REPEAT <= c <= BOUNDED_REPEAT
    else if r == EXACT_REPEAT || r == OPEN_REPEAT || r == BOUNDED_REPEAT then c == NUMBER
    else NUMBER < r && NUMBER < c < RULES && c != CLASS
  }

  lemma {:induction false} CallsAre(r: nat, c: nat)
    requires r < RULES && Calls(Body(r), c)
    ensures MayCall(r, c)
  {
    CallsUnfold(c);
    if r == 0 {
    } else if r <= DEPTH_OVERFLOW {
      if r % 4 == 3 {
        OneRuleCalls([r + 1, CLASS, ANY, REFERENCE, ESCAPE, UNSUPPORTED_ESCAPE, LITERAL], c);
      }
    } else if r <= NUMBER {
      AtomCalls(r, c);
    } else {
      ClassCalls(r, c);
    }
  }

  lemma {:induction false} ChooserCalls(r: nat, ts: seq<nat>, c: nat)
    ensures var b := Only(Choose(OneToken(ts))); !Calls(b, c) && !Calls(Then(Expect(BACKSLASH), b), c)
  {
    CallsUnfold(c);
    OneTokenOk([], r, Tariff(0, 0, _ => 0, _ => 0), _ => 0, ts);
  }

  lemma {:induction false} AtomCalls(r: nat, c: nat)
    requires DEPTH_OVERFLOW < r <= NUMBER && Calls(Body(r), c)
    ensures MayCall(r, c)
  {
    CallsUnfold(c);
    if r <= LITERAL {
      ChooserCalls(r, Chosen(r), c);
    } else {
      OneRuleCalls([STAR_REPEAT, EXACT_REPEAT, OPEN_REPEAT, BOUNDED_REPEAT], c);
    }
  }

  lemma {:induction false} ClassCalls(r: nat, c: nat)
    requires NUMBER < r < RULES && Calls(Body(r), c)
    ensures MayCall(r, c)
  {
    CallsUnfold(c);
    ChooserCalls(r, Chosen(r), c);
    if r == CLASS {
      OneRuleCalls([INITIAL_CLOSE_RANGE, INITIAL_CLOSE, CLASS_ELEMENT], c);
    } else if r == CLASS_ELEMENT {
      OneRuleCalls([NAMED_CLASS, COLLATING, EQUIVALENCE, RANGE, CLASS_SCALAR], c);
    }
  }

  // ---------- roles ----------

  datatype Role = Silent | Single(op: Op) | Bracket | Grouping | Repeatable | Repeating | Refused

  function RoleOf(r: nat): Role {
    if 1 <= r < DEPTH_OVERFLOW && r % 4 == 2 then Repeatable
    else if 1 <= r < DEPTH_OVERFLOW && r % 4 == 0 then Grouping
    else
      match r
      case 41 => Single(Begin)
      case 42 => Single(Op.End)
      case 43 => Repeatable
      case 44 => Single(Char)
      case 47 => Single(Op.Any)
      case 48 => Single(Ref)
      case 49 => Single(Char)
      case 50 => Refused
      case 51 => Single(Char)
      case 52 => Repeating
      case 58 => Bracket
      case _ => Silent
  }

  /** A node's kind is that of its rule's role; a quantifier's bounds are in order and within the limit. */
  predicate Fits(role: Role, k: Kind) {
    match role
    case Silent => k.Plain?
    case Single(op) => k.UnitNode? && k.op == op
    case Bracket => k.UnitNode? && (k.op.Class? || k.op.NotClass?)
    case Grouping => k.GroupNode?
    case Repeatable => k.PieceNode?
    case Repeating => k.Quantifier? && k.min <= k.max <= NONE && k.min <= MAX_REPEAT
    case Refused => k.UnsupportedNode?
  }

  /** Nothing below these rules lowers or numbers anything. */
  function Quiet(): Rules {
    (r: nat) => r == DEPTH_OVERFLOW || r == GROUP_OPEN || r == GROUP_CLOSE || QUANTIFIER <= r <= NUMBER
        || CLASS < r < RULES
  }

  /** No loop stands below these rules, unless inside a group. */
  function LoopFree(): Rules {
    (r: nat) => (1 <= r <= DEPTH_OVERFLOW && (r % 4 == 3 || r % 4 == 0))
        || (DEPTH_OVERFLOW < r < RULES && r != INITIAL_STAR_PIECE)
  }

  /** These rules lower to something, unless they are refused. */
  function Bearing(): Rules {
    (r: nat) =>
      || (1 <= r <= DEPTH_OVERFLOW && (r % 4 == 3 || r % 4 == 0))
      || r == INITIAL_STAR || ANY <= r <= LITERAL || r == CLASS
  }

  /** Groups may nest this deep below a rule. */
  function Nesting(r: nat): nat {
    if r == 0 then 9 else if r <= DEPTH_OVERFLOW then 9 - (r - 1) / 4 else 0
  }

  lemma {:induction false} QuietCalls(r: nat, c: nat)
    requires r < RULES && Calls(Body(r), c) && (Quiet()(r) || RoleOf(r).Single? || RoleOf(r).Bracket?
                                                || RoleOf(r).Refused?)
    ensures Quiet()(c)
  {
    CallsAre(r, c);
  }

  lemma {:induction false} LoopFreeCalls(r: nat, c: nat)
    requires r < RULES && Calls(Body(r), c) && (LoopFree()(r) || RoleOf(r).Repeatable?) && !RoleOf(r).Grouping?
    ensures LoopFree()(c)
  {
    CallsAre(r, c);
  }

  lemma {:induction false} NestingCalls(r: nat, c: nat)
    requires r < RULES && Calls(Body(r), c)
    ensures Nesting(c) + (if RoleOf(r).Grouping? then 1 else 0) <= Nesting(r)
  {
    CallsAre(r, c);
  }

  /** A repeatable rule needs something that lowers, and so does a bearing rule that is no single node itself. */
  lemma {:induction false} BearingNeeds(r: nat)
    requires r < RULES && (RoleOf(r).Repeatable? || (Bearing()(r) && RoleOf(r).Silent? && r != DEPTH_OVERFLOW))
    ensures Needs(Body(r), Bearing())
  {
    var c := Bearing();
    if r == INITIAL_STAR_PIECE {
      assert NeedsItem(Call(INITIAL_STAR), c);
    } else if r % 4 == 2 {
      assert NeedsItem(Call(r + 1), c);
    } else {
      var rs := [r + 1, CLASS, ANY, REFERENCE, ESCAPE, UNSUPPORTED_ESCAPE, LITERAL];
      OneRuleNeeds(rs, c);
      assert OneRule(rs).Or?;
      assert NeedsItem(Choose(OneRule(rs)), c);
    }
  }

  // ---------- what a parse costs ----------

  /** Instructions a rule's node is charged for; a loop's are charged to its quantifier. */
  function CodePrice(r: nat): nat {
    match RoleOf(r)
    case Single(_) => 1
    case Bracket => 1
    case Grouping => 2
    case Repeating => 2
    case _ => 0
  }

  function CodeLeft(r: nat): int {
    if r == 0 then 2 else if r == GROUP_OPEN || r == GROUP_CLOSE then 4
    else if STAR_REPEAT <= r <= BOUNDED_REPEAT then 2 else 0
  }

  /** Two instructions for every token. */
  function CodeTariff(): Tariff {
    Tariff(2, 0, CodePrice, CodeLeft)
  }

  function NodeLeft(r: nat): int {
    if r == 0 then 1
    else if r <= DEPTH_OVERFLOW then if r % 4 == 1 then -1 else if r % 4 == 2 then 0 else if r % 4 == 3 then 1 else 2
    else if r == GROUP_OPEN || r == GROUP_CLOSE then 5
    else if r == INITIAL_STAR_PIECE || r == QUANTIFIER || r == CLASS_ELEMENT then 1
    else 2
  }

  /** Four nodes for every token. */
  function NodeTariff(): Tariff {
    Tariff(4, 1, _ => 1, NodeLeft)
  }

  /** How many nodes a rule may be ahead of its tokens. */
  function NodeExcess(r: nat): int {
    if r == 0 then 9
    else if r <= DEPTH_OVERFLOW then if r % 4 == 1 then 8 else if r % 4 == 2 then 7 else if r % 4 == 3 then 6 else 5
    else if r == INITIAL_STAR_PIECE || r == QUANTIFIER || r == RANGE then 2
    else if r == CLASS_ELEMENT || r == CLASS then 3
    else 1
  }

  /** A rule that chooses from tokens, after a backslash or not. */
  lemma {:induction false} ChooserLeft(f: Tariff, h: nat -> int, r: nat, ts: seq<nat>)
    requires f.leaf <= f.weight
    ensures var b := Only(Choose(OneToken(ts)));
            && Steady(f, b) && Steady(f, Then(Expect(BACKSLASH), b)) && Excess(f, h, b) <= 0
               && Excess(f, h, Then(Expect(BACKSLASH), b)) <= 0
            && (ts != [] ==>
                Left(f, b) == f.weight - f.leaf
                && Left(f, Then(Expect(BACKSLASH), b)) == 2 * (f.weight - f.leaf))
  {
    CostsUnfold(f, h);
    OneTokenOk([], r, f, h, ts);
  }

  predicate Chooses(r: nat) {
    ESCAPE <= r <= LITERAL || r == CLASS_OPEN || r == COLLATING_SCALAR || r == EQUIVALENCE_SCALAR || r == CLASS_SCALAR
  }

  /** The items of a rule pay for it, and add at most `excess` nodes in advance. */
  predicate Covers(f: Tariff, h: nat -> int, r: nat, b: Items, excess: int) {
    f.own(r) + f.left(r) <= Left(f, b) && Steady(f, b) && Excess(f, h, b) <= excess
  }

  lemma {:induction false} ChooserCovers(f: Tariff, h: nat -> int, r: nat)
    requires r < RULES && Chooses(r) && f.leaf <= f.weight && f.own(r) + f.left(r) <= f.weight - f.leaf
    requires r == ESCAPE || r == UNSUPPORTED_ESCAPE || f.own(r) + f.left(r) <= f.weight - f.leaf
    ensures Covers(f, h, r, Body(r), 0)
  {
    ChooserBody(r);
    ChooserLeft(f, h, r, Chosen(r));
  }

  lemma {:induction false} ChooserBody(r: nat)
    requires r < RULES && Chooses(r)
    ensures Chosen(r) != []
    ensures var b := Only(Choose(OneToken(Chosen(r))));
            Body(r) == if r == ESCAPE || r == UNSUPPORTED_ESCAPE then Then(Expect(BACKSLASH), b) else b
  {
    assert Chosen(r) != [];
  }

  lemma {:induction false} StartCovers(f: Tariff, h: nat -> int, e: int)
    requires f.leaf <= f.weight && 0 <= e && f.own(0) + f.left(0) <= f.left(1) + f.weight - f.leaf && h(1) <= e
    requires -f.left(1) <= e
    ensures Covers(f, h, 0, Body(0), e)
  {
    CostsUnfold(f, h);
  }

  lemma {:induction false} SequenceCovers(f: Tariff, h: nat -> int, r: nat, e: int)
    requires 1 <= r <= DEPTH_OVERFLOW && r % 4 == 1 && 0 <= e && f.own(r) + f.left(r) <= 0 && f.left(r + 1) >= 0
    requires h(r + 1) <= e
    requires forall x :: x in {BEGIN_ANCHOR, INITIAL_STAR_PIECE, END_ANCHOR} ==> f.left(x) >= 0 && h(x) <= e
    ensures Covers(f, h, r, Body(r), e)
  {
    CostsUnfold(f, h);
  }

  lemma {:induction false} PieceCovers(f: Tariff, h: nat -> int, r: nat, e: int)
    requires (1 <= r <= DEPTH_OVERFLOW && r % 4 == 2) || r == INITIAL_STAR_PIECE
    requires 0 <= e && 0 <= f.left(r + 1) && f.own(r) + f.left(r) <= f.left(r + 1) && h(r + 1) <= e
    requires f.left(QUANTIFIER) >= 0
    requires h(QUANTIFIER) - f.left(r + 1) <= e
    ensures Covers(f, h, r, Body(r), e)
  {
    CostsUnfold(f, h);
  }

  lemma {:induction false} AtomCovers(f: Tariff, h: nat -> int, r: nat, e: int)
    requires 1 <= r <= DEPTH_OVERFLOW && r % 4 == 3 && 0 <= e && 0 <= f.own(r) + f.left(r)
    requires forall x :: x in {r + 1, CLASS, ANY, REFERENCE, ESCAPE, UNSUPPORTED_ESCAPE, LITERAL} ==>
               f.own(r) + f.left(r) <= f.left(x) && h(x) <= e
    ensures Covers(f, h, r, Body(r), e)
  {
    CostsUnfold(f, h);
    OneRuleLeft(f, h, [r + 1, CLASS, ANY, REFERENCE, ESCAPE, UNSUPPORTED_ESCAPE, LITERAL], f.own(r) + f.left(r), e);
  }

  lemma {:induction false} GroupCovers(f: Tariff, h: nat -> int, r: nat, e: int)
    requires 1 <= r < DEPTH_OVERFLOW && r % 4 == 0 && 0 <= e
    requires f.own(r) + f.left(r) <= f.left(GROUP_OPEN) + f.left(r + 1) + f.left(GROUP_CLOSE)
    requires 0 <= f.left(GROUP_OPEN) + f.left(r + 1) && 0 <= f.left(GROUP_CLOSE)
    requires h(GROUP_OPEN) <= e && h(r + 1) - f.left(GROUP_OPEN) <= e && h(GROUP_CLOSE) <= e
    ensures Covers(f, h, r, Body(r), e)
  {
    CostsUnfold(f, h);
  }

  lemma {:induction false} OverflowCovers(f: Tariff, h: nat -> int, e: int)
    requires 0 <= e && f.own(DEPTH_OVERFLOW) + f.left(DEPTH_OVERFLOW) <= f.left(GROUP_OPEN) && h(GROUP_OPEN) <= e
    requires 0 <= f.left(GROUP_OPEN)
    ensures Covers(f, h, DEPTH_OVERFLOW, Body(DEPTH_OVERFLOW), e)
  {
    CostsUnfold(f, h);
  }

  lemma {:induction false} TokenShapes(f: Tariff, h: nat -> int, a: nat, b: nat)
    requires f.leaf <= f.weight
    ensures var s := Only(Expect(a)); Left(f, s) == f.weight - f.leaf && Steady(f, s) && Excess(f, h, s) == 0
    ensures var s := Then(Expect(a), Only(Expect(b)));
            Left(f, s) == 2 * (f.weight - f.leaf) && Steady(f, s)
            && Excess(f, h, s) == 0
    ensures var s := Then(Expect(a), Only(Many(b)));
            Left(f, s) == f.weight - f.leaf && Steady(f, s)
            && Excess(f, h, s) == 0
  {
    CostsUnfold(f, h);
  }

  /** Rules that are one or two tokens, or a token and its repetition. */
  lemma {:induction false} TokensCover(f: Tariff, h: nat -> int, r: nat)
    requires f.leaf <= f.weight && Plainest(r)
    requires f.own(r) + f.left(r) <= (f.weight - f.leaf) * if GROUP_OPEN <= r <= GROUP_CLOSE then 2 else 1
    ensures Covers(f, h, r, Body(r), 0)
  {
    if r == GROUP_OPEN || r == GROUP_CLOSE || r == REFERENCE {
      TokenShapes(f, h, BACKSLASH, if r == GROUP_OPEN then LPAREN else if r == GROUP_CLOSE then RPAREN else DIGIT);
    } else if r == NUMBER || r == CLASS_NAME {
      var token := if r == NUMBER then DIGIT else LETTER;
      TokenShapes(f, h, token, token);
    } else {
      var token :=
        match r
        case 41 => CARET
        case 42 => END_DOLLAR
        case 44 => STAR
        case 47 => DOT
        case 53 => STAR
        case 60 => CARET
        case _ => CLOSE;
      TokenShapes(f, h, token, token);
      assert Body(r) == Only(Expect(token));
    }
  }

  predicate Plainest(r: nat) {
    || r == BEGIN_ANCHOR || r == END_ANCHOR || r == INITIAL_STAR || r == GROUP_OPEN || r == GROUP_CLOSE || r == ANY
       || r == REFERENCE
    || r == STAR_REPEAT || r == NUMBER || r == NEGATION || r == INITIAL_CLOSE || r == CLASS_NAME
  }

  lemma {:induction false} QuantifierCovers(f: Tariff, h: nat -> int, e: int)
    requires 0 <= e && 0 <= f.own(QUANTIFIER) + f.left(QUANTIFIER)
    requires forall x :: STAR_REPEAT <= x <= BOUNDED_REPEAT ==>
              f.own(QUANTIFIER) + f.left(QUANTIFIER) <= f.left(x)
              && h(x) <= e
    ensures Covers(f, h, QUANTIFIER, Body(QUANTIFIER), e)
  {
    CostsUnfold(f, h);
    OneRuleLeft(f, h, [STAR_REPEAT, EXACT_REPEAT, OPEN_REPEAT, BOUNDED_REPEAT], f.own(QUANTIFIER) + f.left(QUANTIFIER),
                e);
  }

  lemma {:induction false} RepeatCovers(f: Tariff, h: nat -> int, r: nat)
    requires EXACT_REPEAT <= r <= BOUNDED_REPEAT && f.leaf < f.weight && 0 <= f.left(NUMBER) && h(NUMBER) <= 1
    requires f.own(r) + f.left(r) <= f.weight - f.leaf
    ensures Covers(f, h, r, Body(r), 0)
  {
    CostsUnfold(f, h);
  }

  lemma {:induction false} ClassCovers(f: Tariff, h: nat -> int, e: int)
    requires 0 <= e && f.leaf <= f.weight && f.own(CLASS) + f.left(CLASS) <= f.weight - f.leaf && h(CLASS_OPEN) <= e
    requires forall x :: CLASS_OPEN <= x <= CLASS_ELEMENT ==> 0 <= f.left(x) && h(x) <= e + f.left(CLASS_OPEN)
    ensures Covers(f, h, CLASS, Body(CLASS), e)
  {
    CostsUnfold(f, h);
    OneRuleLeft(f, h, [INITIAL_CLOSE_RANGE, INITIAL_CLOSE, CLASS_ELEMENT], 0, e + f.left(CLASS_OPEN));
  }

  lemma {:induction false} ElementCovers(f: Tariff, h: nat -> int, e: int)
    requires 0 <= e && 0 <= f.own(CLASS_ELEMENT) + f.left(CLASS_ELEMENT)
    requires forall x :: x in {NAMED_CLASS, COLLATING, EQUIVALENCE, RANGE, CLASS_SCALAR} ==>
               f.own(CLASS_ELEMENT) + f.left(CLASS_ELEMENT) <= f.left(x) && h(x) <= e
    ensures Covers(f, h, CLASS_ELEMENT, Body(CLASS_ELEMENT), e)
  {
    CostsUnfold(f, h);
    OneRuleLeft(f, h, [NAMED_CLASS, COLLATING, EQUIVALENCE, RANGE, CLASS_SCALAR],
                f.own(CLASS_ELEMENT) + f.left(CLASS_ELEMENT), e);
  }

  /** Two tokens, something that pays for itself, and two tokens. */
  lemma {:induction false} BracketShape(f: Tariff, h: nat -> int, a: nat, b: nat, i: Item, c: nat, d: nat)
    requires f.leaf < f.weight && SteadyItem(f, i) && 0 <= LeftItem(f, i) && ExcessItem(f, h, i) <= 1
    ensures var s := Then(Expect(a), Then(Expect(b), Then(i, Then(Expect(c), Only(Expect(d))))));
            Left(f, s) == 4 * (f.weight - f.leaf) + LeftItem(f, i) && Steady(f, s) && Excess(f, h, s) <= 0
    ensures var s := Then(Expect(a), Then(Expect(b), Only(i)));
            Left(f, s) == 2 * (f.weight - f.leaf) + LeftItem(f, i) && Steady(f, s) && Excess(f, h, s) <= 0
  {
    CostsUnfold(f, h);
  }

  predicate Small(f: Tariff, h: nat -> int, r: nat) {
    0 <= f.left(r) && h(r) <= 1
  }

  /** Elements of a class in brackets of their own. */
  lemma {:induction false} BracketedCovers(f: Tariff, h: nat -> int, r: nat)
    requires (NAMED_CLASS <= r <= EQUIVALENCE && r != CLASS_NAME) || r == INITIAL_CLOSE_RANGE
    requires f.leaf < f.weight
    requires f.own(r) + f.left(r) <= if r == NAMED_CLASS then 4 * (f.weight - f.leaf) + f.left(CLASS_NAME)
             else 2 * (f.weight - f.leaf)
    requires Small(f, h, CLASS_NAME) && Small(f, h, COLLATING_SCALAR) && Small(f, h, EQUIVALENCE_SCALAR)
    requires Small(f, h, CLASS_SCALAR)
    ensures Covers(f, h, r, Body(r), 0)
  {
    if r == NAMED_CLASS {
      BracketShape(f, h, OPEN_SPECIAL, COLON, Call(CLASS_NAME), COLON, CLOSE);
    } else if r == COLLATING {
      BracketShape(f, h, OPEN_SPECIAL, DOT, Plus(COLLATING_SCALAR), DOT, CLOSE);
    } else if r == EQUIVALENCE {
      BracketShape(f, h, OPEN_SPECIAL, EQUAL, Plus(EQUIVALENCE_SCALAR), EQUAL, CLOSE);
    } else {
      BracketShape(f, h, CLOSE, DASH, Call(CLASS_SCALAR), CLOSE, CLOSE);
    }
  }

  lemma {:induction false} RangeCovers(f: Tariff, h: nat -> int, e: int)
    requires 0 <= e && f.leaf <= f.weight && 0 <= f.left(CLASS_SCALAR) && h(CLASS_SCALAR) <= e
    requires f.own(RANGE) + f.left(RANGE) <= f.weight - f.leaf
    ensures Covers(f, h, RANGE, Body(RANGE), e)
  {
    CostsUnfold(f, h);
  }

  // ---------- the two tariffs ----------

  function NoExcess(r: nat): int {
    0
  }

  /** Ranges that decoding a class element adds at most: four for a named class, one for any other. */
  function RangePrice(r: nat): nat {
    if r == NAMED_CLASS then 4
    else if r == INITIAL_CLOSE_RANGE || r == INITIAL_CLOSE || r == RANGE || r == CLASS_SCALAR then 1
    else 0
  }

  function RangeLeft(r: nat): int {
    if r == 0 || r == CLASS_NAME then 1 else 0
  }

  /** One range for every token. */
  function RangeTariff(): Tariff {
    Tariff(1, 0, RangePrice, RangeLeft)
  }

  ghost predicate Priced(f: Tariff, h: nat -> int) {
    (f == CodeTariff() && h == NoExcess) || (f == RangeTariff() && h == NoExcess)
        || (f == NodeTariff() && h == NodeExcess)
  }

  lemma {:induction false} RuleCovers(f: Tariff, h: nat -> int, r: nat, e: int)
    requires Priced(f, h) && r < RULES && e == Most(h(r) - 1, 0)
    ensures Covers(f, h, r, Body(r), e)
  {
    if r == 0 {
      StartCovers(f, h, e);
    } else if r <= DEPTH_OVERFLOW {
      LevelCovers(f, h, r, e);
    } else if r <= NUMBER {
      SingleCovers(f, h, r, e);
    } else if Plainest(r) {
      TokensCover(f, h, r);
    } else if Chooses(r) {
      ChooserCovers(f, h, r);
    } else if r == CLASS {
      ClassCovers(f, h, e);
    } else if r == CLASS_ELEMENT {
      ElementCovers(f, h, e);
    } else if r == RANGE {
      RangeCovers(f, h, e);
    } else {
      BracketedCovers(f, h, r);
    }
  }

  lemma {:induction false} LevelCovers(f: Tariff, h: nat -> int, r: nat, e: int)
    requires Priced(f, h) && 1 <= r <= DEPTH_OVERFLOW && e == Most(h(r) - 1, 0)
    ensures Covers(f, h, r, Body(r), e)
  {
    if r == DEPTH_OVERFLOW {
      OverflowCovers(f, h, e);
    } else if r % 4 == 1 {
      SequenceCovers(f, h, r, e);
    } else if r % 4 == 2 {
      PieceCovers(f, h, r, e);
    } else if r % 4 == 3 {
      AtomCovers(f, h, r, e);
    } else {
      GroupCovers(f, h, r, e);
    }
  }

  lemma {:induction false} SingleCovers(f: Tariff, h: nat -> int, r: nat, e: int)
    requires Priced(f, h) && DEPTH_OVERFLOW < r <= NUMBER && e == Most(h(r) - 1, 0)
    ensures Covers(f, h, r, Body(r), e)
  {
    if Plainest(r) {
      TokensCover(f, h, r);
    } else if Chooses(r) {
      ChooserCovers(f, h, r);
    } else if r == INITIAL_STAR_PIECE {
      PieceCovers(f, h, r, e);
    } else if r == QUANTIFIER {
      QuantifierCovers(f, h, e);
    } else {
      RepeatCovers(f, h, r);
    }
  }

  /** The whole table pays, at two instructions, four nodes and one range a token. */
  lemma {:induction false} TablePays()
    ensures Pays(CodeTariff(), Table()) && Pays(RangeTariff(), Table()) && Pays(NodeTariff(), Table())
    ensures Bounds(NodeTariff(), NodeExcess, Table())
  {
    forall r: nat | r < RULES
      ensures Covers(CodeTariff(), NoExcess, r, Body(r), 0) && Covers(RangeTariff(), NoExcess, r, Body(r), 0)
      ensures Covers(NodeTariff(), NodeExcess, r, Body(r), NodeExcess(r) - 1)
    {
      RuleCovers(CodeTariff(), NoExcess, r, 0);
      RuleCovers(RangeTariff(), NoExcess, r, 0);
      RuleCovers(NodeTariff(), NodeExcess, r, NodeExcess(r) - 1);
    }
  }
}
