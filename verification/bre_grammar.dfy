/** The grammar of BRE patterns as the generated parser's rule table, in the order
    of its rules, and what the table says about every parse. */
module BreGrammar {
  import opened PegGrammar
  import opened PegAnalysis

  // ---------- tokens ----------

  const EOF := 1
  const END_DOLLAR := 2
  const OPEN_SPECIAL := 3
  const BACKSLASH := 4
  const LPAREN := 5
  const RPAREN := 6
  const LBRACE := 7
  const RBRACE := 8
  const OPEN := 9
  const CLOSE := 10
  const CARET := 11
  const DOLLAR := 12
  const STAR := 13
  const DOT := 14
  const PLUS := 15
  const QUESTION := 16
  const PIPE := 17
  const DASH := 18
  const COLON := 19
  const EQUAL := 20
  const COMMA := 21
  const LETTER := 22
  const DIGIT := 23
  const CHAR := 24

  // ---------- rules ----------

  /** Ten levels of Sequence, Piece, Atom and Group follow the start rule; in place
      of the last Group stands DepthOverflow. */
  const DEPTH_OVERFLOW := 40
  const BEGIN_ANCHOR := 41
  const END_ANCHOR := 42
  const INITIAL_STAR_PIECE := 43
  const INITIAL_STAR := 44
  const GROUP_OPEN := 45
  const GROUP_CLOSE := 46
  const ANY := 47
  const REFERENCE := 48
  const ESCAPE := 49
  const UNSUPPORTED_ESCAPE := 50
  const LITERAL := 51
  const QUANTIFIER := 52
  const STAR_REPEAT := 53
  const EXACT_REPEAT := 54
  const OPEN_REPEAT := 55
  const BOUNDED_REPEAT := 56
  const NUMBER := 57
  const CLASS := 58
  const CLASS_OPEN := 59
  const NEGATION := 60
  const INITIAL_CLOSE_RANGE := 61
  const INITIAL_CLOSE := 62
  const CLASS_ELEMENT := 63
  const NAMED_CLASS := 64
  const CLASS_NAME := 65
  const COLLATING := 66
  const EQUIVALENCE := 67
  const COLLATING_SCALAR := 68
  const EQUIVALENCE_SCALAR := 69
  const RANGE := 70
  const CLASS_SCALAR := 71
  const RULES := 72

  function Only(i: Item): Items {
    Then(i, End)
  }

  /** One of several tokens. */
  function OneToken(ts: seq<nat>): Alternatives {
    if ts == [] then Nothing else Or(Only(Expect(ts[0])), OneToken(ts[1..]))
  }

  /** One of several rules. */
  function OneRule(rs: seq<nat>): Alternatives {
    if rs == [] then Nothing else Or(Only(Call(rs[0])), OneRule(rs[1..]))
  }

  const ESCAPED := [BACKSLASH, DOT, CARET, DOLLAR, END_DOLLAR, OPEN, OPEN_SPECIAL, CLOSE, STAR]
  const UNSUPPORTED := [PLUS, QUESTION, PIPE, LETTER, CHAR, DASH, COLON, EQUAL, COMMA]
  const LITERALS :=
    [LETTER, DIGIT, CHAR, PLUS, QUESTION, PIPE, LPAREN, RPAREN, LBRACE, RBRACE, DASH, COLON, EQUAL, COMMA, CARET,
     DOLLAR, CLOSE]
  const COLLATED :=
    [LETTER, DIGIT, CHAR, PLUS, QUESTION, PIPE, LPAREN, RPAREN, LBRACE, RBRACE, DASH, COLON, EQUAL, COMMA, CARET,
     DOLLAR, END_DOLLAR, STAR, BACKSLASH, OPEN]
  const EQUATED :=
    [LETTER, DIGIT, CHAR, PLUS, QUESTION, PIPE, LPAREN, RPAREN, LBRACE, RBRACE, DASH, COLON, DOT, COMMA, CARET, DOLLAR,
     END_DOLLAR, STAR, BACKSLASH, OPEN]
  const CLASSED :=
    [LETTER, DIGIT, CHAR, PLUS, QUESTION, PIPE, LPAREN, RPAREN, LBRACE, RBRACE, DASH, COLON, DOT, EQUAL, COMMA, CARET,
     DOLLAR, END_DOLLAR, STAR, BACKSLASH, OPEN]

  /** The tokens a rule chooses from, if it is such a rule. */
  function Chosen(r: nat): seq<nat> {
    match r
    case 49 => ESCAPED
    case 50 => UNSUPPORTED
    case 51 => LITERALS
    case 59 => [OPEN, OPEN_SPECIAL]
    case 68 => COLLATED
    case 69 => EQUATED
    case 71 => CLASSED
    case _ => []
  }

  /** The rules of one level call the next rule of the table. */
  function LevelBody(r: nat): Items
    requires 1 <= r <= DEPTH_OVERFLOW
  {
    if r % 4 == 1 then
      Then(Maybe(BEGIN_ANCHOR), Then(Maybe(INITIAL_STAR_PIECE), Then(Star(r + 1), Only(Maybe(END_ANCHOR)))))
    else if r % 4 == 2 then Then(Call(r + 1), Only(Maybe(QUANTIFIER)))
    else if r % 4 == 3 then Only(Choose(OneRule([r + 1, CLASS, ANY, REFERENCE, ESCAPE, UNSUPPORTED_ESCAPE, LITERAL])))
    else if r == DEPTH_OVERFLOW then Only(Call(GROUP_OPEN))
    else Then(Call(GROUP_OPEN), Then(Call(r + 1), Only(Call(GROUP_CLOSE))))
  }

  function AtomBody(r: nat): Items {
    match r
    case 41 => Only(Expect(CARET))
    case 42 => Only(Expect(END_DOLLAR))
    case 43 => Then(Call(INITIAL_STAR), Only(Maybe(QUANTIFIER)))
    case 44 => Only(Expect(STAR))
    case 45 => Then(Expect(BACKSLASH), Only(Expect(LPAREN)))
    case 46 => Then(Expect(BACKSLASH), Only(Expect(RPAREN)))
    case 47 => Only(Expect(DOT))
    case 48 => Then(Expect(BACKSLASH), Only(Expect(DIGIT)))
    case 49 => Then(Expect(BACKSLASH), Only(Choose(OneToken(Chosen(r)))))
    case 50 => Then(Expect(BACKSLASH), Only(Choose(OneToken(Chosen(r)))))
    case _ => Only(Choose(OneToken(Chosen(r))))
  }

  function QuantifierBody(r: nat): Items {
    match r
    case 52 => Only(Choose(OneRule([STAR_REPEAT, EXACT_REPEAT, OPEN_REPEAT, BOUNDED_REPEAT])))
    case 53 => Only(Expect(STAR))
    case 54 =>
      Then(Expect(BACKSLASH), Then(Expect(LBRACE), Then(Call(NUMBER),
      Then(Expect(BACKSLASH), Only(Expect(RBRACE))))))
    case 55 =>
      Then(Expect(BACKSLASH), Then(Expect(LBRACE), Then(Call(NUMBER), Then(Expect(COMMA),
      Then(Expect(BACKSLASH), Only(Expect(RBRACE)))))))
    case 56 =>
      Then(Expect(BACKSLASH), Then(Expect(LBRACE), Then(Call(NUMBER), Then(Expect(COMMA),
      Then(Call(NUMBER), Then(Expect(BACKSLASH), Only(Expect(RBRACE))))))))
    case _ => Then(Expect(DIGIT), Only(Many(DIGIT)))
  }

  function ClassBody(r: nat): Items {
    match r
    case 58 =>
      Then(Call(CLASS_OPEN), Then(Maybe(NEGATION),
      Then(Choose(OneRule([INITIAL_CLOSE_RANGE, INITIAL_CLOSE, CLASS_ELEMENT])),
      Then(Star(CLASS_ELEMENT), Only(Expect(CLOSE))))))
    case 59 => Only(Choose(OneToken(Chosen(r))))
    case 60 => Only(Expect(CARET))
    case 61 => Then(Expect(CLOSE), Then(Expect(DASH), Only(Call(CLASS_SCALAR))))
    case 62 => Only(Expect(CLOSE))
    case 63 => Only(Choose(OneRule([NAMED_CLASS, COLLATING, EQUIVALENCE, RANGE, CLASS_SCALAR])))
    case 64 =>
      Then(Expect(OPEN_SPECIAL), Then(Expect(COLON), Then(Call(CLASS_NAME),
      Then(Expect(COLON), Only(Expect(CLOSE))))))
    case 65 => Then(Expect(LETTER), Only(Many(LETTER)))
    case 66 =>
      Then(Expect(OPEN_SPECIAL), Then(Expect(DOT), Then(Plus(COLLATING_SCALAR),
      Then(Expect(DOT), Only(Expect(CLOSE))))))
    case 67 =>
      Then(Expect(OPEN_SPECIAL), Then(Expect(EQUAL), Then(Plus(EQUIVALENCE_SCALAR),
      Then(Expect(EQUAL), Only(Expect(CLOSE))))))
    case 68 => Only(Choose(OneToken(Chosen(r))))
    case 69 => Only(Choose(OneToken(Chosen(r))))
    case 70 => Then(Call(CLASS_SCALAR), Then(Expect(DASH), Only(Call(CLASS_SCALAR))))
    case _ => Only(Choose(OneToken(Chosen(r))))
  }

  function Body(r: nat): Items {
    if r == 0 then Then(Call(1), Only(Expect(EOF)))
    else if r <= DEPTH_OVERFLOW then LevelBody(r)
    else if r <= LITERAL then AtomBody(r)
    else if r <= NUMBER then QuantifierBody(r)
    else ClassBody(r)
  }

  function Table(): (g: Grammar)
    ensures |g| == RULES && forall r :: 0 <= r < RULES ==> g[r] == Body(r)
  {
    seq(RULES, r requires 0 <= r < RULES => Body(r))
  }

  // ---------- choices among tokens and among rules ----------

  lemma {:induction false} OnlyToken(g: Grammar, r: nat, f: Tariff, h: nat -> int, token: nat)
    requires f.leaf <= f.weight
    ensures var b := Only(Expect(token));
            && ItemsOk(g, r, b) && (forall x :: !Calls(b, x))
            && Left(f, b) == f.weight - f.leaf && Steady(f, b) && Excess(f, h, b) == 0
  {
    assert Items.End.End?;
  }

  lemma {:induction false} OnlyCall(g: Grammar, r: nat, f: Tariff, h: nat -> int, rule: nat)
    ensures var b := Only(Call(rule));
            && (r < rule < |g| ==> ItemsOk(g, r, b)) && (forall x :: Calls(b, x) ==> x == rule)
            && Left(f, b) == f.left(rule) && Steady(f, b) && Excess(f, h, b) == Most(h(rule), 0 - f.left(rule))
    ensures forall c: Rules :: c(rule) ==> Needs(Only(Call(rule)), c)
  {
    assert Items.End.End?;
  }

  lemma {:induction false} Split<T>(s: seq<T>)
    requires s != []
    ensures s == [s[0]] + s[1..] && s[0] in s && forall x :: x in s[1..] ==> x in s
  {
  }

  lemma {:induction false} OneTokenOk(g: Grammar, r: nat, f: Tariff, h: nat -> int, ts: seq<nat>)
    requires f.leaf <= f.weight
    ensures ChoiceOk(g, r, OneToken(ts)) && (forall x :: !CallsChoice(OneToken(ts), x))
    ensures SteadyChoice(f, OneToken(ts)) && (ts != [] ==> LeftChoice(f, OneToken(ts)) == f.weight - f.leaf)
    ensures ExcessChoice(f, h, OneToken(ts)) == 0
  {
    if ts != [] {
      OnlyToken(g, r, f, h, ts[0]);
      OneTokenOk(g, r, f, h, ts[1..]);
    }
  }

  lemma {:induction false} OneRuleOk(g: Grammar, r: nat, rs: seq<nat>)
    requires forall x :: x in rs ==> r < x < |g|
    ensures ChoiceOk(g, r, OneRule(rs))
  {
    if rs != [] {
      Split(rs);
      OnlyCall(g, r, Tariff(0, 0, _ => 0, _ => 0), _ => 0, rs[0]);
      OneRuleOk(g, r, rs[1..]);
    }
  }

  lemma {:induction false} OneRuleCalls(rs: seq<nat>, x: nat)
    ensures CallsChoice(OneRule(rs), x) ==> x in rs
  {
    if rs != [] {
      Split(rs);
      OnlyCall([], 0, Tariff(0, 0, _ => 0, _ => 0), _ => 0, rs[0]);
      OneRuleCalls(rs[1..], x);
      var first := Only(Call(rs[0]));
      assert OneRule(rs) == Or(first, OneRule(rs[1..])) && (Calls(first, x) ==> x == rs[0]);
    }
  }

  lemma {:induction false} OneRuleNeeds(rs: seq<nat>, c: Rules)
    requires forall x :: x in rs ==> c(x)
    ensures NeedsChoice(OneRule(rs), c)
  {
    if rs != [] {
      Split(rs);
      OnlyCall([], 0, Tariff(0, 0, _ => 0, _ => 0), _ => 0, rs[0]);
      OneRuleNeeds(rs[1..], c);
    }
  }

  lemma {:induction false} OneRuleLeft(f: Tariff, h: nat -> int, rs: seq<nat>, left: int, excess: int)
    requires rs != [] && excess >= 0 && left >= 0 && forall x :: x in rs ==> f.left(x) >= left && h(x) <= excess
    ensures SteadyChoice(f, OneRule(rs)) && LeftChoice(f, OneRule(rs)) >= left
    ensures ExcessChoice(f, h, OneRule(rs)) <= excess
  {
    Split(rs);
    OnlyCall([], 0, f, h, rs[0]);
    if |rs| > 1 {
      OneRuleLeft(f, h, rs[1..], left, excess);
    } else {
      assert OneRule(rs[1..]) == Nothing;
    }
  }

  // ---------- rules only call later ones ----------

  lemma {:induction false} TableOk()
    ensures GrammarOk(Table())
  {
    var g := Table();
    forall r: nat | r < RULES
      ensures ItemsOk(g, r, g[r])
    {
      RuleOk(g, r);
    }
  }

  lemma {:induction false} RuleOk(g: Grammar, r: nat)
    requires |g| == RULES && r < RULES
    ensures ItemsOk(g, r, Body(r))
  {
    ItemsUnfold(g, r);
    if r == 0 {
    } else if r <= DEPTH_OVERFLOW {
      LevelRuleOk(g, r);
    } else if r <= LITERAL {
      AtomRuleOk(g, r);
    } else if r <= NUMBER {
      QuantifierRuleOk(g, r);
    } else {
      ClassRuleOk(g, r);
    }
  }

  lemma {:induction false} LevelRuleOk(g: Grammar, r: nat)
    requires |g| == RULES && 1 <= r <= DEPTH_OVERFLOW
    ensures ItemsOk(g, r, Body(r))
  {
    ItemsUnfold(g, r);
    if r % 4 == 3 {
      OneRuleOk(g, r, [r + 1, CLASS, ANY, REFERENCE, ESCAPE, UNSUPPORTED_ESCAPE, LITERAL]);
    }
  }

  /** A rule that chooses from tokens, after a backslash or not. */
  lemma {:induction false} ChooserOk(g: Grammar, r: nat, ts: seq<nat>)
    ensures var b := Only(Choose(OneToken(ts))); ItemsOk(g, r, b) && ItemsOk(g, r, Then(Expect(BACKSLASH), b))
  {
    ItemsUnfold(g, r);
    OneTokenOk(g, r, Tariff(0, 0, _ => 0, _ => 0), _ => 0, ts);
  }

  lemma {:induction false} AtomRuleOk(g: Grammar, r: nat)
    requires |g| == RULES && DEPTH_OVERFLOW < r <= LITERAL
    ensures ItemsOk(g, r, Body(r))
  {
    ItemsUnfold(g, r);
    ChooserOk(g, r, Chosen(r));
  }

  lemma {:induction false} QuantifierRuleOk(g: Grammar, r: nat)
    requires |g| == RULES && LITERAL < r <= NUMBER
    ensures ItemsOk(g, r, Body(r))
  {
    ItemsUnfold(g, r);
    if r == QUANTIFIER {
      OneRuleOk(g, r, [STAR_REPEAT, EXACT_REPEAT, OPEN_REPEAT, BOUNDED_REPEAT]);
    }
  }

  lemma {:induction false} ClassRuleOk(g: Grammar, r: nat)
    requires |g| == RULES && NUMBER < r < RULES
    ensures ItemsOk(g, r, Body(r))
  {
    ItemsUnfold(g, r);
    ChooserOk(g, r, Chosen(r));
    if r == CLASS {
      OneRuleOk(g, r, [INITIAL_CLOSE_RANGE, INITIAL_CLOSE, CLASS_ELEMENT]);
    } else if r == CLASS_ELEMENT {
      OneRuleOk(g, r, [NAMED_CLASS, COLLATING, EQUIVALENCE, RANGE, CLASS_SCALAR]);
    }
  }
}
