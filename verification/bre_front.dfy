/** Patterns to programs: the bytes of a pattern are checked, split into tokens and
    parsed, and the nodes of the parse are decoded and lowered. */
module BreFront {
  import opened Folding
  import opened PegGrammar
  import opened PegTrace
  import opened PegAnalysis
  import opened PegParser
  import opened PegSyntax
  import opened BreGrammar
  import opened BreParsed
  import opened BrePattern
  import opened BreStatus
  import opened BreSyntax
  import opened BreOperands
  import opened BreNodes
  import opened BreVerdict
  import opened BreCompile
  import opened BreLayout
  import opened BreLimits
  import opened BreLexer
  import Budget = BreBudget
  import Utf8 = BreUtf8
  import Engine = OrderedEngine
  import Events = PegEvents

  // ---------- what a pattern means ----------

  function TokensOf(cs: seq<nat>): (r: seq<nat>)
    ensures |r| == |cs| + 1
  {
    seq(|cs|, k requires 0 <= k < |cs| => TokenOf(cs, k)) + [BreGrammar.EOF]
  }

  ghost function TextsOf(cs: seq<nat>): (r: seq<seq<nat>>)
    requires Utf8.Scalars(cs)
    ensures |r| == |cs| + 1
  {
    seq(|cs|, k requires 0 <= k < |cs| => Utf8.Encode(cs[k])) + [[]]
  }

  /** The pattern is one the grammar accepts, without nesting deeper than it allows for. */
  ghost predicate Wellformed(tokens: seq<nat>)
    requires GrammarOk(Table())
  {
    var p := ParseRule(Table(), tokens, 0, 0);
    p.Match? && p.next == |tokens|
  }

  ghost predicate TooDeep(tokens: seq<nat>)
    requires GrammarOk(Table())
  {
    SeesRule(Table(), tokens, DEPTH_OVERFLOW, 0, 0)
  }

  /** A parsed pattern with the texts of its tokens. */
  ghost function SourceFor(tree: PegGrammar.Tree, cs: seq<nat>, maxRepeat: nat): Source
    requires Utf8.Scalars(cs)
  {
    Source(Events.Flatten(tree, 0, -1), TextsOf(cs), maxRepeat)
  }

  /** The syntax tree of a parsed pattern, its operands decoded. */
  ghost function SyntaxFor(tree: PegGrammar.Tree, cs: seq<nat>, maxRepeat: nat): Syntax
    requires Utf8.Scalars(cs)
  {
    Shape(Decoded(SourceFor(tree, cs, maxRepeat)), tree, 0)
  }

  /** The tree of a well-formed pattern. */
  ghost function TreeOf(tokens: seq<nat>): PegGrammar.Tree
    requires GrammarOk(Table()) && Wellformed(tokens)
  {
    OneTree(Table(), tokens, 0, 0);
    ParseRule(Table(), tokens, 0, 0).trees.head
  }

  function Smaller(a: nat, b: nat): nat {
    if a > b then b else a
  }

  /** The arrays that are allotted for a pattern of `length` bytes. */
  function RoomFor(length: nat, l: Limits): Room {
    Room(Smaller(length * 2 + 16, l.maxInstructions), Smaller(length * 2 + 16, l.maxRanges),
         BreNodes.CompileLimits(l.maxCaptures, l.maxParseDepth, l.maxSteps))
  }

  /** What the caller allows. */
  function Allowed(l: Limits): Room {
    Room(l.maxInstructions, l.maxRanges, BreNodes.CompileLimits(l.maxCaptures, l.maxParseDepth, l.maxSteps))
  }

  // ---------- facts about well-formed patterns ----------

  /** The text of a token is its scalar. */
  lemma {:induction false} TextIsScalar(c: nat)
    requires Utf8.Scalar(c) && c != 0
    ensures ScalarOf(Utf8.Encode(c)) == Value(c)
  {
    Utf8.EncodedDecodes(c, Utf8.Encode(c));
    Utf8.EncodesNoNul(c);
  }

  lemma {:induction false} PatternDecodes(cs: seq<nat>, l: Limits, tree: PegGrammar.Tree)
    requires Utf8.Scalars(cs) && (forall k :: 0 <= k < |cs| ==> cs[k] != 0) && LimitsReport(l) == Budget.Fine
    requires GrammarOk(Table()) && Wellformed(TokensOf(cs)) && tree == TreeOf(TokensOf(cs))
    ensures var d := SourceFor(tree, cs, l.maxRepeat);
            && d.Ok() && (forall k :: 0 <= k < |d.nodes| ==> -1 <= d.nodes[k].parent < k)
            && |RangeTable(d, 0)| <= |cs| && (forall k :: 0 <= k < |d.nodes| ==> NodeFault(FaultOf(KindAt(d, k))))
  {
    var tokens := TokensOf(cs);
    var d := SourceFor(tree, cs, l.maxRepeat);
    RuleGrown(Table(), tokens, None(), 0, 0);
    SourceOk(None(), |tokens|, tree, d);
    PatternRanges(tokens, d);
    forall k | 0 <= k < |cs|
      ensures ScalarOf(d.texts[k]).Value?
    {
      TextIsScalar(cs[k]);
    }
    forall k: nat | k < |d.nodes|
      ensures NodeFault(FaultOf(KindAt(d, k)))
    {
      PatternClean(tokens, d, k);
    }
  }

  lemma {:induction false} PatternShape(cs: seq<nat>, l: Limits, tree: PegGrammar.Tree)
    requires Utf8.Scalars(cs) && GrammarOk(Table()) && Wellformed(TokensOf(cs)) && tree == TreeOf(TokensOf(cs))
    ensures var s := SyntaxFor(tree, cs, l.maxRepeat);
            && ShapeOk(s) && GroupDepth(s) <= 9 && CodeSize(Elaborate(s, 0, 0)) + 1 <= 2 * |cs| + 1
            && (!TooDeep(TokensOf(cs)) && Supported(s) ==> Bodied(s))
  {
    var d := SourceFor(tree, cs, l.maxRepeat);
    DecodedFits(d);
    ParsedPattern(Decoded(d), TokensOf(cs));
  }

  /** The arrays allotted for a pattern are never the reason of a failure: code needs
      at most two instructions for every scalar and one more, classes at most one
      range for every scalar. */
  lemma {:induction false} AllottedSuffices(cs: seq<nat>, l: Limits, length: nat)
    requires Utf8.Scalars(cs) && (forall k :: 0 <= k < |cs| ==> cs[k] != 0) && LimitsReport(l) == Budget.Fine
    requires |cs| <= length
    requires GrammarOk(Table()) && Wellformed(TokensOf(cs))
    ensures var s := SyntaxFor(TreeOf(TokensOf(cs)), cs, l.maxRepeat);
            && CodeSize(Elaborate(s, 0, 0)) + 1 <= 2 * |cs| + 1 && Every(s, Within(|cs|))
            && (OverLimits(s, RoomFor(length, l)) <==> OverLimits(s, Allowed(l)))
  {
    var tree := TreeOf(TokensOf(cs));
    var d := SourceFor(tree, cs, l.maxRepeat);
    var s := SyntaxFor(tree, cs, l.maxRepeat);
    PatternDecodes(cs, l, tree);
    PatternShape(cs, l, tree);
    SyntaxParsed(d, tree);
    ClassesInTable(d, Kinds(d), s);
    EveryWider(s, Within(|RangeTable(d, 0)|), Within(|cs|));
    if l.maxRanges <= length * 2 + 16 {
      assert RoomFor(length, l).ranges == l.maxRanges;
    } else {
      EveryWider(s, Within(|cs|), Within(length * 2 + 16));
      EveryWider(s, Within(|cs|), Within(l.maxRanges));
    }
  }

  // ---------- the stages ----------

  /** What is checked before the pattern is read. */
  function FirstCheck(length: nat, l: Limits): Status {
    match LimitsReport(l)
    case Failed(Argument) => Status.Argument
    case Failed(_) => Status.Limit
    case Fine => if length > l.maxPatternBytes then Status.Limit else Ok
  }

  /** The tokens and texts that the lexer makes of the scalars. */
  lemma {:induction false} LexedAll(cs: seq<nat>, tokens: seq<nat>, texts: seq<seq<nat>>)
    requires Utf8.Scalars(cs) && |tokens| == |texts| == |cs| + 1 && Lexed(cs, |cs|, tokens[..|cs|], texts[..|cs|])
    requires tokens[|cs|] == BreLexer.EOF && texts[|cs|] == []
    ensures tokens == TokensOf(cs) && texts == TextsOf(cs)
  {
  }

  /** Parses the tokens into the node array. */
  method Parse(tokens: seq<nat>) returns (status: Status, nodes: seq<Events.Entry>)
    requires |tokens| <= 1025
    ensures GrammarOk(Table())
    ensures status == if TooDeep(tokens) then Status.Limit else if Wellformed(tokens) then Ok else BadPattern
    ensures status == Ok ==> nodes == Events.Flatten(TreeOf(tokens), 0, -1) && 0 < |nodes| <= 8192
  {
    PatternPeak(tokens);
    nodes := [];
    var collector := new Events.Collector(8192, DEPTH_OVERFLOW);
    var accepted, position := ParseInput(Table(), tokens, BreGrammar.EOF, collector);
    if collector.overflow || collector.noted {
      return Status.Limit, nodes;
    }
    if !accepted || position != |tokens| || collector.active >= 0 || collector.count == 0 {
      return BadPattern, nodes;
    }
    nodes := collector.nodes[..collector.count];
    status := Ok;
  }

  /** The status of a pattern whose scalars are `cs`. */
  ghost function TextStatus(cs: seq<nat>, l: Limits, length: nat): Status
    requires Utf8.Scalars(cs) && GrammarOk(Table())
  {
    var tokens := TokensOf(cs);
    if exists k :: 0 <= k < |cs| && !Lexes(cs[k]) then BadPattern
    else if TooDeep(tokens) then Status.Limit
    else if !Wellformed(tokens) then BadPattern
    else StatusOf(SyntaxFor(TreeOf(tokens), cs, l.maxRepeat), RoomFor(length, l))
  }

  /** The program of a pattern. */
  ghost predicate Compiles(p: Program, cs: seq<nat>, l: Limits)
    requires Utf8.Scalars(cs) && GrammarOk(Table())
  {
    && Wellformed(TokensOf(cs))
    && var tree := TreeOf(TokensOf(cs));
       var d := SourceFor(tree, cs, l.maxRepeat);
       && ProgramOf(p, SyntaxFor(tree, cs, l.maxRepeat)) && d.Ok() && p.ranges == RangeTable(d, 0)
       && |p.code| <= 2 * |cs| + 1 && |p.ranges| <= |cs|
  }

  /** `d` and `s` are the decoded parse of the pattern. Kept folded. */
  ghost predicate Means(cs: seq<nat>, l: Limits, d: Source, s: Syntax) {
    forall z: nat {:trigger Shown(z)} :: Shown(z) ==>
      && Utf8.Scalars(cs) && (forall k :: 0 <= k < |cs| ==> cs[k] != 0) && LimitsReport(l) == Budget.Fine
         && GrammarOk(Table())
      && (forall k :: 0 <= k < |cs| ==> Lexes(cs[k])) && !TooDeep(TokensOf(cs)) && Wellformed(TokensOf(cs))
      && d == SourceFor(TreeOf(TokensOf(cs)), cs, l.maxRepeat) && s == SyntaxFor(TreeOf(TokensOf(cs)), cs, l.maxRepeat)
  }

  /** The decoded parse can be lowered. */
  lemma {:induction false} MeansParsed(cs: seq<nat>, l: Limits, d: Source, s: Syntax)
    requires Means(cs, l, d, s)
    ensures d.Ok() && Parsed(d, Kinds(d), Flatten(s, 0, -1)) && ShapeOk(s) && (Supported(s) ==> Bodied(s))
    ensures LimitsReport(l) == Budget.Fine
  {
    assert Shown(0);
    var tree := TreeOf(TokensOf(cs));
    PatternDecodes(cs, l, tree);
    PatternShape(cs, l, tree);
    SyntaxParsed(d, tree);
  }

  /** No text of a token is malformed, so no status says that. */
  lemma {:induction false} MeansFaults(cs: seq<nat>, l: Limits, d: Source, s: Syntax, status: Status, room: Room)
    requires Means(cs, l, d, s) && Justified(s, status, room)
    ensures NodeFault(status)
  {
    assert Shown(0);
    var tree := TreeOf(TokensOf(cs));
    PatternDecodes(cs, l, tree);
    SyntaxParsed(d, tree);
    if !NodeFault(status) {
      KindsEvery(d, Kinds(d), s, Unlike(status));
    }
  }

  /** The program of the decoded parse is the pattern's. */
  lemma {:induction false} MeansCompiles(cs: seq<nat>, l: Limits, d: Source, s: Syntax, length: nat, status: Status,
                                         p: Program)
    requires Means(cs, l, d, s) && status == StatusOf(s, RoomFor(length, l)) && |cs| <= length
    requires status == Ok ==> ProgramOf(p, s) && d.Ok() && p.ranges == RangeTable(d, 0)
    ensures Utf8.Scalars(cs) && GrammarOk(Table()) && status == TextStatus(cs, l, length)
    ensures (status == Ok ==> Compiles(p, cs, l))
  {
    assert Shown(0);
    var tree := TreeOf(TokensOf(cs));
    PatternDecodes(cs, l, tree);
    PatternShape(cs, l, tree);
  }

  /** Decodes and lowers the nodes of a parse. */
  method LowerParsed(d: Source, l: Limits, length: nat, ghost cs: seq<nat>, ghost s: Syntax)
    returns (status: Status, p: Program)
    requires Means(cs, l, d, s) && |d.nodes| <= 8192 && |cs| <= length <= 1024
    ensures status == StatusOf(s, RoomFor(length, l)) && NodeFault(status)
    ensures status == Ok ==> ProgramOf(p, s) && d.Ok() && p.ranges == RangeTable(d, 0)
  {
    MeansParsed(cs, l, d, s);
    status, p := Compile(d, Kinds(d), RoomFor(length, l), s);
    MeansFaults(cs, l, d, s, status, RoomFor(length, l));
  }

  /** The tokens of a pattern that is well-formed text: the token array never runs out. */
  method LexText(bytes: seq<nat>, sizes: Engine.Sizes, mix: nat -> nat, ghost cs: seq<nat>)
    returns (ok: bool, tokens: seq<nat>, texts: seq<seq<nat>>)
    requires |bytes| <= 1024 && sizes.Ok() && Utf8.Encodes(bytes, cs)
    ensures ok <==> forall k :: 0 <= k < |cs| ==> Lexes(cs[k])
    ensures ok ==> tokens == TokensOf(cs) && texts == TextsOf(cs) && |cs| <= 1024
  {
    ghost var ds;
    ok, tokens, texts, ds := Tokenize(bytes, 1025, sizes, mix);
    if ok {
      Utf8.OneReading(bytes, cs, ds);
      LexedAll(cs, tokens, texts);
    }
  }

  /** Tokens and nodes of a pattern that is well-formed text; the last status is
      that of lexing and parsing. */
  method ReadText(bytes: seq<nat>, l: Limits, sizes: Engine.Sizes, mix: nat -> nat, ghost cs: seq<nat>)
    returns (status: Status, d: Source, ghost s: Syntax)
    requires LimitsReport(l) == Budget.Fine && |bytes| <= 1024 && sizes.Ok() && Utf8.Encodes(bytes, cs)
    requires forall k :: 0 <= k < |cs| ==> cs[k] != 0
    ensures GrammarOk(Table()) && NodeFault(status)
    ensures status == Ok ==> Means(cs, l, d, s) && |d.nodes| <= 8192
    ensures status != Ok ==> status == TextStatus(cs, l, |bytes|)
  {
    TableOk();
    d, s := Source([], [], 0), Syntax.Syntax(Kind.Terminal, NoNodes);
    var ok, tokens, texts := LexText(bytes, sizes, mix, cs);
    if !ok {
      return BadPattern, d, s;
    }
    var nodes;
    status, nodes := Parse(tokens);
    if status == Ok {
      d := Source(nodes, texts, l.maxRepeat);
      s := SyntaxFor(TreeOf(tokens), cs, l.maxRepeat);
    }
  }

  /** Compiles a pattern that is well-formed text. */
  method CompileText(bytes: seq<nat>, l: Limits, sizes: Engine.Sizes, mix: nat -> nat, ghost cs: seq<nat>)
    returns (status: Status, p: Program)
    requires LimitsReport(l) == Budget.Fine && |bytes| <= 1024 && sizes.Ok() && Utf8.Encodes(bytes, cs)
    requires forall k :: 0 <= k < |cs| ==> cs[k] != 0
    ensures GrammarOk(Table()) && status == TextStatus(cs, l, |bytes|) && NodeFault(status)
    ensures status == Ok ==> Compiles(p, cs, l)
  {
    p := Program([], [], 0, 0, 0, 0);
    var d;
    ghost var s;
    status, d, s := ReadText(bytes, l, sizes, mix, cs);
    if status == Ok {
      status, p := LowerParsed(d, l, |bytes|, cs, s);
      MeansCompiles(cs, l, d, s, |bytes|, status, p);
    }
  }

  // ---------- the whole ----------

  /** A pattern compiles: the limits are in order, it is well-formed text that fits,
      every scalar is one the lexer takes, the grammar accepts it without nesting
      too deep, everything in it is supported, its operands can be decoded, its
      references are to complete groups, and the caller's limits suffice. */
  ghost predicate Acceptable(bytes: seq<nat>, l: Limits, workspace: nat)
    requires GrammarOk(Table())
  {
    && FirstCheck(|bytes|, l) == Ok && workspace <= l.maxWorkspaceBytes && Utf8.Text(bytes)
    && exists cs :: Utf8.Encodes(bytes, cs) && AcceptableText(cs, l)
  }

  ghost predicate AcceptableText(cs: seq<nat>, l: Limits)
    requires Utf8.Scalars(cs) && GrammarOk(Table())
  {
    var tokens := TokensOf(cs);
    && (forall k :: 0 <= k < |cs| ==> cs[k] != 0x7DA) && !TooDeep(tokens) && Wellformed(tokens)
    && Compilable(SyntaxFor(TreeOf(tokens), cs, l.maxRepeat), Allowed(l))
  }

  /** With the arrays that are allotted a pattern compiles exactly when the caller's limits allow it. */
  lemma {:induction false} TextStatusOk(cs: seq<nat>, l: Limits, length: nat)
    requires Utf8.Scalars(cs) && 0 !in cs && LimitsReport(l) == Budget.Fine && |cs| <= length && GrammarOk(Table())
    ensures TextStatus(cs, l, length) == Ok <==> AcceptableText(cs, l)
  {
    var tokens := TokensOf(cs);
    if Wellformed(tokens) {
      AllottedSuffices(cs, l, length);
      PatternShape(cs, l, TreeOf(tokens));
      StatusExplained(SyntaxFor(TreeOf(tokens), cs, l.maxRepeat), RoomFor(length, l));
    }
  }

  /** What compiling a pattern reports: a function of its bytes, the caller's limits
      and the size of the compiler's own structure. */
  ghost function PatternStatus(bytes: seq<nat>, l: Limits, workspace: nat): Status
    requires GrammarOk(Table())
  {
    var reading := Utf8.ReadFrom(bytes, 0, []);
    if FirstCheck(|bytes|, l) != Ok then FirstCheck(|bytes|, l)
    else if reading.stop < |bytes| then
      if Utf8.StopError(bytes, reading.stop) == Budget.Argument then Argument else Encoding
    else if workspace > l.maxWorkspaceBytes then Status.Limit
    else TextStatus(reading.units, l, |bytes|)
  }

  lemma {:induction false} PatternStatusOk(bytes: seq<nat>, l: Limits, workspace: nat, cs: seq<nat>)
    requires GrammarOk(Table()) && FirstCheck(|bytes|, l) == Ok && workspace <= l.maxWorkspaceBytes
    requires Utf8.Text(bytes) && Utf8.Encodes(bytes, cs)
    ensures TextStatus(cs, l, |bytes|) == Ok <==> Acceptable(bytes, l, workspace)
  {
    Utf8.TextReads(bytes, cs);
    TextStatusOk(cs, l, |bytes|);
    forall ds | Utf8.Encodes(bytes, ds)
      ensures ds == cs
    {
      Utf8.OneReading(bytes, cs, ds);
    }
  }

  /** Compiles the bytes of a pattern; `workspace` is the size of the compiler's own
      structure. It succeeds exactly on acceptable patterns. Code takes at most
      twice as many instructions as there are bytes and one more, classes at most
      as many ranges. */
  method CompilePattern(bytes: seq<nat>, l: Limits, workspace: nat, sizes: Engine.Sizes, mix: nat -> nat)
    returns (status: Status, p: Program, ghost cs: seq<nat>)
    requires sizes.Ok()
    ensures GrammarOk(Table()) && status == PatternStatus(bytes, l, workspace)
    ensures status == Ok <==> Acceptable(bytes, l, workspace)
    ensures FirstCheck(|bytes|, l) == Ok && Utf8.Text(bytes) ==> NodeFault(status)
    ensures status == Ok ==>
              Utf8.Encodes(bytes, cs) && Compiles(p, cs, l) && |p.code| <= 2 * |bytes| + 1 && |p.ranges| <= |bytes|
  {
    TableOk();
    p, cs := Program([], [], 0, 0, 0, 0), [];
    status := FirstCheck(|bytes|, l);
    if status == Ok {
      var report;
      report, cs := Utf8.TextCheck(bytes);
      if report.Failed? {
        status := if report.error == Budget.Argument then Argument else Encoding;
      } else if workspace > l.maxWorkspaceBytes {
        status := Status.Limit;
      } else {
        Utf8.TextReads(bytes, cs);
        status, p := CompileText(bytes, l, sizes, mix, cs);
        PatternStatusOk(bytes, l, workspace, cs);
      }
    }
  }

  /** What the executor asks of a program holds of every compiled pattern. */
  lemma {:induction false} CompiledRunnable(p: Program, cs: seq<nat>, l: Limits)
    requires Utf8.Scalars(cs) && GrammarOk(Table()) && Compiles(p, cs, l)
    ensures var s := SyntaxFor(TreeOf(TokensOf(cs)), cs, l.maxRepeat);
            ProgramOf(p, s) && ShapeOk(s)
            && GroupDepth(s) <= 9
  {
    PatternShape(cs, l, TreeOf(TokensOf(cs)));
  }

  /** The grammar file's CHAR leaves out only what has a token of its own, NUL and
      surrogates. The generated ranges leave out U+07DA too, so this well-formed
      pattern of one letter is refused. */
  lemma {:induction false} LetterRefused(l: Limits, workspace: nat)
    requires GrammarOk(Table()) && FirstCheck(2, l) == Ok && workspace <= l.maxWorkspaceBytes
    ensures Utf8.Text([0xDF, 0x9A]) && PatternStatus([0xDF, 0x9A], l, workspace) == BadPattern
  {
    assert Utf8.EncodeAll([0x7DA]) == Utf8.Encode(0x7DA) + Utf8.EncodeAll([]);
    assert Utf8.Encodes([0xDF, 0x9A], [0x7DA]);
    Utf8.ReadingOf([0xDF, 0x9A], [0x7DA]);
    assert !Lexes([0x7DA][0]);
  }
}
