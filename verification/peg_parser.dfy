/** The generated parser: rules over a position, a failure memo, and events that
    are rolled back. It finds exactly what the plain grammar says. */
module PegParser {
  import opened PegGrammar
  import opened PegEvents
  import opened PegTrace

  /** The events since `before` are those of `trees`, unless some were dropped. */
  ghost predicate Emitted(before: Collected, trees: Trees, after: Collected) {
    && (before.overflow ==> after.overflow)
    && (!after.overflow ==>
          after.active == before.active && after.nodes == before.nodes + FlattenAll(trees, |before.nodes|,
                before.active))
  }

  /** Whatever was there before is still there, unless events were dropped. */
  ghost predicate Behind(before: Collected, after: Collected) {
    (before.overflow ==> after.overflow) && (!after.overflow ==> before.nodes <= after.nodes)
  }

  /** What parsing part of a rule leaves behind. */
  ghost predicate Done(p: Parse, before: Collected, failed: bool, position: nat, after: Collected) {
    match p
    case Fail => failed && Behind(before, after)
    case Match(next, trees) => !failed && position == next && Emitted(before, trees, after)
  }

  lemma {:induction false} ConcatTwice<T>(a: seq<T>, b: seq<T>, c: seq<T>, x: seq<T>, y: seq<T>)
    requires b == a + x && c == b + y
    ensures c == a + (x + y)
  {
  }

  lemma {:induction false} EmittedBoth(a: Collected, b: Collected, c: Collected, xs: Trees, ys: Trees)
    requires Emitted(a, xs, b) && Emitted(b, ys, c)
    ensures Emitted(a, Append(xs, ys), c)
  {
    FlattenAppend(xs, ys, |a.nodes|, a.active);
    if !c.overflow {
      ConcatTwice(a.nodes, b.nodes, c.nodes, FlattenAll(xs, |a.nodes|, a.active), FlattenAll(ys, |b.nodes|, b.active));
    }
  }

  lemma {:induction false} AppendAssoc(a: Trees, b: Trees, c: Trees)
    ensures Append(Append(a, b), c) == Append(a, Append(b, c))
  {
    if a.Cons? {
      AppendAssoc(a.tail, b, c);
    }
  }

  lemma {:induction false} AppendNil(a: Trees)
    ensures Append(a, Nil) == a
  {
    if a.Cons? {
      AppendNil(a.tail);
    }
  }

  /** What a collector holds after a node was appended. */
  ghost predicate Added(before: Collected, isRule: bool, name: nat, after: Collected) {
    && (before.overflow ==> after.overflow)
    && (!after.overflow ==>
          after == Collected(before.nodes + [Entry(isRule, name, |before.nodes| + 1, before.active)],
                             if isRule then |before.nodes| else before.active, false, before.noted))
  }

  /** What it holds after the open rule was ended. */
  ghost predicate Ended(before: Collected, noted: bool, after: Collected) {
    && (before.overflow ==> after.overflow)
    && (!after.overflow && 0 <= before.active < |before.nodes| ==>
          var n := before.nodes[before.active];
          after == Collected(before.nodes[before.active := n.(end := |before.nodes|)], n.parent, false, noted))
  }

  lemma {:induction false} LeafEmits(before: Collected, at: nat, after: Collected)
    requires Added(before, false, at, after)
    ensures Emitted(before, Cons(Leaf(at), Nil), after)
  {
    assert FlattenAll(Cons(Leaf(at), Nil), |before.nodes|, before.active) ==
        Flatten(Leaf(at), |before.nodes|, before.active) + [];
  }

  /** A rule's node, those of its children, and its end make the rule's tree. */
  lemma {:induction false} RuleEmits(before: Collected, start: Collected, inner: Collected, after: Collected, r: nat,
                                     kids: Trees)
    requires Added(before, true, r, start) && Emitted(start, kids, inner) && Ended(inner, after.noted, after)
    ensures Emitted(before, Cons(Branch(r, kids), Nil), after)
  {
    if !after.overflow {
      var at := |before.nodes|;
      var t := Branch(r, kids);
      var nodes := FlattenAll(kids, at + 1, at);
      assert inner.nodes == before.nodes + [Entry(true, r, at + 1, before.active)] + nodes;
      assert inner.nodes[at] == Entry(true, r, at + 1, before.active);
      assert after.nodes == before.nodes + ([Entry(true, r, at + Size(t), before.active)] + nodes);
      assert FlattenAll(Cons(t, Nil), at, before.active) == Flatten(t, at, before.active) + [];
    }
  }

  /** One part of the parse, giving `trees`, and then another. */
  lemma {:induction false} ToldThen(a: Collected, b: Collected, c: Collected, room: nat, p: nat, s: bool, trees: Trees,
                                    p': nat, s': bool)
    requires Told(a, b, room, p, s) && Emitted(a, trees, b) && Told(b, c, room, p', s')
    ensures Told(a, c, room, Max(p, Sizes(trees) + p'), s || s')
  {
    if !b.overflow {
      assert |b.nodes| == |a.nodes| + Sizes(trees);
    }
  }

  /** A rule's own node, its parts, and its end. */
  lemma {:induction false} ToldRule(before: Collected, start: Collected, inner: Collected, after: Collected, room: nat,
                                    watched: nat, r: nat, kids: Trees, p: nat, s: bool)
    requires Added(before, true, r, start) && Told(before, start, room, 1, false) && Told(start, inner, room, p, s)
    requires Emitted(start, kids, inner)
    requires Ended(inner, inner.noted || r == watched, after) && (inner.noted ==> after.noted)
    requires !inner.overflow && 0 <= inner.active < |inner.nodes| ==> !after.overflow
    ensures Told(before, after, room, 1 + p, s || r == watched)
  {
    if !inner.overflow {
      assert inner.active == |before.nodes| < |inner.nodes|;
    }
  }

  class Parser {
    const g: Grammar
    const tokens: seq<nat>
    const collector: Collector
    const memo: array2<bool>
    var position: nat
    var failed: bool

    ghost predicate Valid()
      reads this, collector, collector.nodes, memo
    {
      && GrammarOk(g) && collector.Valid() && position <= |tokens| && memo.Length0 == |g|
         && memo.Length1 == |tokens| + 1
      && forall r, at :: 0 <= r < |g| && 0 <= at <= |tokens| && memo[r, at] ==> Known(r, at)
    }

    /** The rule fails there, and whatever was to be noted on the way has been. */
    ghost predicate Known(r: nat, at: nat)
      requires GrammarOk(g) && r < |g| && at <= |tokens|
      reads this, collector
    {
      && ParseRule(g, tokens, r, at).Fail?
      && (collector.overflow || collector.noted || !SeesRule(g, tokens, collector.watched, r, at))
    }

    ghost predicate Follows(before: Collected, peak: nat, seen: bool)
      requires collector.Valid()
      reads this, collector, collector.nodes
    {
      Told(before, Now(), collector.nodes.Length, peak, seen)
    }

    constructor (g: Grammar, tokens: seq<nat>, collector: Collector)
      requires GrammarOk(g) && collector.Valid()
      ensures Valid() && position == 0 && !failed && this.g == g && this.tokens == tokens && this.collector == collector
      ensures fresh(memo)
    {
      this.g, this.tokens, this.collector := g, tokens, collector;
      memo := new bool[|g|, |tokens| + 1]((_, _) => false);
      position, failed := 0, false;
    }

    ghost function Now(): Collected
      requires collector.Valid()
      reads this, collector, collector.nodes
    {
      collector.Now()
    }

    /** Consumes the expected token, if it comes next. */
    method MatchToken(token: nat) returns (ok: bool)
      requires Valid() && !failed
      modifies this`position, collector, collector.nodes
      ensures Valid()
      ensures Follows(old(Now()), Sizes(TreesOf(Token(tokens, token, old(position)))), false)
      ensures var p := Token(tokens, token, old(position));
              if p.Match? then ok && position == p.next && Emitted(old(Now()), p.trees, Now())
              else !ok && position == old(position) && Now() == old(Now())
    {
      if position >= |tokens| || tokens[position] != token {
        return false;
      }
      collector.Append(false, position);
      LeafEmits(old(Now()), position, Now());
      position := position + 1;
      ok := true;
    }

    /** Back to a checkpoint. */
    method Rewind(start: nat, mark: nat, ghost before: Collected)
      requires Valid() && start <= |tokens| && Behind(before, Now())
      requires mark / 65536 == |before.nodes| <= collector.nodes.Length
      requires mark % 65536 - 1 == before.active < collector.nodes.Length
      modifies this`position, collector
      ensures Valid() && position == start && Emitted(before, Nil, Now())
      ensures collector.overflow == old(collector.overflow) && collector.noted == old(collector.noted)
    {
      position := start;
      collector.Restore(mark);
      assert before.nodes + FlattenAll(Nil, |before.nodes|, before.active) == before.nodes;
    }

    /** One rule. A failure leaves position and events as they were. */
    method Rule(r: nat) returns (ok: bool)
      requires Valid() && !failed && r < |g|
      modifies this`position, this`failed, memo, collector, collector.nodes
      ensures Valid() && ok == !failed
      ensures Follows(old(Now()), PeakRule(g, tokens, r, old(position)),
                      SeesRule(g, tokens, collector.watched, r, old(position)))
      ensures var p := ParseRule(g, tokens, r, old(position));
              if p.Match? then ok && position == p.next && Emitted(old(Now()), p.trees, Now())
              else !ok && position == old(position) && Emitted(old(Now()), Nil, Now())
      decreases |g| - r, ItemsSize(g[r]) + 1, 1
    {
      var start := position;
      if memo[r, start] {
        failed := true;
        return false;
      }
      ok := Attempt(r);
      if !ok {
        memo[r, start] := true;
      }
    }

    /** One rule that is not known to fail here. */
    method Attempt(r: nat) returns (ok: bool)
      requires Valid() && !failed && r < |g|
      modifies this`position, this`failed, memo, collector, collector.nodes
      ensures Valid() && ok == !failed
      ensures Follows(old(Now()), PeakRule(g, tokens, r, old(position)),
                      SeesRule(g, tokens, collector.watched, r, old(position)))
      ensures var p := ParseRule(g, tokens, r, old(position));
              if p.Match? then ok && position == p.next && Emitted(old(Now()), p.trees, Now())
              else !ok && position == old(position) && Emitted(old(Now()), Nil, Now())
      decreases |g| - r, ItemsSize(g[r]) + 1, 0
    {
      var start := position;
      var mark := collector.Checkpoint();
      ghost var before := Now();
      collector.Append(true, r);
      ghost var begun := Now();
      Sequence(r, g[r]);
      ghost var inner := Now();
      ghost var peak, seen := PeakItems(g, tokens, r, g[r], start),
          SeesItems(g, tokens, collector.watched, r, g[r], start);
      ok := !failed;
      if ok {
        EndRule(r, before, begun, ParseItems(g, tokens, r, g[r], start).trees, peak, seen);
      } else {
        Rewind(start, mark, before);
        ToldFailed(before, begun, inner, Now(), collector.nodes.Length, r, peak, seen);
      }
    }

    /** The end of a rule whose items have matched. */
    method EndRule(r: nat, ghost before: Collected, ghost begun: Collected, ghost kids: Trees, ghost peak: nat,
                   ghost seen: bool)
      requires Valid() && Added(before, true, r, begun) && Emitted(begun, kids, Now())
      requires Told(before, begun, collector.nodes.Length, 1, false) && Follows(begun, peak, seen)
      modifies collector, collector.nodes
      ensures Valid() && Emitted(before, Cons(Branch(r, kids), Nil), Now())
      ensures Follows(before, 1 + peak, seen || r == collector.watched)
    {
      ghost var inner := Now();
      collector.Close(r);
      RuleEmits(before, begun, inner, Now(), r, kids);
      ToldRule(before, begun, inner, Now(), collector.nodes.Length, collector.watched, r, kids, peak, seen);
    }

    /** The items of a rule or of an alternative, one after the other. */
    method Sequence(r: nat, items: Items)
      requires Valid() && !failed && r < |g| && ItemsOk(g, r, items)
      modifies this`position, this`failed, memo, collector, collector.nodes
      ensures Valid() && Done(ParseItems(g, tokens, r, items, old(position)), old(Now()), failed, position, Now())
      ensures Follows(old(Now()), PeakItems(g, tokens, r, items, old(position)),
                      SeesItems(g, tokens, collector.watched, r, items, old(position)))
      decreases |g| - r, ItemsSize(items), 0
    {
      if items.Then? {
        ghost var before, start := Now(), position;
        One(r, items.head);
        if !failed {
          ghost var middle, at := Now(), position;
          ghost var p, q := ParseItem(g, tokens, r, items.head, start), ParseItems(g, tokens, r, items.tail, at);
          Sequence(r, items.tail);
          DoneBoth(before, middle, Now(), p, q, failed, position);
          ToldThen(before, middle, Now(), collector.nodes.Length,
                   PeakItem(g, tokens, r, items.head, start),
                   SeesItem(g, tokens, collector.watched, r, items.head, start), p.trees,
                   PeakItems(g, tokens, r, items.tail, at), SeesItems(g, tokens, collector.watched, r, items.tail, at));
        }
      }
    }

    method One(r: nat, item: Item)
      requires Valid() && !failed && r < |g| && ItemOk(g, r, item)
      modifies this`position, this`failed, memo, collector, collector.nodes
      ensures Valid() && Done(ParseItem(g, tokens, r, item, old(position)), old(Now()), failed, position, Now())
      ensures Follows(old(Now()), PeakItem(g, tokens, r, item, old(position)),
                      SeesItem(g, tokens, collector.watched, r, item, old(position)))
      decreases |g| - r, ItemSize(item), 0
    {
      match item
      case Expect(token) =>
        var ok := MatchToken(token);
        failed := !ok;
      case Many(token) =>
        SkipTokens(token);
      case Call(rule) =>
        var ok := Rule(rule);
      case Maybe(rule) =>
        Optional(rule);
      case Star(rule) =>
        var count := Repetition(rule);
      case Plus(rule) =>
        var count := Repetition(rule);
        failed := count == 0;
      case Choose(alternatives) =>
        Choice(r, alternatives);
    }

    /** Every further token of this kind. */
    method SkipTokens(token: nat)
      requires Valid() && !failed
      modifies this`position, collector, collector.nodes
      ensures Valid() && Done(ManyTokens(tokens, token, old(position)), old(Now()), failed, position, Now())
      ensures Follows(old(Now()), Sizes(TreesOf(ManyTokens(tokens, token, old(position)))), false)
    {
      ghost var done: Trees := Nil;
      ghost var all := ManyTokens(tokens, token, position);
      var more := true;
      while more
        invariant Valid() && !failed && Emitted(old(Now()), done, Now()) && Follows(old(Now()), Sizes(done), false)
        invariant all == Match(ManyTokens(tokens, token, position).next,
                               Append(done, ManyTokens(tokens, token, position).trees))
        invariant !more ==> Token(tokens, token, position).Fail?
        decreases more, |tokens| - position
      {
        ghost var at, middle := position, Now();
        ghost var one := Token(tokens, token, at);
        more := MatchToken(token);
        if more {
          EmittedBoth(old(Now()), middle, Now(), done, one.trees);
          ToldThen(old(Now()), middle, Now(), collector.nodes.Length, Sizes(done), false, done, Sizes(one.trees),
                   false);
          FlattenAppend(done, one.trees, 0, 0);
          AppendAssoc(done, one.trees, ManyTokens(tokens, token, position).trees);
          done := Append(done, one.trees);
        }
      }
      AppendNil(done);
    }

    /** A rule that may be missing. */
    method Optional(r: nat)
      requires Valid() && !failed && r < |g|
      modifies this`position, this`failed, memo, collector, collector.nodes
      ensures Valid()
      ensures var p := ParseRule(g, tokens, r, old(position));
              Done(if p.Fail? then Match(old(position), Nil) else p, old(Now()), failed, position, Now())
      ensures Follows(old(Now()), PeakRule(g, tokens, r, old(position)),
                      SeesRule(g, tokens, collector.watched, r, old(position)))
      decreases |g| - r, ItemsSize(g[r]) + 2, 0
    {
      var start := position;
      var mark := collector.Checkpoint();
      var ok := Rule(r);
      if !ok {
        Rewind(start, mark, old(Now()));
        failed := false;
      }
    }

    /** One more match of a repeated rule, if there is one. */
    method Again(r: nat, ghost done: Trees, ghost before: Collected) returns (ok: bool, ghost all: Trees)
      requires Valid() && !failed && r < |g| && Emitted(before, done, Now())
      modifies this`position, this`failed, memo, collector, collector.nodes
      ensures Valid() && !failed && Emitted(before, all, Now())
      ensures var p := ParseRule(g, tokens, r, old(position));
              if p.Match? then ok && position == p.next && all == Append(done, p.trees)
              else !ok
                   && position == old(position) && all == done
      ensures Follows(old(Now()), PeakRule(g, tokens, r, old(position)),
                      SeesRule(g, tokens, collector.watched, r, old(position)))
      decreases |g| - r, ItemsSize(g[r]) + 2, 0
    {
      all := done;
      var start := position;
      var mark := collector.Checkpoint();
      ghost var middle := Now();
      ok := Rule(r);
      if !ok {
        Rewind(start, mark, middle);
        failed := false;
        AppendNil(done);
        EmittedBoth(before, middle, Now(), done, Nil);
      } else {
        all := Append(done, ParseRule(g, tokens, r, start).trees);
        EmittedBoth(before, middle, Now(), done, ParseRule(g, tokens, r, start).trees);
      }
    }

    /** A rule as often as it matches; `count` matches consumed something. */
    method Repetition(r: nat) returns (count: nat)
      requires Valid() && !failed && r < |g|
      modifies this`position, this`failed, memo, collector, collector.nodes
      ensures Valid() && Done(ParseStar(g, tokens, r, old(position)), old(Now()), failed, position, Now())
      ensures Follows(old(Now()), PeakStar(g, tokens, r, old(position)),
                      SeesStar(g, tokens, collector.watched, r, old(position)))
      ensures count == 0 <==> position == old(position)
      decreases |g| - r, ItemsSize(g[r]) + 2, 1
    {
      count := 0;
      ghost var done: Trees := Nil;
      ghost var seen := false;
      ghost var all, peak := ParseStar(g, tokens, r, position), PeakStar(g, tokens, r, position);
      var more := true;
      while more
        invariant Valid() && !failed && old(position) <= position && Emitted(old(Now()), done, Now())
        invariant Follows(old(Now()), peak, seen)
        invariant all == if more then Continued(ParseStar(g, tokens, r, position), done) else Match(position, done)
        invariant more ==> Sizes(done) + PeakStar(g, tokens, r, position) <= peak
        invariant SeesStar(g, tokens, collector.watched, r, old(position)) <==>
                  seen
                  || (more && SeesStar(g, tokens, collector.watched, r, position))
        invariant count == 0 <==> position == old(position)
        decreases more, |tokens| - position
      {
        var start := position;
        ghost var before, middle := done, Now();
        more, done := Again(r, done, old(Now()));
        StarStep(g, tokens, r, start, before);
        ToldThen(old(Now()), middle, Now(), collector.nodes.Length, peak, seen, before,
                 PeakRule(g, tokens, r, start), SeesRule(g, tokens, collector.watched, r, start));
        seen := seen || SeesRule(g, tokens, collector.watched, r, start);
        if more {
          if position == start {
            more := false;
          } else {
            count := count + 1;
          }
        }
      }
    }

    /** The first alternative that matches. */
    method Choice(r: nat, alternatives: Alternatives)
      requires Valid() && !failed && r < |g| && ChoiceOk(g, r, alternatives)
      modifies this`position, this`failed, memo, collector, collector.nodes
      ensures Valid() && Done(ParseChoice(g, tokens, r, alternatives, old(position)), old(Now()), failed, position,
                              Now())
      ensures Follows(old(Now()), PeakChoice(g, tokens, r, alternatives, old(position)),
                      SeesChoice(g, tokens, collector.watched, r, alternatives, old(position)))
      decreases |g| - r, ChoiceSize(alternatives), 0
    {
      if alternatives.Nothing? {
        failed := true;
        return;
      }
      var start := position;
      var mark := collector.Checkpoint();
      Sequence(r, alternatives.first);
      if failed {
        Rewind(start, mark, old(Now()));
        failed := false;
        ghost var again := Now();
        Choice(r, alternatives.others);
        DoneAgain(old(Now()), again, Now(), ParseChoice(g, tokens, r, alternatives.others, start), failed, position);
        ToldThen(old(Now()), again, Now(), collector.nodes.Length,
                 PeakItems(g, tokens, r, alternatives.first, start),
                     SeesItems(g, tokens, collector.watched, r, alternatives.first, start), Nil,
                 PeakChoice(g, tokens, r, alternatives.others, start),
                     SeesChoice(g, tokens, collector.watched, r, alternatives.others, start));
      }
    }
  }

  /** A repetition that has already matched `done`. */
  function Continued(rest: Parse, done: Trees): Parse {
    if rest.Fail? then Fail else Match(rest.next, Append(done, rest.trees))
  }

  /** A rule that was tried and rolled back. */
  lemma {:induction false} ToldFailed(before: Collected, start: Collected, inner: Collected, after: Collected,
                                      room: nat, r: nat, p: nat, s: bool)
    requires Added(before, true, r, start) && Told(before, start, room, 1, false) && Told(start, inner, room, p, s)
    requires after.overflow == inner.overflow && after.noted == inner.noted
    ensures Told(before, after, room, 1 + p, s)
  {
  }

  /** One step of a repetition. */
  lemma {:induction false} StarStep(g: Grammar, ts: seq<nat>, r: nat, at: nat, done: Trees)
    requires GrammarOk(g) && r < |g| && at <= |ts|
    ensures var p := ParseRule(g, ts, r, at);
            Continued(ParseStar(g, ts, r, at), done) ==
            if p.Fail? then Match(at, done)
            else if p.next == at then Match(at, Append(done, p.trees))
            else Continued(ParseStar(g, ts, r, p.next), Append(done, p.trees))
    ensures var p := ParseRule(g, ts, r, at);
            p.Match? && p.next > at ==>
              Sizes(Append(done, p.trees)) + PeakStar(g, ts, r, p.next) <= Sizes(done) + PeakStar(g, ts, r, at)
  {
    var p := ParseRule(g, ts, r, at);
    AppendNil(done);
    if p.Match? {
      FlattenAppend(done, p.trees, 0, 0);
    }
    if p.Match? && p.next > at {
      AppendAssoc(done, p.trees, ParseStar(g, ts, r, p.next).trees);
    }
  }

  /** What is done after going back was done from before. */
  lemma {:induction false} DoneAgain(a: Collected, b: Collected, c: Collected, q: Parse, failed: bool, position: nat)
    requires Emitted(a, Nil, b) && Done(q, b, failed, position, c)
    ensures Done(q, a, failed, position, c)
  {
    if q.Match? {
      EmittedBoth(a, b, c, Nil, q.trees);
    }
  }

  /** One part of a rule after another. */
  lemma {:induction false} DoneBoth(a: Collected, b: Collected, c: Collected, p: Parse, q: Parse, failed: bool,
                                    position: nat)
    requires p.Match? && Emitted(a, p.trees, b) && Done(q, b, failed, position, c)
    ensures Done(Both(p, q), a, failed, position, c)
  {
    if q.Match? {
      EmittedBoth(a, b, c, p.trees, q.trees);
    }
  }

  /** The tree of the whole input, if the start rule matches it, up to a final end token. */
  ghost predicate Accepts(g: Grammar, tokens: seq<nat>, eof: nat)
    requires GrammarOk(g) && 0 < |g|
  {
    var p := ParseRule(g, tokens, 0, 0);
    p.Match? && (p.next == |tokens| || (p.next + 1 == |tokens| && tokens[p.next] == eof))
  }

  /** Parses a token string from the start rule. The memo changes nothing: the
      answer, the position and the events are those of the plain grammar. */
  method ParseInput(g: Grammar, tokens: seq<nat>, eof: nat, collector: Collector)
    returns (accepted: bool, position: nat)
    requires GrammarOk(g) && 0 < |g| && collector.Valid() && collector.Now() == Collected([], -1, false, false)
    modifies collector, collector.nodes
    ensures collector.Valid() && (accepted <==> Accepts(g, tokens, eof))
    ensures PeakRule(g, tokens, 0, 0) <= collector.nodes.Length ==> !collector.overflow
    ensures var p := ParseRule(g, tokens, 0, 0);
            && position == (if p.Match? then p.next else 0)
            && (!collector.overflow ==>
                  collector.Now() == Collected(if p.Match? then Flatten(p.trees.head, 0, -1) else [], -1, false,
                                               SeesRule(g, tokens, collector.watched, 0, 0)))
  {
    var parser := new Parser(g, tokens, collector);
    accepted := parser.Rule(0);
    position := parser.position;
    ghost var p := ParseRule(g, tokens, 0, 0);
    OneTree(g, tokens, 0, 0);
    if accepted {
      accepted := position == |tokens| || (position + 1 == |tokens| && tokens[position] == eof);
    }
  }

  /** A rule that matches gives one tree. */
  lemma {:induction false} OneTree(g: Grammar, ts: seq<nat>, r: nat, at: nat)
    requires GrammarOk(g) && r < |g| && at <= |ts|
    ensures var p := ParseRule(g, ts, r, at);
            p.Match? ==> p.trees.Cons? && FlattenAll(p.trees, 0, -1) == Flatten(p.trees.head, 0, -1)
  {
    var p := ParseRule(g, ts, r, at);
    if p.Match? {
      assert FlattenAll(p.trees, 0, -1) == Flatten(p.trees.head, 0, -1) + [];
    }
  }
}
