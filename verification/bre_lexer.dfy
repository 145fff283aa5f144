/** The generated lexer on BRE patterns: the longest match of the pattern table,
    at one position after the other, makes one token of every scalar. */
module BreLexer {
  import opened OrderedProgram
  import opened OrderedMachine
  import opened OrderedRun
  import Engine = OrderedEngine
  import opened BrePatterns
  import Utf8 = BreUtf8

  const EOF := 1

  // ---------- scalars and units ----------

  /** The unit that scalar number `k` starts at. */
  ghost function UnitAt(cs: seq<nat>, k: nat): nat
    requires Utf8.Scalars(cs) && k <= |cs|
  {
    |Utf8.Utf16All(cs[..k])|
  }

  lemma {:induction false} UnitsJoin(a: seq<nat>, b: seq<nat>)
    requires Utf8.Scalars(a) && Utf8.Scalars(b)
    ensures Utf8.Utf16All(a + b) == Utf8.Utf16All(a) + Utf8.Utf16All(b)
    decreases |a|
  {
    if a == [] {
      assert a + b == b;
    } else {
      UnitsJoin(a[1..], b);
      assert (a + b)[0] == a[0] && (a + b)[1..] == a[1..] + b;
      Associate(Utf8.Utf16(a[0]), Utf8.Utf16All(a[1..]), Utf8.Utf16All(b));
    }
  }

  lemma {:induction false} Associate(a: seq<nat>, b: seq<nat>, c: seq<nat>)
    ensures a + b + c == a + (b + c)
  {
  }

  /** The units of scalar number `k` stand where it starts. */
  lemma {:induction false} UnitsThere(cs: seq<nat>, k: nat)
    requires Utf8.Scalars(cs) && k < |cs|
    ensures var units := Utf8.Utf16All(cs);
            && UnitAt(cs, k + 1) == UnitAt(cs, k) + |Utf8.Utf16(cs[k])| <= |units|
            && units[UnitAt(cs, k)..UnitAt(cs, k + 1)] == Utf8.Utf16(cs[k])
  {
    assert cs == cs[..k + 1] + cs[k + 1..] && cs[..k + 1] == cs[..k] + [cs[k]];
    UnitsJoin(cs[..k + 1], cs[k + 1..]);
    Utf8.Utf16Push(cs[..k], cs[k]);
  }

  /** The unit there tells the scalar, unless it needs a pair. */
  lemma {:induction false} UnitThere(cs: seq<nat>, k: nat)
    requires Utf8.Scalars(cs) && k <= |cs|
    ensures var units, at := Utf8.Utf16All(cs), UnitAt(cs, k);
            && (k == |cs| <==> at == |units|) && at <= |units|
            && (k < |cs| ==> if cs[k] > 0xFFFF then UnitAt(cs, k + 1) == at + 2 && Pair(units, at)
                             else UnitAt(cs, k + 1) == at + 1 && units[at] == cs[k])
  {
    var units, at := Utf8.Utf16All(cs), UnitAt(cs, k);
    if k < |cs| {
      UnitsThere(cs, k);
      var mine := Utf8.Utf16(cs[k]);
      assert units[at] == mine[0] && (|mine| == 2 ==> units[at + 1] == mine[1]);
    } else {
      assert cs[..k] == cs;
    }
  }

  lemma {:induction false} UnitsSmall(cs: seq<nat>)
    requires Utf8.Scalars(cs)
    ensures forall i :: 0 <= i < |Utf8.Utf16All(cs)| ==> Utf8.Utf16All(cs)[i] <= MAX_UNIT
    decreases |cs|
  {
    if cs != [] {
      UnitsSmall(cs[1..]);
    }
  }

  // ---------- which pattern matches ----------

  /** The scalars after a dollar sign make it an anchor, those after a bracket an opening of its own kind. */
  predicate EndsSequence(cs: seq<nat>, k: nat)
    requires k < |cs|
  {
    k + 1 == |cs| || (k + 2 < |cs| && cs[k + 1] == 92 && cs[k + 2] == 41)
  }

  predicate StartsSpecial(cs: seq<nat>, k: nat)
    requires k < |cs|
  {
    k + 1 < |cs| && cs[k + 1] in [58, 46, 61]
  }

  /** The first pattern that matches at scalar number `k`; COUNT if there is none. */
  function PatternOf(cs: seq<nat>, k: nat): (i: nat)
    requires k < |cs|
    ensures i <= COUNT
  {
    var c := cs[k];
    if c == 36 then if EndsSequence(cs, k) then 0 else 10
    else if c == 91 then if StartsSpecial(cs, k) then 1 else 7
    else if c == 92 then 2
    else if c == 40 then 3
    else if c == 41 then 4
    else if c == 123 then 5
    else if c == 125 then 6
    else if c == 93 then 8
    else if c == 94 then 9
    else if c == 42 then 11
    else if c == 46 then 12
    else if c == 43 then 13
    else if c == 63 then 14
    else if c == 124 then 15
    else if c == 45 then 16
    else if c == 58 then 17
    else if c == 61 then 18
    else if c == 44 then 19
    else if 97 <= c <= 122 then 20
    else if 48 <= c <= 57 then 21
    else if c == 0 || c == 0x7DA then COUNT
    else 22
  }

  /** The token of scalar number `k`. */
  function TokenOf(cs: seq<nat>, k: nat): nat
    requires k < |cs|
  {
    PatternOf(cs, k) + 2
  }

  /** Scalars that some pattern matches: all but NUL and U+07DA. */
  predicate Lexes(c: nat) {
    c != 0 && c != 0x7DA
  }

  lemma {:induction false} PatternExists(cs: seq<nat>, k: nat)
    requires k < |cs|
    ensures Lexes(cs[k]) <==> PatternOf(cs, k) < COUNT
  {
  }

  /** What pattern `i` does with a scalar of one unit, as far as the scalar decides. */
  predicate Takes(i: nat, cs: seq<nat>, k: nat)
    requires k < |cs|
  {
    var c := cs[k];
    if i == 0 then c == 36 && EndsSequence(cs, k)
    else if i == 1 then c == 91 && StartsSpecial(cs, k)
    else if i < 20 then c == UnitOf(i)
    else if i == 20 then 97 <= c <= 122
    else if i == 21 then 48 <= c <= 57
    else c > 0xFFFF || !Excluded(c)
  }

  /** The first pattern that takes a scalar is the one named. */
  lemma {:induction false} FirstTaker(cs: seq<nat>, k: nat, i: nat)
    requires k < |cs| && i < COUNT && Utf8.Scalar(cs[k])
    ensures Takes(i, cs, k) ==> PatternOf(cs, k) <= i
    ensures i == PatternOf(cs, k) ==> Takes(i, cs, k)
  {
  }

  /** A scalar in the basic plane is one unit, and the units after it tell whether
      these scalars follow. */
  lemma {:induction false} FollowedBy(cs: seq<nat>, k: nat, c: nat)
    requires Utf8.Scalars(cs) && k < |cs| && cs[k] <= 0xFFFF && c < 0xD800
    ensures var units, at := Utf8.Utf16All(cs), UnitAt(cs, k);
            && at < |units| && units[at] == cs[k] && UnitAt(cs, k + 1) == at + 1
               && (at + 1 == |units| <==> k + 1 == |cs|)
            && (at + 1 < |units| && units[at + 1] == c <==> k + 1 < |cs| && cs[k + 1] == c)
  {
    UnitThere(cs, k);
    UnitThere(cs, k + 1);
  }

  lemma {:induction false} FollowedByTwo(cs: seq<nat>, k: nat, c: nat, d: nat)
    requires Utf8.Scalars(cs) && k < |cs| && cs[k] <= 0xFFFF && c < 0xD800 && d < 0xD800
    ensures var units, at := Utf8.Utf16All(cs), UnitAt(cs, k);
            at + 2 < |units| && units[at + 1] == c && units[at + 2] == d <==>
                k + 2 < |cs| && cs[k + 1] == c
                && cs[k + 2] == d
  {
    FollowedBy(cs, k, c);
    if k + 1 < |cs| && cs[k + 1] == c {
      FollowedBy(cs, k + 1, d);
    }
  }

  lemma {:induction false} EndDollarThere(cs: seq<nat>, k: nat)
    requires Utf8.Scalars(cs) && k < |cs| && cs[k] == 36
    ensures var units, at := Utf8.Utf16All(cs), UnitAt(cs, k);
            at < |units| && UnitAt(cs, k + 1) == at + 1 && units[at] == 36
                && (EndOf(0, units, at).EndAt? <==> EndsSequence(cs, k))
  {
    FollowedBy(cs, k, 92);
    FollowedByTwo(cs, k, 92, 41);
  }

  lemma {:induction false} OpenSpecialThere(cs: seq<nat>, k: nat)
    requires Utf8.Scalars(cs) && k < |cs| && cs[k] == 91
    ensures var units, at := Utf8.Utf16All(cs), UnitAt(cs, k);
            at < |units| && UnitAt(cs, k + 1) == at + 1 && units[at] == 91
                && (EndOf(1, units, at).EndAt? <==> StartsSpecial(cs, k))
  {
    FollowedBy(cs, k, 58);
    FollowedBy(cs, k, 46);
    FollowedBy(cs, k, 61);
  }

  /** A pattern that matches where a scalar starts ends where the scalar does. */
  lemma {:induction false} EndsThere(cs: seq<nat>, k: nat, i: nat)
    requires Utf8.Scalars(cs) && k < |cs| && i < COUNT
    ensures UnitAt(cs, k) < |Utf8.Utf16All(cs)|
    ensures EndOf(i, Utf8.Utf16All(cs), UnitAt(cs, k)) == if Takes(i, cs, k) then EndAt(UnitAt(cs, k + 1)) else NoMatch
  {
    UnitThere(cs, k);
    if i == 0 && cs[k] == 36 {
      EndDollarThere(cs, k);
    } else if i == 1 && cs[k] == 91 {
      OpenSpecialThere(cs, k);
    } else {
      EndsAlone(Utf8.Utf16All(cs), UnitAt(cs, k), cs, k, i);
    }
  }

  /** Where the scalars that follow play no part. */
  lemma {:induction false} EndsAlone(units: seq<nat>, at: nat, cs: seq<nat>, k: nat, i: nat)
    requires at < |units| && k < |cs| && i < COUNT && (i == 0 ==> cs[k] != 36) && (i == 1 ==> cs[k] != 91)
    requires if cs[k] > 0xFFFF then Pair(units, at) else units[at] == cs[k] && Utf8.Scalar(cs[k])
    ensures EndOf(i, units, at) == if Takes(i, cs, k) then EndAt(at + if cs[k] > 0xFFFF then 2 else 1) else NoMatch
  {
  }

  // ---------- the longest match ----------

  datatype Pick = NoPick | Pick(index: nat, end: nat)

  /** The longest of the matches of the first `n` patterns, the first of several. */
  ghost function Best(units: seq<nat>, pos: nat, n: nat): Pick
    requires pos < |units| && n <= COUNT
  {
    if n == 0 then NoPick
    else
      var best := Best(units, pos, n - 1);
      match EndOf(n - 1, units, pos)
      case EndAt(end) => if end > pos && (best.NoPick? || end > best.end) then Pick(n - 1, end) else best
      case _ => best
  }

  /** At a scalar the longest match is the scalar, by the first pattern that takes it. */
  lemma {:induction false} BestThere(cs: seq<nat>, k: nat, n: nat)
    requires Utf8.Scalars(cs) && k < |cs| && n <= COUNT
    ensures UnitAt(cs, k) < |Utf8.Utf16All(cs)|
    ensures Best(Utf8.Utf16All(cs), UnitAt(cs, k), n) ==
            if PatternOf(cs, k) < n then Pick(PatternOf(cs, k), UnitAt(cs, k + 1)) else NoPick
    decreases n
  {
    UnitThere(cs, k);
    if n > 0 {
      BestThere(cs, k, n - 1);
      EndsThere(cs, k, n - 1);
      FirstTaker(cs, k, n - 1);
    }
  }

  /** What the engine answers for one pattern. */
  lemma {:induction false} EngineAnswers(i: nat, units: seq<nat>, pos: nat)
    requires i < COUNT && pos < |units| <= INT_MAX - 1 && forall k :: 0 <= k < |units| ==> units[k] <= MAX_UNIT
    ensures Engine.ArgumentsOk(ProgramAt(i), units, pos)
    ensures Reference(Run(ProgramAt(i), units, pos, 0)) == EndOf(i, units, pos)
  {
    var p := ProgramAt(i);
    PatternEnds(i, units, pos);
    EvalIsPlain(p, units, p.entry, pos, 0, map[]);
  }

  /** Tries all patterns at one position. */
  method Longest(units: seq<nat>, pos: nat, sizes: Engine.Sizes, mix: nat -> nat) returns (best: int, bestEnd: int)
    requires pos < |units| <= INT_MAX - 1 && sizes.Ok() && forall k :: 0 <= k < |units| ==> units[k] <= MAX_UNIT
    ensures best >= 0 ==> pos < bestEnd
    ensures Best(units, pos, COUNT) == if best < 0 then NoPick else Pick(best, bestEnd)
  {
    best, bestEnd := -1, -1;
    var patterns := Patterns();
    for index := 0 to COUNT
      invariant best >= 0 ==> pos < bestEnd
      invariant Best(units, pos, index) == if best < 0 then NoPick else Pick(best, bestEnd)
    {
      EngineAnswers(index, units, pos);
      var outcome := Engine.Exec(patterns[index].program, units, pos, Engine.Limits(0, 0, 0), sizes, mix);
      var end := if outcome.Answered? && outcome.answer.EndAt? then outcome.answer.end as int else -1;
      if end <= pos {
        continue;
      }
      if best < 0 || end > bestEnd {
        best, bestEnd := index, end;
      }
    }
  }

  // ---------- the position loop ----------

  /** One token for each of the first `k` scalars. */
  ghost predicate Lexed(cs: seq<nat>, k: nat, tokens: seq<nat>, texts: seq<seq<nat>>)
    requires Utf8.Scalars(cs)
  {
    && k <= |cs| && |tokens| == |texts| == k
    && forall j :: 0 <= j < k ==> Lexes(cs[j]) && tokens[j] == TokenOf(cs, j) && texts[j] == Utf8.Encode(cs[j])
  }

  lemma {:induction false} LexedMore(cs: seq<nat>, k: nat, tokens: seq<nat>, texts: seq<seq<nat>>, token: nat,
                                     text: seq<nat>)
    requires Utf8.Scalars(cs) && Lexed(cs, k, tokens, texts) && k < |cs| && Lexes(cs[k]) && token == TokenOf(cs, k)
    requires text == Utf8.Encode(cs[k])
    ensures Lexed(cs, k + 1, tokens + [token], texts + [text])
  {
  }

  /** The offset recorded where a scalar starts, or at the end. */
  lemma {:induction false} StartThere(s: seq<nat>, cs: seq<nat>, k: nat)
    requires Utf8.Encodes(s, cs) && k <= |cs|
    ensures var offsets := Utf8.Offsets(cs) + [|s|];
            UnitAt(cs, k) < |offsets| && offsets[UnitAt(cs, k)] == |Utf8.EncodeAll(cs[..k])|
  {
    Utf8.OffsetsSize(cs);
    if k < |cs| {
      OffsetThere(cs, k);
    } else {
      assert cs[..k] == cs;
    }
  }

  /** The bytes of a scalar, found through the offsets of its units. */
  lemma {:induction false} TextThere(s: seq<nat>, cs: seq<nat>, k: nat, offsets: seq<nat>)
    requires Utf8.Encodes(s, cs) && k < |cs| && offsets == Utf8.Offsets(cs) + [|s|]
    ensures UnitAt(cs, k) < |offsets| && UnitAt(cs, k + 1) < |offsets|
    ensures var from, to := offsets[UnitAt(cs, k)], offsets[UnitAt(cs, k + 1)];
            from <= to <= |s| && s[from..to] == Utf8.Encode(cs[k])
  {
    StartThere(s, cs, k);
    StartThere(s, cs, k + 1);
    BytesThere(s, cs, k);
  }

  /** The offsets of the last scalar's units. */
  lemma {:induction false} LastOffset(cs: seq<nat>)
    requires Utf8.Scalars(cs) && cs != []
    ensures var n := |cs| - 1;
            && |Utf8.Offsets(cs[..n])| == UnitAt(cs, n) < |Utf8.Offsets(cs)|
            && Utf8.Offsets(cs)[..UnitAt(cs, n)] == Utf8.Offsets(cs[..n])
            && Utf8.Offsets(cs)[UnitAt(cs, n)] == |Utf8.EncodeAll(cs[..n])|
  {
    Utf8.OffsetsSize(cs[..|cs| - 1]);
  }

  lemma {:induction false} PrefixThrough(a: seq<nat>, b: seq<nat>, c: seq<nat>, n: nat)
    requires n <= |b| && a == b[..n] && b <= c
    ensures a <= c
  {
  }

  lemma {:induction false} OffsetsStep(cs: seq<nat>, n: nat)
    requires Utf8.Scalars(cs) && n < |cs|
    ensures Utf8.Offsets(cs[..n]) <= Utf8.Offsets(cs[..n + 1])
  {
    var more := cs[..n + 1];
    assert more[..n] == cs[..n] && |more| - 1 == n;
    LastOffset(more);
    PrefixThrough(Utf8.Offsets(cs[..n]), Utf8.Offsets(more), Utf8.Offsets(more), UnitAt(more, n));
  }

  lemma {:induction false} OffsetsGrow(cs: seq<nat>, n: nat)
    requires Utf8.Scalars(cs) && n <= |cs|
    ensures Utf8.Offsets(cs[..n]) <= Utf8.Offsets(cs)
    decreases |cs| - n
  {
    if n < |cs| {
      OffsetsStep(cs, n);
      OffsetsGrow(cs, n + 1);
    } else {
      assert cs[..n] == cs;
    }
  }

  /** The offset of a scalar's first unit is the length of what comes before it. */
  lemma {:induction false} OffsetThere(cs: seq<nat>, k: nat)
    requires Utf8.Scalars(cs) && k < |cs|
    ensures UnitAt(cs, k) < |Utf8.Offsets(cs)| && Utf8.Offsets(cs)[UnitAt(cs, k)] == |Utf8.EncodeAll(cs[..k])|
  {
    LastOffset(cs[..k + 1]);
    assert cs[..k + 1][..k] == cs[..k];
    OffsetsGrow(cs, k + 1);
  }

  lemma {:induction false} BytesJoin(a: seq<nat>, b: seq<nat>)
    requires Utf8.Scalars(a) && Utf8.Scalars(b)
    ensures Utf8.EncodeAll(a + b) == Utf8.EncodeAll(a) + Utf8.EncodeAll(b)
    decreases |a|
  {
    if a == [] {
      assert a + b == b;
    } else {
      BytesJoin(a[1..], b);
      assert (a + b)[1..] == a[1..] + b;
    }
  }

  lemma {:induction false} BytesThere(s: seq<nat>, cs: seq<nat>, k: nat)
    requires Utf8.Encodes(s, cs) && k < |cs|
    ensures var from, to := |Utf8.EncodeAll(cs[..k])|, |Utf8.EncodeAll(cs[..k + 1])|;
            from <= to <= |s| && s[from..to] == Utf8.Encode(cs[k])
  {
    assert cs == cs[..k + 1] + cs[k + 1..] && cs[..k + 1] == cs[..k] + [cs[k]];
    BytesJoin(cs[..k + 1], cs[k + 1..]);
    Utf8.EncodeAllPush(cs[..k], cs[k]);
  }

  /** The token at one position; 0 if there is none. */
  method NextToken(units: seq<nat>, position: nat, sizes: Engine.Sizes, mix: nat -> nat, ghost cs: seq<nat>,
                   ghost k: nat)
    returns (token: nat, end: nat)
    requires Utf8.Scalars(cs) && k < |cs| && units == Utf8.Utf16All(cs) && position == UnitAt(cs, k)
    requires |units| <= INT_MAX - 1 && sizes.Ok()
    ensures (token == 0 <==> !Lexes(cs[k])) && (token != 0 ==> token == TokenOf(cs, k) && end == UnitAt(cs, k + 1))
  {
    UnitsSmall(cs);
    BestThere(cs, k, COUNT);
    PatternExists(cs, k);
    var best, bestEnd := Longest(units, position, sizes, mix);
    if best < 0 {
      return 0, 0;
    }
    return Patterns()[best].token, bestEnd;
  }

  /** Splits a pattern into tokens: one for every scalar and one for the end. It
      succeeds exactly on well-formed text without NUL and U+07DA that has room. */
  method Tokenize(s: seq<nat>, capacity: nat, sizes: Engine.Sizes, mix: nat -> nat)
    returns (ok: bool, tokens: seq<nat>, texts: seq<seq<nat>>, ghost cs: seq<nat>)
    requires |s| <= INT_MAX - 1 && sizes.Ok() && capacity > 0
    ensures ok ==> Utf8.Encodes(s, cs)
    ensures ok ==> |cs| < capacity && |tokens| == |cs| + 1 <= |s| + 1 && |texts| == |tokens|
    ensures ok ==> Lexed(cs, |cs|, tokens[..|cs|], texts[..|cs|]) && tokens[|cs|] == EOF && texts[|cs|] == []
    ensures !ok ==> forall ds :: Utf8.Encodes(s, ds) ==> |ds| >= capacity || exists j :: 0 <= j < |ds| && !Lexes(ds[j])
  {
    tokens, texts, cs := [], [], [];
    var units, offsets;
    ok, units, offsets, cs := Utf8.LexDecode(s);
    if !ok {
      return;
    }
    var position := 0;
    ghost var k := 0;
    while position < |units|
      invariant Lexed(cs, k, tokens, texts) && position == UnitAt(cs, k) <= |units| && k < capacity
    {
      UnitThere(cs, k);
      var token, end := NextToken(units, position, sizes, mix, cs, k);
      if token == 0 || |tokens| + 1 >= capacity {
        Refused(s, cs, k, capacity);
        ok := false;
        return;
      }
      TextThere(s, cs, k, offsets);
      var text := s[offsets[position]..offsets[end]];
      LexedMore(cs, k, tokens, texts, token, text);
      tokens, texts := tokens + [token], texts + [text];
      position := end;
      k := k + 1;
    }
    UnitThere(cs, k);
    tokens, texts := tokens + [EOF], texts + [[]];
    ok := true;
  }

  /** Where the loop stops, every reading of the text is at fault. */
  lemma {:induction false} Refused(s: seq<nat>, cs: seq<nat>, k: nat, capacity: nat)
    requires Utf8.Encodes(s, cs) && k < |cs| && (!Lexes(cs[k]) || k + 1 >= capacity)
    ensures forall ds :: Utf8.Encodes(s, ds) ==> |ds| >= capacity || exists j :: 0 <= j < |ds| && !Lexes(ds[j])
  {
    forall ds | Utf8.Encodes(s, ds)
      ensures |ds| >= capacity || exists j :: 0 <= j < |ds| && !Lexes(ds[j])
    {
      Utf8.OneReading(s, cs, ds);
    }
  }
}
