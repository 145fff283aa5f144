/** What a call of the executor reports: the answer, or why there is none. It is
    determined by the call unless memory is refused. */
module BreOutcome {
  import opened BreProgram
  import opened BreSyntax
  import opened BreReference
  import opened BreCompile
  import opened BreBudget
  import opened BreLimits
  import opened BreUtf8
  import opened BreAnswer
  import opened BreReading
  import opened BreOutlook

  const ANCHORED := 1

  /** What is checked before anything is read. */
  function ArgumentsReport(p: Program, bytes: nat, startByte: nat, mode: nat, l: Limits, capacity: nat): Report {
    if LimitsReport(l).Failed? then LimitsReport(l)
    else if capacity > SLOTS || mode > ANCHORED || startByte > bytes then Failed(Argument)
    else if bytes > l.maxInputBytes || |p.code| > l.maxInstructions || |p.ranges| > l.maxRanges
      || p.groups > l.maxCaptures ||
            p.depth > l.maxParseDepth || p.repeatBound > l.maxRepeat
    then Failed(Limit)
    else Fine
  }

  datatype Capture = Capture(matched: bool, startByte: nat, endByte: nat, startScalar: nat, endScalar: nat)

  datatype Outcome = Matched(captures: seq<Capture>) | NoMatch | Refused(error: Error)

  /** The span of a group in a match; group 0 is the whole match. */
  function SpanIn(start: nat, o: Out, g: nat): Span
    requires g < |o.caps|
  {
    if g > 0 then o.caps[g] else if start <= o.at then Span(start, o.at) else Unset
  }

  /** What is reported for a span, in scalars and in bytes. */
  ghost function CaptureOf(units: seq<nat>, s: Span): Capture
    requires Scalars(units) && (s.Span? ==> s.from <= |units| && s.to <= |units|)
  {
    if s.Unset? then Capture(false, 0, 0, 0, 0)
    else Capture(true, ByteAt(units, s.from), ByteAt(units, s.to), s.from, s.to)
  }

  /** A scalar of the text starts at this byte, or the text ends there. */
  ghost predicate Boundary(bytes: seq<nat>, byte: nat) {
    exists units, k: nat :: Encodes(bytes, units) && k <= |units| && ByteAt(units, k) == byte
  }

  /** What is reported for group `g` of a match. */
  ghost function Reported(p: Program, units: seq<nat>, start: nat, w: Out, g: nat): Capture
    requires Scalars(units) && g < |w.caps| && w.at <= |units|
    requires forall k :: 0 <= k < |w.caps| && w.caps[k].Span? ==> w.caps[k].from <= w.caps[k].to <= w.at
  {
    CaptureOf(units, if g <= p.groups then SpanIn(start, w, g) else Unset)
  }

  /** The outcome is the reference's answer for the text from scalar `first` on. */
  ghost predicate Answers(p: Program, m: Machine, t: Tree, first: nat, anchored: bool, capacity: nat,
                          outcome: Outcome) {
    && TreeOk(m, t) && Scalars(m.input) && first <= |m.input| &&
    match Reference(m, t, first, anchored)
    case Nothing => outcome == NoMatch
    case Found(start, best) =>
      && OutOk(m, best) && start <= best.at && outcome.Matched? && |outcome.captures| == capacity <= SLOTS
      && forall g :: 0 <= g < capacity ==> outcome.captures[g] == Reported(p, m.input, start, best, g)
  }

  /** The selected match is a match, so its spans are in order and inside the text. */
  lemma {:induction false} BestIsOk(m: Machine, t: Tree, at: nat, anchored: bool)
    requires TreeOk(m, t) && at <= |m.input|
    ensures var r := Reference(m, t, at, anchored); r.Found? ==> OutOk(m, r.best) && r.start <= r.best.at
  {
    var r := Reference(m, t, at, anchored);
    ReferenceIsBest(m, t, at, anchored);
    if r.Found? {
      var os := From(m, t, r.start);
      var i :| 0 <= i < |os| && os[i] == r.best;
      assert After(m, StartOut(r.start), os[i]);
    }
  }

  lemma {:induction false} NoBoundary(bytes: seq<nat>, units: seq<nat>, offsets: seq<nat>, byte: nat)
    requires Encodes(bytes, units) && |offsets| == |units| + 1 && OffsetsOk(units, offsets) && byte !in offsets
    ensures !Boundary(bytes, byte)
  {
    forall us, k: nat | Encodes(bytes, us) && k <= |us|
      ensures ByteAt(us, k) != byte
    {
      OneReading(bytes, units, us);
      assert offsets[k] in offsets;
    }
  }

  /** A call of the executor. */
  datatype Call = Call(p: Program, bytes: seq<nat>, startByte: nat, mode: nat, limits: Limits, capacity: nat) {
    function Checked(): Report {
      ArgumentsReport(p, |bytes|, startByte, mode, limits, capacity)
    }

    ghost function Read(): (r: Reading)
      ensures Scalars(r.units)
    {
      ReadFrom(bytes, 0, [])
    }
  }

  /** What a call has to report when memory is never refused: it is determined by
      the call. The limits only decide between an answer and LIMIT. */
  ghost predicate Decides(c: Call, s: Syntax, outcome: Outcome)
    requires ProgramOf(c.p, s) && ShapeOk(s)
  {
    if c.Checked().Failed? then outcome == Refused(c.Checked().error)
    else
      var r := c.Read();
      if r.stop > c.limits.maxSteps then outcome == Refused(Limit)
      else if r.stop < |c.bytes| then outcome == Refused(StopError(c.bytes, r.stop))
      else if !exists first: nat :: FirstAt(r.units, c.startByte, first) then outcome == Refused(Argument)
      else exists first: nat :: FirstAt(r.units, c.startByte, first) && DecidesFrom(c, s, first, outcome)
  }

  /** A call whose text can be read within the step limit. */
  ghost predicate Readable(c: Call) {
    !c.Checked().Failed? && c.Read().stop == |c.bytes| <= c.limits.maxSteps
  }

  lemma {:induction false} DecidesUnread(c: Call, s: Syntax, error: Error)
    requires ProgramOf(c.p, s) && ShapeOk(s) && !c.Checked().Failed? && !Readable(c)
    requires error == if c.Read().stop > c.limits.maxSteps then Limit else StopError(c.bytes, c.Read().stop)
    ensures Decides(c, s, Refused(error))
  {
  }

  lemma {:induction false} DecidesUnstarted(c: Call, s: Syntax)
    requires ProgramOf(c.p, s) && ShapeOk(s) && Readable(c)
    requires forall first: nat :: !FirstAt(c.Read().units, c.startByte, first)
    ensures Decides(c, s, Refused(Argument))
  {
  }

  lemma {:induction false} DecidesRun(c: Call, s: Syntax, first: nat, o: Outcome)
    requires ProgramOf(c.p, s) && ShapeOk(s) && Readable(c) && FirstAt(c.Read().units, c.startByte, first)
    requires DecidesFrom(c, s, first, o)
    ensures Decides(c, s, o)
  {
  }

  ghost predicate FirstAt(units: seq<nat>, byte: nat, first: nat)
    requires Scalars(units)
  {
    first <= |units| && ByteAt(units, first) == byte
  }

  /** The outcome of a call on a text that starts at scalar `first`. */
  ghost predicate DecidesFrom(c: Call, s: Syntax, first: nat, outcome: Outcome) {
    var m := Machine(c.p.code, c.p.ranges, c.Read().units);
    var t := Elaborate(s, 0, 0);
    && TreeOk(m, t) && first <= |m.input|
    && if TooCostly(c.p, m, t, first, c.mode == ANCHORED, |c.bytes|, c.limits.maxSteps, c.limits.maxFrames) then
       outcome == Refused(Limit)
       else Answers(c.p, m, t, first, c.mode == ANCHORED, c.capacity, outcome)
  }

  lemma {:induction false} NoFirst(units: seq<nat>, offsets: seq<nat>, byte: nat)
    requires |offsets| == |units| + 1 && OffsetsOk(units, offsets) && byte !in offsets
    ensures !exists first: nat :: FirstAt(units, byte, first)
  {
    forall first: nat | first <= |units|
      ensures ByteAt(units, first) != byte
    {
      assert offsets[first] in offsets;
    }
  }

  lemma {:induction false} ByteAtGrows(units: seq<nat>, j: nat, k: nat)
    requires Scalars(units) && j < k <= |units|
    ensures ByteAt(units, j) < ByteAt(units, k)
    decreases k
  {
    EncodeAllPush(units[..k - 1], units[k - 1]);
    assert units[..k] == units[..k - 1] + [units[k - 1]];
    if j < k - 1 {
      ByteAtGrows(units, j, k - 1);
    }
  }

  lemma {:induction false} AnswersOnce(p: Program, m: Machine, t: Tree, first: nat, anchored: bool, capacity: nat,
                                       o: Outcome, o': Outcome)
    requires Answers(p, m, t, first, anchored, capacity, o) && Answers(p, m, t, first, anchored, capacity, o')
    ensures o == o'
  {
    if Reference(m, t, first, anchored).Found? {
      assert o.captures == o'.captures;
    }
  }

  /** Where a readable call starts. */
  ghost predicate StartsAtScalar(c: Call, first: nat) {
    !c.Checked().Failed? && c.Read().stop == |c.bytes| && FirstAt(c.Read().units, c.startByte, first)
  }

  lemma {:induction false} DecidesThere(c: Call, s: Syntax, first: nat, o: Outcome)
    requires ProgramOf(c.p, s) && ShapeOk(s) && Decides(c, s, o) && StartsAtScalar(c, first)
    ensures if c.Read().stop > c.limits.maxSteps then o == Refused(Limit) else DecidesFrom(c, s, first, o)
  {
    if c.Read().stop <= c.limits.maxSteps {
      var k: nat :| FirstAt(c.Read().units, c.startByte, k) && DecidesFrom(c, s, k, o);
      SameFirst(c.Read().units, c.startByte, first, k);
    }
  }

  /** Why a call cannot be carried out. */
  ghost function Obstacle(c: Call): Error {
    if c.Checked().Failed? then c.Checked().error
    else if c.Read().stop > c.limits.maxSteps then Limit
    else if c.Read().stop < |c.bytes| then StopError(c.bytes, c.Read().stop)
    else Argument
  }

  /** A call that cannot be carried out is refused for that reason. */
  lemma {:induction false} DecidesNowhere(c: Call, s: Syntax, o: Outcome)
    requires ProgramOf(c.p, s) && ShapeOk(s) && Decides(c, s, o) && forall first: nat :: !StartsAtScalar(c, first)
    ensures o == Refused(Obstacle(c))
  {
    if !c.Checked().Failed? && c.Read().stop == |c.bytes| {
      forall first: nat
        ensures !FirstAt(c.Read().units, c.startByte, first)
      {
        assert !StartsAtScalar(c, first);
      }
    }
  }

  /** Without refused memory, a call has one outcome; a larger step limit can
      only turn LIMIT into another outcome, never change or withdraw one. */
  lemma {:induction false} RaisingStepsKeepsOutcome(c: Call, more: nat, s: Syntax, o: Outcome, o': Outcome)
    requires ProgramOf(c.p, s) && ShapeOk(s) && 0 < c.limits.maxSteps <= more
    requires Decides(c, s, o) && Decides(c.(limits := c.limits.(maxSteps := more)), s, o') && o != Refused(Limit)
    ensures o' == o
  {
    var c' := c.(limits := c.limits.(maxSteps := more));
    SameBeginning(c, c');
    if first: nat :| StartsAtScalar(c, first) {
      DecidesThere(c, s, first, o);
      DecidesThere(c', s, first, o');
      DecidesSame(c, c', s, first, o, o');
    } else {
      DecidesNowhere(c, s, o);
      DecidesNowhere(c', s, o');
    }
  }

  /** The step limit plays no part in checking the arguments and finding the start. */
  lemma {:induction false} SameBeginning(c: Call, c': Call)
    requires c' == c.(limits := c.limits.(maxSteps := c'.limits.maxSteps))
    requires 0 < c.limits.maxSteps && 0 < c'.limits.maxSteps
    ensures c'.Checked() == c.Checked() && c'.Read() == c.Read()
    ensures forall first :: StartsAtScalar(c', first) <==> StartsAtScalar(c, first)
  {
  }

  lemma {:induction false} SameFirst(units: seq<nat>, byte: nat, j: nat, k: nat)
    requires Scalars(units) && FirstAt(units, byte, j) && FirstAt(units, byte, k)
    ensures j == k
  {
    if j < k {
      ByteAtGrows(units, j, k);
    } else if k < j {
      ByteAtGrows(units, k, j);
    }
  }

  lemma {:induction false} DecidesSame(c: Call, c': Call, s: Syntax, first: nat, o: Outcome, o': Outcome)
    requires c'.limits == c.limits.(maxSteps := c'.limits.maxSteps) && c' == c.(limits := c'.limits)
    requires c.limits.maxSteps <= c'.limits.maxSteps
    requires DecidesFrom(c, s, first, o) && DecidesFrom(c', s, first, o') && o != Refused(Limit)
    ensures o' == o
  {
    var m := Machine(c.p.code, c.p.ranges, c.Read().units);
    AnswersOnce(c.p, m, Elaborate(s, 0, 0), first, c.mode == ANCHORED, c.capacity, o, o');
  }

  /** A call whose search costs more than the step limit reports LIMIT, whatever it has found. */
  lemma {:induction false} ExhaustedIsLimit(c: Call, s: Syntax, first: nat, o: Outcome)
    requires ProgramOf(c.p, s) && ShapeOk(s) && Decides(c, s, o) && StartsAtScalar(c, first)
    requires var m := Machine(c.p.code, c.p.ranges, c.Read().units);
             TreeOk(m, Elaborate(s, 0, 0)) &&
             |c.bytes| + SearchCost(m, Elaborate(s, 0, 0), c.p.entry, first, c.mode == ANCHORED) > c.limits.maxSteps
    ensures o == Refused(Limit)
  {
    DecidesThere(c, s, first, o);
  }
}
