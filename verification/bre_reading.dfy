/** Reading the text: its scalars, where each starts, and how far it can be read. */
module BreReading {
  import opened BreProgram
  import opened BreBudget
  import opened BreUtf8

  /** The byte at which scalar `k` starts; the length of the text if there are only `k` scalars. */
  ghost function ByteAt(units: seq<nat>, k: nat): nat
    requires Scalars(units) && k <= |units|
  {
    |EncodeAll(units[..k])|
  }

  ghost predicate OffsetsOk(units: seq<nat>, offsets: seq<nat>) {
    Scalars(units) && |offsets| <= |units| + 1 && forall k :: 0 <= k < |offsets| ==> offsets[k] == ByteAt(units, k)
  }

  /** The scalar that starts at a byte, among the first `n`; NONE if there is none. */
  ghost predicate StartsAt(offsets: seq<nat>, byte: nat, first: nat) {
    if first == NONE then byte !in offsets else first < |offsets| && offsets[first] == byte
  }

  lemma {:induction false} OffsetsPush(units: seq<nat>, offsets: seq<nat>, c: nat)
    requires OffsetsOk(units, offsets) && |offsets| == |units| && Scalar(c)
    ensures OffsetsOk(units + [c], offsets + [|EncodeAll(units)|])
  {
    var units' := units + [c];
    var offsets' := offsets + [|EncodeAll(units)|];
    forall k | 0 <= k < |offsets'|
      ensures offsets'[k] == ByteAt(units', k)
    {
      assert units'[..k] == units[..k];
      assert units[..|units|] == units;
    }
  }

  /** The first `at` bytes are text, read as `units`. */
  ghost predicate ReadTo(bytes: seq<nat>, at: nat, units: seq<nat>, offsets: seq<nat>) {
    at <= |bytes| && Encodes(bytes[..at], units) && 0 !in bytes[..at] && OffsetsOk(units, offsets)
        && |offsets| == |units| <= at
  }

  lemma {:induction false} ReadOn(bytes: seq<nat>, at: nat, units: seq<nat>, offsets: seq<nat>, scalar: nat, next: nat)
    requires ReadTo(bytes, at, units, offsets) && at < |bytes| && Scalar(scalar) && scalar != 0
    requires next == at + |Encode(scalar)| <= |bytes| && Encode(scalar) == bytes[at..next]
    ensures ReadTo(bytes, next, units + [scalar], offsets + [at])
  {
    ReadOne(bytes, at, next, units, scalar);
    EncodesNoNul(scalar);
    OffsetsPush(units, offsets, scalar);
    assert bytes[..next] == bytes[..at] + bytes[at..next];
  }

  lemma {:induction false} ReadAll(bytes: seq<nat>, units: seq<nat>, offsets: seq<nat>)
    requires ReadTo(bytes, |bytes|, units, offsets)
    ensures Text(bytes) && Encodes(bytes, units) && OffsetsOk(units, offsets + [|bytes|])
  {
    assert bytes[..|bytes|] == bytes && units[..|units|] == units;
  }

  /** Reads the text, noting where each scalar starts and which one starts at
      `startByte`. Every byte read is a step. */
  method Decode(budget: Budget, bytes: seq<nat>, startByte: nat)
    returns (report: Report, units: seq<nat>, offsets: seq<nat>, first: nat)
    requires budget.Valid() && |bytes| < NONE && startByte <= |bytes|
    modifies budget`steps
    ensures budget.Valid()
    ensures report == Fine ==> Text(bytes) && Encodes(bytes, units) && |units| <= |bytes|
    ensures report == Fine ==>
              |offsets| == |units| + 1 && OffsetsOk(units, offsets)
              && StartsAt(offsets, startByte, first)
    ensures report.Failed? && report.error != Limit ==> !Text(bytes)
    ensures var r := ReadFrom(bytes, 0, []);
            report == if old(budget.steps) + r.stop > budget.limit then Failed(Limit)
                      else if r.stop < |bytes| then Failed(StopError(bytes, r.stop)) else Fine
    ensures var r := ReadFrom(bytes, 0, []); report == Fine ==>
              units == r.units
              && budget.steps == old(budget.steps) + |bytes|
  {
    ghost var whole := ReadFrom(bytes, 0, []);
    assert Leads(bytes, 0, [], whole);
    report, units, offsets, first := DecodeOn(budget, bytes, startByte, whole);
  }

  method DecodeOn(budget: Budget, bytes: seq<nat>, startByte: nat, ghost whole: Reading)
    returns (report: Report, units: seq<nat>, offsets: seq<nat>, first: nat)
    requires budget.Valid() && |bytes| < NONE && startByte <= |bytes| && Leads(bytes, 0, [], whole)
    modifies budget`steps
    ensures budget.Valid()
    ensures report == Fine ==> Text(bytes) && Encodes(bytes, units) && |units| <= |bytes|
    ensures report == Fine ==>
              |offsets| == |units| + 1 && OffsetsOk(units, offsets)
              && StartsAt(offsets, startByte, first)
    ensures report.Failed? && report.error != Limit ==> !Text(bytes)
    ensures report == if old(budget.steps) + whole.stop > budget.limit then Failed(Limit)
                      else if whole.stop < |bytes| then Failed(StopError(bytes, whole.stop)) else Fine
    ensures report == Fine ==> units == whole.units && budget.steps == old(budget.steps) + |bytes|
  {
    report, units, offsets, first := Fine, [], [], NONE;
    var at := 0;
    while at < |bytes|
      invariant 0 <= at <= |bytes| && budget.Valid() && report == Fine && budget.steps == old(budget.steps) + at
      invariant ReadTo(bytes, at, units, offsets) && StartsAt(offsets, startByte, first)
      invariant Leads(bytes, at, units, whole)
    {
      var scalar, next;
      report, scalar, next := BreUtf8.Next(bytes, at);
      if report.Failed? {
        NoText(bytes, at, units);
        LeadsNowhere(bytes, at, units, whole);
        return;
      }
      var more := units + [scalar];
      LeadsOn(bytes, at, units, scalar, next, more, whole);
      var ok := budget.Tick(next - at);
      if !ok {
        return Failed(Limit), units, offsets, first;
      }
      if at == startByte {
        first := |units|;
      }
      ReadOn(bytes, at, units, offsets, scalar, next);
      offsets := offsets + [at];
      units := more;
      at := next;
    }
    LeadsNowhere(bytes, at, units, whole);
    ReadAll(bytes, units, offsets);
    offsets := offsets + [|bytes|];
    if startByte == |bytes| {
      first := |units|;
    }
  }
}
