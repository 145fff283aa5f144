/** UTF-8 as sections 3 and 4 of RFC 3629 define it, and the two decoders that
    read it: the executor's, to scalars, and the lexer's, to UTF-16 units. */
module BreUtf8 {
  import opened Folding
  import opened BreBudget

  predicate Scalar(c: nat) {
    c <= 0x10_FFFF && !(0xD800 <= c <= 0xDFFF)
  }

  predicate Bytes(s: seq<nat>) {
    forall i :: 0 <= i < |s| ==> s[i] < 256
  }

  /** The bytes of one scalar. */
  function Encode(c: nat): (r: seq<nat>)
    requires Scalar(c)
    ensures 1 <= |r| <= 4 && Bytes(r)
  {
    if c < 0x80 then [c]
    else if c < 0x800 then [0xC0 + c / 0x40, 0x80 + c % 0x40]
    else if c < 0x1_0000 then [0xE0 + c / 0x40 / 0x40, 0x80 + c / 0x40 % 0x40, 0x80 + c % 0x40]
    else [0xF0 + c / 0x40 / 0x40 / 0x40, 0x80 + c / 0x40 / 0x40 % 0x40, 0x80 + c / 0x40 % 0x40, 0x80 + c % 0x40]
  }

  function EncodeAll(cs: seq<nat>): (r: seq<nat>)
    requires forall i :: 0 <= i < |cs| ==> Scalar(cs[i])
    ensures |cs| <= |r|
  {
    if cs == [] then [] else Encode(cs[0]) + EncodeAll(cs[1..])
  }

  // ---------- one scalar ----------

  /** Continuation bytes a lead byte asks for; 4 if it is no lead byte. */
  function More(lead: nat): nat {
    if lead < 0x80 then 0
    else if 194 <= lead <= 223 then 1
    else if 224 <= lead <= 239 then 2
    else if 240 <= lead <= 244 then 3
    else 4
  }

  /** The payload bits of a lead byte. */
  function Payload(lead: nat): nat {
    match More(lead)
    case 0 => lead
    case 1 => lead % 32
    case 2 => lead % 16
    case _ => lead % 8
  }

  /** The least scalar that needs so many continuation bytes. */
  function Least(more: nat): nat {
    match more
    case 0 => 0
    case 1 => 0x80
    case 2 => 0x800
    case _ => 0x1_0000
  }

  predicate Continuation(b: nat) {
    0x80 <= b < 0xC0
  }

  /** Six more bits from each continuation byte. */
  function Fold(value: nat, rest: seq<nat>): nat {
    if rest == [] then value else Fold(value, rest[..|rest| - 1]) * 64 + rest[|rest| - 1] % 64
  }

  /** `s` starts with a lead byte and its continuation bytes. */
  predicate Framed(s: seq<nat>) {
    s != [] && More(s[0]) + 1 <= |s| && More(s[0]) < 4 && forall i :: 1 <= i <= More(s[0]) ==> Continuation(s[i])
  }

  function ValueOf(s: seq<nat>): nat
    requires Framed(s)
  {
    Fold(Payload(s[0]), s[1..More(s[0]) + 1])
  }

  /** Not overlong and a scalar. */
  predicate WellFormed(s: seq<nat>) {
    Framed(s) && Least(More(s[0])) <= ValueOf(s) && Scalar(ValueOf(s))
  }

  lemma {:induction false} FoldValues(value: nat, a: nat, b: nat, c: nat)
    ensures Fold(value, []) == value
    ensures Fold(value, [a]) == value * 64 + a % 64
    ensures Fold(value, [a, b]) == (value * 64 + a % 64) * 64 + b % 64
    ensures Fold(value, [a, b, c]) == ((value * 64 + a % 64) * 64 + b % 64) * 64 + c % 64
  {
    assert [a][..0] == [] && [a, b][..1] == [a] && [a, b, c][..2] == [a, b];
  }

  /** Six bits appended and taken off again. */
  lemma {:induction false} Append6(q: nat, b: nat)
    requires Continuation(b)
    ensures (q * 64 + b % 64) / 64 == q && 0x80 + (q * 64 + b % 64) % 64 == b
  {
    assert b % 64 == b - 128;
  }

  lemma {:induction false} Take6(c: nat)
    ensures Continuation(0x80 + c % 0x40) && (c / 64) * 64 + (0x80 + c % 0x40) % 64 == c
  {
  }

  /** The payload of a lead byte is what was added to its class. */
  lemma {:induction false} LeadPayload(lead: nat)
    requires 1 <= More(lead) <= 3
    ensures lead == Payload(lead) + (if More(lead) == 1 then 0xC0 else if More(lead) == 2 then 0xE0 else 0xF0)
  {
  }

  /** A well-formed sequence starts with the encoding of its value. */
  lemma {:induction false} DecodedEncodes(s: seq<nat>)
    requires WellFormed(s)
    ensures |Encode(ValueOf(s))| == More(s[0]) + 1 && Encode(ValueOf(s)) == s[..More(s[0]) + 1]
  {
    var more, p := More(s[0]), Payload(s[0]);
    if more == 0 {
      FoldValues(p, 0, 0, 0);
      assert s[1..1] == [];
    } else {
      LeadPayload(s[0]);
      if more == 1 {
        DecodedTwo(s);
      } else if more == 2 {
        DecodedThree(s);
      } else {
        DecodedFour(s);
      }
    }
  }

  lemma {:induction false} DecodedTwo(s: seq<nat>)
    requires WellFormed(s) && More(s[0]) == 1
    ensures Encode(ValueOf(s)) == [0xC0 + Payload(s[0]), s[1]]
  {
    FoldValues(Payload(s[0]), s[1], 0, 0);
    assert s[1..2] == [s[1]];
    TwoBytes(ValueOf(s), Payload(s[0]), s[1]);
  }

  lemma {:induction false} DecodedThree(s: seq<nat>)
    requires WellFormed(s) && More(s[0]) == 2
    ensures Encode(ValueOf(s)) == [0xE0 + Payload(s[0]), s[1], s[2]]
  {
    FoldValues(Payload(s[0]), s[1], s[2], 0);
    assert s[1..3] == [s[1], s[2]];
    ThreeBytes(ValueOf(s), Payload(s[0]), s[1], s[2]);
  }

  lemma {:induction false} DecodedFour(s: seq<nat>)
    requires WellFormed(s) && More(s[0]) == 3
    ensures Encode(ValueOf(s)) == [0xF0 + Payload(s[0]), s[1], s[2], s[3]]
  {
    FoldValues(Payload(s[0]), s[1], s[2], s[3]);
    assert s[1..4] == [s[1], s[2], s[3]];
    FourBytes(ValueOf(s), Payload(s[0]), s[1], s[2], s[3]);
  }

  lemma {:induction false} TwoBytes(c: nat, p: nat, a: nat)
    requires Scalar(c) && 0x80 <= c && p < 32 && Continuation(a) && c == p * 64 + a % 64
    ensures Encode(c) == [0xC0 + p, a]
  {
    Append6(p, a);
  }

  lemma {:induction false} ThreeBytes(c: nat, p: nat, a: nat, b: nat)
    requires Scalar(c) && 0x800 <= c && p < 16 && Continuation(a) && Continuation(b)
    requires c == (p * 64 + a % 64) * 64 + b % 64
    ensures Encode(c) == [0xE0 + p, a, b]
  {
    Append6(p * 64 + a % 64, b);
    Append6(p, a);
  }

  lemma {:induction false} FourBytes(c: nat, p: nat, a: nat, b: nat, d: nat)
    requires Scalar(c) && 0x1_0000 <= c && p < 8 && Continuation(a) && Continuation(b) && Continuation(d)
    requires c == ((p * 64 + a % 64) * 64 + b % 64) * 64 + d % 64
    ensures Encode(c) == [0xF0 + p, a, b, d]
  {
    Append6((p * 64 + a % 64) * 64 + b % 64, d);
    Append6(p * 64 + a % 64, b);
    Append6(p, a);
  }

  lemma {:induction false} FromTwo(c: nat, s: seq<nat>)
    requires Scalar(c) && 0x80 <= c < 0x800 && |s| >= 2 && s[0] == 0xC0 + c / 64 && s[1] == 0x80 + c % 64
    ensures WellFormed(s) && ValueOf(s) == c && More(s[0]) == 1
  {
    Take6(c);
    assert More(s[0]) == 1 && Payload(s[0]) == c / 64;
    FoldValues(c / 64, s[1], 0, 0);
    assert s[1..2] == [s[1]];
  }

  lemma {:induction false} FromThree(c: nat, s: seq<nat>)
    requires Scalar(c) && 0x800 <= c < 0x1_0000 && |s| >= 3
    requires s[0] == 0xE0 + c / 64 / 64 && s[1] == 0x80 + c / 64 % 64 && s[2] == 0x80 + c % 64
    ensures WellFormed(s) && ValueOf(s) == c && More(s[0]) == 2
  {
    Take6(c);
    Take6(c / 64);
    assert More(s[0]) == 2 && Payload(s[0]) == c / 64 / 64;
    FoldValues(c / 64 / 64, s[1], s[2], 0);
    assert s[1..3] == [s[1], s[2]];
  }

  lemma {:induction false} FromFour(c: nat, s: seq<nat>)
    requires Scalar(c) && 0x1_0000 <= c && |s| >= 4
    requires s[0] == 0xF0 + c / 64 / 64 / 64 && s[1] == 0x80 + c / 64 / 64 % 64 && s[2] == 0x80 + c / 64 % 64
    requires s[3] == 0x80 + c % 64
    ensures WellFormed(s) && ValueOf(s) == c && More(s[0]) == 3
  {
    Take6(c);
    Take6(c / 64);
    Take6(c / 64 / 64);
    assert More(s[0]) == 3 && Payload(s[0]) == c / 64 / 64 / 64;
    FoldValues(c / 64 / 64 / 64, s[1], s[2], s[3]);
    assert s[1..4] == [s[1], s[2], s[3]];
  }

  /** Anything that starts with an encoding is well formed, with that value. */
  lemma {:induction false} EncodedDecodes(c: nat, s: seq<nat>)
    requires Scalar(c) && Encode(c) <= s
    ensures WellFormed(s) && ValueOf(s) == c && |Encode(c)| == More(s[0]) + 1
  {
    var e := Encode(c);
    assert forall i :: 0 <= i < |e| ==> s[i] == e[i];
    if c < 0x80 {
      FoldValues(c, 0, 0, 0);
      assert s[1..1] == [];
    } else if c < 0x800 {
      FromTwo(c, s);
    } else if c < 0x1_0000 {
      FromThree(c, s);
    } else {
      FromFour(c, s);
    }
  }

  lemma {:induction false} OnlyEncodings(s: seq<nat>)
    ensures forall c :: Scalar(c) && Encode(c) <= s ==> WellFormed(s) && ValueOf(s) == c
  {
    forall c | Scalar(c) && Encode(c) <= s
      ensures WellFormed(s) && ValueOf(s) == c
    {
      EncodedDecodes(c, s);
    }
  }

  /** Reads `more` continuation bytes from `from` on into `lead`. */
  method Continue(s: seq<nat>, from: nat, lead: nat, more: nat) returns (ok: bool, value: nat)
    requires from + more <= |s|
    ensures ok <==> forall k :: from <= k < from + more ==> Continuation(s[k])
    ensures ok ==> value == Fold(lead, s[from..from + more])
  {
    value := lead;
    assert s[from..from] == [];
    for j := 0 to more
      invariant value == Fold(lead, s[from..from + j]) && forall k :: from <= k < from + j ==> Continuation(s[k])
    {
      var b := s[from + j];
      if b / 64 != 2 {
        return false, 0;
      }
      assert s[from..from + j + 1] == s[from..from + j] + [b];
      value := value * 64 + b % 64;
    }
    ok := true;
  }

  /** The bytes behind a lead byte, seen from the lead byte. */
  lemma {:induction false} SameBytes(s: seq<nat>, offset: nat, more: nat)
    requires offset + 1 + more <= |s| && more == More(s[offset]) < 4
    ensures var rest := s[offset..]; var next := offset + 1;
            && rest[1..more + 1] == s[next..next + more]
            && (Framed(rest) <==> forall k :: next <= k < next + more ==> Continuation(s[k]))
  {
    var rest := s[offset..];
    assert forall k :: 0 <= k < |rest| ==> rest[k] == s[offset + k];
    assert forall k :: offset <= k < |s| ==> s[k] == rest[k - offset];
  }

  /** The scalar at `offset`, if the bytes there are well formed. */
  method Scan(s: seq<nat>, offset: nat) returns (ok: bool, value: nat, next: nat)
    requires offset < |s|
    ensures ok <==> WellFormed(s[offset..])
    ensures ok ==> value == ValueOf(s[offset..]) && next == offset + More(s[offset]) + 1
  {
    ok, value, next := false, 0, offset + 1;
    ghost var rest := s[offset..];
    var lead := s[offset];
    if lead < 128 {
      assert rest[1..1] == [];
      return true, lead, next;
    }
    var more, min := 0, 0;
    if 194 <= lead <= 223 {
      value, more, min := lead % 32, 1, 128;
    } else if 224 <= lead <= 239 {
      value, more, min := lead % 16, 2, 2048;
    } else if 240 <= lead <= 244 {
      value, more, min := lead % 8, 3, 65536;
    } else {
      return;
    }
    if more > |s| - next {
      return;
    }
    ok, value := Continue(s, next, value, more);
    SameBytes(s, offset, more);
    next := next + more;
    if ok && (value < min || value > 1114111 || 55296 <= value <= 57343) {
      ok := false;
    }
  }

  /** A well-formed sequence is what starts with an encoding. */
  lemma {:induction false} WellFormedStarts(s: seq<nat>, offset: nat)
    requires offset < |s|
    ensures var rest := s[offset..];
            WellFormed(rest) ==>
              var c := ValueOf(rest); var next := offset + More(s[offset]) + 1;
              next <= |s| && next == offset + |Encode(c)| && Encode(c) == s[offset..next]
                  && (c == 0 <==> s[offset] == 0)
  {
    var rest := s[offset..];
    if WellFormed(rest) {
      DecodedEncodes(rest);
      assert rest[..More(s[offset]) + 1] == s[offset..offset + More(s[offset]) + 1];
      if s[offset] == 0 {
        assert rest[1..1] == [];
      }
    }
  }

  /** Reads the scalar at `offset`: exactly when some encoding other than NUL's starts there. */
  method Next(s: seq<nat>, offset: nat) returns (report: Report, value: nat, next: nat)
    requires offset <= |s|
    ensures report == Fine ==>
              Scalar(value) && value != 0 && next == offset + |Encode(value)| <= |s|
              && Encode(value) == s[offset..next]
    ensures forall c :: Scalar(c) && Encode(c) <= s[offset..] && c != 0 ==> report == Fine && value == c
    ensures report.Failed? ==> report.error == if offset < |s| && s[offset] == 0 then Argument else Encoding
  {
    report, value, next := Failed(Encoding), 0, offset;
    OnlyEncodings(s[offset..]);
    if offset >= |s| {
      return;
    }
    WellFormedStarts(s, offset);
    if s[offset] == 0 {
      report := Failed(Argument);
      return;
    }
    var ok;
    ok, value, next := Scan(s, offset);
    report := if ok then Fine else Failed(Encoding);
  }

  // ---------- whole texts ----------

  ghost predicate Scalars(cs: seq<nat>) {
    forall i :: 0 <= i < |cs| ==> Scalar(cs[i])
  }

  /** `s` is the encoding of these scalars. */
  ghost predicate Encodes(s: seq<nat>, cs: seq<nat>) {
    Scalars(cs) && s == EncodeAll(cs)
  }

  /** `s` is well-formed UTF-8 without NUL. */
  ghost predicate Text(s: seq<nat>) {
    0 !in s && exists cs :: Encodes(s, cs)
  }

  /** One more scalar at the end. */
  lemma {:induction false} EncodeAllPush(cs: seq<nat>, c: nat)
    requires (forall i :: 0 <= i < |cs| ==> Scalar(cs[i])) && Scalar(c)
    ensures EncodeAll(cs + [c]) == EncodeAll(cs) + Encode(c)
    decreases |cs|
  {
    if cs == [] {
      assert EncodeAll([c]) == Encode(c) + EncodeAll([]);
    } else {
      assert (cs + [c])[1..] == cs[1..] + [c];
      EncodeAllPush(cs[1..], c);
    }
  }

  lemma {:induction false} FirstEncoded(s: seq<nat>, cs: seq<nat>)
    requires Encodes(s, cs) && cs != []
    ensures Encode(cs[0]) <= s && Encodes(s[|Encode(cs[0])|..], cs[1..])
  {
  }

  /** A text that continues behind the scalars read so far continues with an encoding. */
  lemma {:induction false} NextEncoded(s: seq<nat>, read: seq<nat>, done: seq<nat>, cs: seq<nat>)
    requires Encodes(s, cs) && Encodes(read, done) && read <= s
    ensures done <= cs && (|read| < |s| ==> |done| < |cs| && Encode(cs[|done|]) <= s[|read|..])
    decreases |done|
  {
    if done == [] {
      if s != [] {
        FirstEncoded(s, cs);
      }
    } else {
      FirstEncoded(read, done);
      FirstEncoded(s, cs);
      EncodedDecodes(done[0], s);
      EncodedDecodes(cs[0], s);
      var n := |Encode(cs[0])|;
      assert read[n..] <= s[n..];
      NextEncoded(s[n..], read[n..], done[1..], cs[1..]);
      assert done == [done[0]] + done[1..] && cs == [cs[0]] + cs[1..];
      assert s[n..][|read[n..]|..] == s[|read|..];
    }
  }

  /** A text has at most one reading. */
  lemma {:induction false} OneReading(s: seq<nat>, cs: seq<nat>, ds: seq<nat>)
    requires Encodes(s, cs) && Encodes(s, ds)
    ensures cs == ds
  {
    NextEncoded(s, s, cs, ds);
    NextEncoded(s, s, ds, cs);
  }

  /** One scalar read behind those before it. */
  lemma {:induction false} ReadOne(s: seq<nat>, at: nat, next: nat, cs: seq<nat>, c: nat)
    requires at <= next <= |s| && Encodes(s[..at], cs) && Scalar(c) && Encode(c) == s[at..next]
    ensures Encodes(s[..next], cs + [c])
  {
    EncodeAllPush(cs, c);
    assert s[..next] == s[..at] + s[at..next];
  }

  /** Where nothing can be read, the whole text has no reading. */
  lemma {:induction false} Unreadable(s: seq<nat>, at: nat, cs: seq<nat>)
    requires at < |s| && Encodes(s[..at], cs) && forall c :: Scalar(c) ==> !(Encode(c) <= s[at..])
    ensures forall ds :: !Encodes(s, ds)
  {
    forall ds
      ensures !Encodes(s, ds)
    {
      if Encodes(s, ds) {
        NextEncoded(s, s[..at], cs, ds);
      }
    }
  }

  /** How far a text can be read, and what is read. */
  datatype Reading = Reading(stop: nat, units: seq<nat>)

  ghost predicate Continues(bytes: seq<nat>, at: nat, c: nat) {
    at <= |bytes| && Scalar(c) && c != 0 && Encode(c) <= bytes[at..]
  }

  ghost function ReadFrom(bytes: seq<nat>, at: nat, units: seq<nat>): (r: Reading)
    requires at <= |bytes| && Scalars(units)
    ensures at <= r.stop <= |bytes| && Scalars(r.units)
    decreases |bytes| - at
  {
    if exists c :: Continues(bytes, at, c) then
      var c :| Continues(bytes, at, c);
      ReadFrom(bytes, at + |Encode(c)|, units + [c])
    else Reading(at, units)
  }

  /** Reading on from `at` gives `whole`. Kept folded. */
  ghost predicate Leads(bytes: seq<nat>, at: nat, units: seq<nat>, whole: Reading) {
    && Scalars(units) && at <= whole.stop <= |bytes|
    && forall z: nat {:trigger Shown(z)} :: Shown(z) ==> ReadFrom(bytes, at, units) == whole
  }

  lemma {:induction false} LeadsOn(bytes: seq<nat>, at: nat, units: seq<nat>, c: nat, next: nat, more: seq<nat>,
                                   whole: Reading)
    requires Leads(bytes, at, units, whole) && Continues(bytes, at, c) && forall d :: Continues(bytes, at, d) ==> d == c
    requires next == at + |Encode(c)| && more == units + [c]
    ensures Leads(bytes, next, more, whole)
  {
    assert Shown(0);
  }

  lemma {:induction false} LeadsNowhere(bytes: seq<nat>, at: nat, units: seq<nat>, whole: Reading)
    requires Leads(bytes, at, units, whole) && forall d :: !Continues(bytes, at, d)
    ensures whole == Reading(at, units)
  {
    assert Shown(0);
  }

  /** The error where a text cannot be read on. */
  function StopError(bytes: seq<nat>, at: nat): Error {
    if at < |bytes| && bytes[at] == 0 then Argument else Encoding
  }

  /** The check of a whole text: it stops where the text cannot be read on. */
  method TextCheck(s: seq<nat>) returns (report: Report, ghost cs: seq<nat>)
    ensures report == Fine <==> Text(s)
    ensures report == Fine ==> Encodes(s, cs) && cs == ReadFrom(s, 0, []).units
    ensures var r := ReadFrom(s, 0, []); report == if r.stop < |s| then Failed(StopError(s, r.stop)) else Fine
  {
    report, cs := CheckOn(s, ReadFrom(s, 0, []));
  }

  method CheckOn(s: seq<nat>, ghost whole: Reading) returns (report: Report, ghost cs: seq<nat>)
    requires Leads(s, 0, [], whole)
    ensures report == Fine <==> Text(s)
    ensures report == Fine ==> Encodes(s, cs) && cs == whole.units
    ensures report == if whole.stop < |s| then Failed(StopError(s, whole.stop)) else Fine
  {
    report, cs := Fine, [];
    var i := 0;
    while i < |s|
      invariant 0 <= i <= |s| && report == Fine && Encodes(s[..i], cs) && 0 !in s[..i] && Leads(s, i, cs, whole)
    {
      var c, next;
      report, c, next := Next(s, i);
      if report.Failed? {
        NoText(s, i, cs);
        LeadsNowhere(s, i, cs, whole);
        return;
      }
      ReadOne(s, i, next, cs, c);
      EncodesNoNul(c);
      LeadsOn(s, i, cs, c, next, cs + [c], whole);
      assert s[..next] == s[..i] + s[i..next];
      i := next;
      cs := cs + [c];
    }
    LeadsNowhere(s, i, cs, whole);
    assert s[..i] == s && Encodes(s, cs);
  }

  lemma {:induction false} EncodesNoNul(c: nat)
    requires Scalar(c) && c != 0
    ensures 0 !in Encode(c)
  {
  }

  lemma {:induction false} NoText(s: seq<nat>, at: nat, cs: seq<nat>)
    requires at < |s| && Encodes(s[..at], cs)
    requires forall c :: Scalar(c) && Encode(c) <= s[at..] ==> c == 0
    ensures !Text(s)
  {
    if 0 !in s {
      assert s[at] in s && s[at..][0] != 0 && Encode(0) == [0];
      Unreadable(s, at, cs);
    }
  }

  // ---------- the lexer's decoder ----------

  /** The UTF-16 form of a scalar, as in section 2.1 of RFC 2781. */
  function Utf16(c: nat): (r: seq<nat>)
    requires Scalar(c)
    ensures |r| == 1 ==> r[0] == c && !(0xD800 <= r[0] <= 0xDFFF)
    ensures |r| == 2 ==>
              0xD800 <= r[0] < 0xDC00 <= r[1] < 0xE000
              && c == 0x1_0000 + (r[0] - 0xD800) * 0x400 + (r[1] - 0xDC00)
    ensures 1 <= |r| <= 2 && |r| <= |Encode(c)|
  {
    if c > 0xFFFF then [0xD800 + (c - 0x1_0000) / 0x400, 0xDC00 + (c - 0x1_0000) % 0x400] else [c]
  }

  function Utf16All(cs: seq<nat>): (r: seq<nat>)
    requires forall i :: 0 <= i < |cs| ==> Scalar(cs[i])
    ensures |r| <= |EncodeAll(cs)|
  {
    if cs == [] then [] else Utf16(cs[0]) + Utf16All(cs[1..])
  }

  lemma {:induction false} Utf16Push(cs: seq<nat>, c: nat)
    requires Scalars(cs) && Scalar(c)
    ensures Utf16All(cs + [c]) == Utf16All(cs) + Utf16(c)
    decreases |cs|
  {
    if cs == [] {
      assert Utf16All([c]) == Utf16(c) + Utf16All([]);
    } else {
      assert (cs + [c])[1..] == cs[1..] + [c];
      Utf16Push(cs[1..], c);
    }
  }

  /** The lexer's reading of continuation bytes, counted down. */
  method LexRest(s: seq<nat>, from: nat, lead: nat, more: nat) returns (ok: bool, value: nat, next: nat)
    requires from + more <= |s|
    ensures ok <==> forall k :: from <= k < from + more ==> Continuation(s[k])
    ensures ok ==> value == Fold(lead, s[from..from + more]) && next == from + more
  {
    ok, value, next := false, lead, from;
    var extra := more;
    assert s[from..from] == [];
    while extra > 0
      invariant 0 <= extra <= more && next == from + more - extra
      invariant value == Fold(lead, s[from..next]) && forall k :: from <= k < next ==> Continuation(s[k])
    {
      var byte := s[next];
      next := next + 1;
      if byte < 128 || byte > 191 {
        return;
      }
      assert s[from..next][..next - 1 - from] == s[from..next - 1];
      value := value * 64 + byte % 64;
      extra := extra - 1;
    }
    ok := true;
  }

  /** The lexer's reading of one scalar. */
  method LexScan(s: seq<nat>, offset: nat) returns (ok: bool, value: nat, next: nat)
    requires offset < |s|
    ensures ok <==> WellFormed(s[offset..])
    ensures ok ==> value == ValueOf(s[offset..]) && next == offset + More(s[offset]) + 1
  {
    ok, value, next := false, s[offset], offset + 1;
    var extra, minimum := 0, 0;
    if 194 <= value <= 223 {
      value, extra, minimum := value % 32, 1, 128;
    } else if 224 <= value <= 239 {
      value, extra, minimum := value % 16, 2, 2048;
    } else if 240 <= value <= 244 {
      value, extra, minimum := value % 8, 3, 65536;
    } else if value >= 128 {
      return;
    }
    if extra > |s| - next {
      return;
    }
    SameBytes(s, offset, extra);
    ok, value, next := LexRest(s, next, value, extra);
    if ok {
      ok := !(value < minimum || value > 1114111 || 55296 <= value <= 57343);
    }
  }

  /** The units the lexer writes for one scalar. */
  method LexUnits(scalar: nat) returns (units: seq<nat>)
    requires Scalar(scalar)
    ensures units == Utf16(scalar)
  {
    if scalar > 65535 {
      var value := scalar - 65536;
      units := [55296 + value / 1024, 56320 + value % 1024];
    } else {
      units := [scalar];
    }
  }

  /** One scalar of the lexer's input: the units it becomes. */
  method LexOne(s: seq<nat>, start: nat, ghost cs: seq<nat>)
    returns (ok: bool, next: nat, more: seq<nat>, ghost all: seq<nat>)
    requires start < |s| && Encodes(s[..start], cs)
    ensures ok ==> start < next <= |s| && Encodes(s[..next], all) && Utf16All(all) == Utf16All(cs) + more
    ensures ok ==> exists c :: Scalar(c) && all == cs + [c] && more == Utf16(c)
    ensures !ok ==> forall ds :: !Encodes(s, ds)
  {
    var value;
    more, all := [], cs;
    ok, value, next := LexScan(s, start);
    if !ok {
      OnlyEncodings(s[start..]);
      Unreadable(s, start, cs);
      return;
    }
    WellFormedStarts(s, start);
    ReadOne(s, start, next, cs, value);
    Utf16Push(cs, value);
    all := cs + [value];
    more := LexUnits(value);
  }

  /** Where the scalar of each unit starts, in bytes. */
  function Offsets(cs: seq<nat>): seq<nat>
    requires forall i :: 0 <= i < |cs| ==> Scalar(cs[i])
    decreases |cs|
  {
    if cs == [] then []
    else
      var n := |cs| - 1;
      Offsets(cs[..n]) + OffsetsOf(cs[n], |EncodeAll(cs[..n])|)
  }

  /** The offsets of the units of one scalar that starts at `start`. */
  function OffsetsOf(c: nat, start: nat): (r: seq<nat>)
    requires Scalar(c)
    ensures |r| == |Utf16(c)| && r[0] == start
  {
    if c > 0xFFFF then [start, start] else [start]
  }

  lemma {:induction false} OffsetsSize(cs: seq<nat>)
    requires Scalars(cs)
    ensures |Offsets(cs)| == |Utf16All(cs)|
    decreases |cs|
  {
    if cs != [] {
      var n := |cs| - 1;
      OffsetsSize(cs[..n]);
      Utf16Push(cs[..n], cs[n]);
      assert cs == cs[..n] + [cs[n]];
    }
  }

  /** The lexer's decoder: UTF-16 units, and where each one's scalar starts. */
  method LexDecode(s: seq<nat>) returns (ok: bool, units: seq<nat>, offsets: seq<nat>, ghost cs: seq<nat>)
    ensures ok ==> Encodes(s, cs) && units == Utf16All(cs) && |units| <= |s| && offsets == Offsets(cs) + [|s|]
    ensures !ok ==> forall ds :: !Encodes(s, ds)
  {
    units, offsets, cs := [], [], [];
    var position := 0;
    while position < |s|
      invariant 0 <= position <= |s| && Encodes(s[..position], cs) && units == Utf16All(cs)
      invariant offsets == Offsets(cs)
    {
      var start := position;
      var more;
      ghost var before := cs;
      ok, position, more, cs := LexOne(s, start, cs);
      if !ok {
        return;
      }
      assert cs[..|before|] == before && |EncodeAll(before)| == start;
      assert Offsets(cs) == Offsets(before) + OffsetsOf(cs[|before|], start);
      units := units + more;
      offsets := offsets + if |more| == 2 then [start, start] else [start];
    }
    assert s[..position] == s;
    OffsetsSize(cs);
    offsets := offsets + [|s|];
    ok := true;
  }

  /** Both decoders on one string without NUL: they accept alike, and the lexer's
      units are the UTF-16 form of the scalars the other decoder read. */
  method DecodeBoth(s: seq<nat>) returns (report: Report, ok: bool, units: seq<nat>, ghost cs: seq<nat>)
    requires 0 !in s
    ensures ok <==> report == Fine
    ensures ok <==> exists ds :: Encodes(s, ds)
    ensures ok ==> Encodes(s, cs) && 0 !in cs && units == Utf16All(cs) && |units| <= |s|
    ensures !ok ==> report == Failed(Encoding)
  {
    report, cs := TextCheck(s);
    var offsets;
    ghost var ds;
    ok, units, offsets, ds := LexDecode(s);
    if ok {
      OneReading(s, cs, ds);
      NoNulInside(s, cs);
    }
  }

  lemma {:induction false} NoNulInside(s: seq<nat>, cs: seq<nat>)
    requires Encodes(s, cs) && 0 !in s
    ensures 0 !in cs
    decreases |cs|
  {
    if cs != [] {
      FirstEncoded(s, cs);
      assert s[0] == Encode(cs[0])[0];
      NoNulInside(s[|Encode(cs[0])|..], cs[1..]);
      assert cs == [cs[0]] + cs[1..];
    }
  }

  /** A text is read to its end, as its scalars. */
  lemma {:induction false} ReadingOf(s: seq<nat>, cs: seq<nat>)
    requires Text(s) && Encodes(s, cs)
    ensures ReadFrom(s, 0, []) == Reading(|s|, cs)
  {
    assert s[..0] == EncodeAll([]);
    ReadingOn(s, 0, [], cs, ReadFrom(s, 0, []));
  }

  lemma {:induction false} ReadingOn(s: seq<nat>, at: nat, done: seq<nat>, cs: seq<nat>, whole: Reading)
    requires 0 !in s && Encodes(s, cs) && at <= |s| && Encodes(s[..at], done) && Leads(s, at, done, whole)
    ensures whole == Reading(|s|, cs)
    decreases |s| - at
  {
    NextEncoded(s, s[..at], done, cs);
    if at == |s| {
      assert s[..at] == s;
      OneReading(s, done, cs);
      LeadsNowhere(s, at, done, whole);
    } else {
      var c := cs[|done|];
      var next := at + |Encode(c)|;
      NextInText(s, at, c);
      ReadOne(s, at, next, done, c);
      LeadsOn(s, at, done, c, next, done + [c], whole);
      ReadingOn(s, next, done + [c], cs, whole);
    }
  }

  /** The encoding found in a text is that of a scalar other than NUL, and the only one there. */
  lemma {:induction false} NextInText(s: seq<nat>, at: nat, c: nat)
    requires 0 !in s && at < |s| && Scalar(c) && Encode(c) <= s[at..]
    ensures Continues(s, at, c) && forall d :: Continues(s, at, d) ==> d == c
    ensures at + |Encode(c)| <= |s| && Encode(c) == s[at..at + |Encode(c)|]
  {
    assert s[at] in s && s[at..][0] == s[at] && Encode(0) == [0];
    forall d | Continues(s, at, d)
      ensures d == c
    {
      EncodedDecodes(d, s[at..]);
      EncodedDecodes(c, s[at..]);
    }
    assert s[at..at + |Encode(c)|] == s[at..][..|Encode(c)|];
  }

  /** A text's scalars are none of them NUL, and no more than its bytes. */
  lemma {:induction false} TextReads(s: seq<nat>, cs: seq<nat>)
    requires Text(s) && Encodes(s, cs)
    ensures 0 !in cs && |cs| <= |s|
  {
    NoNulInside(s, cs);
  }
}
