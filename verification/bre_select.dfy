/** Which of several matches from one start is reported: the longest, then the
    one whose trace ranks first, then the one met first. */
module BreSelect {
  import opened BreProgram
  import opened BreScopes
  import opened BreReference
  import opened BreUnambiguous

  /** Ranking: the first scope in which two traces differ decides, the earlier
      scope or the longer match winning; then the trace with more scopes. */
  predicate Better(a: seq<Mark>, b: seq<Mark>) {
    if a == [] || b == [] then |a| > |b|
    else if a[0].key != b[0].key then a[0].key < b[0].key
    else if a[0].length != b[0].length then a[0].length > b[0].length
    else Better(a[1..], b[1..])
  }

  predicate Preferred(r: Out, best: Out) {
    r.at > best.at || (r.at == best.at && Better(Trace(r), Trace(best)))
  }

  /** The match reported among those met in order: a later one only if it is preferred. */
  function Select(best: Out, rs: seq<Out>): Out
    decreases |rs|
  {
    if rs == [] then best else Select(if Preferred(rs[0], best) then rs[0] else best, rs[1..])
  }

  /** Exactly one of: better, worse, equal. */
  lemma {:induction false} BetterTotal(a: seq<Mark>, b: seq<Mark>)
    ensures a == b ==> !Better(a, b)
    ensures a != b ==> (Better(a, b) <==> !Better(b, a))
  {
    if a != [] && b != [] && a[0] == b[0] {
      assert a == [a[0]] + a[1..] && b == [b[0]] + b[1..];
      BetterTotal(a[1..], b[1..]);
    }
  }

  lemma {:induction false} BetterTransitive(a: seq<Mark>, b: seq<Mark>, c: seq<Mark>)
    requires Better(a, b) && Better(b, c)
    ensures Better(a, c)
  {
    if b != [] && c != [] && a[0] == b[0] == c[0] {
      BetterTransitive(a[1..], b[1..], c[1..]);
    }
  }

  lemma {:induction false} PreferredTransitive(a: Out, b: Out, c: Out)
    requires !Preferred(b, a) && !Preferred(c, b)
    ensures !Preferred(c, a)
  {
    BetterTotal(Trace(a), Trace(b));
    BetterTotal(Trace(b), Trace(c));
    BetterTotal(Trace(a), Trace(c));
    if Preferred(c, a) && Trace(b) != Trace(a) && Trace(c) != Trace(b) && a.at == c.at {
      BetterTransitive(Trace(a), Trace(b), Trace(c));
    }
  }

  /** The selected match is one of those met, and none is preferred to it. */
  lemma {:induction false} SelectUnbeaten(best: Out, rs: seq<Out>)
    ensures var w := Select(best, rs);
            (w == best || w in rs) && !Preferred(best, w) && forall r :: r in rs ==> !Preferred(r, w)
    decreases |rs|
  {
    BetterTotal(Trace(best), Trace(best));
    if rs != [] {
      var next := if Preferred(rs[0], best) then rs[0] else best;
      var w := Select(next, rs[1..]);
      BetterTotal(Trace(rs[0]), Trace(best));
      BetterTotal(Trace(rs[0]), Trace(rs[0]));
      SelectUnbeaten(next, rs[1..]);
      PreferredTransitive(w, next, best);
      PreferredTransitive(w, next, rs[0]);
    }
  }

  /** Any unbeaten match has the end and the captures of the selected one: what
      is reported does not depend on the order in which matches are met. */
  lemma {:induction false} SelectionIsCanonical(m: Machine, t: Tree, o: Out, r: Out)
    requires TreeOk(m, t) && Keyed(t, 0) && OutOk(m, o) && r in Outs(m, t, o)
    requires forall s :: s in Outs(m, t, o) ==> !Preferred(s, r)
    ensures var rs := Outs(m, t, o); var w := Select(rs[0], rs[1..]); r.at == w.at && r.caps == w.caps
  {
    var rs := Outs(m, t, o);
    var w := Select(rs[0], rs[1..]);
    SelectUnbeaten(rs[0], rs[1..]);
    assert rs == [rs[0]] + rs[1..];
    assert w in rs && !Preferred(w, r) && !Preferred(r, w);
    BetterTotal(Trace(r), Trace(w));
    TraceDetermines(m, t, o, r, w);
  }

  lemma {:induction false} SelectNext(best: Out, rs: seq<Out>, r: Out)
    ensures Select(best, rs + [r]) == var w := Select(best, rs); if Preferred(r, w) then r else w
    decreases |rs|
  {
    if rs == [] {
      assert [r][1..] == [];
    } else {
      assert (rs + [r])[1..] == rs[1..] + [r];
      SelectNext(if Preferred(rs[0], best) then rs[0] else best, rs[1..], r);
    }
  }

  /** The match chosen among the first `n`. */
  function Chosen(os: seq<Out>, n: nat): Out
    requires 0 < n <= |os|
  {
    Select(os[0], os[1..n])
  }

  lemma {:induction false} ChosenNext(os: seq<Out>, n: nat)
    requires 0 < n < |os|
    ensures Chosen(os, n + 1) == var w := Chosen(os, n); if Preferred(os[n], w) then os[n] else w
  {
    assert os[1..n + 1] == os[1..n] + [os[n]];
    SelectNext(os[0], os[1..n], os[n]);
  }
}
