/** The answer for an expression and a text: the first start with a match, and
    the match selected there. */
module BreAnswer {
  import opened BreProgram
  import opened BreSyntax
  import opened BreScopes
  import opened BreReference
  import opened BreUnambiguous
  import opened BreSelect
  import opened BreNesting

  datatype Answer = Nothing | Found(start: nat, best: Out)

  function StartOut(candidate: nat): Out {
    Out(candidate, seq(SLOTS, _ => Unset), Flat)
  }

  /** All matches from a start, in the order of exploration. */
  ghost function From(m: Machine, t: Tree, start: nat): seq<Out>
    requires TreeOk(m, t) && start <= |m.input|
  {
    Outs(m, t, StartOut(start))
  }

  /** The answer for an expression: the first start with a match, and the match selected there. */
  ghost function Reference(m: Machine, t: Tree, at: nat, anchored: bool): (r: Answer)
    requires TreeOk(m, t) && at <= |m.input| + 1
    ensures r.Found? ==> at <= r.start <= |m.input|
    decreases |m.input| + 1 - at
  {
    if at > |m.input| then Nothing
    else
      var os := From(m, t, at);
      if os != [] then Found(at, Chosen(os, |os|))
      else if anchored then Nothing
      else Reference(m, t, at + 1, anchored)
  }

  lemma {:induction false} ChosenUnbeaten(os: seq<Out>)
    requires os != []
    ensures var w := Chosen(os, |os|); w in os && forall o :: o in os ==> !Preferred(o, w)
  {
    SelectUnbeaten(os[0], os[1..]);
    assert os == [os[0]] + os[1..] && os[1..|os|] == os[1..];
  }

  /** No start matches exactly when the answer is Nothing; otherwise the answer
      is a match from the first start that has one, none is longer, and none as
      long ranks higher. */
  lemma {:induction false} ReferenceIsBest(m: Machine, t: Tree, at: nat, anchored: bool)
    requires TreeOk(m, t) && at <= |m.input|
    ensures var r := Reference(m, t, at, anchored); var last := if anchored then at else |m.input|;
            && (r.Nothing? <==> forall c :: at <= c <= last ==> From(m, t, c) == [])
            && (r.Found? ==>
                  && r.start <= last && (forall c :: at <= c < r.start ==> From(m, t, c) == [])
                  && r.best in From(m, t, r.start) && forall o :: o in From(m, t, r.start) ==> !Preferred(o, r.best))
    decreases |m.input| - at
  {
    var os := From(m, t, at);
    if os != [] {
      ChosenUnbeaten(os);
    } else if !anchored && at < |m.input| {
      ReferenceIsBest(m, t, at + 1, anchored);
    }
  }

  /** The reported captures do not depend on the order of exploration: any match
      from that start that is not beaten has the same end and captures, and
      captures of nested groups are nested. */
  lemma {:induction false} ReferenceIsCanonical(m: Machine, s: Syntax, at: nat, anchored: bool, o: Out)
    requires ShapeOk(s) && TreeOk(m, Elaborate(s, 0, 0)) && at <= |m.input|
    requires var r := Reference(m, Elaborate(s, 0, 0), at, anchored);
             && r.Found? && o in From(m, Elaborate(s, 0, 0), r.start)
             && forall u :: u in From(m, Elaborate(s, 0, 0), r.start) ==> !Preferred(u, o)
    ensures var r := Reference(m, Elaborate(s, 0, 0), at, anchored); o.at == r.best.at && o.caps == r.best.caps
    ensures GroupsNest(Elaborate(s, 0, 0), o.caps)
  {
    var t := Elaborate(s, 0, 0);
    var r := Reference(m, t, at, anchored);
    ReferenceIsBest(m, t, at, anchored);
    ElaborateKeyed(s, 0, 0);
    ElaborateNumbered(s, 0, 0);
    assert forall u :: u in From(m, t, r.start) ==> !Preferred(u, r.best);
    CanonicalThere(m, t, r.start, o, r.best);
  }

  /** Two unbeaten matches from one start. */
  lemma {:induction false} CanonicalThere(m: Machine, t: Tree, start: nat, o: Out, best: Out)
    requires TreeOk(m, t) && Keyed(t, 0) && TreeNumbered(t, 0) && start <= |m.input|
    requires o in From(m, t, start) && forall u :: u in From(m, t, start) ==> !Preferred(u, o)
    requires best in From(m, t, start) && forall u :: u in From(m, t, start) ==> !Preferred(u, best)
    ensures o.at == best.at && o.caps == best.caps && GroupsNest(t, o.caps)
  {
    SelectionIsCanonical(m, t, StartOut(start), o);
    SelectionIsCanonical(m, t, StartOut(start), best);
    MatchNests(m, t, StartOut(start), o);
  }
}
