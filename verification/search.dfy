/** Exhaustive depth-first search over an arbitrary nondeterministic step. */
module Search {

  /** One step: accept here, give up, go on, or try one way before another.
      Broken is a state the search must never meet. */
  datatype Move<S> = Accepted | Backtrack | Next(state: S) | Fork(first: S, second: S) | Broken

  datatype Found<S> = OutOfFuel | States(states: seq<S>)

  /** The accepting states a depth-first search meets, in order. */
  ghost function Explore<S>(step: S -> Move<S>, s: S, fuel: nat): Found<S> {
    if fuel == 0 then OutOfFuel
    else
      match step(s)
      case Accepted => States([s])
      case Backtrack => States([])
      case Broken => OutOfFuel
      case Next(t) => Explore(step, t, fuel - 1)
      case Fork(first, second) =>
        var a := Explore(step, first, fuel - 1);
        var b := Explore(step, second, fuel - 1);
        if a.States? && b.States? then States(a.states + b.states) else OutOfFuel
  }

  /** The search from `s` is finite, meets no internal error, and accepts exactly `found`. */
  ghost predicate Yields<S>(step: S -> Move<S>, s: S, found: seq<S>) {
    exists fuel: nat :: Explore(step, s, fuel) == States(found)
  }

  lemma {:induction false} ExploreMonotone<S>(step: S -> Move<S>, s: S, a: nat, b: nat)
    requires a <= b && Explore(step, s, a).States?
    ensures Explore(step, s, b) == Explore(step, s, a)
    decreases a
  {
    match step(s)
    case Next(t) => ExploreMonotone(step, t, a - 1, b - 1);
    case Fork(first, second) =>
      ExploreMonotone(step, first, a - 1, b - 1);
      ExploreMonotone(step, second, a - 1, b - 1);
    case _ =>
  }

  lemma {:induction false} YieldsUnique<S>(step: S -> Move<S>, s: S, xs: seq<S>, ys: seq<S>)
    requires Yields(step, s, xs) && Yields(step, s, ys)
    ensures xs == ys
  {
    var a: nat :| Explore(step, s, a) == States(xs);
    var b: nat :| Explore(step, s, b) == States(ys);
    if a <= b {
      ExploreMonotone(step, s, a, b);
    } else {
      ExploreMonotone(step, s, b, a);
    }
  }

  lemma {:induction false} YieldsNext<S>(step: S -> Move<S>, s: S, t: S, found: seq<S>)
    requires step(s) == Next(t)
    ensures Yields(step, t, found) <==> Yields(step, s, found)
  {
    if Yields(step, t, found) {
      var a: nat :| Explore(step, t, a) == States(found);
      assert Explore(step, s, a + 1) == States(found);
    }
    if Yields(step, s, found) {
      var a: nat :| Explore(step, s, a) == States(found);
      assert Explore(step, t, a - 1) == States(found);
    }
  }

  lemma {:induction false} YieldsFork<S>(step: S -> Move<S>, s: S, first: S, second: S, xs: seq<S>, ys: seq<S>)
    requires step(s) == Fork(first, second) && Yields(step, first, xs) && Yields(step, second, ys)
    ensures Yields(step, s, xs + ys)
  {
    var a: nat :| Explore(step, first, a) == States(xs);
    var b: nat :| Explore(step, second, b) == States(ys);
    var n := if a > b then a else b;
    ExploreMonotone(step, first, a, n);
    ExploreMonotone(step, second, b, n);
    assert Explore(step, s, n + 1) == States(xs + ys);
  }

  /** A fork whose search is finite splits into the searches of its branches. */
  lemma {:induction false} ForkSplits<S>(step: S -> Move<S>, s: S, first: S, second: S, found: seq<S>)
    returns (xs: seq<S>, ys: seq<S>)
    requires step(s) == Fork(first, second) && Yields(step, s, found)
    ensures Yields(step, first, xs) && Yields(step, second, ys) && found == xs + ys
  {
    var a: nat :| Explore(step, s, a) == States(found);
    xs := Explore(step, first, a - 1).states;
    ys := Explore(step, second, a - 1).states;
    assert Explore(step, first, a - 1) == States(xs) && Explore(step, second, a - 1) == States(ys);
  }

  lemma {:induction false} YieldsHere<S>(step: S -> Move<S>, s: S)
    requires step(s) == Accepted || step(s) == Backtrack
    ensures Yields(step, s, if step(s) == Accepted then [s] else [])
  {
    assert Explore(step, s, 1).States?;
  }

  /** A search that ends never meets a broken state. */
  lemma {:induction false} YieldsSound<S>(step: S -> Move<S>, s: S, found: seq<S>)
    requires Yields(step, s, found)
    ensures step(s) != Broken
    ensures step(s) == Accepted ==> found == [s]
    ensures step(s) == Backtrack ==> found == []
  {
    var a: nat :| Explore(step, s, a) == States(found);
  }

  // ---------- what a search costs ----------

  /** The prices of all states visited. */
  ghost function Spend<S>(step: S -> Move<S>, price: S -> nat, s: S, fuel: nat): nat {
    if fuel == 0 then 0
    else
      match step(s)
      case Next(t) => price(s) + Spend(step, price, t, fuel - 1)
      case Fork(first, second) => price(s) + Spend(step, price, first, fuel - 1) + Spend(step, price, second, fuel - 1)
      case _ => price(s)
  }

  /** The most states that wait on the stack at once. */
  ghost function Height<S>(step: S -> Move<S>, s: S, fuel: nat): nat {
    if fuel == 0 then 0
    else
      match step(s)
      case Next(t) => Height(step, t, fuel - 1)
      case Fork(first, second) =>
        var above, below := 1 + Height(step, first, fuel - 1), Height(step, second, fuel - 1);
        if above > below then above else below
      case _ => 0
  }

  lemma {:induction false} SpendMonotone<S>(step: S -> Move<S>, price: S -> nat, s: S, a: nat, b: nat)
    requires a <= b && Explore(step, s, a).States?
    ensures Spend(step, price, s, b) == Spend(step, price, s, a) && Height(step, s, b) == Height(step, s, a)
    decreases a
  {
    match step(s)
    case Next(t) => SpendMonotone(step, price, t, a - 1, b - 1);
    case Fork(first, second) =>
      SpendMonotone(step, price, first, a - 1, b - 1);
      SpendMonotone(step, price, second, a - 1, b - 1);
    case _ =>
  }

  /** A number of steps within which the search from `s` ends, if it does. */
  ghost predicate Ends<S>(step: S -> Move<S>, s: S, fuel: nat) {
    Explore(step, s, fuel).States?
  }

  /** The price of the whole search from `s`. */
  ghost function TotalPrice<S>(step: S -> Move<S>, price: S -> nat, s: S): nat {
    if exists fuel: nat :: Ends(step, s, fuel) then
      var fuel: nat :| Ends(step, s, fuel);
      Spend(step, price, s, fuel)
    else 0
  }

  /** The most states its stack holds. */
  ghost function Stacked<S>(step: S -> Move<S>, s: S): nat {
    if exists fuel: nat :: Ends(step, s, fuel) then
      var fuel: nat :| Ends(step, s, fuel);
      Height(step, s, fuel)
    else 0
  }

  lemma {:induction false} PriceAt<S>(step: S -> Move<S>, price: S -> nat, s: S, fuel: nat)
    requires Ends(step, s, fuel)
    ensures TotalPrice(step, price, s) == Spend(step, price, s, fuel) && Stacked(step, s) == Height(step, s, fuel)
  {
    forall other: nat | Ends(step, s, other)
      ensures Spend(step, price, s, other) == Spend(step, price, s, fuel)
      ensures Height(step, s, other) == Height(step, s, fuel)
    {
      if other <= fuel {
        SpendMonotone(step, price, s, other, fuel);
      } else {
        SpendMonotone(step, price, s, fuel, other);
      }
    }
  }

  /** The price of a finite search is its first state's and that of what follows. */
  lemma {:induction false} PriceUnfolds<S>(step: S -> Move<S>, price: S -> nat, s: S, found: seq<S>)
    requires Yields(step, s, found)
    ensures match step(s)
            case Next(t) => TotalPrice(step, price, s) == price(s) + TotalPrice(step, price, t)
                && Stacked(step, s) == Stacked(step, t)
            case Fork(first, second) =>
              && TotalPrice(step, price, s) == price(s) + TotalPrice(step, price, first) + TotalPrice(step, price,
                    second)
              && Stacked(step, s) >= 1 + Stacked(step, first) && Stacked(step, s) >= Stacked(step, second)
              && (Stacked(step, s) == 1 + Stacked(step, first) || Stacked(step, s) == Stacked(step, second))
            case _ => TotalPrice(step, price, s) == price(s) && Stacked(step, s) == 0
  {
    var fuel: nat :| Explore(step, s, fuel) == States(found);
    assert Ends(step, s, fuel);
    PriceAt(step, price, s, fuel);
    match step(s)
    case Next(t) =>
      assert Ends(step, t, fuel - 1);
      PriceAt(step, price, t, fuel - 1);
    case Fork(first, second) =>
      assert Ends(step, first, fuel - 1) && Ends(step, second, fuel - 1);
      PriceAt(step, price, first, fuel - 1);
      PriceAt(step, price, second, fuel - 1);
    case _ =>
  }
}
