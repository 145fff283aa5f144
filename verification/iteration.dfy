/** Repeated application of a transition function. */
module Iteration {

  ghost function Iterate<S>(next: S -> S, s: S, k: nat): S {
    if k == 0 then s else Iterate(next, next(s), k - 1)
  }

  lemma {:induction false} IterateAdds<S>(next: S -> S, s: S, a: nat, b: nat)
    ensures Iterate(next, s, a + b) == Iterate(next, Iterate(next, s, a), b)
  {
    if a > 0 {
      IterateAdds(next, next(s), a - 1, b);
    }
  }

  /** A state that steps to itself stays for ever. */
  lemma {:induction false} IterateFixed<S>(next: S -> S, s: S, k: nat)
    requires next(s) == s
    ensures Iterate(next, s, k) == s
  {
    if k > 0 {
      IterateFixed(next, s, k - 1);
    }
  }

  /** What every step keeps, every run keeps. */
  lemma {:induction false} IterateKeeps<S(!new)>(next: S -> S, s: S, k: nat, inv: S -> bool)
    requires inv(s) && forall t :: inv(t) ==> inv(next(t))
    ensures inv(Iterate(next, s, k))
  {
    if k > 0 {
      IterateKeeps(next, next(s), k - 1, inv);
    }
  }

  /** A run whose fuel drops with every step that does not finish is finished when the fuel is spent. */
  lemma {:induction false} IterateFinishes<S(!new)>(next: S -> S, s: S, k: nat, inv: S -> bool, done: S -> bool,
                                                    fuel: S -> nat)
    requires inv(s) && (!done(s) ==> fuel(s) <= k)
    requires forall t :: inv(t) && !done(t) ==>
              fuel(t) > 0 && inv(next(t))
              && (done(next(t)) || fuel(next(t)) < fuel(t))
    requires forall t :: done(t) ==> next(t) == t
    ensures done(Iterate(next, s, k))
  {
    if done(s) {
      IterateFixed(next, s, k);
    } else {
      IterateFinishes(next, next(s), k - 1, inv, done, fuel);
    }
  }
}
