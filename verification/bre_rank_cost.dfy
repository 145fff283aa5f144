/** The steps ranking two matches takes, as a function of their scopes. */
module BreRankCost {
  import opened BreProgram
  import opened BreScopes
  import opened BrePriority

  /** The records of nested scopes, latest close first, with the index of their opening as serial. */
  function Keys(s: Scopes): (r: seq<Priority>)
    ensures var rs := Records(Block(s, 0), |Block(s, 0)|);
            |r| == |rs| && forall k :: 0 <= k < |rs| ==> r[k] == Priority(rs[k].index, rs[k].mark)
  {
    var rs := Records(Block(s, 0), |Block(s, 0)|);
    seq(|rs|, k requires 0 <= k < |rs| => Priority(rs[k].index, rs[k].mark))
  }

  /** One step for every pair of records compared. */
  function CompareTicks(x: seq<Mark>, y: seq<Mark>): nat {
    if x == [] || y == [] then 0 else if x[0] != y[0] then 1 else 1 + CompareTicks(x[1..], y[1..])
  }

  function SortTicks(s: Scopes): nat {
    Heapsort(Keys(s), |Keys(s)|).ticks
  }

  /** Collecting and sorting both histories. */
  function CollectTicks(s: Scopes, t: Scopes): nat {
    |Block(s, 0)| + |Block(t, 0)| + SortTicks(s) + SortTicks(t)
  }

  /** Collecting, sorting and comparing. */
  function RankTicks(s: Scopes, t: Scopes): nat {
    CollectTicks(s, t) + CompareTicks(Preorder(s), Preorder(t))
  }

  /** Counting both histories, and ranking them unless neither closed a scope. */
  function BetterTicks(s: Scopes, t: Scopes): nat {
    |Block(s, 0)| + |Block(t, 0)| + if Preorder(s) == [] && Preorder(t) == [] then 0 else RankTicks(s, t)
  }

  lemma {:induction false} RecordsIndexed(h: seq<Event>, n: nat)
    requires n <= |h|
    ensures forall k :: 0 <= k < |Records(h, n)| ==> Records(h, n)[k].index < n
  {
    if n > 0 {
      RecordsIndexed(h, n - 1);
    }
  }
}
