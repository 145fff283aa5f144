/** The work and memory an execution may use. */
module BreBudget {

  datatype Error = Argument | Encoding | Limit | NoMemory

  datatype Report = Fine | Failed(error: Error)

  /** Steps are counted exactly; whether memory is granted is not the program's to decide. */
  class Budget {
    const limit: nat
    var steps: nat
    ghost var refused: bool

    ghost predicate Valid()
      reads this
    {
      steps <= limit
    }

    /** What was done since `before` steps cost exactly `cost`; if it was not
        completed, that cost is above the limit or memory was refused. */
    ghost predicate Charged(before: nat, cost: nat, ok: bool)
      reads this
    {
      if ok then steps == before + cost else before + cost > limit || refused
    }

    constructor (limit: nat)
      ensures Valid() && this.limit == limit && steps == 0 && !refused
    {
      this.limit := limit;
      steps := 0;
      refused := false;
    }

    /** Charges `n` units if that many are left. */
    method Tick(n: nat) returns (ok: bool)
      requires Valid()
      modifies this`steps
      ensures Valid()
      ensures ok <==> old(steps) + n <= limit
      ensures steps == old(steps) + if ok then n else 0
    {
      if n > limit - steps {
        return false;
      }
      steps := steps + n;
      return true;
    }

    /** Asks for a larger buffer: granted, over a size or workspace limit, or out of memory. */
    method Reserve(representable: bool) returns (r: Report)
      modifies this`refused
      ensures r == Fine || r == Failed(Limit) || r == Failed(NoMemory)
      ensures !representable ==> r.Failed?
      ensures refused <==> old(refused) || r.Failed?
    {
      var granted: bool := *;
      granted := granted && representable;
      var limited: bool := *;
      r := if granted then Fine else if limited || !representable then Failed(Limit) else Failed(NoMemory);
      refused := refused || r.Failed?;
    }
  }
}
