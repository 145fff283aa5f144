/** The executor's states and what they stand for: scope openings are held as
    arena nodes instead of indices into a history. */
module BrePoints {
  import opened BreProgram
  import opened BreMachine

  datatype Counter = Counter(pc: nat, count: nat, start: nat, zero: bool, open: nat)

  /** A state as it is copied and stacked: control, position, captures, active
      loops, its reference to the history, and the opening of each group. */
  datatype Point = Point(pc: nat, pos: nat, begin: seq<int>, end: seq<int>, loops: seq<Counter>, history: nat,
                         opens: seq<nat>)

  /** `id` is the node of the opening at `index`. */
  ghost predicate Opening(chain: seq<nat>, past: seq<Event>, id: nat, index: nat) {
    index < |chain| == |past| && chain[index] == id && past[index].Opened?
  }

  ghost predicate LoopStands(chain: seq<nat>, past: seq<Event>, x: Counter, a: Active) {
    x.pc == a.pc && x.count == a.count && x.start == a.start && x.zero == a.zero && Opening(chain, past, x.open, a.open)
  }

  /** Control and captures agree, whatever the histories are. */
  ghost predicate Alike(x: Point, s: State) {
    && x.pc == s.pc && x.pos == s.core.pos && x.begin == s.core.begin && x.end == s.core.end
    && |x.loops| == |s.loops| && |x.begin| == |x.end| == |x.opens| == |s.core.opens| == SLOTS
  }

  /** Loops and open groups name the same openings. */
  ghost predicate OpeningsStand(chain: seq<nat>, past: seq<Event>, x: Point, s: State)
    requires Alike(x, s)
  {
    && (forall i :: 0 <= i < |x.loops| ==> LoopStands(chain, past, x.loops[i], s.loops[i]))
    && (forall g :: 1 <= g < SLOTS && x.begin[g] >= 0 ==> Opening(chain, past, x.opens[g], s.core.opens[g]))
  }

  /** The point whose history is `past`, along `chain`, stands for the state. */
  ghost predicate Stands(chain: seq<nat>, past: seq<Event>, x: Point, s: State) {
    |chain| == |past| && Alike(x, s) && s.core.history == past && OpeningsStand(chain, past, x, s)
  }

  /** Openings stay where they are when the history grows. */
  lemma {:induction false} OpeningsGrow(chain: seq<nat>, past: seq<Event>, x: Point, s: State, chain': seq<nat>,
                                        past': seq<Event>)
    requires Alike(x, s) && OpeningsStand(chain, past, x, s) && chain <= chain' && past <= past' && |chain| == |past|
    requires |chain'| == |past'|
    ensures OpeningsStand(chain', past', x, s)
  {
    forall i | 0 <= i < |x.loops|
      ensures LoopStands(chain', past', x.loops[i], s.loops[i])
    {
      assert LoopStands(chain, past, x.loops[i], s.loops[i]);
    }
    forall g | 1 <= g < SLOTS && x.begin[g] >= 0
      ensures Opening(chain', past', x.opens[g], s.core.opens[g])
    {
      assert Opening(chain, past, x.opens[g], s.core.opens[g]);
    }
  }

  /** Every group from `id` to `last` reset. */
  function Reset(slots: seq<int>, id: nat, last: nat): (r: seq<int>)
    requires |slots| == SLOTS
    ensures |r| == SLOTS
  {
    seq(SLOTS, g requires 0 <= g < SLOTS => if id <= g <= last then -1 else slots[g])
  }

  /** The state after a group's opening was logged as node `id`. */
  lemma {:induction false} OpenStands(m: Machine, chain: seq<nat>, past: seq<Event>, x: Point, s: State, i: Instruction,
                                      id: nat)
    requires Stands(chain, past, x, s) && m.CoreOk(s.core) && 1 <= i.a <= i.b < SLOTS
    ensures Stands(chain + [id], past + [Opened(i.max, x.pos)],
                   x.(pc := i.next, history := id, opens := x.opens[i.a := id],
                      begin := Reset(x.begin, i.a, i.b)[i.a := x.pos], end := Reset(x.end, i.a, i.b)),
                   s.(pc := i.next, core := OpenGroup(m, s.core, i.max, i.a, i.b)))
  {
    OpeningsGrow(chain, past, x, s, chain + [id], past + [Opened(i.max, x.pos)]);
  }

  /** The state after a group's close was logged as node `id`. */
  lemma {:induction false} CloseStands(m: Machine, chain: seq<nat>, past: seq<Event>, x: Point, s: State,
                                       i: Instruction, id: nat)
    requires Stands(chain, past, x, s) && m.CoreOk(s.core) && 1 <= i.a < SLOTS && x.begin[i.a] >= 0
    ensures Stands(chain + [id], past + [Closed(s.core.opens[i.a], x.pos)],
                   x.(pc := i.next, history := id, end := x.end[i.a := x.pos]),
                   s.(pc := i.next, core := CloseGroup(m, s.core, i.a)))
  {
    OpeningsGrow(chain, past, x, s, chain + [id], past + [Closed(s.core.opens[i.a], x.pos)]);
  }

  /** The state after a loop's opening was logged as node `id`. */
  lemma {:induction false} ActivateStands(chain: seq<nat>, past: seq<Event>, x: Point, s: State, key: nat, id: nat)
    requires Stands(chain, past, x, s)
    ensures Stands(chain + [id], past + [Opened(key, x.pos)],
                   x.(history := id, loops := x.loops + [Counter(x.pc, 0, x.pos, false, id)]),
                   s.(loops := s.loops + [Active(s.pc, 0, s.core.pos, false, |s.core.history|)],
                      core := OpenScope(s.core, key)))
  {
    OpeningsGrow(chain, past, x, s, chain + [id], past + [Opened(key, x.pos)]);
  }

  /** The state after the innermost loop was left and its close logged as node `id`. */
  lemma {:induction false} LeaveStands(chain: seq<nat>, past: seq<Event>, x: Point, s: State, next: nat, id: nat)
    requires Stands(chain, past, x, s) && x.loops != []
    ensures var n := |x.loops| - 1;
            Stands(chain + [id], past + [Closed(s.loops[n].open, x.pos)],
                   x.(pc := next, history := id, loops := x.loops[..n]),
                   State(next, s.loops[..n], CloseScope(s.core, s.loops[n].open)))
  {
    OpeningsGrow(chain, past, x, s, chain + [id], past + [Closed(s.loops[|x.loops| - 1].open, x.pos)]);
  }

  /** The innermost loop's counters change, not its opening. */
  lemma {:induction false} LoopUpdateStands(chain: seq<nat>, past: seq<Event>, x: Point, s: State, pc: nat, l: Counter,
                                            a: Active)
    requires Stands(chain, past, x, s) && x.loops != []
    requires var n := |x.loops| - 1;
             l.open == x.loops[n].open && a.open == s.loops[n].open && l.pc == a.pc && l.count == a.count
                 && l.start == a.start && l.zero == a.zero
    ensures var n := |x.loops| - 1;
            Stands(chain, past, x.(pc := pc, loops := x.loops[n := l]), s.(pc := pc, loops := s.loops[n := a]))
  {
  }
}
