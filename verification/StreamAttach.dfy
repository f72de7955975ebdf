/**
 * One plugin network stream while it is attached (internal/core/plugin_network_streams.go). The lock is
 * released between finding the record and marking it, so the record may leave the table in between.
 */
module StreamAttach {
  datatype State = Open | Eof | Failed | Closed

  /**
   * `listed` is the record's place in the table, `live` its connection, `found` the number of calls that
   * found it and have not marked it yet. `handed` is history: how often the connection was given out.
   */
  datatype Record = Record(owner: nat, listed: bool, state: State, attached: bool, live: bool, found: nat, handed: nat)

  function New(owner: nat): Record {
    Record(owner, true, Open, false, true, 0, 0)
  }

  datatype Step =
    | Find(owner: nat)         // lookup, under the lock
    | Mark                     // the second critical section of attach
    | MarkClosed(state: State)
    | Drop                     // pruning, eviction or expiry of a closed record
    | Stop                     // the plugin stops, or the host shuts down

  predicate Enabled(r: Record, step: Step) {
    match step
    case Find(_) => true
    case Mark => r.found > 0
    case MarkClosed(state) => !state.Open?
    case Drop => r.listed && !r.state.Open?
    case Stop => r.listed
  }

  predicate Hands(r: Record, step: Step) {
    step.Mark? && r.found > 0 && r.state.Open? && !r.attached
  }

  function Next(r: Record, step: Step): Record
    requires Enabled(r, step)
  {
    match step
    case Find(owner) => if r.listed && r.owner == owner then r.(found := r.found + 1) else r
    case Mark =>
      if Hands(r, step) then r.(found := r.found - 1, attached := true, handed := r.handed + 1)
      else r.(found := r.found - 1)
    case MarkClosed(state) => if r.state.Open? then r.(state := state, live := false) else r
    case Drop => r.(listed := false)
    case Stop => r.(listed := false, live := false)
  }

  function Run(owner: nat, steps: seq<Step>): Record {
    if steps == [] then New(owner)
    else
      var r := Run(owner, steps[..|steps| - 1]);
      if Enabled(r, steps[|steps| - 1]) then Next(r, steps[|steps| - 1]) else r
  }

  predicate Inv(r: Record) {
    && r.handed == (if r.attached then 1 else 0)
    && (r.state.Open? ==> (r.live <==> r.listed))
    && (!r.state.Open? ==> !r.live)
  }

  lemma {:induction false} RunInv(owner: nat, steps: seq<Step>)
    ensures Inv(Run(owner, steps))
  {
    if steps != [] {
      RunInv(owner, steps[..|steps| - 1]);
    }
  }

  /** In every interleaving of any number of callers the connection is handed out at most once. */
  lemma HandedOnce(owner: nat, steps: seq<Step>)
    ensures Run(owner, steps).handed <= 1
  {
    RunInv(owner, steps);
  }

  /**
   * A caller that has found the record and goes on to mark it is given the connection exactly if the stream
   * is still open and nobody was given it before; and it is the marking of those calls alone that does so.
   */
  lemma HandedWhen(owner: nat, steps: seq<Step>, step: Step)
    ensures var r, next := Run(owner, steps), Run(owner, steps + [step]);
      next.handed == r.handed + if step.Mark? && r.found > 0 && r.state.Open? && r.handed == 0 then 1 else 0
  {
    RunInv(owner, steps);
    assert (steps + [step])[..|steps|] == steps;
  }

  /** The owner finds the record as long as it is listed, nobody else does; and one that finds it alive gets it alive. */
  lemma FoundAndHanded(owner: nat, caller: nat, steps: seq<Step>)
    ensures var r, found := Run(owner, steps), Run(owner, steps + [Find(caller)]);
      && found == r.(found := found.found)
      && found.found == r.found + (if r.listed && caller == owner then 1 else 0)
      && (r.listed && caller == owner && r.state.Open? && r.handed == 0 ==>
            Hands(found, Mark) && Run(owner, steps + [Find(caller)] + [Mark]).live)
  {
    RunInv(owner, steps);
    RunInv(owner, steps + [Find(caller)]);
    var one, two := steps + [Find(caller)], steps + [Find(caller)] + [Mark];
    assert one[..|steps|] == steps && two[..|one|] == one;
    OwnerStays(owner, steps);
  }

  /** A stream that was closed is never handed out any more, and its connection is dead. */
  lemma {:induction false} ClosedStays(owner: nat, steps: seq<Step>, state: State, more: seq<Step>)
    requires !state.Open?
    ensures var r, closed := Run(owner, steps), Run(owner, steps + [MarkClosed(state)] + more);
      && !closed.state.Open? && !closed.live && closed.handed == r.handed
      && closed.state == if r.state.Open? then state else r.state
  {
    var first := steps + [MarkClosed(state)];
    if more == [] {
      assert first + more == first && first[..|steps|] == steps;
      RunInv(owner, steps);
    } else {
      ClosedStays(owner, steps, state, more[..|more| - 1]);
      assert (first + more)[..|first + more| - 1] == first + more[..|more| - 1];
    }
  }

  /** A record that has left the table, as a closed one may and by a stop any will, is never found again. */
  lemma {:induction false} GoneStays(owner: nat, steps: seq<Step>, step: Step, more: seq<Step>)
    requires step.Drop? || step.Stop?
    requires Enabled(Run(owner, steps), step)
    ensures var r, gone := Run(owner, steps), Run(owner, steps + [step] + more);
      !gone.listed && gone.found <= r.found
  {
    var first := steps + [step];
    if more == [] {
      assert first + more == first && first[..|steps|] == steps;
    } else {
      GoneStays(owner, steps, step, more[..|more| - 1]);
      assert (first + more)[..|first + more| - 1] == first + more[..|more| - 1];
    }
  }

  lemma {:induction false} OwnerStays(owner: nat, steps: seq<Step>)
    ensures Run(owner, steps).owner == owner
  {
    if steps != [] {
      OwnerStays(owner, steps[..|steps| - 1]);
    }
  }

  /**
   * The connection that is handed out is alive exactly if the record is still in the table. It is not if
   * the plugin stopped between the two critical sections.
   */
  lemma HandedAliveIff(owner: nat, steps: seq<Step>)
    requires Hands(Run(owner, steps), Mark)
    ensures Run(owner, steps).live <==> Run(owner, steps).listed
  {
    RunInv(owner, steps);
  }

  /** It does happen. */
  lemma HandedDead(owner: nat)
    ensures var r := Run(owner, [Find(owner), Stop]); Hands(r, Mark) && !r.live
  {
    var steps := [Find(owner), Stop];
    var one := [Find(owner)];
    assert steps[..1] == one && one[..0] == [];
    assert Run(owner, []) == New(owner);
    assert Run(owner, one) == New(owner).(found := 1);
  }
}
