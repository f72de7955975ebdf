/**
 * Handles and buffers of the second WebAssembly ABI (internal/plugins/abi_v2.go): one counter hands out the
 * handles of invocations and of the responses that belong to them.
 */
module AbiHandles {
  import opened Bytes
  import opened Options

  const MAX_PAYLOAD: nat := 0x100_0000

  datatype Invocation = Invocation(input: seq<Byte>, output: Option<seq<Byte>>)

  datatype Response = Response(invocation: nat, payload: seq<Byte>)

  /** `issued` is history: every handle handed out, in order. */
  datatype Table = Table(
    next: nat, invocations: map<nat, Invocation>, responses: map<nat, Response>, issued: seq<nat>)

  const EMPTY: Table := Table(1, map[], map[], [])

  datatype Op =
    | Create(input: seq<Byte>) | Input(h: nat) | WriteOutput(h: nat, output: seq<Byte>) | Output(h: nat)
    | Remove(h: nat) | Respond(h: nat, payload: seq<Byte>) | ReadResponse(h: nat, r: nat) | DropResponse(h: nat, r: nat)

  datatype Reply = Handle(h: nat) | Buffer(data: seq<Byte>) | Done | Failed

  predicate CanIssue(t: Table) {
    t.next != 0 && t.next < UINT32_RANGE
  }

  function Do(t: Table, op: Op): (Table, Reply) {
    match op
    case Create(input) =>
      if |input| > MAX_PAYLOAD || !CanIssue(t) then (t, Failed)
      else (t.(next := t.next + 1, invocations := t.invocations[t.next := Invocation(input, None)],
               issued := t.issued + [t.next]), Handle(t.next))
    case Input(h) => (t, if h in t.invocations then Buffer(t.invocations[h].input) else Failed)
    case WriteOutput(h, output) =>
      if |output| > MAX_PAYLOAD || h !in t.invocations || t.invocations[h].output.Some? then (t, Failed)
      else (t.(invocations := t.invocations[h := t.invocations[h].(output := Some(output))]), Done)
    case Output(h) =>
      (t, if h in t.invocations && t.invocations[h].output.Some? then Buffer(t.invocations[h].output.value) else Failed)
    case Remove(h) =>
      (t.(invocations := t.invocations - {h},
          responses := map r | r in t.responses && t.responses[r].invocation != h :: t.responses[r]), Done)
    case Respond(h, payload) =>
      if |payload| > MAX_PAYLOAD || h !in t.invocations || !CanIssue(t) then (t, Failed)
      else (t.(next := t.next + 1, responses := t.responses[t.next := Response(h, payload)],
               issued := t.issued + [t.next]), Handle(t.next))
    case ReadResponse(h, r) =>
      (t, if r in t.responses && t.responses[r].invocation == h then Buffer(t.responses[r].payload) else Failed)
    case DropResponse(h, r) =>
      if r in t.responses && t.responses[r].invocation == h then (t.(responses := t.responses - {r}), Done)
      else (t, Failed)
  }

  function Run(t: Table, ops: seq<Op>): Table
    decreases |ops|
  {
    if ops == [] then t else Run(Do(t, ops[0]).0, ops[1..])
  }

  // ---- whole-state invariant -----------------------------------------------------------------

  ghost predicate Inv(t: Table) {
    && 1 <= t.next <= UINT32_RANGE
    && (forall i | 0 <= i < |t.issued| :: 0 < t.issued[i] < t.next)
    && (forall i, j | 0 <= i < j < |t.issued| :: t.issued[i] < t.issued[j])
    && (forall h | h in t.invocations :: h in t.issued && h !in t.responses)
    && (forall r | r in t.responses :: r in t.issued && t.responses[r].invocation in t.invocations)
  }

  /** A handle that is issued is above all earlier ones. */
  lemma IssueGrows(t: Table)
    requires Inv(t)
    ensures var issued := t.issued + [t.next];
      && t.next !in t.issued
      && (forall i | 0 <= i < |issued| :: 0 < issued[i] < t.next + 1)
      && (forall i, j | 0 <= i < j < |issued| :: issued[i] < issued[j])
      && (forall h :: h in issued <==> h in t.issued || h == t.next)
  {
  }

  lemma CreateStep(t: Table, input: seq<Byte>)
    requires Inv(t) && t.next < UINT32_RANGE
    ensures Inv(t.(next := t.next + 1, invocations := t.invocations[t.next := Invocation(input, None)],
                   issued := t.issued + [t.next]))
  {
    IssueGrows(t);
    assert t.next !in t.responses;
  }

  lemma RespondStep(t: Table, h: nat, payload: seq<Byte>)
    requires Inv(t) && t.next < UINT32_RANGE && h in t.invocations
    ensures Inv(t.(next := t.next + 1, responses := t.responses[t.next := Response(h, payload)],
                   issued := t.issued + [t.next]))
  {
    IssueGrows(t);
    assert t.next !in t.invocations;
  }

  /** Nothing is issued: invocations stay or go, and responses with them. */
  lemma NoIssueStep(t: Table, t': Table)
    requires Inv(t) && t'.next == t.next && t'.issued == t.issued
    requires forall h | h in t'.invocations :: h in t.invocations
    requires forall r | r in t'.responses ::
      r in t.responses && t'.responses[r] == t.responses[r] && t.responses[r].invocation in t'.invocations
    ensures Inv(t')
  {
  }

  lemma RemoveStep(t: Table, h: nat)
    requires Inv(t)
    ensures Inv(Do(t, Remove(h)).0)
  {
    NoIssueStep(t, Do(t, Remove(h)).0);
  }

  lemma DropStep(t: Table, h: nat, r: nat)
    requires Inv(t)
    ensures Inv(Do(t, DropResponse(h, r)).0)
  {
    NoIssueStep(t, Do(t, DropResponse(h, r)).0);
  }

  lemma OutputStep(t: Table, h: nat, output: seq<Byte>)
    requires Inv(t)
    ensures Inv(Do(t, WriteOutput(h, output)).0)
  {
    NoIssueStep(t, Do(t, WriteOutput(h, output)).0);
  }

  lemma InvStep(t: Table, op: Op)
    requires Inv(t)
    ensures Inv(Do(t, op).0) && t.issued <= Do(t, op).0.issued
    ensures Do(t, op).1.Handle? ==> Do(t, op).0.issued == t.issued + [Do(t, op).1.h]
  {
    hide Inv;
    if op.WriteOutput? {
      OutputStep(t, op.h, op.output);
    } else if op.Remove? {
      RemoveStep(t, op.h);
    } else if op.DropResponse? {
      DropStep(t, op.h, op.r);
    } else if op.Create? && CanIssue(t) {
      CreateStep(t, op.input);
    } else if op.Respond? && CanIssue(t) && op.h in t.invocations {
      RespondStep(t, op.h, op.payload);
    }
  }

  lemma {:induction false} RunInv(t: Table, ops: seq<Op>)
    requires Inv(t)
    ensures Inv(Run(t, ops)) && t.issued <= Run(t, ops).issued
    decreases |ops|
  {
    if ops != [] {
      InvStep(t, ops[0]);
      RunInv(Do(t, ops[0]).0, ops[1..]);
    }
  }

  /**
   * Over any run handles are non-zero 32-bit numbers in strictly increasing order, so none is handed
   * out twice, as invocation or response; and each response belongs to a live invocation.
   */
  lemma HandlesIncrease(ops: seq<Op>)
    ensures var t := Run(EMPTY, ops);
      && (forall i | 0 <= i < |t.issued| :: 0 < t.issued[i] < UINT32_RANGE)
      && (forall i, j | 0 <= i < j < |t.issued| :: t.issued[i] < t.issued[j])
      && t.invocations.Keys !! t.responses.Keys
      && (forall r | r in t.responses :: t.responses[r].invocation in t.invocations)
  {
    RunInv(EMPTY, ops);
  }

  lemma ReuseStep(t: Table, op: Op, h: nat)
    requires Inv(t) && h in t.issued
    ensures h !in t.invocations ==> h !in Do(t, op).0.invocations
    ensures h !in t.responses ==> h !in Do(t, op).0.responses
  {
    assert t.next !in t.issued;
  }

  /** A handle that is not in use although it was handed out never comes back into use. */
  lemma {:induction false} NeverReused(t: Table, ops: seq<Op>, h: nat)
    requires Inv(t) && h in t.issued
    ensures h !in t.invocations ==> h !in Run(t, ops).invocations
    ensures h !in t.responses ==> h !in Run(t, ops).responses
    decreases |ops|
  {
    if ops != [] {
      InvStep(t, ops[0]);
      ReuseStep(t, ops[0], h);
      hide Inv, Do;
      NeverReused(Do(t, ops[0]).0, ops[1..], h);
    }
  }

  // ---- buffers -------------------------------------------------------------------------------

  predicate Spares(op: Op, h: nat, r: nat) {
    op != Remove(h) && op != DropResponse(h, r)
  }

  lemma ResponseStep(t: Table, op: Op, h: nat, r: nat)
    requires Inv(t) && r in t.responses && t.responses[r].invocation == h
    ensures var t' := Do(t, op).0;
      if Spares(op, h, r) then r in t'.responses && t'.responses[r] == t.responses[r] else r !in t'.responses
  {
    assert t.next !in t.issued && r in t.issued;
    hide Inv;
    match op
    case Remove(_) =>
    case DropResponse(_, _) =>
    case _ =>
  }

  ghost predicate AllSpare(ops: seq<Op>, h: nat, r: nat) {
    forall op | op in ops :: Spares(op, h, r)
  }

  lemma AllSpareFirst(ops: seq<Op>, h: nat, r: nat)
    requires ops != []
    ensures AllSpare(ops, h, r) <==> Spares(ops[0], h, r) && AllSpare(ops[1..], h, r)
  {
    assert ops == [ops[0]] + ops[1..];
  }

  lemma {:induction false} ResponseFate(t: Table, ops: seq<Op>, h: nat, r: nat)
    requires Inv(t) && r in t.responses && t.responses[r].invocation == h
    ensures var t' := Run(t, ops);
      if AllSpare(ops, h, r) then r in t'.responses && t'.responses[r] == t.responses[r] else r !in t'.responses
    decreases |ops|
  {
    if ops != [] {
      var op, t1 := ops[0], Do(t, ops[0]).0;
      InvStep(t, op);
      ResponseStep(t, op, h, r);
      AllSpareFirst(ops, h, r);
      assert r in t1.issued by { assert r in t.issued; }
      hide Inv, Do, AllSpare, Spares;
      if Spares(op, h, r) {
        ResponseFate(t1, ops[1..], h, r);
      } else {
        NeverReused(t1, ops[1..], r);
      }
    }
  }

  /**
   * A response reads back exactly its own payload, to its own invocation only, until that invocation
   * drops it or ends; then never again.
   */
  lemma ResponseKept(t: Table, ops: seq<Op>, h: nat, r: nat)
    requires Inv(t) && r in t.responses && t.responses[r].invocation == h
    ensures var t' := Run(t, ops);
      && Do(t', ReadResponse(h, r)).1 == (if AllSpare(ops, h, r) then Buffer(t.responses[r].payload) else Failed)
      && forall other | other != h :: Do(t', ReadResponse(other, r)).1 == Failed
  {
    ResponseFate(t, ops, h, r);
  }

  lemma InvocationStep(t: Table, op: Op, h: nat)
    requires Inv(t) && h in t.invocations && op != Remove(h)
    ensures var t' := Do(t, op).0;
      && h in t'.invocations && t'.invocations[h].input == t.invocations[h].input
      && (t.invocations[h].output.Some? ==> t'.invocations[h].output == t.invocations[h].output)
  {
    assert t.next !in t.issued;
  }

  /** The first output written to an invocation is the one it keeps, whatever is written later. */
  lemma {:induction false} OutputOnce(t: Table, ops: seq<Op>, h: nat)
    requires Inv(t) && h in t.invocations && t.invocations[h].output.Some?
    requires Remove(h) !in ops
    ensures Do(Run(t, ops), Output(h)).1 == Buffer(t.invocations[h].output.value)
    ensures forall data :: Do(Run(t, ops), WriteOutput(h, data)).1 == Failed
    decreases |ops|
  {
    if ops != [] {
      InvStep(t, ops[0]);
      InvocationStep(t, ops[0], h);
      hide Inv;
      OutputOnce(Do(t, ops[0]).0, ops[1..], h);
    }
  }

  /** An invocation sees exactly the input it was created with for as long as it lives. */
  lemma {:induction false} InputKept(t: Table, ops: seq<Op>, h: nat)
    requires Inv(t) && h in t.invocations && Remove(h) !in ops
    ensures Do(Run(t, ops), Input(h)).1 == Buffer(t.invocations[h].input)
    decreases |ops|
  {
    if ops != [] {
      InvStep(t, ops[0]);
      InvocationStep(t, ops[0], h);
      hide Inv;
      InputKept(Do(t, ops[0]).0, ops[1..], h);
    }
  }

  /** No mention of `h` is left: it is no invocation, and no response belongs to it. */
  ghost predicate NoTrace(t: Table, h: nat) {
    h !in t.invocations && h !in t.responses && forall r | r in t.responses :: t.responses[r].invocation != h
  }

  lemma NoTraceStep(t: Table, op: Op, h: nat)
    requires Inv(t) && h in t.issued && NoTrace(t, h)
    ensures NoTrace(Do(t, op).0, h)
  {
    assert t.next !in t.issued;
  }

  /** An ended invocation leaves no trace, then or later. */
  lemma {:induction false} NoTraceForGood(t: Table, ops: seq<Op>, h: nat)
    requires Inv(t) && h in t.issued && NoTrace(t, h)
    ensures NoTrace(Run(t, ops), h)
    decreases |ops|
  {
    if ops != [] {
      InvStep(t, ops[0]);
      NoTraceStep(t, ops[0], h);
      hide Inv, Do, NoTrace;
      NoTraceForGood(Do(t, ops[0]).0, ops[1..], h);
    }
  }

  // ---- what goes in comes out ----------------------------------------------------------------

  /** Handles are given out without gaps, from 1 on. */
  ghost predicate Counted(t: Table) {
    t.next == |t.issued| + 1 && forall i | 0 <= i < |t.issued| :: t.issued[i] == i + 1
  }

  lemma CountedStep(t: Table, op: Op)
    requires Counted(t)
    ensures Counted(Do(t, op).0)
  {
  }

  lemma {:induction false} RunCounted(t: Table, ops: seq<Op>)
    requires Counted(t)
    ensures Counted(Run(t, ops))
    decreases |ops|
  {
    hide Do, Counted;
    if ops != [] {
      CountedStep(t, ops[0]);
      RunCounted(Do(t, ops[0]).0, ops[1..]);
    }
  }

  /**
   * Exactly which calls succeed, after any other calls: a buffer must be within 16 MiB, a new handle is to be
   * had until 2^32 - 1 were given out, a response needs a live invocation, an output one without output.
   */
  lemma AcceptedIff(ops: seq<Op>, h: nat, data: seq<Byte>)
    ensures var t := Run(EMPTY, ops); var left := |t.issued| < 0xFFFF_FFFF;
      && (Do(t, Create(data)).1 == (if |data| <= MAX_PAYLOAD && left then Handle(|t.issued| + 1) else Failed))
      && (Do(t, Respond(h, data)).1 ==
            (if |data| <= MAX_PAYLOAD && left && h in t.invocations then Handle(|t.issued| + 1) else Failed))
      && (Do(t, WriteOutput(h, data)).1 == Done <==>
            |data| <= MAX_PAYLOAD && h in t.invocations && Do(t, Output(h)).1 == Failed)
      && forall r :: Do(t, DropResponse(h, r)).1 == Done <==> Do(t, ReadResponse(h, r)).1 != Failed
  {
    RunCounted(EMPTY, ops);
  }

  /** The payload given to a call is what its handle reads back, whatever happens in between. */
  lemma ResponseReadsBack(t: Table, h: nat, payload: seq<Byte>, r: nat, ops: seq<Op>)
    requires Inv(t) && Do(t, Respond(h, payload)).1 == Handle(r)
    ensures var t' := Run(Do(t, Respond(h, payload)).0, ops);
      && Do(t', ReadResponse(h, r)).1 == (if AllSpare(ops, h, r) then Buffer(payload) else Failed)
      && forall other | other != h :: Do(t', ReadResponse(other, r)).1 == Failed
  {
    InvStep(t, Respond(h, payload));
    ResponseKept(Do(t, Respond(h, payload)).0, ops, h, r);
  }

  /** The input given to a new invocation is what it reads for as long as it lives, and it starts without output. */
  lemma InputReadsBack(t: Table, input: seq<Byte>, h: nat, ops: seq<Op>)
    requires Inv(t) && Do(t, Create(input)).1 == Handle(h) && Remove(h) !in ops
    ensures Do(Do(t, Create(input)).0, Output(h)).1 == Failed
    ensures Do(Run(Do(t, Create(input)).0, ops), Input(h)).1 == Buffer(input)
  {
    InvStep(t, Create(input));
    InputKept(Do(t, Create(input)).0, ops, h);
  }

  /** An accepted output is what is read from then on, and it is the only one accepted. */
  lemma OutputReadsBack(t: Table, h: nat, output: seq<Byte>, ops: seq<Op>)
    requires Inv(t) && Do(t, WriteOutput(h, output)).1 == Done && Remove(h) !in ops
    ensures Do(Run(Do(t, WriteOutput(h, output)).0, ops), Output(h)).1 == Buffer(output)
    ensures forall data :: Do(Run(Do(t, WriteOutput(h, output)).0, ops), WriteOutput(h, data)).1 == Failed
  {
    InvStep(t, WriteOutput(h, output));
    OutputOnce(Do(t, WriteOutput(h, output)).0, ops, h);
  }

  predicate Fits(op: Op, h: nat) {
    op.WriteOutput? && op.h == h && |op.output| <= MAX_PAYLOAD
  }

  /** The first output within the limit that some calls write to `h`. */
  function FirstOutput(calls: seq<Op>, h: nat): Option<seq<Byte>> {
    if calls == [] then None
    else if Fits(calls[0], h) then Some(calls[0].output)
    else FirstOutput(calls[1..], h)
  }

  lemma OtherOutput(t: Table, op: Op, h: nat)
    requires Inv(t) && h in t.invocations && t.invocations[h].output.None? && op != Remove(h)
    ensures var t' := Do(t, op).0;
      && h in t'.invocations
      && t'.invocations[h].output == if Fits(op, h) then Some(op.output) else None
  {
    assert t.next !in t.issued;
  }

  lemma FirstOf(calls: seq<Op>, h: nat)
    requires calls != []
    ensures Remove(h) in calls <==> calls[0] == Remove(h) || Remove(h) in calls[1..]
    ensures FirstOutput(calls, h) == if Fits(calls[0], h) then Some(calls[0].output) else FirstOutput(calls[1..], h)
  {
    assert calls == [calls[0]] + calls[1..];
  }

  /** Told from the calls alone: what an invocation without output yields after them. */
  lemma {:induction false} OutputIs(t: Table, calls: seq<Op>, h: nat)
    requires Inv(t) && h in t.invocations && t.invocations[h].output.None?
    ensures Do(Run(t, calls), Output(h)).1 ==
      if Remove(h) in calls || FirstOutput(calls, h).None? then Failed else Buffer(FirstOutput(calls, h).value)
    decreases |calls|
  {
    if calls == [] {
      hide Inv;
    } else {
      hide Inv, Do, Fits;
      var op, rest, t' := calls[0], calls[1..], Do(t, calls[0]).0;
      FirstOf(calls, h);
      InvStep(t, op);
      if op == Remove(h) {
        GoneAfter(t, calls, h);
        GoneFails(Run(t, calls), h);
      } else {
        OtherOutput(t, op, h);
        if Fits(op, h) {
          OutputAfter(t', rest, h);
        } else {
          OutputIs(t', rest, h);
        }
      }
    }
  }

  lemma GoneFails(t: Table, h: nat)
    requires h !in t.invocations
    ensures Do(t, Output(h)).1 == Failed
  {
  }

  lemma OutputAfter(t: Table, calls: seq<Op>, h: nat)
    requires Inv(t) && h in t.invocations && t.invocations[h].output.Some?
    ensures Do(Run(t, calls), Output(h)).1 ==
      if Remove(h) in calls then Failed else Buffer(t.invocations[h].output.value)
  {
    if Remove(h) in calls {
      GoneAfter(t, calls, h);
    } else {
      OutputOnce(t, calls, h);
    }
  }

  lemma {:induction false} GoneAfter(t: Table, calls: seq<Op>, h: nat)
    requires Inv(t) && (h in t.issued || h in t.invocations) && Remove(h) in calls
    ensures h !in Run(t, calls).invocations
    decreases |calls|
  {
    InvStep(t, calls[0]);
    if calls[0] == Remove(h) {
      NeverReused(Do(t, calls[0]).0, calls[1..], h);
    } else {
      assert calls == [calls[0]] + calls[1..];
      GoneAfter(Do(t, calls[0]).0, calls[1..], h);
    }
  }

  // ---- the object ----------------------------------------------------------------------------

  /**
   * The state as the host updates it. Buffers come in and go out as arrays: what is stored is their
   * contents at the time, and what is returned is a new array, so nothing stored can be reached from
   * outside.
   */
  class State {
    var next: nat
    var invocations: map<nat, Invocation>
    var responses: map<nat, Response>
    ghost var issued: seq<nat>

    ghost function View(): Table
      reads this
    {
      Table(next, invocations, responses, issued)
    }

    constructor ()
      ensures View() == EMPTY
    {
      next, invocations, responses, issued := 1, map[], map[], [];
    }

    method NextHandle() returns (h: Option<nat>)
      modifies this
      ensures h == if old(CanIssue(View())) then Some(old(next)) else None
      ensures View() == if h.Some? then old(View()).(next := old(next) + 1, issued := old(issued) + [old(next)]) else old(View())
    {
      if next == 0 || next > UINT32_RANGE - 1 {
        return None;
      }
      h := Some(next);
      issued := issued + [next];
      next := next + 1;
    }

    method Create(input: array<Byte>) returns (reply: Reply)
      modifies this
      ensures (View(), reply) == Do(old(View()), Op.Create(old(input[..])))
    {
      if input.Length > MAX_PAYLOAD {
        return Failed;
      }
      var h := NextHandle();
      if h.None? {
        return Failed;
      }
      invocations := invocations[h.value := Invocation(input[..], None)];
      return Handle(h.value);
    }

    method Input(h: nat) returns (ok: bool, data: array<Byte>)
      ensures fresh(data)
      ensures (View(), if ok then Buffer(data[..]) else Failed) == Do(View(), Op.Input(h))
    {
      if h !in invocations {
        return false, new Byte[0];
      }
      data := Copy(invocations[h].input);
      ok := true;
    }

    method WriteOutput(h: nat, output: array<Byte>) returns (reply: Reply)
      modifies this
      ensures (View(), reply) == Do(old(View()), Op.WriteOutput(h, old(output[..])))
    {
      if output.Length > MAX_PAYLOAD || h !in invocations || invocations[h].output.Some? {
        return Failed;
      }
      invocations := invocations[h := invocations[h].(output := Some(output[..]))];
      return Done;
    }

    method Output(h: nat) returns (ok: bool, data: array<Byte>)
      ensures fresh(data)
      ensures (View(), if ok then Buffer(data[..]) else Failed) == Do(View(), Op.Output(h))
    {
      if h !in invocations || invocations[h].output.None? {
        return false, new Byte[0];
      }
      data := Copy(invocations[h].output.value);
      ok := true;
    }

    /** Responses are looked at one by one, in any order. */
    method Remove(h: nat)
      modifies this
      ensures View() == Do(old(View()), Op.Remove(h)).0
    {
      invocations := invocations - {h};
      var keys := responses.Keys;
      while keys != {}
        invariant next == old(next) && issued == old(issued) && invocations == old(invocations) - {h}
        invariant keys <= responses.Keys <= old(responses).Keys
        invariant forall r | r in old(responses) ::
          r in responses <==> r in keys || old(responses)[r].invocation != h
        invariant forall r | r in responses :: responses[r] == old(responses)[r]
        decreases keys
      {
        var r :| r in keys;
        if responses[r].invocation == h {
          responses := responses - {r};
        }
        keys := keys - {r};
      }
    }

    method Respond(h: nat, payload: array<Byte>) returns (reply: Reply)
      modifies this
      ensures (View(), reply) == Do(old(View()), Op.Respond(h, old(payload[..])))
    {
      if payload.Length > MAX_PAYLOAD || h !in invocations {
        return Failed;
      }
      var r := NextHandle();
      if r.None? {
        return Failed;
      }
      responses := responses[r.value := Response(h, payload[..])];
      return Handle(r.value);
    }

    method ReadResponse(h: nat, r: nat) returns (ok: bool, data: array<Byte>)
      ensures fresh(data)
      ensures (View(), if ok then Buffer(data[..]) else Failed) == Do(View(), Op.ReadResponse(h, r))
    {
      if r !in responses || responses[r].invocation != h {
        return false, new Byte[0];
      }
      data := Copy(responses[r].payload);
      ok := true;
    }

    method DropResponse(h: nat, r: nat) returns (reply: Reply)
      modifies this
      ensures (View(), reply) == Do(old(View()), Op.DropResponse(h, r))
    {
      if r !in responses || responses[r].invocation != h {
        return Failed;
      }
      responses := responses - {r};
      return Done;
    }

    /** One host call made while the guest runs. */
    method Perform(op: Op)
      modifies this
      ensures View() == Do(old(View()), op).0
    {
      match op
      case Create(input) => var a := Copy(input); var _ := Create(a);
      case Input(h) => var _, _ := Input(h);
      case WriteOutput(h, output) => var a := Copy(output); var _ := WriteOutput(h, a);
      case Output(h) => var _, _ := Output(h);
      case Remove(h) => Remove(h);
      case Respond(h, payload) => var a := Copy(payload); var _ := Respond(h, a);
      case ReadResponse(h, r) => var _, _ := ReadResponse(h, r);
      case DropResponse(h, r) => var _ := DropResponse(h, r);
    }

    /**
     * invokeV2: an invocation is created, the guest and all other callers do as they like, the output is
     * picked up and the invocation removed. `traps` says that the guest call failed.
     */
    method Invoke(payload: array<Byte>, calls: seq<Op>, traps: bool, json: seq<Byte> -> bool) returns (reply: Reply)
      requires Inv(View())
      modifies this
      ensures Inv(View())
      ensures var created := Do(old(View()), Op.Create(old(payload[..])));
        if created.1 == Failed then View() == created.0 && reply == Failed
        else
          var ran := Run(created.0, calls);
          && View() == Do(ran, Op.Remove(created.1.h)).0
          && NoTrace(View(), created.1.h)
          && var output := FirstOutput(calls, created.1.h);
             reply == if !traps && Op.Remove(created.1.h) !in calls && output.Some? && json(output.value)
                      then Buffer(output.value) else Failed
    {
      ghost var (next, answer) := Do(View(), Op.Create(payload[..]));
      assert answer == Failed ==> Inv(next);
      if answer != Failed {
        CreateIssues(View(), payload[..]);
        OutputIs(next, calls, answer.h);
      }
      hide Inv, Do, NoTrace;
      var created := Create(payload);
      if created.Failed? {
        return Failed;
      }
      assert created.Handle?;
      var h := created.h;
      ghost var start := View();
      RunCalls(calls);
      var ok, data := Output(h);
      reply := if !traps && ok && json(data[..]) then Buffer(data[..]) else Failed;
      RemoveLeavesNoTrace(start, calls, h);
      Remove(h);
    }

    method RunCalls(calls: seq<Op>)
      requires Inv(View())
      modifies this
      ensures Inv(View()) && View() == Run(old(View()), calls)
    {
      hide Inv, Do;
      var i := 0;
      while i < |calls|
        invariant 0 <= i <= |calls| && Inv(View())
        invariant Run(View(), calls[i..]) == Run(old(View()), calls)
      {
        InvStep(View(), calls[i]);
        assert calls[i..][0] == calls[i] && calls[i..][1..] == calls[i + 1..];
        Perform(calls[i]);
        i := i + 1;
      }
    }
  }

  lemma RemoveLeavesNoTrace(t: Table, ops: seq<Op>, h: nat)
    requires Inv(t) && h in t.issued && h !in t.responses
    ensures var t' := Do(Run(t, ops), Remove(h)).0; Inv(t') && NoTrace(t', h)
  {
    hide Inv, NoTrace, Run;
    RunInv(t, ops);
    NeverReused(t, ops, h);
    RemovedTrace(Run(t, ops), h);
  }

  lemma RemovedTrace(t: Table, h: nat)
    requires Inv(t) && h !in t.responses
    ensures Inv(Do(t, Remove(h)).0) && NoTrace(Do(t, Remove(h)).0, h)
  {
    RemoveStep(t, h);
    hide Inv;
  }

  lemma CreateIssues(t: Table, input: seq<Byte>)
    requires Inv(t) && Do(t, Create(input)).1 != Failed
    ensures var (t', reply) := Do(t, Create(input));
      && reply.Handle? && reply.h in t'.issued && reply.h !in t'.responses && Inv(t')
      && reply.h in t'.invocations && t'.invocations[reply.h].output.None?
  {
    InvStep(t, Create(input));
    assert t.next !in t.issued;
    assert Do(t, Create(input)).0.issued[|t.issued|] == t.next;
  }

  method Copy(s: seq<Byte>) returns (a: array<Byte>)
    ensures fresh(a) && a[..] == s
  {
    a := new Byte[|s|](i requires 0 <= i < |s| => s[i]);
  }
}
