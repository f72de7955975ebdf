/**
 * The queue of complete WebSocket messages on their way upstream (internal/httpgateway/websocket.go): the
 * accepting goroutine counts a message and then offers it to a four-slot channel, the writer goroutine
 * writes messages and discounts them. Each step is one atomic region of the code.
 */
module WebSocketOutbox {
  import opened Bytes
  import opened Options
  import opened WebSocketTunnel

  const SLOTS: nat := 4

  datatype Writer =
    | Idle
    | Writing(m: Message)
    | Settling(m: Message, ok: bool)  // written or failed, not discounted yet
    | Stopped(lost: Message)

  /**
   * `pending` is a message that is counted but not in the channel, with the verdict taken when it was
   * counted. `removed` says that the socket was dropped. The last two fields are history.
   */
  datatype Outbox = Outbox(
    queued: int, channel: seq<Message>, pending: Option<Message>, excess: bool, writer: Writer, removed: bool,
    completed: seq<Message>, written: seq<Message>)

  const NEW: Outbox := Outbox(0, [], None, false, Idle, false, [], [])

  datatype Action = Count(m: Message) | Offer | Take | Write(ok: bool) | Settle

  predicate Enabled(o: Outbox, a: Action) {
    match a
    case Count(m) => o.pending.None? && !o.removed && |m.data| <= MAX_MESSAGE
    case Offer => o.pending.Some?
    case Take => o.writer.Idle? && o.channel != []
    case Write(_) => o.writer.Writing?
    case Settle => o.writer.Settling?
  }

  function Next(o: Outbox, a: Action): Outbox
    requires Enabled(o, a)
  {
    match a
    case Count(m) =>
      var queued := o.queued + |m.data|;
      o.(queued := queued, excess := queued > MAX_MESSAGE, pending := Some(m))
    case Offer =>
      var m := o.pending.value;
      if o.excess || |o.channel| >= SLOTS then
        o.(queued := o.queued - |m.data|, pending := None, removed := true)
      else
        o.(channel := o.channel + [m], pending := None, completed := o.completed + [m])
    case Take => o.(channel := o.channel[1..], writer := Writing(o.channel[0]))
    case Write(ok) =>
      o.(writer := Settling(o.writer.m, ok), written := if ok then o.written + [o.writer.m] else o.written)
    case Settle =>
      o.(queued := o.queued - |o.writer.m.data|, writer := if o.writer.ok then Idle else Stopped(o.writer.m))
  }

  function Size(ms: seq<Message>): nat {
    if ms == [] then 0 else Size(ms[..|ms| - 1]) + |ms[|ms| - 1].data|
  }

  lemma {:induction false} SizeConcat(a: seq<Message>, b: seq<Message>)
    ensures Size(a + b) == Size(a) + Size(b)
  {
    if b == [] {
      assert a + b == a;
    } else {
      assert (a + b)[..|a + b| - 1] == a + b[..|b| - 1];
      SizeConcat(a, b[..|b| - 1]);
    }
  }

  lemma SizeFirst(ms: seq<Message>)
    requires ms != []
    ensures Size(ms) == |ms[0].data| + Size(ms[1..])
  {
    var one := ms[..1];
    assert one[..0] == [];
    assert one + ms[1..] == ms;
    SizeConcat(one, ms[1..]);
  }

  /** The message the writer still counts against the queue. */
  function InHand(o: Outbox): nat {
    if o.writer.Writing? || o.writer.Settling? then |o.writer.m.data| else 0
  }

  function PendingSize(o: Outbox): nat {
    if o.pending.Some? then |o.pending.value.data| else 0
  }

  /** The message that left the channel and was not written, if any. */
  function Unwritten(o: Outbox): seq<Message> {
    match o.writer
    case Idle => []
    case Writing(m) => [m]
    case Settling(m, ok) => if ok then [] else [m]
    case Stopped(m) => [m]
  }

  ghost predicate CountInv(o: Outbox) {
    && o.queued == Size(o.channel) + InHand(o) + PendingSize(o)
    && Size(o.channel) + InHand(o) <= MAX_MESSAGE
    && (o.pending.Some? && !o.excess ==> Size(o.channel) + InHand(o) + PendingSize(o) <= MAX_MESSAGE)
    && |o.channel| <= SLOTS
  }

  ghost predicate OrderInv(o: Outbox) {
    o.completed == o.written + Unwritten(o) + o.channel
  }

  ghost predicate Inv(o: Outbox) {
    CountInv(o) && OrderInv(o)
  }

  lemma CountStep(o: Outbox, a: Action)
    requires CountInv(o) && Enabled(o, a)
    ensures CountInv(Next(o, a))
  {
    hide Size;
    match a
    case Offer => OfferSize(o.channel, o.pending);
    case Take => SizeFirst(o.channel);
    case _ =>
  }

  lemma OfferSize(channel: seq<Message>, pending: Option<Message>)
    requires pending.Some?
    ensures Size(channel + [pending.value]) == Size(channel) + |pending.value.data|
  {
    assert (channel + [pending.value])[..|channel|] == channel;
  }

  lemma OrderStep(o: Outbox, a: Action)
    requires OrderInv(o) && Enabled(o, a)
    ensures OrderInv(Next(o, a))
  {
    hide Size;
    var o' := Next(o, a);
    if a.Take? {
      assert o.channel == [o.channel[0]] + o'.channel;
    } else if a.Write? {
      assert a.ok ==> o'.written + [] == o.written + [o.writer.m];
    }
  }

  lemma InvStep(o: Outbox, a: Action)
    requires Inv(o) && Enabled(o, a)
    ensures Inv(Next(o, a))
  {
    CountStep(o, a);
    OrderStep(o, a);
  }

  function Run(steps: seq<Action>): Outbox {
    if steps == [] then NEW
    else
      var o := Run(steps[..|steps| - 1]);
      var a := steps[|steps| - 1];
      if Enabled(o, a) then Next(o, a) else o
  }

  lemma {:induction false} RunInv(steps: seq<Action>)
    ensures Inv(Run(steps))
  {
    if steps != [] {
      RunInv(steps[..|steps| - 1]);
      var o := Run(steps[..|steps| - 1]);
      if Enabled(o, steps[|steps| - 1]) {
        InvStep(o, steps[|steps| - 1]);
      }
    }
  }

  /**
   * The counter always equals what is really held, in any interleaving; what waits and what is being
   * written never exceed 1 MiB; and upstream gets the completed messages in order.
   */
  lemma Accounting(steps: seq<Action>)
    ensures var o := Run(steps);
      && o.queued == Size(o.channel) + InHand(o) + PendingSize(o)
      && Size(o.channel) + InHand(o) <= MAX_MESSAGE && |o.channel| <= SLOTS
      && o.written <= o.completed
      && (o.writer.Idle? ==> o.written + o.channel == o.completed)
  {
    RunInv(steps);
  }

  /** The octet verdict is taken when a message is counted, of what the queue holds at that moment. */
  lemma ExcessIff(steps: seq<Action>, m: Message)
    requires Enabled(Run(steps), Count(m))
    ensures var o := Run(steps);
      Next(o, Count(m)).excess <==> Size(o.channel) + InHand(o) + |m.data| > MAX_MESSAGE
  {
    RunInv(steps);
  }

  /** Until the message is offered, the writer's steps leave that verdict alone. */
  lemma VerdictStays(o: Outbox, a: Action)
    requires Enabled(o, a) && o.pending.Some? && !a.Offer?
    ensures Next(o, a).excess == o.excess && Next(o, a).pending == o.pending
  {
  }

  /** The slot verdict is taken when it is offered: it costs the socket its life by either of the two. */
  lemma RemovedIff(o: Outbox)
    requires Inv(o) && Enabled(o, Offer) && !o.removed
    ensures Next(o, Offer).removed <==> o.excess || |o.channel| == SLOTS
    ensures Next(o, Offer).completed == o.completed + if Next(o, Offer).removed then [] else [o.pending.value]
  {
    hide Size, OrderInv;
  }

  /** `steps` are the writer's alone. */
  predicate WritersOnly(steps: seq<Action>) {
    forall a :: a in steps ==> a.Take? || a.Write? || a.Settle?
  }

  /**
   * A message and whatever the writer does between counting and offering it: the message is refused
   * exactly if it did not fit by octets when it was counted, or does not fit by slots when it is offered.
   */
  lemma {:induction false} RefusedIff(steps: seq<Action>, m: Message, between: seq<Action>)
    requires Enabled(Run(steps), Count(m)) && WritersOnly(between)
    ensures var o := Run(steps); var late := Run(steps + [Count(m)] + between);
      && Enabled(late, Offer)
      && (Next(late, Offer).removed <==>
            Size(o.channel) + InHand(o) + |m.data| > MAX_MESSAGE || |late.channel| == SLOTS)
  {
    ExcessIff(steps, m);
    Between(steps, m, between);
    RunInv(steps + [Count(m)] + between);
    hide Run, Inv, Size;
    RemovedIff(Run(steps + [Count(m)] + between));
  }

  lemma {:induction false} Between(steps: seq<Action>, m: Message, between: seq<Action>)
    requires Enabled(Run(steps), Count(m)) && WritersOnly(between)
    ensures var counted := Next(Run(steps), Count(m)); var late := Run(steps + [Count(m)] + between);
      late.pending == Some(m) && late.excess == counted.excess && !late.removed
  {
    var all := steps + [Count(m)] + between;
    if between == [] {
      assert all[..|all| - 1] == steps && all[|all| - 1] == Count(m);
    } else {
      var before, last := between[..|between| - 1], between[|between| - 1];
      assert all[..|all| - 1] == steps + [Count(m)] + before && all[|all| - 1] == last;
      assert last in between;
      Between(steps, m, before);
      var o := Run(steps + [Count(m)] + before);
      if Enabled(o, last) {
        VerdictStays(o, last);
      }
    }
  }

  // ---- the writer gets on --------------------------------------------------------------------

  lemma RunOneMore(steps: seq<Action>, a: Action)
    requires Enabled(Run(steps), a)
    ensures Run(steps + [a]) == Next(Run(steps), a)
  {
    assert (steps + [a])[..|steps|] == steps;
  }

  /**
   * A message that fits is the last in the channel, and counted. The writer can write the first one and then
   * it is counted no more; if that fails, the writer stops for good, and the rest is never written.
   */
  lemma WritesFirst(steps: seq<Action>, ok: bool)
    requires Run(steps).writer.Idle? && Run(steps).channel != []
    ensures var o := Run(steps); var m := o.channel[0];
      Run(steps + [Take] + [Write(ok)] + [Settle]) ==
        o.(queued := o.queued - |m.data|, channel := o.channel[1..],
           writer := if ok then Idle else Stopped(m), written := if ok then o.written + [m] else o.written)
  {
    hide Run;
    RunOneMore(steps, Take);
    RunOneMore(steps + [Take], Write(ok));
    RunOneMore(steps + [Take] + [Write(ok)], Settle);
  }

  lemma QueuesLast(steps: seq<Action>, m: Message)
    requires Enabled(Run(steps), Count(m))
    requires Size(Run(steps).channel) + InHand(Run(steps)) + |m.data| <= MAX_MESSAGE && |Run(steps).channel| < SLOTS
    ensures var o := Run(steps);
      Run(steps + [Count(m)] + [Offer]) ==
        o.(queued := o.queued + |m.data|, channel := o.channel + [m], completed := o.completed + [m], excess := false)
  {
    ExcessIff(steps, m);
    hide Run, Size;
    RunOneMore(steps, Count(m));
    RunOneMore(steps + [Count(m)], Offer);
  }

  lemma {:induction false} StoppedForGood(steps: seq<Action>, more: seq<Action>)
    requires Run(steps).writer.Stopped?
    ensures Run(steps + more).written == Run(steps).written && Run(steps + more).writer == Run(steps).writer
  {
    if more == [] {
      assert steps + more == steps;
    } else {
      var before := more[..|more| - 1];
      StoppedForGood(steps, before);
      assert (steps + more)[..|steps + more| - 1] == steps + before;
    }
  }
}
