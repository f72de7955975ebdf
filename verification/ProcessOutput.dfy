/**
 * Output and exit events of plugin processes (internal/core/plugin_processes.go) and their delivery through
 * the plugin's bounded queue and single worker (internal/core/controller.go). Each step is one atomic
 * region of a goroutine.
 */
module ProcessOutput {
  import opened Options
  import opened Subsequences

  const COPY_SLOTS: nat := 8
  const QUEUE_SLOTS: nat := 256

  type Text = string

  // ---- copyOutput: one stream of one process -------------------------------------------------

  /**
   * The reader puts chunks into an eight-slot channel and discards those that find it full; the
   * forwarder takes them out and emits them. History: all chunks read, those emitted, and how many
   * were discarded.
   */
  datatype Copier = Copier(
    channel: seq<Text>, ended: bool, holding: Option<Text>, finished: bool,
    read: seq<Text>, emitted: seq<Text>, discarded: nat)

  const COPIER: Copier := Copier([], false, None, false, [], [], 0)

  datatype CopyStep = Read(text: Text) | ReadEnd | Take | Emit | Finish

  predicate Can(c: Copier, a: CopyStep) {
    match a
    case Read(_) => !c.ended
    case ReadEnd => !c.ended
    case Take => c.holding.None? && c.channel != [] && !c.finished
    case Emit => c.holding.Some?
    case Finish => c.holding.None? && c.channel == [] && c.ended && !c.finished
  }

  function Copy(c: Copier, a: CopyStep): Copier
    requires Can(c, a)
  {
    match a
    case Read(text) =>
      var c' := c.(read := c.read + [text]);
      if |c.channel| < COPY_SLOTS then c'.(channel := c.channel + [text]) else c'.(discarded := c.discarded + 1)
    case ReadEnd => c.(ended := true)
    case Take => c.(holding := Some(c.channel[0]), channel := c.channel[1..])
    case Emit => c.(holding := None, emitted := c.emitted + [c.holding.value])
    case Finish => c.(finished := true)
  }

  function Held(c: Copier): seq<Text> {
    if c.holding.Some? then [c.holding.value] else []
  }

  /** Chunks are emitted in order, and each chunk read is emitted, still under way, or discarded. */
  ghost predicate CopierInv(c: Copier) {
    && Sub(c.emitted + Held(c) + c.channel, c.read)
    && |c.emitted| + |Held(c)| + |c.channel| + c.discarded == |c.read|
    && |c.channel| <= COPY_SLOTS
    && (c.finished ==> c.ended && c.channel == [] && c.holding.None?)
  }

  lemma ReadKeeps(c: Copier, text: Text)
    requires CopierInv(c) && !c.ended
    ensures CopierInv(Copy(c, Read(text)))
  {
    var all, c' := c.emitted + Held(c) + c.channel, Copy(c, Read(text));
    SubKeep(all, c.read, text);
    SubSkip(all, c.read, text);
    hide Sub;
    assert c'.emitted + Held(c') + (c.channel + [text]) == all + [text];
  }

  lemma CopyKeeps(c: Copier, a: CopyStep)
    requires CopierInv(c) && Can(c, a)
    ensures CopierInv(Copy(c, a))
  {
    hide Sub;
    if a.Read? {
      ReadKeeps(c, a.text);
    } else {
      var c' := Copy(c, a);
      assert c'.emitted + Held(c') + c'.channel == c.emitted + Held(c) + c.channel;
    }
  }

  lemma CopierFacts(c: Copier)
    ensures CopierInv(COPIER)
    ensures CopierInv(c) && c.finished ==> c.holding.None?
  {
  }

  // ---- all processes of one plugin -----------------------------------------------------------

  datatype Stream = Stdout | Stderr

  datatype Event = Output(process: nat, stream: Stream, text: Text) | Exit(process: nat) | Other(n: nat)

  /** The waiter: cmd.Wait, then both readers, then the exit event. */
  datatype Waiter = Waiting | Reaped | Exited

  datatype Process = Process(out: Copier, err: Copier, waiter: Waiter)

  /**
   * `queue` is the plugin's event queue. History: every event handed to it in order, the ones its worker
   * has run, and how many found no place.
   */
  datatype Plugin = Plugin(
    processes: map<nat, Process>, queue: seq<Event>, emitted: seq<Event>, ran: seq<Event>, lost: nat)

  const EMPTY: Plugin := Plugin(map[], [], [], [], 0)

  datatype Step =
    | Start(process: nat)
    | CopyOf(process: nat, stream: Stream, a: CopyStep)
    | Reap(process: nat)
    | EmitExit(process: nat, timedOut: bool)
    | Post(n: nat, timedOut: bool)   // any other event for the plugin
    | Work

  function Of(p: Process, s: Stream): Copier {
    if s == Stdout then p.out else p.err
  }

  function With(p: Process, s: Stream, c: Copier): Process {
    if s == Stdout then p.(out := c) else p.(err := c)
  }

  /**
   * deliverPluginEvent: output finds a slot or is dropped; other events wait for one, and are given up
   * only after the wait timed out.
   */
  predicate MayDeliver(g: Plugin, ev: Event, timedOut: bool) {
    ev.Output? || |g.queue| < QUEUE_SLOTS || timedOut
  }

  function Deliver(g: Plugin, ev: Event): Plugin {
    var g' := g.(emitted := g.emitted + [ev]);
    if |g.queue| < QUEUE_SLOTS then g'.(queue := g.queue + [ev]) else g'.(lost := g.lost + 1)
  }

  predicate Enabled(g: Plugin, step: Step) {
    match step
    case Start(id) => id !in g.processes
    case CopyOf(id, s, a) => id in g.processes && Can(Of(g.processes[id], s), a)
    case Reap(id) => id in g.processes && g.processes[id].waiter == Waiting
    case EmitExit(id, timedOut) =>
      && id in g.processes && g.processes[id].waiter == Reaped
      && g.processes[id].out.finished && g.processes[id].err.finished
      && MayDeliver(g, Exit(id), timedOut)
    case Post(n, timedOut) => MayDeliver(g, Other(n), timedOut)
    case Work => g.queue != []
  }

  function Next(g: Plugin, step: Step): Plugin
    requires Enabled(g, step)
  {
    match step
    case Start(id) => g.(processes := g.processes[id := Process(COPIER, COPIER, Waiting)])
    case CopyOf(id, s, a) =>
      var p := g.processes[id];
      var g' := g.(processes := g.processes[id := With(p, s, Copy(Of(p, s), a))]);
      if a.Emit? then Deliver(g', Output(id, s, Of(p, s).holding.value)) else g'
    case Reap(id) => g.(processes := g.processes[id := g.processes[id].(waiter := Reaped)])
    case EmitExit(id, _) =>
      Deliver(g.(processes := g.processes[id := g.processes[id].(waiter := Exited)]), Exit(id))
    case Post(n, _) => Deliver(g, Other(n))
    case Work => g.(queue := g.queue[1..], ran := g.ran + [g.queue[0]])
  }

  function Run(steps: seq<Step>): Plugin {
    if steps == [] then EMPTY
    else
      var g := Run(steps[..|steps| - 1]);
      var step := steps[|steps| - 1];
      if Enabled(g, step) then Next(g, step) else g
  }

  // ---- reading event lists -------------------------------------------------------------------

  /** The chunks of one stream of one process, in order. */
  function Texts(events: seq<Event>, id: nat, s: Stream): seq<Text> {
    if events == [] then []
    else
      var ev := events[|events| - 1];
      Texts(events[..|events| - 1], id, s) + if ev.Output? && ev.process == id && ev.stream == s then [ev.text] else []
  }

  function Exits(events: seq<Event>, id: nat): nat {
    if events == [] then 0
    else Exits(events[..|events| - 1], id) + if events[|events| - 1] == Exit(id) then 1 else 0
  }

  predicate About(ev: Event, id: nat) {
    !ev.Other? && ev.process == id
  }

  /** Nothing of the process comes after its exit, so there is at most one exit. */
  predicate Quiet(events: seq<Event>, id: nat) {
    events == [] || (
      var before := events[..|events| - 1];
      Quiet(before, id) && (About(events[|events| - 1], id) ==> Exit(id) !in before))
  }

  lemma Append(events: seq<Event>, ev: Event, id: nat, s: Stream)
    ensures Texts(events + [ev], id, s) == Texts(events, id, s) + if ev.Output? && ev.process == id && ev.stream == s then [ev.text] else []
    ensures Exits(events + [ev], id) == Exits(events, id) + if ev == Exit(id) then 1 else 0
    ensures Quiet(events + [ev], id) <==> Quiet(events, id) && (About(ev, id) ==> Exit(id) !in events)
  {
    assert (events + [ev])[..|events|] == events;
  }

  lemma {:induction false} TextsSub(a: seq<Event>, b: seq<Event>, id: nat, s: Stream)
    requires Sub(a, b)
    ensures Sub(Texts(a, id, s), Texts(b, id, s))
    decreases |b|
  {
    if a != [] {
      var b', x := b[..|b| - 1], b[|b| - 1];
      var rest := if Sub(a, b') then a else a[..|a| - 1];
      TextsSub(rest, b', id, s);
      var t, u := Texts(rest, id, s), Texts(b', id, s);
      if x.Output? && x.process == id && x.stream == s {
        SubSkip(t, u, x.text);
        SubKeep(t, u, x.text);
      } else {
        assert Texts(b, id, s) == u && (rest != a ==> Texts(a, id, s) == t);
      }
    }
  }

  lemma {:induction false} QuietSub(a: seq<Event>, b: seq<Event>, id: nat)
    requires Sub(a, b) && Quiet(b, id)
    ensures Quiet(a, id)
    decreases |b|
  {
    if a != [] {
      var b' := b[..|b| - 1];
      if Sub(a, b') {
        QuietSub(a, b', id);
      } else {
        var a' := a[..|a| - 1];
        QuietSub(a', b', id);
        if Exit(id) in a' { SubMember(a', b', Exit(id)); }
      }
    }
  }

  lemma {:induction false} ExitsMember(events: seq<Event>, id: nat)
    ensures Exits(events, id) > 0 <==> Exit(id) in events
  {
    if events != [] {
      ExitsMember(events[..|events| - 1], id);
      assert events == events[..|events| - 1] + [events[|events| - 1]];
    }
  }

  // ---- invariants ----------------------------------------------------------------------------

  /** Every event is run, waiting or lost, and none overtakes another. */
  ghost predicate QueueInv(g: Plugin) {
    && Sub(g.ran + g.queue, g.emitted)
    && |g.ran| + |g.queue| + g.lost == |g.emitted|
    && |g.queue| <= QUEUE_SLOTS
  }

  ghost predicate ProcessInv(g: Plugin, id: nat, p: Process) {
    && CopierInv(p.out) && CopierInv(p.err)
    && p.out.emitted == Texts(g.emitted, id, Stdout) && p.err.emitted == Texts(g.emitted, id, Stderr)
    && Quiet(g.emitted, id)
    && Exits(g.emitted, id) == (if p.waiter == Exited then 1 else 0)
    && (p.waiter == Exited ==> p.out.finished && p.err.finished)
  }

  ghost predicate Absent(g: Plugin, id: nat) {
    && Texts(g.emitted, id, Stdout) == [] && Texts(g.emitted, id, Stderr) == []
    && Exits(g.emitted, id) == 0 && Quiet(g.emitted, id)
  }

  ghost predicate Inv(g: Plugin) {
    QueueInv(g) && forall id :: if id in g.processes then ProcessInv(g, id, g.processes[id]) else Absent(g, id)
  }

  lemma DeliverQueue(g: Plugin, ev: Event)
    requires QueueInv(g)
    ensures QueueInv(Deliver(g, ev))
  {
    SubSkip(g.ran + g.queue, g.emitted, ev);
    SubKeep(g.ran + g.queue, g.emitted, ev);
    assert g.ran + (g.queue + [ev]) == g.ran + g.queue + [ev];
  }

  lemma QueueStep(g: Plugin, step: Step)
    requires QueueInv(g) && Enabled(g, step)
    ensures QueueInv(Next(g, step))
  {
    match step
    case CopyOf(id, s, a) =>
      hide QueueInv;
      var p := g.processes[id];
      var g' := g.(processes := g.processes[id := With(p, s, Copy(Of(p, s), a))]);
      assert QueueInv(g') by { SameQueue(g, g'); }
      if a.Emit? { DeliverQueue(g', Output(id, s, Of(p, s).holding.value)); }
    case EmitExit(id, _) =>
      var g' := g.(processes := g.processes[id := g.processes[id].(waiter := Exited)]);
      DeliverQueue(g', Exit(id));
    case Post(n, _) => DeliverQueue(g, Other(n));
    case Work => assert g.ran + [g.queue[0]] + g.queue[1..] == g.ran + g.queue;
    case _ =>
  }

  lemma SameQueue(g: Plugin, g': Plugin)
    requires QueueInv(g) && g' == g.(processes := g'.processes)
    ensures QueueInv(g')
  {
  }

  lemma StepKeeps(g: Plugin, step: Step)
    requires Inv(g) && Enabled(g, step)
    ensures Inv(Next(g, step))
  {
    var g' := Next(g, step);
    QueueStep(g, step);
    forall id
      ensures if id in g'.processes then ProcessInv(g', id, g'.processes[id]) else Absent(g', id)
    {
      ProcessStep(g, step, id);
    }
  }

  /** A step that emits nothing. */
  lemma SilentStep(g: Plugin, step: Step, id: nat)
    requires Inv(g) && Enabled(g, step) && Next(g, step).emitted == g.emitted
    ensures var g' := Next(g, step); if id in g'.processes then ProcessInv(g', id, g'.processes[id]) else Absent(g', id)
  {
    hide Sub, CopierInv, QueueInv, Texts, Exits, Quiet;
    CopierFacts(COPIER);
    if step.CopyOf? && step.process == id {
      CopyKeeps(Of(g.processes[id], step.stream), step.a);
      CopierFacts(Of(g.processes[id], step.stream));
    }
  }

  /** An event of another process, or of none, changes nothing for this one. */
  lemma ForeignEvent(g: Plugin, g': Plugin, ev: Event, id: nat)
    requires Inv(g) && g'.emitted == g.emitted + [ev] && !About(ev, id)
    requires id in g'.processes <==> id in g.processes
    requires id in g.processes ==> g'.processes[id] == g.processes[id]
    ensures if id in g'.processes then ProcessInv(g', id, g'.processes[id]) else Absent(g', id)
  {
    hide Sub, CopierInv, QueueInv;
    Append(g.emitted, ev, id, Stdout);
    Append(g.emitted, ev, id, Stderr);
    hide Texts, Exits, Quiet;
  }

  lemma OutputStep(g: Plugin, id: nat, s: Stream)
    requires Inv(g) && Enabled(g, CopyOf(id, s, Emit))
    ensures var g' := Next(g, CopyOf(id, s, Emit)); ProcessInv(g', id, g'.processes[id])
  {
    hide Sub, CopierInv, QueueInv;
    var p := g.processes[id];
    assert ProcessInv(g, id, p);
    var ev := Output(id, s, Of(p, s).holding.value);
    CopyKeeps(Of(p, s), Emit);
    CopierFacts(Of(p, s));
    Append(g.emitted, ev, id, Stdout);
    Append(g.emitted, ev, id, Stderr);
    ExitsMember(g.emitted, id);
    hide Texts, Exits, Quiet;
  }

  lemma ExitStep(g: Plugin, id: nat, timedOut: bool)
    requires Inv(g) && Enabled(g, EmitExit(id, timedOut))
    ensures var g' := Next(g, EmitExit(id, timedOut)); ProcessInv(g', id, g'.processes[id])
  {
    hide Sub, CopierInv, QueueInv;
    assert ProcessInv(g, id, g.processes[id]);
    Append(g.emitted, Exit(id), id, Stdout);
    Append(g.emitted, Exit(id), id, Stderr);
    ExitsMember(g.emitted, id);
    hide Texts, Exits, Quiet;
  }

  lemma ProcessStep(g: Plugin, step: Step, id: nat)
    requires Inv(g) && Enabled(g, step)
    ensures var g' := Next(g, step); if id in g'.processes then ProcessInv(g', id, g'.processes[id]) else Absent(g', id)
  {
    var g' := Next(g, step);
    hide Inv, ProcessInv, Absent;
    if g'.emitted == g.emitted {
      SilentStep(g, step, id);
    } else if step.CopyOf? && step.process == id {
      OutputStep(g, id, step.stream);
    } else if step.EmitExit? && step.process == id {
      ExitStep(g, id, step.timedOut);
    } else {
      ForeignEvent(g, g', g'.emitted[|g.emitted|], id);
    }
  }

  lemma {:induction false} RunInv(steps: seq<Step>)
    ensures Inv(Run(steps))
  {
    if steps == [] {
      assert forall id :: Absent(EMPTY, id);
    } else {
      var g := Run(steps[..|steps| - 1]);
      RunInv(steps[..|steps| - 1]);
      hide Inv;
      if Enabled(g, steps[|steps| - 1]) { StepKeeps(g, steps[|steps| - 1]); }
    }
  }

  // ---- every run -----------------------------------------------------------------------------

  /**
   * In every interleaving, the exit event of a process is emitted at most once, exactly once when its
   * waiter is done, and after every output event of that process: by then both streams have ended and
   * every chunk read from them was emitted or counted as discarded.
   */
  lemma ExitIsLast(steps: seq<Step>, id: nat)
    requires id in Run(steps).processes
    ensures var g := Run(steps); var p := g.processes[id];
      && Exits(g.emitted, id) == (if p.waiter == Exited then 1 else 0)
      && Quiet(g.emitted, id)
      && (p.waiter == Exited ==> forall s ::
            && Of(p, s).ended
            && |Texts(g.emitted, id, s)| + Of(p, s).discarded == |Of(p, s).read|)
  {
    RunInv(steps);
    assert ProcessInv(Run(steps), id, Run(steps).processes[id]);
  }

  /**
   * The plugin's worker runs, of each stream, chunks that were read from it, in the order they were read;
   * after the exit event of a process it runs nothing more of it, and it runs that event at most once.
   */
  lemma WorkerOrder(steps: seq<Step>, id: nat, s: Stream)
    requires id in Run(steps).processes
    ensures var g := Run(steps);
      Sub(Texts(g.ran, id, s), Of(g.processes[id], s).read) && Quiet(g.ran, id) && Exits(g.ran, id) <= 1
  {
    RunInv(steps);
    var g := Run(steps);
    hide Run;
    var p := g.processes[id];
    assert ProcessInv(g, id, p);
    RanSub(g);
    TextsSub(g.ran, g.emitted, id, s);
    EmittedSub(Of(p, s));
    SubTrans(Texts(g.ran, id, s), Texts(g.emitted, id, s), Of(p, s).read);
    QuietSub(g.ran, g.emitted, id);
    QuietOnce(g.ran, id);
  }

  lemma RanSub(g: Plugin)
    requires QueueInv(g)
    ensures Sub(g.ran, g.emitted)
  {
    PrefixSub(g.ran, g.queue);
    SubTrans(g.ran, g.ran + g.queue, g.emitted);
  }

  lemma EmittedSub(c: Copier)
    requires CopierInv(c)
    ensures Sub(c.emitted, c.read)
  {
    PrefixSub(c.emitted, Held(c) + c.channel);
    assert c.emitted + (Held(c) + c.channel) == c.emitted + Held(c) + c.channel;
    SubTrans(c.emitted, c.emitted + Held(c) + c.channel, c.read);
  }

  lemma {:induction false} PrefixSub<T>(a: seq<T>, b: seq<T>)
    ensures Sub(a, a + b)
  {
    if b == [] {
      SubRefl(a);
      assert a + b == a;
    } else {
      PrefixSub(a, b[..|b| - 1]);
      SubSkip(a, a + b[..|b| - 1], b[|b| - 1]);
      assert a + b[..|b| - 1] + [b[|b| - 1]] == a + b;
    }
  }

  lemma {:induction false} QuietOnce(events: seq<Event>, id: nat)
    requires Quiet(events, id)
    ensures Exits(events, id) <= 1
  {
    if events != [] {
      QuietOnce(events[..|events| - 1], id);
      ExitsMember(events[..|events| - 1], id);
    }
  }

  /**
   * Losses are counted, so where nothing was lost nothing is missing: if no chunk was discarded and no
   * event found the queue full, then once the worker has caught up after the exit, it has run every
   * chunk of the process, and the exit.
   */
  lemma NothingMissing(steps: seq<Step>, id: nat, s: Stream)
    requires var g := Run(steps);
      && id in g.processes && g.processes[id].waiter == Exited && g.queue == [] && g.lost == 0
      && Of(g.processes[id], s).discarded == 0
    ensures var g := Run(steps);
      Texts(g.ran, id, s) == Of(g.processes[id], s).read && Exits(g.ran, id) == 1
  {
    RunInv(steps);
    var g := Run(steps);
    hide Run;
    assert ProcessInv(g, id, g.processes[id]);
    RanSub(g);
    SubLength(g.ran, g.emitted);
    EmittedSub(Of(g.processes[id], s));
    SubLength(Of(g.processes[id], s).emitted, Of(g.processes[id], s).read);
  }
}
