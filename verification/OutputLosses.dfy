/**
 * When plugin process output is lost, and that the rest gets through (internal/core/plugin_processes.go,
 * internal/core/controller.go): the two bounded channels on the way drop only what finds them full.
 */
module OutputLosses {
  import opened Options
  import opened ProcessOutput
  import opened Subsequences

  // ---- what is lost --------------------------------------------------------------------------

  /** A chunk that is read is the last in the channel, or counted as discarded if that has eight already. */
  lemma ReadKeptIff(steps: seq<Step>, id: nat, s: Stream, text: Text)
    requires id in Run(steps).processes && !Of(Run(steps).processes[id], s).ended
    ensures var g := Run(steps); var c := Of(g.processes[id], s);
      var g' := Run(steps + [CopyOf(id, s, Read(text))]);
      && g' == g.(processes := g.processes[id := With(g.processes[id], s, Of(g'.processes[id], s))])
      && Of(g'.processes[id], s) ==
           if |c.channel| == 8 then c.(read := c.read + [text], discarded := c.discarded + 1)
           else c.(read := c.read + [text], channel := c.channel + [text])
  {
    RunInv(steps);
    var g := Run(steps);
    assert ProcessInv(g, id, g.processes[id]);
    hide Sub, Texts, Exits, Quiet;
    RunOneMore(steps, CopyOf(id, s, Read(text)));
  }

  lemma RunOneMore(steps: seq<Step>, step: Step)
    requires Enabled(Run(steps), step)
    ensures Run(steps + [step]) == Next(Run(steps), step)
  {
    assert (steps + [step])[..|steps|] == steps;
  }

  /** An event for the plugin. */
  ghost predicate Posts(g: Plugin, step: Step, ev: Event) {
    match step
    case CopyOf(id, s, a) =>
      a.Emit? && id in g.processes && Of(g.processes[id], s).holding.Some?
      && ev == Output(id, s, Of(g.processes[id], s).holding.value)
    case EmitExit(id, _) => ev == Exit(id)
    case Post(n, _) => ev == Other(n)
    case _ => false
  }

  /**
   * An event goes to the end of the plugin's queue unless that holds 256: then it is lost, and counted. All
   * but output waits for a slot first, and is lost only when that wait timed out.
   */
  lemma DeliveredIff(steps: seq<Step>, step: Step, ev: Event)
    requires Enabled(Run(steps), step) && Posts(Run(steps), step, ev)
    ensures var g, g' := Run(steps), Run(steps + [step]);
      && g'.emitted == g.emitted + [ev] && g'.ran == g.ran
      && (if |g.queue| == 256 then g'.queue == g.queue && g'.lost == g.lost + 1
          else g'.queue == g.queue + [ev] && g'.lost == g.lost)
      && (|g.queue| == 256 && !ev.Output? ==> step.timedOut)
  {
    RunInv(steps);
    hide Sub, Texts, Exits, Quiet, ProcessInv, Absent;
    RunOneMore(steps, step);
  }

  predicate PostsNothing(step: Step) {
    !(step.CopyOf? && step.a.Emit?) && !step.EmitExit? && !step.Post?
  }

  /** No other step touches the queue, except the worker, which takes the first event and runs it. */
  lemma QueuedOtherwise(steps: seq<Step>, step: Step)
    requires Enabled(Run(steps), step) && PostsNothing(step)
    ensures var g, g' := Run(steps), Run(steps + [step]);
      && g'.emitted == g.emitted && g'.lost == g.lost
      && (if step.Work? then g.queue == [g'.ran[|g.ran|]] + g'.queue && g'.ran == g.ran + [g.queue[0]]
          else g'.queue == g.queue && g'.ran == g.ran)
  {
    hide Run;
    RunOneMore(steps, step);
  }

  /** So short outputs are safe: of a stream with at most eight chunks none is discarded, of 256 events none lost. */
  ghost predicate SafeInv(g: Plugin) {
    && (|g.emitted| <= 256 ==> g.lost == 0)
    && forall id | id in g.processes :: StreamSafe(g.processes[id].out) && StreamSafe(g.processes[id].err)
  }

  predicate StreamSafe(c: Copier) {
    |c.read| <= 8 ==> c.discarded == 0
  }

  lemma CopySafe(c: Copier, a: CopyStep)
    requires CopierInv(c) && StreamSafe(c) && Can(c, a)
    ensures StreamSafe(Copy(c, a))
  {
    hide Sub;
  }

  lemma StepSafe(g: Plugin, step: Step)
    requires Inv(g) && SafeInv(g) && Enabled(g, step)
    ensures SafeInv(Next(g, step))
  {
    hide Sub, Texts, Exits, Quiet, Absent, CopierInv, StreamSafe, Copy;
    assert StreamSafe(COPIER) by { EmptySafe(); }
    if step.CopyOf? {
      assert ProcessInv(g, step.process, g.processes[step.process]);
      CopySafe(Of(g.processes[step.process], step.stream), step.a);
    }
  }

  lemma EmptySafe()
    ensures StreamSafe(COPIER)
  {
  }

  lemma {:induction false} RunSafe(steps: seq<Step>)
    ensures SafeInv(Run(steps))
  {
    if steps != [] {
      var g := Run(steps[..|steps| - 1]);
      RunSafe(steps[..|steps| - 1]);
      RunInv(steps[..|steps| - 1]);
      hide SafeInv, Inv, Next;
      if Enabled(g, steps[|steps| - 1]) { StepSafe(g, steps[|steps| - 1]); }
    }
  }

  lemma ShortOutputIsSafe(steps: seq<Step>, id: nat, s: Stream)
    requires id in Run(steps).processes
    ensures var g := Run(steps); var c := Of(g.processes[id], s);
      && (|c.read| <= 8 ==> c.discarded == 0) && (|g.emitted| <= 256 ==> g.lost == 0)
  {
    RunSafe(steps);
  }

  // ---- what gets through ---------------------------------------------------------------------

  /** `more` steps of one stream of one process: the other stream and the waiter are where they were. */
  ghost predicate OnlyStream(g: Plugin, g': Plugin, id: nat, s: Stream) {
    && id in g.processes && id in g'.processes
    && g'.processes[id] == With(g.processes[id], s, Of(g'.processes[id], s))
    && Of(g'.processes[id], s).read == Of(g.processes[id], s).read
  }

  /** The next step that brings a stream with an ended read nearer to its end. */
  function Nearer(c: Copier): CopyStep {
    if c.holding.Some? then Emit else if c.channel != [] then Take else Finish
  }

  lemma NearerCopy(c: Copier)
    requires c.ended && !c.finished
    ensures Can(c, Nearer(c))
    ensures var c' := Copy(c, Nearer(c));
      && c'.ended && c'.read == c.read && c'.emitted + Held(c') + c'.channel == c.emitted + Held(c) + c.channel
      && (c'.finished <==> c.holding.None? && c.channel == [])
      && 2 * |c'.channel| + |Held(c')| <= 2 * |c.channel| + |Held(c)|
      && (!c'.finished ==> 2 * |c'.channel| + |Held(c')| < 2 * |c.channel| + |Held(c)|)
  {
  }

  lemma NearerStep(steps: seq<Step>, id: nat, s: Stream)
    requires id in Run(steps).processes && Of(Run(steps).processes[id], s).ended && !Of(Run(steps).processes[id], s).finished
    ensures var g := Run(steps); var c := Of(g.processes[id], s);
      var g' := Run(steps + [CopyOf(id, s, Nearer(c))]);
      && id in g'.processes && g'.processes[id] == With(g.processes[id], s, Copy(c, Nearer(c)))
  {
    hide Run, Copy, Can, Nearer;
    var g := Run(steps);
    var c := Of(g.processes[id], s);
    NearerCopy(c);
    RunOneMore(steps, CopyOf(id, s, Nearer(c)));
  }

  /**
   * Once a stream has ended, its forwarder can emit everything it holds and everything in the channel, and
   * then it is finished, whatever the other goroutines did before.
   */
  lemma {:induction false} StreamFinishes(steps: seq<Step>, id: nat, s: Stream) returns (more: seq<Step>)
    requires id in Run(steps).processes && Of(Run(steps).processes[id], s).ended && !Of(Run(steps).processes[id], s).finished
    ensures var g, g' := Run(steps), Run(steps + more);
      && OnlyStream(g, g', id, s) && Of(g'.processes[id], s).finished
      && var c := Of(g.processes[id], s); Of(g'.processes[id], s).emitted == c.emitted + Held(c) + c.channel
    decreases 2 * |Of(Run(steps).processes[id], s).channel| + |Held(Of(Run(steps).processes[id], s))|
  {
    hide Run, Copy, Nearer;
    var c := Of(Run(steps).processes[id], s);
    var step := CopyOf(id, s, Nearer(c));
    NearerCopy(c);
    NearerStep(steps, id, s);
    var c' := Of(Run(steps + [step]).processes[id], s);
    if c'.finished {
      more := [step];
      AllEmitted(c, c');
    } else {
      var rest := StreamFinishes(steps + [step], id, s);
      more := [step] + rest;
      assert steps + more == steps + [step] + rest;
    }
  }

  lemma AllEmitted(c: Copier, c': Copier)
    requires c.ended && !c.finished && c' == Copy(c, Nearer(c)) && c'.finished
    ensures c'.emitted == c.emitted + Held(c) + c.channel
  {
  }

  /**
   * And so the exit event comes. From every state in which a process is reaped and its streams have ended
   * there is a way to the event that tells so; nothing has to be assumed about the plugin's worker.
   */
  lemma ExitComes(steps: seq<Step>, id: nat) returns (more: seq<Step>)
    requires var g := Run(steps);
      && id in g.processes && g.processes[id].waiter == Reaped && g.processes[id].out.ended && g.processes[id].err.ended
    ensures var g' := Run(steps + more);
      id in g'.processes && g'.processes[id].waiter == Exited && Exits(g'.emitted, id) == 1
  {
    hide Run, Exits;
    var both := StreamsFinish(steps, id);
    var last := EmitExit(id, true);
    more := both + [last];
    assert steps + more == steps + both + [last];
    RunOneMore(steps + both, last);
    ExitIsLast(steps + more, id);
  }

  lemma StreamsFinish(steps: seq<Step>, id: nat) returns (more: seq<Step>)
    requires var g := Run(steps); id in g.processes && g.processes[id].out.ended && g.processes[id].err.ended
    ensures var g' := Run(steps + more);
      && id in g'.processes && g'.processes[id].waiter == Run(steps).processes[id].waiter
      && g'.processes[id].out.finished && g'.processes[id].err.finished
  {
    hide Run;
    var a, b := [], [];
    assert steps + [] == steps;
    if !Run(steps).processes[id].out.finished { a := StreamFinishes(steps, id, Stdout); }
    assert steps + a + [] == steps + a;
    if !Run(steps + a).processes[id].err.finished { b := StreamFinishes(steps + a, id, Stderr); }
    more := a + b;
    assert steps + more == steps + a + b;
  }

  /** The steps after which the exit of a process can come: it was started, its streams ended, it was reaped. */
  function Life(id: nat): seq<Step> {
    [Start(id), CopyOf(id, Stdout, ReadEnd), CopyOf(id, Stderr, ReadEnd), Reap(id)]
  }

  lemma FourSteps(steps: seq<Step>, a: Step, b: Step, c: Step, d: Step)
    ensures steps + [a, b, c, d] == steps + [a] + [b] + [c] + [d]
  {
  }

  /** From its start on: a new process without output gets to its exit, and nothing else is told of it. */
  lemma LifeOfAProcess(steps: seq<Step>, id: nat) returns (more: seq<Step>)
    requires id !in Run(steps).processes
    ensures var g := Run(steps + Life(id) + more);
      id in g.processes && g.processes[id].waiter == Exited && Exits(g.emitted, id) == 1
  {
    hide Run, Exits;
    var a, b, c, d := Start(id), CopyOf(id, Stdout, ReadEnd), CopyOf(id, Stderr, ReadEnd), Reap(id);
    FourSteps(steps, a, b, c, d);
    RunOneMore(steps, a);
    RunOneMore(steps + [a], b);
    RunOneMore(steps + [a] + [b], c);
    RunOneMore(steps + [a] + [b] + [c], d);
    more := ExitComes(steps + Life(id), id);
  }
}
