/**
 * What the peer of a gateway can rely on (internal/httpgateway/gateway.go): for each kind of frame exactly
 * when it is taken, and what it has brought about once the gateway reads again; for every state that a run
 * can reach.
 */
module HttpService {
  import opened Bytes
  import opened FrameCodec
  import opened HttpTunnel
  import Upload
  import Download

  /** A frame handled to its end: the step that takes it, and the one that answers it or passes it on. */
  function Handle(g: Gateway, f: Frame, startOK: bool): Gateway {
    Step(Step(g, Receive(f, startOK)), Feed)
  }

  /** Everything is as it was, but for the record of one exchange. */
  ghost predicate OnlyExchange(g: Gateway, g': Gateway, id: nat, e: Exchange) {
    && g'.all.Keys == g.all.Keys + {id} && g'.all[id] == e
    && (forall other | other in g.all && other != id :: g'.all[other] == g.all[other])
    && g'.closed == g.closed
  }

  /** What handling has left of one exchange, in a gateway that reads again. */
  ghost predicate Leaves(g: Gateway, g': Gateway, id: nat, e: Exchange) {
    Ready(g') && g' == g.(all := g'.all) && OnlyExchange(g, g', id, e)
  }

  /** The connection is over and every exchange cancelled. */
  ghost predicate Over(g: Gateway, g': Gateway) {
    && g'.closed && g'.all.Keys == g.all.Keys && g'.live == g.live && g'.wire == g.wire && g'.started == g.started
    && forall id | id in g.all :: g'.all[id].cancelled
  }

  lemma ShutOver(g: Gateway, lastID: nat)
    ensures var g' := Shut(g.(lastID := lastID)); Over(g, g') && Step(g', Feed) == g'
  {
    hide FeedStep;
  }

  lemma LeavesOne(g: Gateway, g': Gateway, id: nat, e: Exchange)
    requires Ready(g) && id in g.all && AtRest(e) && g' == g.(all := g.all[id := e])
    ensures Leaves(g, g', id, e)
  {
    hide AtRest;
  }

  /** A gateway that reads has nothing half handled. */
  lemma LiveFacts(g: Gateway, id: nat)
    requires Inv(g) && Ready(g) && id in g.live
    ensures id in g.all && 0 < id < WEBSOCKET_BIT && AtRest(g.all[id]) && 0 <= g.all[id].down.credit
  {
    hide AtRest;
    PartOf(g, id);
    hide TableInv, PartsInv, WireInv, Upload.Inv, Download.BodyInv, Download.WakeInv, Download.ShapeInv, Download.TellInv;
  }

  // ---- identifiers ---------------------------------------------------------------------------

  /** An open gateway has begun an exchange for every identifier it has let pass. */
  predicate LastStarted(g: Gateway) {
    g.closed || g.lastID == if g.started == [] then 0 else g.started[|g.started| - 1]
  }

  lemma LastStartedReceive(g: Gateway, f: Frame, startOK: bool)
    requires LastStarted(g) && Valid(f) && Ready(g)
    ensures LastStarted(AcceptStep(g, f, startOK))
  {
    hide Ready, Upload.Next, Download.Next, Value, AboutFinished;
  }

  lemma LastStartedStep(g: Gateway, ev: Event)
    requires LastStarted(g)
    ensures LastStarted(Step(g, ev))
  {
    match ev
    case Receive(f, startOK) =>
      hide LastStarted, AcceptStep, Ready;
      if Valid(f) && Ready(g) { LastStartedReceive(g, f, startOK); }
    case _ => hide AcceptStep, Upload.Next, Download.Next, Upload.Enabled, ForwarderMay, ExecutorMay;
  }

  lemma {:induction false} RunLastStarted(events: seq<Event>)
    ensures LastStarted(Run(events))
  {
    if events != [] {
      RunLastStarted(events[..|events| - 1]);
      hide LastStarted, Step;
      LastStartedStep(Run(events[..|events| - 1]), events[|events| - 1]);
    }
  }

  // ---- Start ---------------------------------------------------------------------------------

  /** A new exchange: nothing admitted, the whole window to send, no credit to answer with. */
  predicate Fresh(e: Exchange, id: nat) {
    && !e.cancelled && e.up.uploaded == 65536 && !e.up.ended && e.up.queue == [] && e.up.admitted == [] && e.up.forwarded == []
    && e.up.forwarder.Waiting? && e.down.id == id && e.down.credit == 0 && e.down.granted == 0 && !e.down.wake
    && e.down.executor.Calling? && e.down.replies == []
  }

  /** A fresh exchange more, whose window the peer is told, and everything else as it was. */
  ghost predicate Serves(g: Gateway, g': Gateway, id: nat) {
    && Ready(g') && id !in g.all && id in g'.all && Fresh(g'.all[id], id) && OnlyExchange(g, g', id, g'.all[id])
    && g'.live == g.live + {id} && g'.started == g.started + [id]
    && g'.wire == g.wire + [Frame(UPLOAD_CREDIT, id, BigEndian(65536, 4))]
  }

  predicate Above(ids: seq<nat>, id: nat) {
    forall i | 0 <= i < |ids| :: ids[i] < id
  }

  /**
   * A Start is served exactly if its metadata is acceptable, its identifier is above all that began an
   * exchange, and fewer than 16 are live. Then there is one exchange more, fresh, and the peer is told the
   * whole upload window; all others are as they were. Otherwise the connection is over.
   */
  lemma StartServed(events: seq<Event>, f: Frame, startOK: bool)
    requires Valid(f) && Ready(Run(events)) && f.kind == START && f.id < 0x8000_0000
    ensures var g := Run(events); var g' := Handle(g, f, startOK);
      if startOK && Above(g.started, f.id) && |g.live| < 16 then Serves(g, g', f.id) else Over(g, g')
  {
    hide Run, Inv, Handle, LastStarted;
    RunInv(events);
    RunLastStarted(events);
    StartFacts(Run(events), f, startOK);
  }

  lemma AboveLast(g: Gateway, id: nat)
    requires TableInv(g) && LastStarted(g) && !g.closed && id > 0
    ensures Above(g.started, id) <==> id > g.lastID
  {
    hide AtRest;
    if g.started != [] {
      assert g.started[|g.started| - 1] in g.started;
    }
  }

  lemma StartFacts(g: Gateway, f: Frame, startOK: bool)
    requires TableInv(g) && LastStarted(g) && Valid(f) && Ready(g) && f.kind == START && f.id < 0x8000_0000
    ensures var g' := Handle(g, f, startOK);
      if startOK && Above(g.started, f.id) && |g.live| < 16 then Serves(g, g', f.id) else Over(g, g')
  {
    hide TableInv, LastStarted, Valid, Ready, Step, Shut, Over, Above, Serves, Begun;
    OpenWhenReady(g);
    NotZero(f);
    AboveLast(g, f.id);
    NewId(g, f.id);
    StartStep(g, f, startOK);
    if startOK && Above(g.started, f.id) && |g.live| < 16 {
      BegunServes(g, f.id);
    } else {
      ShutOver(g, Step(g, Receive(f, startOK)).lastID);
    }
  }

  lemma BegunServes(g: Gateway, id: nat)
    requires Ready(g) && id !in g.all
    ensures Serves(g, Step(Begun(g, id), Feed), id)
  {
    hide Ready, Step, Serves, BigEndian;
    OpenWhenReady(g);
    Opens(Begun(g, id), id);
    assert Step(Begun(g, id), Feed) == Opened(g, id);
    OpenedServes(g, id);
  }

  lemma NotZero(f: Frame)
    requires Valid(f)
    ensures f.id > 0
  {
  }

  lemma OpenWhenReady(g: Gateway)
    requires Ready(g)
    ensures !g.closed && g.busy == 0
  {
  }

  lemma NewId(g: Gateway, id: nat)
    requires TableInv(g)
    ensures id > g.lastID ==> id !in g.all && id !in g.live
  {
    hide AtRest;
  }

  function Begun(g: Gateway, id: nat): Gateway {
    g.(lastID := id, live := g.live + {id}, all := g.all[id := Exchange(false, Upload.NEW, Download.New(id))], busy := id,
       started := g.started + [id])
  }

  lemma StartStep(g: Gateway, f: Frame, startOK: bool)
    requires Valid(f) && Ready(g) && f.kind == START && f.id < WEBSOCKET_BIT && (f.id > g.lastID ==> f.id !in g.live)
    ensures var a := Step(g, Receive(f, startOK));
      if startOK && f.id > g.lastID && |g.live| < 16 then a == Begun(g, f.id) else a == Shut(g.(lastID := a.lastID))
  {
    hide Ready;
  }

  function Opened(g: Gateway, id: nat): Gateway {
    var e := Exchange(false, Upload.NEW.(feeder := Upload.Idle, returned := 65536, frames := 1), Download.New(id));
    Begun(g, id).(all := g.all[id := e], busy := 0, wire := g.wire + [Frame(UPLOAD_CREDIT, id, BigEndian(65536, 4))])
  }

  lemma OpenedServes(g: Gateway, id: nat)
    requires Ready(g) && id !in g.all
    ensures Serves(g, Opened(g, id), id)
  {
    hide AtRest, BigEndian;
    assert AtRest(Opened(g, id).all[id]) by { NewAtRest(id); }
  }

  lemma NewAtRest(id: nat)
    ensures AtRest(Exchange(false, Upload.NEW.(feeder := Upload.Idle, returned := 65536, frames := 1), Download.New(id)))
  {
  }

  /** The step after a Start. */
  lemma Opens(g: Gateway, id: nat)
    requires id in g.all && g.busy == id && !g.closed && g.all[id].up == Upload.NEW
    ensures Step(g, Feed) ==
      g.(all := g.all[id := g.all[id].(up := Upload.NEW.(feeder := Upload.Idle, returned := 65536, frames := 1))],
         busy := 0, wire := g.wire + [Frame(UPLOAD_CREDIT, id, BigEndian(65536, 4))])
  {
    hide BigEndian;
  }

  // ---- Cancel --------------------------------------------------------------------------------

  /** A Cancel marks exactly its own exchange, whose goroutines may then give up wherever they wait. */
  lemma CancelMarks(events: seq<Event>, f: Frame, startOK: bool)
    requires Valid(f) && Ready(Run(events)) && f.kind == CANCEL && f.id in Run(events).live
    ensures var g := Run(events); var g' := Handle(g, f, startOK);
      if f.data == [] then
        && g' == g.(all := g'.all) && OnlyExchange(g, g', f.id, g.all[f.id].(cancelled := true))
        && (g'.all[f.id].up.forwarder.Waiting? ==> ForwarderMay(g', g'.all[f.id], Upload.Quit))
        && (g'.all[f.id].down.executor.Parked? ==> ExecutorMay(g', g'.all[f.id], Download.Quit))
      else Over(g, g')
  {
    hide Run, Inv, Handle;
    RunInv(events);
    CancelFacts(Run(events), f, startOK);
  }

  lemma CancelFacts(g: Gateway, f: Frame, startOK: bool)
    requires Inv(g) && Valid(f) && Ready(g) && f.kind == CANCEL && f.id in g.live
    ensures var g' := Handle(g, f, startOK);
      if f.data == [] then
        && g' == g.(all := g'.all) && OnlyExchange(g, g', f.id, g.all[f.id].(cancelled := true))
        && (g'.all[f.id].up.forwarder.Waiting? ==> ForwarderMay(g', g'.all[f.id], Upload.Quit))
        && (g'.all[f.id].down.executor.Parked? ==> ExecutorMay(g', g'.all[f.id], Download.Quit))
      else Over(g, g')
  {
    hide Inv, Valid, Ready, Step, Shut, Over;
    LiveFacts(g, f.id);
    NoExchangeZero(g);
    OpenWhenReady(g);
    CancelStep(g, f, startOK);
    if f.data == [] {
      NothingToFeed(Step(g, Receive(f, startOK)));
    } else {
      ShutOver(g, g.lastID);
    }
  }

  lemma NoExchangeZero(g: Gateway)
    requires Inv(g)
    ensures 0 !in g.all
  {
    hide PartsInv, WireInv, AtRest;
  }

  lemma CancelStep(g: Gateway, f: Frame, startOK: bool)
    requires Valid(f) && Ready(g) && f.kind == CANCEL && f.id in g.live && f.id < WEBSOCKET_BIT
    ensures Step(g, Receive(f, startOK)) ==
      if f.data == [] then g.(all := g.all[f.id := g.all[f.id].(cancelled := true)]) else Shut(g)
  {
    hide Ready;
  }

  lemma NothingToFeed(g: Gateway)
    requires g.busy !in g.all
    ensures Step(g, Feed) == g
  {
    hide FeedStep;
  }

  // ---- frames that are passed on -------------------------------------------------------------

  /**
   * Download credit is taken exactly if it is a number from 1 to what the window has left. Then it is all
   * there at once, with a token in the wake channel.
   */
  lemma CreditGranted(events: seq<Event>, f: Frame, startOK: bool)
    requires Valid(f) && Ready(Run(events)) && f.kind == DOWNLOAD_CREDIT && f.id in Run(events).live
    ensures var g := Run(events); var g', e, n := Handle(g, f, startOK), g.all[f.id], Value(f.data);
      if |f.data| == 4 && 1 <= n && e.down.credit + n <= 65536 then
        Leaves(g, g', f.id, e.(down := e.down.(credit := e.down.credit + n, granted := e.down.granted + n, wake := true)))
      else Over(g, g')
  {
    hide Run, Inv, Handle;
    RunInv(events);
    GrantFacts(Run(events), f, startOK);
  }

  lemma GrantFacts(g: Gateway, f: Frame, startOK: bool)
    requires Inv(g) && Valid(f) && Ready(g) && f.kind == DOWNLOAD_CREDIT && f.id in g.live
    ensures var g', e, n := Handle(g, f, startOK), g.all[f.id], Value(f.data);
      if |f.data| == 4 && 1 <= n && e.down.credit + n <= 65536 then
        Leaves(g, g', f.id, e.(down := e.down.(credit := e.down.credit + n, granted := e.down.granted + n, wake := true)))
      else Over(g, g')
  {
    hide Inv, Valid, Ready, Value, Leaves, Over, Step, Shut;
    LiveFacts(g, f.id);
    OpenWhenReady(g);
    GrantStep(g, f, startOK);
    var e, n, a := g.all[f.id], Value(f.data), Step(g, Receive(f, startOK));
    if |f.data| == 4 && 1 <= n && e.down.credit + n <= 65536 {
      Wakes(a, f.id);
      LeavesOne(g, Step(a, Feed), f.id, Step(a, Feed).all[f.id]);
    } else {
      ShutOver(g, g.lastID);
    }
  }

  lemma GrantStep(g: Gateway, f: Frame, startOK: bool)
    requires Valid(f) && Ready(g) && f.kind == DOWNLOAD_CREDIT && f.id in g.live && f.id < WEBSOCKET_BIT
    requires 0 <= g.all[f.id].down.credit
    ensures var e, n := g.all[f.id], Value(f.data);
      Step(g, Receive(f, startOK)) ==
        if |f.data| == 4 && 1 <= n && e.down.credit + n <= 65536
        then
          var down := e.down.(credit := e.down.credit + n, granted := e.down.granted + n, waking := true);
          g.(all := g.all[f.id := e.(down := down)], busy := f.id)
        else Shut(g)
  {
    hide Ready, Value;
  }

  lemma Wakes(g: Gateway, id: nat)
    requires id in g.all && g.busy == id && !g.closed && g.all[id].up.feeder.Idle? && g.all[id].down.waking
    ensures Step(g, Feed) ==
      g.(all := g.all[id := g.all[id].(down := g.all[id].down.(wake := true, waking := false))], busy := 0)
  {
  }

  /**
   * A body chunk is taken exactly if it is not empty, comes before the end, fits the window and finds a free
   * slot. Then it is the last in the channel, and the window smaller by its length.
   */
  lemma BodyTaken(events: seq<Event>, f: Frame, startOK: bool)
    requires Valid(f) && Ready(Run(events)) && f.kind == BODY && f.id in Run(events).live
    ensures var g := Run(events); var g', e := Handle(g, f, startOK), g.all[f.id];
      if f.data != [] && !e.up.ended && |f.data| <= e.up.uploaded && |e.up.queue| < 5 then
        Leaves(g, g', f.id, e.(up := e.up.(uploaded := e.up.uploaded - |f.data|, queue := e.up.queue + [f.data],
                                           admitted := e.up.admitted + [f.data])))
      else g'.closed
  {
    hide Run, Inv, Handle;
    RunInv(events);
    BodyFacts(Run(events), f, startOK);
  }

  lemma BodyFacts(g: Gateway, f: Frame, startOK: bool)
    requires Inv(g) && Valid(f) && Ready(g) && f.kind == BODY && f.id in g.live
    ensures var g', e := Handle(g, f, startOK), g.all[f.id];
      if f.data != [] && !e.up.ended && |f.data| <= e.up.uploaded && |e.up.queue| < 5 then
        Leaves(g, g', f.id, e.(up := e.up.(uploaded := e.up.uploaded - |f.data|, queue := e.up.queue + [f.data],
                                           admitted := e.up.admitted + [f.data])))
      else g'.closed
  {
    hide Inv, Valid, Ready, Leaves, Step, Shut, Over;
    LiveFacts(g, f.id);
    OpenWhenReady(g);
    BodyStep(g, f, startOK);
    var e, a := g.all[f.id], Step(g, Receive(f, startOK));
    if f.data != [] && !e.up.ended && |f.data| <= e.up.uploaded {
      Pushes(a, f.id);
      IsClosed(a);
      if |e.up.queue| < 5 { LeavesOne(g, Step(a, Feed), f.id, Step(a, Feed).all[f.id]); }
    } else {
      ShutOver(g, g.lastID);
      IsClosed(g);
    }
  }

  lemma IsClosed(g: Gateway)
    ensures Shut(g).closed
  {
  }

  lemma BodyStep(g: Gateway, f: Frame, startOK: bool)
    requires Valid(f) && Ready(g) && f.kind == BODY && f.id in g.live && f.id < WEBSOCKET_BIT
    ensures var e := g.all[f.id];
      Step(g, Receive(f, startOK)) ==
        if f.data != [] && !e.up.ended && |f.data| <= e.up.uploaded
        then g.(all := g.all[f.id := e.(up := e.up.(uploaded := e.up.uploaded - |f.data|, feeder := Upload.Pushing(f.data),
                                                    admitted := e.up.admitted + [f.data]))], busy := f.id)
        else Shut(g)
  {
    hide Ready;
  }

  lemma Pushes(g: Gateway, id: nat)
    requires id in g.all && g.busy == id && !g.closed && g.all[id].up.feeder.Pushing?
    ensures Step(g, Feed) ==
      var up := g.all[id].up;
      if |up.queue| < 5
      then g.(all := g.all[id := g.all[id].(up := up.(queue := up.queue + [up.feeder.chunk], feeder := Upload.Idle))], busy := 0)
      else Shut(g)
  {
    hide Shut;
  }

  /** The end is taken exactly if it is empty, the first one, and finds a free slot; it leaves the window alone. */
  lemma EndTaken(events: seq<Event>, f: Frame, startOK: bool)
    requires Valid(f) && Ready(Run(events)) && f.kind == END && f.id in Run(events).live
    ensures var g := Run(events); var g', e := Handle(g, f, startOK), g.all[f.id];
      if f.data == [] && !e.up.ended && |e.up.queue| < 5 then
        Leaves(g, g', f.id, e.(up := e.up.(ended := true, queue := e.up.queue + [[]], admitted := e.up.admitted + [[]])))
      else g'.closed
  {
    hide Run, Inv, Handle;
    RunInv(events);
    EndFacts(Run(events), f, startOK);
  }

  lemma EndFacts(g: Gateway, f: Frame, startOK: bool)
    requires Inv(g) && Valid(f) && Ready(g) && f.kind == END && f.id in g.live
    ensures var g', e := Handle(g, f, startOK), g.all[f.id];
      if f.data == [] && !e.up.ended && |e.up.queue| < 5 then
        Leaves(g, g', f.id, e.(up := e.up.(ended := true, queue := e.up.queue + [[]], admitted := e.up.admitted + [[]])))
      else g'.closed
  {
    hide Inv, Valid, Ready, Leaves, Step, Shut, Over;
    LiveFacts(g, f.id);
    OpenWhenReady(g);
    EndStep(g, f, startOK);
    var e, a := g.all[f.id], Step(g, Receive(f, startOK));
    if f.data == [] && !e.up.ended {
      Pushes(a, f.id);
      IsClosed(a);
      if |e.up.queue| < 5 { LeavesOne(g, Step(a, Feed), f.id, Step(a, Feed).all[f.id]); }
    } else {
      ShutOver(g, g.lastID);
      IsClosed(g);
    }
  }

  lemma EndStep(g: Gateway, f: Frame, startOK: bool)
    requires Valid(f) && Ready(g) && f.kind == END && f.id in g.live && f.id < WEBSOCKET_BIT
    ensures var e := g.all[f.id];
      Step(g, Receive(f, startOK)) ==
        if f.data == [] && !e.up.ended
        then
          var up := e.up.(ended := true, feeder := Upload.Pushing([]), admitted := e.up.admitted + [[]]);
          g.(all := g.all[f.id := e.(up := up)], busy := f.id)
        else Shut(g)
  {
    hide Ready;
  }

  /** All other frames: those of WebSockets change nothing here, and no other kind is taken. */
  lemma OtherFrames(events: seq<Event>, f: Frame, startOK: bool)
    requires Valid(f) && Ready(Run(events))
    requires f.kind != START
    requires f.id >= 0x8000_0000 || f.id !in Run(events).all || (f.id in Run(events).live && !AboutFinished(f.kind))
    ensures var g := Run(events); var g' := Step(g, Receive(f, startOK));
      if f.id >= 0x8000_0000 || (f.id <= g.lastID && AboutFinished(f.kind)) then g' == g else Over(g, g')
  {
    hide Run, Inv, Handle;
    RunInv(events);
    OtherFacts(Run(events), f, startOK);
  }

  lemma OtherFacts(g: Gateway, f: Frame, startOK: bool)
    requires TableInv(g) && Valid(f) && Ready(g)
    requires f.kind != START && (f.id >= 0x8000_0000 || f.id !in g.all || (f.id in g.live && !AboutFinished(f.kind)))
    ensures var g' := Step(g, Receive(f, startOK));
      if f.id >= 0x8000_0000 || (f.id <= g.lastID && AboutFinished(f.kind)) then g' == g else Over(g, g')
  {
    hide AtRest, Value, Upload.Next, Download.Next;
  }

  // ---- the goroutines of one exchange --------------------------------------------------------

  /**
   * Forwarder and executor of one exchange leave all others alone. The executor's last step takes the
   * exchange out of the table and cancels it; no other step does either.
   */
  lemma GoroutinesApart(g: Gateway, id: nat, up: Upload.Action, down: Download.Action)
    requires id in g.all
    ensures ForwarderMay(g, g.all[id], up) ==>
      var g' := Step(g, Forward(id, up));
      OnlyExchange(g, g', id, g.all[id].(up := Upload.Next(g.all[id].up, up))) && g'.live == g.live
    ensures ExecutorMay(g, g.all[id], down) ==>
      var g' := Step(g, Execute(id, down));
      && OnlyExchange(g, g', id, g.all[id].(down := Download.Next(g.all[id].down, down),
                                            cancelled := g.all[id].cancelled || down.Remove?))
      && g'.live == (if down.Remove? then g.live - {id} else g.live)
  {
    hide Upload.Next, Download.Next, BigEndian;
  }

  // ---- the end of the connection -------------------------------------------------------------

  /** A connection that fails ends the gateway; whoever waits, or has something to send, may then give up. */
  lemma Disconnected(g: Gateway, id: nat)
    ensures var g' := Step(g, Disconnect);
      && Over(g, g')
      && (id in g'.all ==>
            var e := g'.all[id];
            && (e.up.forwarder.Waiting? || e.up.forwarder.Crediting? ==> ForwarderMay(g', e, Upload.Quit))
            && (e.down.executor.Parked? || Download.Emits(e.down) ==> ExecutorMay(g', e, Download.Quit)))
  {
  }

  lemma ClosedStep(g: Gateway, ev: Event)
    requires g.closed
    ensures var g' := Step(g, ev); g'.closed && g'.wire == g.wire && g'.started == g.started && g'.live <= g.live
  {
    hide AcceptStep, FeedStep, Upload.Next, Download.Next, Upload.Enabled, Download.Enabled;
    match ev
    case Forward(_, _) =>
    case Execute(_, _) =>
    case _ =>
  }

  /** After its end nothing more is started or sent, and exchanges only leave the table. */
  lemma {:induction false} ClosedForGood(events: seq<Event>, more: seq<Event>)
    requires Run(events).closed
    ensures var g, g' := Run(events), Run(events + more);
      g'.closed && g'.wire == g.wire && g'.started == g.started && g'.live <= g.live
  {
    hide Step;
    if more == [] {
      assert events + more == events;
    } else {
      ClosedForGood(events, more[..|more| - 1]);
      assert (events + more)[..|events + more| - 1] == events + more[..|more| - 1];
      ClosedStep(Run(events + more[..|more| - 1]), more[|more| - 1]);
    }
  }
}
