/**
 * The HTTP side of one gateway (internal/httpgateway/gateway.go): the exchange table, the dispatch of
 * incoming frames, and all exchanges running side by side over one outgoing byte stream.
 */
module HttpTunnel {
  import opened Bytes
  import opened Finite
  import opened FrameCodec
  import Upload
  import Download

  const MAX_EXCHANGES: nat := 16
  const WEBSOCKET_BIT: nat := 0x8000_0000

  datatype Exchange = Exchange(cancelled: bool, up: Upload.Upload, down: Download.Download)

  /**
   * `live` holds the keys of the exchange table; `all` also keeps the records that were deleted from it,
   * because goroutines go on using them. `busy` is the exchange whose frame the accepting goroutine is
   * still handling, 0 if it is ready for the next one. `started` and `wire` are history: the identifiers
   * of the Start frames that began an exchange, and every frame written.
   */
  datatype Record = Gateway(
    lastID: nat, live: set<nat>, all: map<nat, Exchange>, busy: nat, closed: bool,
    started: seq<nat>, wire: seq<Frame>)

  type Gateway = g: Record | g.live <= g.all.Keys witness Gateway(0, {}, map[], 0, false, [], [])

  const EMPTY: Gateway := Gateway(0, {}, map[], 0, false, [], [])

  // ---- one incoming frame --------------------------------------------------------------------

  datatype Refusal =
    | IdNotIncreasing | BadStart | TooManyExchanges | UnknownExchange | EmptyBody | UploadWindowExceeded
    | BadEnd | DuplicateEnd | BadCancel | BadCredit | DownloadWindowExceeded | UnknownType

  datatype Verdict =
    | NotHttp | Ignored | Started | Cancels
    | Feeds(upload: Upload.Action) | Grants(n: nat)
    | Refused(reason: Refusal)

  predicate AboutFinished(kind: Byte) {
    kind == CANCEL || kind == DOWNLOAD_CREDIT || kind == END || kind == BODY
  }

  /** What the gateway does with a frame; `startOK` says whether the request metadata is acceptable. */
  function Judge(g: Gateway, f: Frame, startOK: bool): Verdict {
    if f.id >= WEBSOCKET_BIT then NotHttp
    else if f.kind == START then
      if f.id <= g.lastID then Refused(IdNotIncreasing)
      else if !startOK then Refused(BadStart)
      else if |g.live| >= MAX_EXCHANGES || f.id in g.live then Refused(TooManyExchanges)
      else Started
    else if f.id !in g.live then
      if f.id <= g.lastID && AboutFinished(f.kind) then Ignored else Refused(UnknownExchange)
    else
      var e := g.all[f.id];
      if f.kind == BODY then
        if f.data == [] then Refused(EmptyBody)
        else if e.up.ended || |f.data| > e.up.uploaded then Refused(UploadWindowExceeded)
        else Feeds(Upload.AdmitBody(f.data))
      else if f.kind == END then
        if f.data != [] then Refused(BadEnd)
        else if e.up.ended then Refused(DuplicateEnd)
        else Feeds(Upload.AdmitEnd)
      else if f.kind == CANCEL then
        if f.data != [] then Refused(BadCancel) else Cancels
      else if f.kind == DOWNLOAD_CREDIT then
        if |f.data| != 4 then Refused(BadCredit)
        else
          var n := Value(f.data);
          if n < 1 || n > WINDOW || e.down.credit + n > WINDOW then Refused(DownloadWindowExceeded)
          else Grants(n)
      else Refused(UnknownType)
  }

  /** The connection is closed and every exchange context cancelled. */
  function Shut(g: Gateway): Gateway {
    g.(closed := true, all := map id | id in g.all :: g.all[id].(cancelled := true))
  }

  predicate AtRest(e: Exchange) {
    e.up.feeder.Idle? && !e.down.waking
  }

  /** Whether the accepting goroutine is back at its read: the gateway is open, no frame half handled. */
  predicate Ready(g: Gateway) {
    !g.closed && g.busy == 0 && forall id | id in g.live :: AtRest(g.all[id])
  }

  /** The first atomic step of handling a frame. */
  function AcceptStep(g: Gateway, f: Frame, startOK: bool): Gateway
    requires Valid(f) && Ready(g)
  {
    match Judge(g, f, startOK)
    case NotHttp => g
    case Ignored => g
    case Started =>
      var e := Exchange(false, Upload.NEW, Download.New(f.id));
      g.(lastID := f.id, live := g.live + {f.id}, all := g.all[f.id := e], busy := f.id,
         started := g.started + [f.id])
    case Cancels => g.(all := g.all[f.id := g.all[f.id].(cancelled := true)])
    case Feeds(a) =>
      var e := g.all[f.id];
      g.(all := g.all[f.id := e.(up := Upload.Next(e.up, a))], busy := f.id)
    case Grants(n) =>
      var e := g.all[f.id];
      g.(all := g.all[f.id := e.(down := Download.Next(e.down, Download.Grant(n)))], busy := f.id)
    case Refused(_) =>
      Shut(if f.kind == START && f.id > g.lastID then g.(lastID := f.id) else g)
  }

  // ---- steps ---------------------------------------------------------------------------------

  datatype Event =
    | Receive(f: Frame, startOK: bool)
    | Feed                                      // the accepting goroutine goes on with its frame
    | Forward(id: nat, up: Upload.Action)
    | Execute(id: nat, down: Download.Action)
    | Disconnect                                // a read or write on the connection fails

  predicate ForwarderMay(g: Gateway, e: Exchange, a: Upload.Action) {
    && Upload.Enabled(e.up, a)
    && !a.OpenWindow? && !a.AdmitBody? && !a.AdmitEnd? && !a.Push?
    && (a.ReturnCredit? ==> !g.closed)
    && (a.Quit? ==> if e.up.forwarder.Waiting? then e.cancelled else g.closed)
  }

  predicate ExecutorMay(g: Gateway, e: Exchange, a: Download.Action) {
    && Download.Enabled(e.down, a)
    && !a.Grant? && !a.OfferWake?
    && (a.SendStart? || a.SendBody? || a.SendEnd? ==> !g.closed)
    && (a.Quit? ==> if e.down.executor.Parked? then e.cancelled else g.closed)
  }

  /** The second step of a frame: credit announced, chunk pushed (or refused), or wake token offered. */
  function FeedStep(g: Gateway): Gateway
    requires g.busy in g.all
  {
    var id, e := g.busy, g.all[g.busy];
    if e.up.feeder.Opening? then
      var f := Frame(UPLOAD_CREDIT, id, BigEndian(WINDOW, 4));
      g.(all := g.all[id := e.(up := Upload.Next(e.up, Upload.OpenWindow))], busy := 0, wire := g.wire + [f])
    else if e.up.feeder.Pushing? then
      if Upload.Enabled(e.up, Upload.Push)
      then g.(all := g.all[id := e.(up := Upload.Next(e.up, Upload.Push))], busy := 0)
      else Shut(g)
    else if e.down.waking then
      g.(all := g.all[id := e.(down := Download.Next(e.down, Download.OfferWake))], busy := 0)
    else g
  }

  function ForwardStep(g: Gateway, id: nat, a: Upload.Action): Gateway
    requires id in g.all && ForwarderMay(g, g.all[id], a)
  {
    var e := g.all[id];
    var g' := g.(all := g.all[id := e.(up := Upload.Next(e.up, a))]);
    if a.ReturnCredit? then
      g'.(wire := g.wire + [Frame(UPLOAD_CREDIT, id, BigEndian(e.up.forwarder.n, 4))])
    else g'
  }

  function ExecuteStep(g: Gateway, id: nat, a: Download.Action): Gateway
    requires id in g.all && ExecutorMay(g, g.all[id], a)
  {
    var e := g.all[id];
    var e' := e.(down := Download.Next(e.down, a), cancelled := e.cancelled || a.Remove?);
    g.(all := g.all[id := e'],
       live := if a.Remove? then g.live - {id} else g.live,
       wire := if a.SendStart? || a.SendBody? || a.SendEnd? then g.wire + [Download.Emitted(e.down)] else g.wire)
  }

  function Step(g: Gateway, ev: Event): Gateway {
    match ev
    case Receive(f, startOK) => if Valid(f) && Ready(g) then AcceptStep(g, f, startOK) else g
    case Feed => if g.busy in g.all && !g.closed then FeedStep(g) else g
    case Forward(id, a) => if id in g.all && ForwarderMay(g, g.all[id], a) then ForwardStep(g, id, a) else g
    case Execute(id, a) => if id in g.all && ExecutorMay(g, g.all[id], a) then ExecuteStep(g, id, a) else g
    case Disconnect => Shut(g)
  }

  // ---- what the wire shows -------------------------------------------------------------------

  /** Frames of one exchange, upload credit left out. */
  function Answers(wire: seq<Frame>, id: nat): seq<Frame> {
    if wire == [] then []
    else
      var f := wire[|wire| - 1];
      Answers(wire[..|wire| - 1], id) + if f.id == id && f.kind != UPLOAD_CREDIT then [f] else []
  }

  /** Upload credit given to one exchange. */
  function CreditOf(wire: seq<Frame>, id: nat): nat {
    if wire == [] then 0
    else
      var f := wire[|wire| - 1];
      CreditOf(wire[..|wire| - 1], id) + if f.id == id && f.kind == UPLOAD_CREDIT then Value(f.data) else 0
  }

  /** Upload credit frames of one exchange; the first one opens the window, the others each answer a chunk. */
  function CreditFrames(wire: seq<Frame>, id: nat): nat {
    if wire == [] then 0
    else
      var f := wire[|wire| - 1];
      CreditFrames(wire[..|wire| - 1], id) + if f.id == id && f.kind == UPLOAD_CREDIT then 1 else 0
  }

  lemma WireGrows(wire: seq<Frame>, f: Frame, id: nat)
    ensures Answers(wire + [f], id) == Answers(wire, id) + if f.id == id && f.kind != UPLOAD_CREDIT then [f] else []
    ensures CreditOf(wire + [f], id) == CreditOf(wire, id) + if f.id == id && f.kind == UPLOAD_CREDIT then Value(f.data) else 0
    ensures CreditFrames(wire + [f], id) == CreditFrames(wire, id) + if f.id == id && f.kind == UPLOAD_CREDIT then 1 else 0
  {
    assert (wire + [f])[..|wire|] == wire;
  }

  // ---- invariants ----------------------------------------------------------------------------

  ghost predicate TableInv(g: Gateway) {
    && |g.live| <= MAX_EXCHANGES
    && (forall id | id in g.all :: 0 < id <= g.lastID && id < WEBSOCKET_BIT)
    && (forall id | id in g.all :: id in g.live <==> !g.all[id].down.executor.Done?)
    && (g.busy != 0 ==> g.busy in g.all)
    && (!g.closed ==> forall id | id in g.all && id != g.busy :: AtRest(g.all[id]))
    && (forall id :: id in g.started <==> id in g.all)
    && (forall i, j | 0 <= i < j < |g.started| :: g.started[i] < g.started[j])
  }

  ghost predicate ExchangeInv(id: nat, e: Exchange) {
    Upload.Inv(e.up) && Download.Inv(e.down) && e.down.id == id && (e.up.feeder.Idle? || !e.down.waking)
  }

  lemma NewExchange(id: nat)
    ensures ExchangeInv(id, Exchange(false, Upload.NEW, Download.New(id)))
  {
  }

  ghost predicate PartsInv(g: Gateway) {
    forall id | id in g.all :: ExchangeInv(id, g.all[id])
  }

  ghost predicate WireInv(g: Gateway) {
    && (forall f | f in g.wire :: Valid(f))
    && forall id :: if id in g.all then Shows(g.wire, id, g.all[id]) else Silent(g.wire, id)
  }

  /** The wire shows exactly what the two halves of an exchange have recorded. */
  ghost predicate Shows(wire: seq<Frame>, id: nat, e: Exchange) {
    && Answers(wire, id) == e.down.replies
    && CreditOf(wire, id) == e.up.returned && CreditFrames(wire, id) == e.up.frames
  }

  ghost predicate Silent(wire: seq<Frame>, id: nat) {
    Answers(wire, id) == [] && CreditOf(wire, id) == 0 && CreditFrames(wire, id) == 0
  }

  ghost predicate Inv(g: Gateway) {
    TableInv(g) && PartsInv(g) && WireInv(g)
  }

  /** What one step does to the record of one exchange and to the wire, seen from the table. */
  ghost predicate Replaces(g: Gateway, g': Gateway, id: nat, e: Exchange, out: seq<Frame>) {
    && id in g.all && g'.all == g.all[id := e] && g'.wire == (if out == [] then g.wire else g.wire + out)
    && g'.lastID == g.lastID && g'.started == g.started && g'.closed == g.closed
    && (g.all[id].down.executor.Done? ==> e.down.executor.Done?)
    && g'.live == (if e.down.executor.Done? && !g.all[id].down.executor.Done? then g.live - {id} else g.live)
    && (g'.busy == g.busy || (g.busy == 0 && g'.busy == id) || (g.busy == id && g'.busy == 0))
    && (!g.closed && id != g'.busy && AtRest(g.all[id]) ==> AtRest(e))
    && (g.busy == id && g'.busy == 0 ==> AtRest(e))
  }

  /** The frames an exchange writes are the ones its two halves record. */
  ghost predicate Records(id: nat, before: Exchange, after: Exchange, out: seq<Frame>) {
    match |out|
    case 0 =>
      && after.down.replies == before.down.replies
      && after.up.returned == before.up.returned && after.up.frames == before.up.frames
    case 1 =>
      var f := out[0];
      && Valid(f) && f.id == id
      && if f.kind == UPLOAD_CREDIT
         then
           && after.down.replies == before.down.replies
           && after.up.returned == before.up.returned + Value(f.data) && after.up.frames == before.up.frames + 1
         else
           && after.down.replies == before.down.replies + [f]
           && after.up.returned == before.up.returned && after.up.frames == before.up.frames
    case _ => false
  }

  lemma ReplaceTable(g: Gateway, g': Gateway, id: nat, e: Exchange, out: seq<Frame>)
    requires TableInv(g) && Replaces(g, g', id, e, out)
    ensures TableInv(g')
  {
  }

  lemma ReplaceParts(g: Gateway, g': Gateway, id: nat, e: Exchange, out: seq<Frame>)
    requires PartsInv(g) && Replaces(g, g', id, e, out) && ExchangeInv(id, e)
    ensures PartsInv(g')
  {
    hide ExchangeInv;
  }

  lemma ReplaceWire(g: Gateway, g': Gateway, id: nat, e: Exchange, out: seq<Frame>)
    requires WireInv(g) && Replaces(g, g', id, e, out) && Records(id, g.all[id], e, out)
    ensures WireInv(g')
  {
    if out == [] {
      assert g'.wire == g.wire;
    } else {
      var f := out[0];
      assert out == [f];
      forall other: nat
        ensures if other in g'.all then Shows(g'.wire, other, g'.all[other]) else Silent(g'.wire, other)
      {
        WireGrows(g.wire, f, other);
      }
    }
  }

  lemma ReplaceKeeps(g: Gateway, g': Gateway, id: nat, e: Exchange, out: seq<Frame>)
    requires Inv(g) && Replaces(g, g', id, e, out) && ExchangeInv(id, e) && Records(id, g.all[id], e, out)
    ensures Inv(g')
  {
    hide ExchangeInv;
    ReplaceTable(g, g', id, e, out);
    ReplaceParts(g, g', id, e, out);
    ReplaceWire(g, g', id, e, out);
  }

  lemma ShutTable(g: Gateway)
    requires TableInv(g)
    ensures TableInv(Shut(g))
  {
    hide AtRest;
  }

  lemma ShutParts(g: Gateway)
    requires PartsInv(g)
    ensures PartsInv(Shut(g))
  {
    hide Upload.Inv, Download.Inv;
    forall id | id in Shut(g).all
      ensures ExchangeInv(id, Shut(g).all[id])
    {
      assert ExchangeInv(id, g.all[id]);
    }
  }

  lemma ShutWire(g: Gateway)
    requires WireInv(g)
    ensures WireInv(Shut(g))
  {
    hide Answers, CreditOf, CreditFrames;
    forall id
      ensures if id in Shut(g).all then Shows(g.wire, id, Shut(g).all[id]) else Silent(g.wire, id)
    {
      assert id in g.all ==> Shows(g.wire, id, g.all[id]);
    }
  }

  lemma ShutKeeps(g: Gateway)
    requires Inv(g)
    ensures Inv(Shut(g))
  {
    hide TableInv, PartsInv, WireInv, Shut;
    ShutTable(g);
    ShutParts(g);
    ShutWire(g);
  }

  /** A fresh exchange enters the table; `e` is its record. */
  ghost predicate Adds(g: Gateway, g': Gateway, id: nat, e: Exchange) {
    && g.lastID < id < WEBSOCKET_BIT && |g.live| < MAX_EXCHANGES
    && !e.down.executor.Done? && e.down.replies == [] && e.up.returned == 0 && e.up.frames == 0
    && g' == g.(lastID := id, live := g.live + {id}, all := g.all[id := e], busy := id, started := g.started + [id])
  }

  lemma AddStarted(g: Gateway, g': Gateway, id: nat, e: Exchange)
    requires TableInv(g) && Adds(g, g', id, e)
    ensures forall i, j | 0 <= i < j < |g'.started| :: g'.started[i] < g'.started[j]
    ensures forall other :: other in g'.started <==> other in g'.all
  {
    hide AtRest;
    assert forall i | 0 <= i < |g.started| :: g.started[i] in g.started;
    assert g'.started[|g.started|] == id;
  }

  lemma AddEntries(g: Gateway, g': Gateway, id: nat, e: Exchange)
    requires TableInv(g) && Adds(g, g', id, e) && !g.closed && g.busy == 0
    ensures id !in g.all && |g'.live| <= MAX_EXCHANGES
    ensures forall other | other in g'.all :: 0 < other <= g'.lastID && other < WEBSOCKET_BIT
    ensures forall other | other in g'.all :: other in g'.live <==> !g'.all[other].down.executor.Done?
    ensures forall other | other in g'.all && other != g'.busy :: AtRest(g'.all[other])
  {
    hide AtRest;
    assert id !in g.all;
    AddSize(g'.live, g.live, id);
  }

  lemma AddTable(g: Gateway, g': Gateway, id: nat, e: Exchange)
    requires TableInv(g) && Adds(g, g', id, e) && !g.closed && g.busy == 0
    ensures TableInv(g') && id !in g.all
  {
    AddStarted(g, g', id, e);
    AddEntries(g, g', id, e);
    hide AtRest;
  }

  lemma AddKeeps(g: Gateway, g': Gateway, id: nat, e: Exchange)
    requires Inv(g) && Adds(g, g', id, e) && !g.closed && g.busy == 0 && ExchangeInv(id, e)
    ensures Inv(g')
  {
    hide TableInv, Answers, CreditOf, CreditFrames, ExchangeInv;
    AddTable(g, g', id, e);
  }

  lemma RefuseKeeps(g: Gateway, lastID: nat)
    requires Inv(g) && lastID >= g.lastID
    ensures Inv(Shut(g.(lastID := lastID)))
  {
    hide Shut, ExchangeInv, Shows, Silent, AtRest;
    ShutKeeps(g.(lastID := lastID));
  }

  lemma ReceiveKeeps(g: Gateway, f: Frame, startOK: bool)
    requires Inv(g) && Valid(f) && Ready(g)
    ensures Inv(AcceptStep(g, f, startOK))
  {
    hide Inv, Upload.Inv, Download.Inv, Value;
    var g', v := AcceptStep(g, f, startOK), Judge(g, f, startOK);
    if v.Started? {
      NewExchange(f.id);
      AddKeeps(g, g', f.id, g'.all[f.id]);
    } else if v.Refused? {
      hide Judge;
      RefuseKeeps(g, if f.kind == START && f.id > g.lastID then f.id else g.lastID);
    } else if v.Cancels? || v.Feeds? || v.Grants? {
      LiveKeeps(g, f, startOK);
    }
  }

  /** What is fed or granted is about a live exchange, and possible there. */
  lemma JudgedLive(g: Gateway, f: Frame, startOK: bool)
    requires Inv(g) && Valid(f) && Ready(g)
    ensures var v := Judge(g, f, startOK);
      v.Cancels? || v.Feeds? || v.Grants? ==>
        && f.id in g.live && f.id in g.all
        && (v.Feeds? ==> (v.upload.AdmitBody? || v.upload.AdmitEnd?) && Upload.Enabled(g.all[f.id].up, v.upload))
        && (v.Grants? ==> Download.Enabled(g.all[f.id].down, Download.Grant(v.n)))
  {
    hide Value, PartsInv, WireInv;
  }

  lemma CancelsKeeps(g: Gateway, id: nat)
    requires Inv(g) && Ready(g) && id in g.all
    ensures Inv(g.(all := g.all[id := g.all[id].(cancelled := true)]))
  {
    hide Inv;
    PartOf(g, id);
    var e := g.all[id].(cancelled := true);
    ReplaceKeeps(g, g.(all := g.all[id := e]), id, e, []);
  }

  lemma FeedsKeeps(g: Gateway, id: nat, a: Upload.Action)
    requires Inv(g) && Ready(g) && id in g.all && id in g.live
    requires (a.AdmitBody? || a.AdmitEnd?) && Upload.Enabled(g.all[id].up, a)
    ensures Inv(g.(all := g.all[id := g.all[id].(up := Upload.Next(g.all[id].up, a))], busy := id))
  {
    hide Inv, Upload.Inv, Download.Inv;
    PartOf(g, id);
    Upload.InvStep(g.all[id].up, a);
    var e := g.all[id].(up := Upload.Next(g.all[id].up, a));
    ReplaceKeeps(g, g.(all := g.all[id := e], busy := id), id, e, []);
  }

  lemma GrantsKeeps(g: Gateway, id: nat, n: nat)
    requires Inv(g) && Ready(g) && id in g.all && id in g.live && Download.Enabled(g.all[id].down, Download.Grant(n))
    ensures Inv(g.(all := g.all[id := g.all[id].(down := Download.Next(g.all[id].down, Download.Grant(n)))], busy := id))
  {
    hide Inv, Upload.Inv, Download.Inv;
    PartOf(g, id);
    Download.InvStep(g.all[id].down, Download.Grant(n));
    var e := g.all[id].(down := Download.Next(g.all[id].down, Download.Grant(n)));
    ReplaceKeeps(g, g.(all := g.all[id := e], busy := id), id, e, []);
  }

  /** A frame that is taken for a live exchange. */
  lemma LiveKeeps(g: Gateway, f: Frame, startOK: bool)
    requires Inv(g) && Valid(f) && Ready(g)
    requires var v := Judge(g, f, startOK); v.Cancels? || v.Feeds? || v.Grants?
    ensures Inv(AcceptStep(g, f, startOK))
  {
    hide Inv, Judge, Ready, Shut, Upload.Next, Download.Next, Upload.Enabled, Download.Enabled;
    JudgedLive(g, f, startOK);
    match Judge(g, f, startOK)
    case Cancels => CancelsKeeps(g, f.id);
    case Feeds(a) => FeedsKeeps(g, f.id, a);
    case Grants(n) => GrantsKeeps(g, f.id, n);
  }

  lemma PartOf(g: Gateway, id: nat)
    requires Inv(g) && id in g.all
    ensures ExchangeInv(id, g.all[id]) && 0 < id < WEBSOCKET_BIT
  {
    hide ExchangeInv;
  }

  lemma FeedKeeps(g: Gateway)
    requires Inv(g) && g.busy in g.all && !g.closed
    ensures Inv(FeedStep(g))
  {
    hide Inv, Upload.Inv, Download.Inv, Value, BigEndian;
    var id, e, g' := g.busy, g.all[g.busy], FeedStep(g);
    PartOf(g, id);
    if e.up.feeder.Opening? {
      Upload.InvStep(e.up, Upload.OpenWindow);
      Widths();
      ValueOfBigEndian(WINDOW, 4);
      ReplaceKeeps(g, g', id, g'.all[id], [Frame(UPLOAD_CREDIT, id, BigEndian(WINDOW, 4))]);
    } else if e.up.feeder.Pushing? {
      if Upload.Enabled(e.up, Upload.Push) {
        Upload.InvStep(e.up, Upload.Push);
        ReplaceKeeps(g, g', id, g'.all[id], []);
      } else {
        ShutKeeps(g);
      }
    } else if e.down.waking {
      Download.InvStep(e.down, Download.OfferWake);
      ReplaceKeeps(g, g', id, g'.all[id], []);
    }
  }

  lemma ForwardKeeps(g: Gateway, id: nat, a: Upload.Action)
    requires Inv(g) && id in g.all && ForwarderMay(g, g.all[id], a)
    ensures Inv(ForwardStep(g, id, a))
  {
    hide Inv, Upload.Inv, Download.Inv, Upload.Next, Value, BigEndian;
    var e, g' := g.all[id], ForwardStep(g, id, a);
    PartOf(g, id);
    Upload.InvStep(e.up, a);
    Upload.ForwarderEffect(e.up, a);
    if a.ReturnCredit? {
      var n := e.up.forwarder.n;
      Upload.CreditFits(e.up);
      Widths();
      ValueOfBigEndian(n, 4);
      ReplaceKeeps(g, g', id, g'.all[id], [Frame(UPLOAD_CREDIT, id, BigEndian(n, 4))]);
    } else {
      ReplaceKeeps(g, g', id, g'.all[id], []);
    }
  }

  lemma ExecuteKeeps(g: Gateway, id: nat, a: Download.Action)
    requires Inv(g) && id in g.all && ExecutorMay(g, g.all[id], a)
    ensures Inv(ExecuteStep(g, id, a))
  {
    hide Upload.Inv, Download.Inv, Download.Next, Download.Emitted, Download.Enabled, PartsInv, WireInv;
    var e, g' := g.all[id], ExecuteStep(g, id, a);
    PartOf(g, id);
    Download.InvStep(e.down, a);
    Download.ExecutorEffect(e.down, a);
    if a.SendStart? || a.SendBody? || a.SendEnd? {
      ReplaceKeeps(g, g', id, g'.all[id], [Download.Emitted(e.down)]);
    } else {
      ReplaceKeeps(g, g', id, g'.all[id], []);
    }
  }

  lemma StepKeeps(g: Gateway, ev: Event)
    requires Inv(g)
    ensures Inv(Step(g, ev))
  {
    hide Inv, AcceptStep, FeedStep, ForwardStep, ExecuteStep, ForwarderMay, ExecutorMay, Shut, Ready;
    match ev
    case Receive(f, startOK) => if Valid(f) && Ready(g) { ReceiveKeeps(g, f, startOK); }
    case Feed => if g.busy in g.all && !g.closed { FeedKeeps(g); }
    case Forward(id, a) => if id in g.all && ForwarderMay(g, g.all[id], a) { ForwardKeeps(g, id, a); }
    case Execute(id, a) => if id in g.all && ExecutorMay(g, g.all[id], a) { ExecuteKeeps(g, id, a); }
    case Disconnect => ShutKeeps(g);
  }

  // ---- every run -----------------------------------------------------------------------------

  function Run(events: seq<Event>): Gateway {
    if events == [] then EMPTY else Step(Run(events[..|events| - 1]), events[|events| - 1])
  }

  lemma {:induction false} RunInv(events: seq<Event>)
    ensures Inv(Run(events))
  {
    if events != [] {
      var g, ev := Run(events[..|events| - 1]), events[|events| - 1];
      RunInv(events[..|events| - 1]);
      StepKeeps(g, ev);
    }
  }

  /** At most 16 exchanges are in the table; identifiers only grow, so none begins an exchange twice. */
  lemma ExchangeDiscipline(events: seq<Event>)
    ensures var g := Run(events);
      && |g.live| <= MAX_EXCHANGES
      && (forall id | id in g.live :: 0 < id <= g.lastID)
      && (forall i, j | 0 <= i < j < |g.started| :: g.started[i] < g.started[j])
      && (forall id :: id in g.started <==> id in g.all)
  {
    hide Run;
    RunInv(events);
    DisciplineFacts(Run(events));
  }

  lemma DisciplineFacts(g: Gateway)
    requires Inv(g)
    ensures |g.live| <= MAX_EXCHANGES && forall id | id in g.live :: 0 < id <= g.lastID
    ensures forall i, j | 0 <= i < j < |g.started| :: g.started[i] < g.started[j]
    ensures forall id :: id in g.started <==> id in g.all
  {
    hide PartsInv, WireInv, AtRest;
  }

  /**
   * What the peer can decode from the octets it receives is exactly the frames written, and per
   * exchange they form a prefix of Start Body* (End or Error), or a lone Error.
   */
  lemma AnswersWellFormed(events: seq<Event>, id: nat)
    ensures var g := Run(events);
      && DecodeAll(EncodeAll(g.wire)) == (g.wire, EndOfStream)
      && var r := Answers(g.wire, id); r == [] || Download.Started(r) || Download.Finished(r)
  {
    hide Run;
    RunInv(events);
    WireFacts(Run(events), id);
    StreamRoundTrip(Run(events).wire);
    hide EncodeAll, DecodeAll, Answers;
  }

  lemma WireFacts(g: Gateway, id: nat)
    requires Inv(g)
    ensures forall f | f in g.wire :: Valid(f)
    ensures var r := Answers(g.wire, id); r == [] || Download.Started(r) || Download.Finished(r)
    ensures id in g.all ==> Answers(g.wire, id) == g.all[id].down.replies && CreditOf(g.wire, id) == g.all[id].up.returned
  {
    hide TableInv, Upload.Inv, Answers, CreditOf, CreditFrames, Valid;
    if id in g.all {
      assert ExchangeInv(id, g.all[id]);
      assert Shows(g.wire, id, g.all[id]);
      AnswerFacts(g.all[id].down);
    } else {
      assert Silent(g.wire, id);
    }
  }

  lemma AnswerFacts(d: Download.Download)
    requires Download.Inv(d)
    ensures var r := d.replies; r == [] || Download.Started(r) || Download.Finished(r)
    ensures 0 <= d.credit <= WINDOW && |Download.Sent(d.replies)| <= d.granted && Download.Sent(d.replies) <= d.pulled
  {
    hide Download.Started, Download.Finished, Download.Addressed, Download.Sent;
  }

  lemma UploadFacts(u: Upload.Upload)
    requires Upload.Inv(u)
    ensures u.forwarded <= Upload.Accepted(u) && 0 <= u.uploaded <= WINDOW
    ensures !u.forwarder.Stopped? ==>
      && u.uploaded + Upload.Queued(u) + Upload.InHand(u) == WINDOW
      && u.returned + Upload.Owed(u) == u.uploaded + |Upload.Accepted(u)|
  {
    FlattenConcat(u.taken, Upload.Backlog(u));
  }

  /**
   * Conservation, for every exchange in every interleaving of all of them. While its forwarder runs, the
   * credit the wire shows minus the octets accepted, what is owed, queued and being written make up
   * exactly one window; and upstream receives a prefix of what was accepted.
   */
  lemma UploadConserved(events: seq<Event>, id: nat)
    requires id in Run(events).all
    ensures var g := Run(events); var u := g.all[id].up;
      && u.forwarded <= Upload.Accepted(u)
      && 0 <= u.uploaded <= WINDOW
      && (!u.forwarder.Stopped? ==>
            && u.uploaded + Upload.Queued(u) + Upload.InHand(u) == WINDOW
            && CreditOf(g.wire, id) - |Upload.Accepted(u)| + Upload.Owed(u) + Upload.Queued(u) + Upload.InHand(u) == WINDOW)
  {
    hide Run;
    RunInv(events);
    PartOf(Run(events), id);
    WireFacts(Run(events), id);
    UploadFacts(Run(events).all[id].up);
    hide Inv, Upload.Inv, Download.Inv;
  }

  /** Body octets on the wire never exceed the credit the peer granted, which is never overdrawn. */
  lemma DownloadBounded(events: seq<Event>, id: nat)
    requires id in Run(events).all
    ensures var g := Run(events);
      && 0 <= g.all[id].down.credit <= WINDOW
      && |Download.Sent(Answers(g.wire, id))| <= g.all[id].down.granted
      && Download.Sent(Answers(g.wire, id)) <= g.all[id].down.pulled
  {
    hide Run;
    RunInv(events);
    PartOf(Run(events), id);
    WireFacts(Run(events), id);
    AnswerFacts(Run(events).all[id].down);
    hide Inv, Upload.Inv, Download.Inv;
  }

  /** The executor finds a wake token. */
  predicate MayWake(g: Gateway, id: nat) {
    id in g.all && ExecutorMay(g, g.all[id], Download.TakeWake)
  }

  lemma WakeFacts(g: Gateway, id: nat)
    requires Inv(g) && !g.closed && id in g.all && g.all[id].down.executor.Parked? && g.all[id].down.credit > 0
    requires ExchangeInv(id, g.all[id])
    ensures MayWake(g, id) || (g.busy == id && MayWake(Step(g, Feed), id))
  {
    hide PartsInv, WireInv, Upload.Inv, Download.CreditInv, Download.BodyInv, Download.ShapeInv;
    var e := g.all[id];
    assert e.down.wake || e.down.waking;
    if !e.down.wake {
      assert g.busy == id;
      assert FeedStep(g).all[id] == e.(down := Download.Next(e.down, Download.OfferWake));
    }
  }

  /**
   * No wakeup is lost. If an executor is parked although it has credit, then it can take a wake token
   * now, or the accepting goroutine is about to offer one, and it can right after that step.
   */
  lemma WakeupArrives(events: seq<Event>, id: nat)
    requires var g := Run(events);
      !g.closed && id in g.all && g.all[id].down.executor.Parked? && g.all[id].down.credit > 0
    ensures var g := Run(events);
      MayWake(g, id) || (g.busy == id && MayWake(Step(g, Feed), id))
  {
    hide Run;
    RunInv(events);
    PartOf(Run(events), id);
    WakeFacts(Run(events), id);
  }

  /**
   * A peer that has sent no more body octets than the credit frames on its wire allow never hears
   * "upload window exceeded": its chunk is admitted.
   */
  lemma CreditHonoured(events: seq<Event>, f: Frame, startOK: bool)
    requires var g := Run(events);
      && Valid(f) && f.kind == BODY && f.data != [] && f.id in g.live && !g.all[f.id].up.ended
      && |Upload.Accepted(g.all[f.id].up)| + |f.data| <= CreditOf(g.wire, f.id)
    ensures Judge(Run(events), f, startOK) == Feeds(Upload.AdmitBody(f.data))
  {
    hide Run, Judge;
    RunInv(events);
    CreditFacts(Run(events), f, startOK);
  }

  lemma CreditFacts(g: Gateway, f: Frame, startOK: bool)
    requires Inv(g) && Valid(f) && f.kind == BODY && f.data != [] && f.id in g.live && !g.all[f.id].up.ended
    requires |Upload.Accepted(g.all[f.id].up)| + |f.data| <= CreditOf(g.wire, f.id)
    ensures Judge(g, f, startOK) == Feeds(Upload.AdmitBody(f.data))
  {
    hide Upload.ChunksInv, Upload.OrderInv, Upload.AnswerInv, Download.Inv, Answers, CreditOf, CreditFrames, Value;
    assert f.id in g.all && ExchangeInv(f.id, g.all[f.id]);
    assert Shows(g.wire, f.id, g.all[f.id]);
  }

  /** A peer that fills its frames never has a chunk or an end mark refused for want of room. */
  lemma FullChunksNeverRefused(events: seq<Event>, id: nat)
    requires var g := Run(events); !g.closed && g.busy == id && id in g.all
    requires Run(events).all[id].up.feeder.Pushing? && Upload.FullChunks(Run(events).all[id].up.admitted)
    ensures !Step(Run(events), Feed).closed && Step(Run(events), Feed).busy == 0
  {
    hide Run;
    RunInv(events);
    PartOf(Run(events), id);
    Upload.FullChunksRoom(Run(events).all[id].up);
  }

  /**
   * As seen on the wire: with at most five chunks or marks that no credit frame has answered, this one
   * included, a peer never has one refused for want of room, whatever their size.
   */
  lemma FiveUnansweredNeverRefused(events: seq<Event>, id: nat)
    requires var g := Run(events); !g.closed && g.busy == id && id in g.all && g.all[id].up.feeder.Pushing?
    requires var g := Run(events); |g.all[id].up.admitted| - (CreditFrames(g.wire, id) - 1) <= 5
    ensures !Step(Run(events), Feed).closed && Step(Run(events), Feed).busy == 0
  {
    hide Run;
    RunInv(events);
    RoomFacts(Run(events), id);
  }

  lemma RoomFacts(g: Gateway, id: nat)
    requires Inv(g) && id in g.all && g.all[id].up.feeder.Pushing?
    ensures Upload.Unanswered(g.all[id].up) == |g.all[id].up.admitted| - (CreditFrames(g.wire, id) - 1)
    ensures Upload.Unanswered(g.all[id].up) <= 5 ==> Upload.Enabled(g.all[id].up, Upload.Push)
  {
    hide TableInv, Upload.ChunksInv, Upload.OrderInv, Download.Inv, Answers, CreditOf, CreditFrames;
    assert ExchangeInv(id, g.all[id]);
    assert Shows(g.wire, id, g.all[id]);
    Upload.UnansweredRoom(g.all[id].up);
  }

  lemma LateFacts(g: Gateway, f: Frame, startOK: bool)
    requires TableInv(g) && Valid(f) && f.id in g.all && f.id !in g.live
    ensures Judge(g, f, startOK) ==
      if AboutFinished(f.kind) then Ignored else Refused(if f.kind == START then IdNotIncreasing else UnknownExchange)
  {
    hide AtRest;
  }

  /** Late frames for an exchange that is over change nothing; all others about it close the gateway. */
  lemma LateFrames(events: seq<Event>, f: Frame, startOK: bool)
    requires var g := Run(events); Valid(f) && Ready(g) && f.id in g.all && f.id !in g.live
    ensures var g := Run(events);
      if AboutFinished(f.kind) then Step(g, Receive(f, startOK)) == g
      else Step(g, Receive(f, startOK)).closed
  {
    RunInv(events);
    hide Run, Ready, Judge, PartsInv, WireInv, AtRest;
    LateFacts(Run(events), f, startOK);
    hide TableInv;
  }

  /** An exchange is out of the table and its answer is `replies`. */
  ghost predicate Gone(g: Gateway, id: nat, replies: seq<Frame>) {
    id in g.all && id !in g.live && g.all[id].down.executor.Done? && g.all[id].down.replies == replies
  }

  /** A frame that the gateway takes is about a live exchange or starts one, so not about this one. */
  lemma NotAboutGone(g: Gateway, f: Frame, startOK: bool, id: nat)
    requires TableInv(g) && Valid(f) && id in g.all && id !in g.live
    ensures var v := Judge(g, f, startOK); v.Started? || v.Cancels? || v.Feeds? || v.Grants? ==> f.id != id
  {
    hide AtRest, Value;
  }

  lemma GoneReceive(g: Gateway, f: Frame, startOK: bool, id: nat, replies: seq<Frame>)
    requires TableInv(g) && Valid(f) && Ready(g) && Gone(g, id, replies)
    ensures Gone(AcceptStep(g, f, startOK), id, replies)
  {
    hide TableInv, Judge, Ready, Upload.Next, Download.Next;
    NotAboutGone(g, f, startOK, id);
  }

  lemma GoneExecute(g: Gateway, other: nat, a: Download.Action, id: nat, replies: seq<Frame>)
    requires other in g.all && ExecutorMay(g, g.all[other], a) && Gone(g, id, replies)
    ensures Gone(ExecuteStep(g, other, a), id, replies)
  {
    hide Download.Emitted;
  }

  /** The second step of a frame, the forwarder's steps, and the end of the connection. */
  lemma GoneOther(g: Gateway, ev: Event, id: nat, replies: seq<Frame>)
    requires Gone(g, id, replies) && (ev.Feed? || ev.Forward? || ev.Disconnect?)
    ensures Gone(Step(g, ev), id, replies)
  {
    hide AcceptStep, ExecuteStep, Upload.Next, Upload.Enabled;
    match ev
    case Feed =>
    case Forward(_, _) =>
    case Disconnect =>
  }

  lemma GoneStays(g: Gateway, ev: Event, id: nat, replies: seq<Frame>)
    requires Inv(g) && Gone(g, id, replies)
    ensures Gone(Step(g, ev), id, replies)
  {
    hide Gone, TableInv, PartsInv, WireInv, AcceptStep, Ready, ExecuteStep, ExecutorMay, FeedStep, ForwardStep, ForwarderMay;
    match ev
    case Receive(f, startOK) => if Valid(f) && Ready(g) { GoneReceive(g, f, startOK, id, replies); }
    case Execute(other, a) =>
      if other in g.all && ExecutorMay(g, g.all[other], a) { GoneExecute(g, other, a, id, replies); }
    case _ => GoneOther(g, ev, id, replies);
  }

  lemma RunOneMore(events: seq<Event>, ev: Event)
    ensures Run(events + [ev]) == Step(Run(events), ev)
  {
    hide Step;
    assert (events + [ev])[..|events|] == events;
  }

  lemma GoneOnce(events: seq<Event>, ev: Event, id: nat, replies: seq<Frame>)
    requires Gone(Run(events), id, replies)
    ensures Gone(Run(events + [ev]), id, replies)
  {
    hide *;
    RunInv(events);
    RunOneMore(events, ev);
    GoneStays(Run(events), ev, id, replies);
  }

  lemma {:induction false} GoneForGood(events: seq<Event>, more: seq<Event>, id: nat, replies: seq<Frame>)
    requires Gone(Run(events), id, replies)
    ensures Gone(Run(events + more), id, replies)
  {
    hide *;
    if more == [] {
      assert events + more == events;
    } else {
      var before := more[..|more| - 1];
      GoneForGood(events, before, id, replies);
      GoneOnce(events + before, more[|more| - 1], id, replies);
      assert events + more == events + before + [more[|more| - 1]];
    }
  }

  /** Once an exchange has left the table nothing more is ever added to its answer. */
  lemma NothingAfterRemoval(events: seq<Event>, more: seq<Event>, id: nat)
    requires id in Run(events).all && id !in Run(events).live
    ensures id in Run(events + more).all && id !in Run(events + more).live
    ensures Answers(Run(events + more).wire, id) == Answers(Run(events).wire, id)
  {
    hide Run;
    RunInv(events);
    RunInv(events + more);
    GoneForGood(events, more, id, Run(events).all[id].down.replies);
  }

  /** The table refuses a fresh identifier for its size alone: the duplicate check can never hold. */
  lemma DuplicateUnreachable(events: seq<Event>, f: Frame)
    requires f.id < WEBSOCKET_BIT && f.kind == START && f.id > Run(events).lastID
    ensures f.id !in Run(events).live
    ensures Judge(Run(events), f, true) == Refused(TooManyExchanges) <==> |Run(events).live| == MAX_EXCHANGES
  {
    RunInv(events);
  }

  // ---- the accepting goroutine's code --------------------------------------------------------

  /** The gateway's mutable state; `View` is the value the properties above speak about. */
  class Server {
    var lastID: nat
    var live: set<nat>
    var all: map<nat, Exchange>
    var busy: nat
    var closed: bool
    ghost var started: seq<nat>
    ghost var wire: seq<Frame>

    ghost predicate Valid()
      reads this
    {
      live <= all.Keys
    }

    ghost function View(): Gateway
      reads this
      requires Valid()
    {
      Gateway(lastID, live, all, busy, closed, started, wire)
    }

    constructor ()
      ensures Valid() && View() == EMPTY
    {
      lastID, live, all, busy, closed, started, wire := 0, {}, map[], 0, false, [], [];
    }

    method Close()
      requires Valid()
      modifies this
      ensures Valid() && View() == Shut(old(View()))
    {
      closed := true;
      all := map id | id in all :: all[id].(cancelled := true);
    }

    method Refuse(reason: Refusal) returns (v: Verdict)
      requires Valid()
      modifies this
      ensures Valid() && View() == Shut(old(View())) && v == Refused(reason)
    {
      Close();
      v := Refused(reason);
    }

    method Accept(f: Frame, startOK: bool) returns (v: Verdict)
      requires Valid() && FrameCodec.Valid(f) && Ready(View())
      modifies this
      ensures Valid()
      ensures v == Judge(old(View()), f, startOK)
      ensures View() == AcceptStep(old(View()), f, startOK)
    {
      if f.id >= WEBSOCKET_BIT {
        return NotHttp;
      }
      if f.kind == START {
        v := AcceptStart(f, startOK);
        return;
      }
      if f.id !in live {
        if f.id <= lastID && AboutFinished(f.kind) {
          return Ignored;
        }
        v := Refuse(UnknownExchange);
        return;
      }
      if f.kind == BODY {
        v := AcceptBody(f);
      } else if f.kind == END {
        v := AcceptEnd(f);
      } else if f.kind == CANCEL {
        if f.data != [] {
          v := Refuse(BadCancel);
        } else {
          all, v := all[f.id := all[f.id].(cancelled := true)], Cancels;
        }
      } else if f.kind == DOWNLOAD_CREDIT {
        v := AcceptCredit(f);
      } else {
        v := Refuse(UnknownType);
      }
    }

    method AcceptStart(f: Frame, startOK: bool) returns (v: Verdict)
      requires Valid() && FrameCodec.Valid(f) && Ready(View()) && f.id < WEBSOCKET_BIT && f.kind == START
      modifies this
      ensures Valid()
      ensures v == Judge(old(View()), f, startOK)
      ensures View() == AcceptStep(old(View()), f, startOK)
    {
      hide AtRest, Value, AboutFinished, Upload.Next, Download.Next;
      if f.id <= lastID {
        v := Refuse(IdNotIncreasing);
        return;
      }
      lastID := f.id;
      if !startOK {
        v := Refuse(BadStart);
        return;
      }
      if |live| >= MAX_EXCHANGES || f.id in live {
        v := Refuse(TooManyExchanges);
        return;
      }
      Begin(f.id);
      return Verdict.Started;
    }

    /** The new exchange into the table; its identifier is the last one already. */
    method Begin(id: nat)
      requires Valid()
      modifies this
      ensures Valid()
      ensures View() == old(View()).(
        live := old(live) + {id}, all := old(all)[id := Exchange(false, Upload.NEW, Download.New(id))], busy := id,
        started := old(started) + [id])
    {
      live := live + {id};
      all := all[id := Exchange(false, Upload.NEW, Download.New(id))];
      busy := id;
      started := started + [id];
    }

    method AcceptBody(f: Frame) returns (v: Verdict)
      requires Valid() && FrameCodec.Valid(f) && Ready(View()) && f.id < WEBSOCKET_BIT && f.kind == BODY && f.id in live
      modifies this
      ensures Valid()
      ensures v == Judge(old(View()), f, true)
      ensures View() == AcceptStep(old(View()), f, true)
    {
      var e := all[f.id];
      if f.data == [] {
        v := Refuse(EmptyBody);
      } else if e.up.ended || |f.data| > e.up.uploaded {
        v := Refuse(UploadWindowExceeded);
      } else {
        var up := e.up.(uploaded := e.up.uploaded - |f.data|, feeder := Upload.Pushing(f.data),
                        admitted := e.up.admitted + [f.data]);
        all, busy, v := all[f.id := e.(up := up)], f.id, Feeds(Upload.AdmitBody(f.data));
      }
    }

    method AcceptEnd(f: Frame) returns (v: Verdict)
      requires Valid() && FrameCodec.Valid(f) && Ready(View()) && f.id < WEBSOCKET_BIT && f.kind == END && f.id in live
      modifies this
      ensures Valid()
      ensures v == Judge(old(View()), f, true)
      ensures View() == AcceptStep(old(View()), f, true)
    {
      var e := all[f.id];
      if f.data != [] {
        v := Refuse(BadEnd);
      } else if e.up.ended {
        v := Refuse(DuplicateEnd);
      } else {
        var up := e.up.(ended := true, feeder := Upload.Pushing([]), admitted := e.up.admitted + [[]]);
        all, busy, v := all[f.id := e.(up := up)], f.id, Feeds(Upload.AdmitEnd);
      }
    }

    method AcceptCredit(f: Frame) returns (v: Verdict)
      requires Valid() && FrameCodec.Valid(f) && Ready(View()) && f.id < WEBSOCKET_BIT
      requires f.kind == DOWNLOAD_CREDIT && f.id in live
      modifies this
      ensures Valid()
      ensures v == Judge(old(View()), f, true)
      ensures View() == AcceptStep(old(View()), f, true)
    {
      var e := all[f.id];
      if |f.data| != 4 {
        v := Refuse(BadCredit);
        return;
      }
      var n := Value(f.data);
      if n < 1 || n > WINDOW || e.down.credit + n > WINDOW {
        v := Refuse(DownloadWindowExceeded);
        return;
      }
      var down := e.down.(credit := e.down.credit + n, waking := true, granted := e.down.granted + n);
      all, busy, v := all[f.id := e.(down := down)], f.id, Grants(n);
    }
  }
}
