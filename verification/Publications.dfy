/**
 * Browser publications, their HTTP gateways and the tickets that give access to them
 * (internal/core/browser_publication.go). Every operation runs under one lock.
 */
module Publications {
  import opened BrowserPaths
  import opened Finite
  import opened Options

  const GATEWAYS_PER_OWNER: nat := 8
  const GATEWAYS: nat := 64
  const MOUNTS: nat := 256
  const TICKETS: nat := 256
  const TICKET_LIFE: int := 60

  /**
   * Identifiers are random strings and owners plugin names; only equality matters. 0 is the empty string,
   * which no identifier ever is.
   */
  type Id = nat
  type Owner = nat

  datatype Mount = Mount(owner: Owner, path: string, runtime: Id)
  datatype Gateway = Gateway(owner: Owner, mount: Id, attached: bool)
  datatype Ticket = Ticket(owner: Owner, gateway: Id, expires: int)
  datatype Runtime = Runtime(id: Id, owner: Owner, bootstrap: string, worker: string)

  /** `issued` is history: every identifier ever given out. */
  datatype Registry = Registry(
    mounts: map<Id, Mount>, gateways: map<Id, Gateway>, tickets: map<Id, Ticket>,
    runtime: Option<Runtime>, closed: bool, issued: set<Id>)

  const EMPTY: Registry := Registry(map[], map[], map[], None, false, {})

  datatype Reply =
    | Issued(id: Id) | Done | Granted(owner: Owner, gateway: Id) | Attached
    | ShuttingDown | Invalid | AlreadyExists | NotFound | ResourceLimit | Denied

  // ---- operations ----------------------------------------------------------------------------

  /** A random identifier is one that was never given out before; 0 stands for a failed draw. */
  predicate Drawn(r: Registry, id: Id) {
    id != 0 && id !in r.issued
  }

  function Owned(r: Registry, owner: Owner): set<Id> {
    set g | g in r.gateways && r.gateways[g].owner == owner
  }

  /** Gateways go together with their tickets. */
  function CloseAll(r: Registry, ids: set<Id>): Registry {
    r.(gateways := r.gateways - ids,
       tickets := map t | t in r.tickets && r.tickets[t].gateway !in ids :: r.tickets[t])
  }

  function RegisterRuntime(r: Registry, owner: Owner, bootstrap: string, worker: string, valid: bool, id: Id): (Registry, Reply) {
    if r.closed then (r, ShuttingDown)
    else if !valid then (r, Invalid)
    else if r.runtime.Some? then
      var run := r.runtime.value;
      (r, if run.owner != owner || run.bootstrap != bootstrap || run.worker != worker then AlreadyExists else Issued(run.id))
    else if !Drawn(r, id) then (r, Invalid)
    else (r.(runtime := Some(Runtime(id, owner, bootstrap, worker)), issued := r.issued + {id}), Issued(id))
  }

  /** Gateways whose mount uses a runtime. */
  function Served(r: Registry, runtime: Id): set<Id> {
    set g | g in r.gateways && r.gateways[g].mount in r.mounts && r.mounts[r.gateways[g].mount].runtime == runtime
  }

  function RemoveRuntime(r: Registry, owner: Owner, id: Id): (Registry, Reply) {
    if r.closed then (r, ShuttingDown)
    else if id == 0 then (r, Invalid)
    else if r.runtime.None? || r.runtime.value.id != id || r.runtime.value.owner != owner then (r, NotFound)
    else
      var kept := map m | m in r.mounts && r.mounts[m].runtime != id :: r.mounts[m];
      (CloseAll(r, Served(r, id)).(mounts := kept, runtime := None), Done)
  }

  predicate Overlapped(r: Registry, path: string) {
    exists m | m in r.mounts :: Overlap(r.mounts[m].path, path)
  }

  /** `valid` covers the syntax of the mount path and of the asset names. */
  function RegisterMount(r: Registry, owner: Owner, path: string, runtime: Id, valid: bool, id: Id): (Registry, Reply) {
    if r.closed then (r, ShuttingDown)
    else if !valid then (r, Invalid)
    else if runtime != 0 && (r.runtime.None? || r.runtime.value.id != runtime || r.runtime.value.owner != owner) then (r, Invalid)
    else if Overlapped(r, path) then (r, AlreadyExists)
    else if |r.mounts| >= MOUNTS then (r, ResourceLimit)
    else if !Drawn(r, id) then (r, Invalid)
    else (r.(mounts := r.mounts[id := Mount(owner, path, runtime)], issued := r.issued + {id}), Issued(id))
  }

  function OfMount(r: Registry, m: Id): set<Id> {
    set g | g in r.gateways && r.gateways[g].mount == m
  }

  function RemoveMount(r: Registry, owner: Owner, m: Id): (Registry, Reply) {
    if r.closed then (r, ShuttingDown)
    else if m == 0 then (r, Invalid)
    else if m !in r.mounts then (r, Done)
    else if r.mounts[m].owner != owner then (r, NotFound)
    else (CloseAll(r, OfMount(r, m)).(mounts := r.mounts - {m}), Done)
  }

  /** `valid` covers the upstream configuration that the gateway itself checks. */
  function OpenGateway(r: Registry, owner: Owner, m: Id, valid: bool, id: Id): (Registry, Reply) {
    if r.closed then (r, ShuttingDown)
    else if m !in r.mounts || r.mounts[m].owner != owner then (r, NotFound)
    else if |Owned(r, owner)| >= GATEWAYS_PER_OWNER || |r.gateways| >= GATEWAYS then (r, ResourceLimit)
    else if !valid || !Drawn(r, id) then (r, Invalid)
    else (r.(gateways := r.gateways[id := Gateway(owner, m, false)], issued := r.issued + {id}), Issued(id))
  }

  function CloseGateway(r: Registry, owner: Owner, g: Id): (Registry, Reply) {
    if r.closed then (r, ShuttingDown)
    else if g == 0 then (r, Invalid)
    else if g !in r.gateways then (r, Done)
    else if r.gateways[g].owner != owner then (r, NotFound)
    else (CloseAll(r, {g}), Done)
  }

  /** The one-minute timer of an unattached gateway, the end of its server, or the release of its stream. */
  function Retire(r: Registry, g: Id, timer: bool): (Registry, Reply) {
    if g in r.gateways && !(timer && r.gateways[g].attached) then (CloseAll(r, {g}), Done) else (r, Done)
  }

  function Unexpired(tickets: map<Id, Ticket>, now: int): map<Id, Ticket> {
    map t | t in tickets && now <= tickets[t].expires :: tickets[t]
  }

  function IssueTicket(r: Registry, owner: Owner, g: Id, now: int, id: Id): (Registry, Reply) {
    if r.closed then (r, ShuttingDown)
    else if g !in r.gateways || r.gateways[g].owner != owner || r.gateways[g].attached then (r, NotFound)
    else
      var tickets := Unexpired(r.tickets, now);
      if |tickets| >= TICKETS then (r.(tickets := tickets), ResourceLimit)
      else if !Drawn(r, id) then (r.(tickets := tickets), Invalid)
      else (r.(tickets := tickets[id := Ticket(owner, g, now + TICKET_LIFE)], issued := r.issued + {id}), Issued(id))
  }

  function Consume(r: Registry, t: Id, now: int): (Registry, Reply) {
    if t !in r.tickets then (r, Denied)
    else
      var ticket := r.tickets[t];
      (r.(tickets := r.tickets - {t}),
       if now < ticket.expires && ticket.gateway in r.gateways && r.gateways[ticket.gateway].owner == ticket.owner
          && !r.gateways[ticket.gateway].attached
       then Granted(ticket.owner, ticket.gateway) else Denied)
  }

  function Attach(r: Registry, owner: Owner, g: Id): (Registry, Reply) {
    if g !in r.gateways || r.gateways[g].owner != owner || r.gateways[g].attached then (r, NotFound)
    else (r.(gateways := r.gateways[g := r.gateways[g].(attached := true)]), Attached)
  }

  /** The gateways that go when a plugin stops, or with owner 0 the whole host. */
  function Stopped(r: Registry, owner: Owner): set<Id> {
    set g | g in r.gateways && (owner == 0 || r.gateways[g].owner == owner)
  }

  function Stop(r: Registry, owner: Owner): (Registry, Reply) {
    var kept := map m | m in r.mounts && !(owner == 0 || r.mounts[m].owner == owner) :: r.mounts[m];
    var runtime := if r.runtime.Some? && (owner == 0 || r.runtime.value.owner == owner) then None else r.runtime;
    (CloseAll(r, Stopped(r, owner)).(mounts := kept, runtime := runtime, closed := r.closed || owner == 0), Done)
  }

  datatype Op =
    | RegisterRuntimeOp(owner: Owner, bootstrap: string, worker: string, valid: bool, id: Id)
    | RemoveRuntimeOp(owner: Owner, id: Id)
    | RegisterMountOp(owner: Owner, path: string, runtime: Id, valid: bool, id: Id)
    | RemoveMountOp(owner: Owner, id: Id)
    | OpenGatewayOp(owner: Owner, mount: Id, valid: bool, id: Id)
    | CloseGatewayOp(owner: Owner, id: Id)
    | RetireOp(id: Id, timer: bool)
    | IssueTicketOp(owner: Owner, gateway: Id, now: int, id: Id)
    | ConsumeOp(id: Id, now: int)
    | AttachOp(owner: Owner, id: Id)
    | StopOp(owner: Owner)

  function Do(r: Registry, op: Op): (Registry, Reply) {
    match op
    case RegisterRuntimeOp(owner, bootstrap, worker, valid, id) => RegisterRuntime(r, owner, bootstrap, worker, valid, id)
    case RemoveRuntimeOp(owner, id) => RemoveRuntime(r, owner, id)
    case RegisterMountOp(owner, path, runtime, valid, id) => RegisterMount(r, owner, path, runtime, valid, id)
    case RemoveMountOp(owner, id) => RemoveMount(r, owner, id)
    case OpenGatewayOp(owner, mount, valid, id) => OpenGateway(r, owner, mount, valid, id)
    case CloseGatewayOp(owner, id) => CloseGateway(r, owner, id)
    case RetireOp(id, timer) => Retire(r, id, timer)
    case IssueTicketOp(owner, gateway, now, id) => IssueTicket(r, owner, gateway, now, id)
    case ConsumeOp(id, now) => Consume(r, id, now)
    case AttachOp(owner, id) => Attach(r, owner, id)
    case StopOp(owner) => Stop(r, owner)
  }

  // ---- integrity -----------------------------------------------------------------------------

  ghost predicate LinksInv(r: Registry) {
    && (forall g | g in r.gateways :: r.gateways[g].mount in r.mounts && r.mounts[r.gateways[g].mount].owner == r.gateways[g].owner)
    && (forall t | t in r.tickets :: r.tickets[t].gateway in r.gateways && r.gateways[r.tickets[t].gateway].owner == r.tickets[t].owner)
    && (forall m | m in r.mounts && r.mounts[m].runtime != 0 ::
          r.runtime.Some? && r.runtime.value.id == r.mounts[m].runtime && r.runtime.value.owner == r.mounts[m].owner)
    && (r.closed ==> r.mounts == map[] && r.gateways == map[] && r.tickets == map[] && r.runtime.None?)
  }

  ghost predicate LimitsInv(r: Registry) {
    && (forall owner :: |Owned(r, owner)| <= GATEWAYS_PER_OWNER)
    && |r.gateways| <= GATEWAYS && |r.mounts| <= MOUNTS && |r.tickets| <= TICKETS
  }

  ghost predicate PathsInv(r: Registry) {
    forall m, n | m in r.mounts && n in r.mounts && m != n :: !Overlap(r.mounts[m].path, r.mounts[n].path)
  }

  ghost predicate IssuedInv(r: Registry) {
    && r.mounts.Keys <= r.issued && r.gateways.Keys <= r.issued && r.tickets.Keys <= r.issued
    && (r.runtime.Some? ==> r.runtime.value.id in r.issued)
    && 0 !in r.issued
  }

  ghost predicate Inv(r: Registry) {
    LinksInv(r) && LimitsInv(r) && PathsInv(r) && IssuedInv(r)
  }

  lemma LinksRemoveMount(r: Registry, op: Op)
    requires LinksInv(r) && (op.RemoveMountOp? || op.CloseGatewayOp? || op.RetireOp?)
    ensures LinksInv(Do(r, op).0)
  {
  }

  lemma LinksRemoveAll(r: Registry, op: Op)
    requires LinksInv(r) && IssuedInv(r) && (op.RemoveRuntimeOp? || op.StopOp?)
    ensures LinksInv(Do(r, op).0)
  {
  }

  lemma LinksAdd(r: Registry, op: Op)
    requires LinksInv(r) && IssuedInv(r)
    requires op.RegisterRuntimeOp? || op.RegisterMountOp? || op.OpenGatewayOp?
    ensures LinksInv(Do(r, op).0)
  {
    hide Owned, Overlapped;
  }

  /** Tickets for gateways of their owners. */
  lemma LinksOfTickets(r: Registry, r': Registry)
    requires LinksInv(r) && (r.closed ==> r'.tickets == map[])
    requires r'.mounts == r.mounts && r'.gateways == r.gateways && r'.runtime == r.runtime && r'.closed == r.closed
    requires forall t | t in r'.tickets ::
      r'.tickets[t].gateway in r.gateways && r.gateways[r'.tickets[t].gateway].owner == r'.tickets[t].owner
    ensures LinksInv(r')
  {
  }

  lemma LinksIssue(r: Registry, owner: Owner, g: Id, now: int, id: Id)
    requires LinksInv(r)
    ensures LinksInv(IssueTicket(r, owner, g, now, id).0)
  {
    LinksOfTickets(r, IssueTicket(r, owner, g, now, id).0);
  }

  lemma LinksConsume(r: Registry, t: Id, now: int)
    requires LinksInv(r)
    ensures LinksInv(Consume(r, t, now).0)
  {
    LinksOfTickets(r, Consume(r, t, now).0);
  }

  lemma LinksAttach(r: Registry, owner: Owner, g: Id)
    requires LinksInv(r)
    ensures LinksInv(Attach(r, owner, g).0)
  {
  }

  lemma LinksTicket(r: Registry, op: Op)
    requires LinksInv(r) && (op.IssueTicketOp? || op.ConsumeOp? || op.AttachOp?)
    ensures LinksInv(Do(r, op).0)
  {
    hide LinksInv, IssueTicket, Consume, Attach;
    match op
    case IssueTicketOp(owner, g, now, id) => LinksIssue(r, owner, g, now, id);
    case ConsumeOp(t, now) => LinksConsume(r, t, now);
    case AttachOp(owner, g) => LinksAttach(r, owner, g);
  }

  lemma LinksStep(r: Registry, op: Op)
    requires LinksInv(r) && IssuedInv(r)
    ensures LinksInv(Do(r, op).0)
  {
    hide *;
    match op
    case RemoveMountOp(_, _) => LinksRemoveMount(r, op);
    case CloseGatewayOp(_, _) => LinksRemoveMount(r, op);
    case RetireOp(_, _) => LinksRemoveMount(r, op);
    case RemoveRuntimeOp(_, _) => LinksRemoveAll(r, op);
    case StopOp(_) => LinksRemoveAll(r, op);
    case IssueTicketOp(_, _, _, _) => LinksTicket(r, op);
    case ConsumeOp(_, _) => LinksTicket(r, op);
    case AttachOp(_, _) => LinksTicket(r, op);
    case _ => LinksAdd(r, op);
  }

  lemma CloseAllShrinks(r: Registry, ids: set<Id>)
    ensures var c := CloseAll(r, ids);
      c.gateways.Keys <= r.gateways.Keys && c.tickets.Keys <= r.tickets.Keys
      && c.mounts == r.mounts && c.issued == r.issued && c.runtime == r.runtime
      && forall g | g in c.gateways :: c.gateways[g] == r.gateways[g]
  {
  }

  lemma IssuedByRemoval(r: Registry, op: Op)
    requires IssuedInv(r)
    requires op.StopOp? || op.RemoveMountOp? || op.RemoveRuntimeOp? || op.CloseGatewayOp? || op.RetireOp?
    ensures IssuedInv(Do(r, op).0) && r.issued <= Do(r, op).0.issued
  {
    hide CloseAll, Served, OfMount, Stopped;
    match op
    case StopOp(owner) => CloseAllShrinks(r, Stopped(r, owner));
    case RemoveMountOp(_, m) => CloseAllShrinks(r, OfMount(r, m));
    case RemoveRuntimeOp(_, id) => CloseAllShrinks(r, Served(r, id));
    case CloseGatewayOp(_, g) => CloseAllShrinks(r, {g});
    case RetireOp(g, _) => CloseAllShrinks(r, {g});
  }

  lemma IssuedByOthers(r: Registry, op: Op)
    requires IssuedInv(r)
    requires op.RegisterRuntimeOp? || op.RegisterMountOp? || op.OpenGatewayOp? || op.IssueTicketOp? || op.ConsumeOp? || op.AttachOp?
    ensures IssuedInv(Do(r, op).0) && r.issued <= Do(r, op).0.issued
  {
    hide Overlapped, Owned;
    match op
    case RegisterRuntimeOp(_, _, _, _, _) =>
    case RegisterMountOp(_, _, _, _, _) =>
    case OpenGatewayOp(_, _, _, _) =>
    case IssueTicketOp(_, _, _, _) =>
    case ConsumeOp(_, _) =>
    case AttachOp(_, _) =>
  }

  lemma IssuedStep(r: Registry, op: Op)
    requires IssuedInv(r)
    ensures IssuedInv(Do(r, op).0) && r.issued <= Do(r, op).0.issued
  {
    hide Do, IssuedInv;
    if op.StopOp? || op.RemoveMountOp? || op.RemoveRuntimeOp? || op.CloseGatewayOp? || op.RetireOp? {
      IssuedByRemoval(r, op);
    } else {
      IssuedByOthers(r, op);
    }
  }

  lemma MountsShrink(r: Registry, op: Op)
    requires !op.RegisterMountOp?
    ensures forall m | m in Do(r, op).0.mounts :: m in r.mounts && Do(r, op).0.mounts[m] == r.mounts[m]
  {
    hide Owned, Unexpired, Served, OfMount, Stopped, Drawn;
  }

  lemma PathsAdd(r: Registry, op: Op)
    requires PathsInv(r) && op.RegisterMountOp?
    ensures PathsInv(Do(r, op).0)
  {
    hide Overlap, Drawn;
    OverlapSymmetric();
  }

  lemma OverlapSymmetric()
    ensures forall a, b :: Overlap(a, b) <==> Overlap(b, a)
  {
    hide HasPrefix;
  }

  lemma PathsStep(r: Registry, op: Op)
    requires PathsInv(r)
    ensures PathsInv(Do(r, op).0)
  {
    if op.RegisterMountOp? {
      hide *;
      PathsAdd(r, op);
    } else {
      hide Do, Overlap;
      MountsShrink(r, op);
    }
  }

  lemma MapGrows<V>(m: map<Id, V>, k: Id, v: V)
    ensures |m[k := v]| <= |m| + 1 && (k !in m ==> |m[k := v]| == |m| + 1)
  {
    assert m[k := v].Keys == m.Keys + {k};
    AddSize(m[k := v].Keys, m.Keys, k);
  }

  lemma MapShrinks<V>(m: map<Id, V>, m': map<Id, V>)
    requires m'.Keys <= m.Keys
    ensures |m'| <= |m|
  {
    SubsetSize(m'.Keys, m.Keys);
  }

  /** Operations that open nothing keep every limit. */
  lemma FewerKeepLimits(r: Registry, r': Registry)
    requires LimitsInv(r)
    requires r'.gateways.Keys <= r.gateways.Keys && forall g | g in r'.gateways :: r'.gateways[g].owner == r.gateways[g].owner
    requires |r'.mounts| <= MOUNTS && |r'.tickets| <= TICKETS
    ensures LimitsInv(r')
  {
    forall owner
      ensures |Owned(r', owner)| <= GATEWAYS_PER_OWNER
    {
      SubsetSize(Owned(r', owner), Owned(r, owner));
    }
    SubsetSize(r'.gateways.Keys, r.gateways.Keys);
  }

  lemma CloseShrinks(r: Registry, ids: set<Id>)
    ensures var r' := CloseAll(r, ids);
      && r'.gateways.Keys == r.gateways.Keys - ids && r'.tickets.Keys <= r.tickets.Keys
      && |r'.tickets| <= |r.tickets| && forall g | g in r'.gateways :: r'.gateways[g] == r.gateways[g]
  {
    SubsetSize(CloseAll(r, ids).tickets.Keys, r.tickets.Keys);
  }

  lemma OwnedPlus(r: Registry, r': Registry, owner: Owner, m: Id, id: Id, other: Owner)
    requires id !in r.gateways && r'.gateways == r.gateways[id := Gateway(owner, m, false)]
    ensures Owned(r', other) == if other == owner then Owned(r, other) + {id} else Owned(r, other)
  {
  }

  lemma OneMore(r: Registry, r': Registry, owner: Owner, m: Id, id: Id, other: Owner)
    requires id !in r.gateways && r'.gateways == r.gateways[id := Gateway(owner, m, false)]
    ensures |Owned(r', other)| <= |Owned(r, other)| + (if other == owner then 1 else 0)
    ensures |r'.gateways| == |r.gateways| + 1
  {
    hide *;
    OwnedPlus(r, r', owner, m, id, other);
    if other == owner { AddSize(Owned(r', other), Owned(r, other), id); }
    MapGrows(r.gateways, id, Gateway(owner, m, false));
  }

  lemma OpenKeepsLimits(r: Registry, owner: Owner, m: Id, valid: bool, id: Id)
    requires LimitsInv(r) && r.gateways.Keys <= r.issued
    ensures LimitsInv(OpenGateway(r, owner, m, valid, id).0)
  {
    var r' := OpenGateway(r, owner, m, valid, id).0;
    if r'.gateways != r.gateways {
      hide Owned;
      forall other
        ensures |Owned(r', other)| <= GATEWAYS_PER_OWNER
      {
        OneMore(r, r', owner, m, id, other);
      }
      OneMore(r, r', owner, m, id, owner);
    } else {
      assert forall other :: Owned(r', other) == Owned(r, other);
    }
  }

  /** Closing gateways, and dropping mounts with them, keeps every limit. */
  lemma CloseKeepsLimits(r: Registry, ids: set<Id>, r': Registry)
    requires LimitsInv(r) && r'.gateways == CloseAll(r, ids).gateways && r'.tickets == CloseAll(r, ids).tickets
    requires r'.mounts.Keys <= r.mounts.Keys
    ensures LimitsInv(r')
  {
    hide Owned, LimitsInv;
    CloseShrinks(r, ids);
    SubsetSize(r'.mounts.Keys, r.mounts.Keys);
    assert |r.mounts| <= MOUNTS && |r.tickets| <= TICKETS by { LimitsGive(r); }
    FewerKeepLimits(r, r');
  }

  lemma CloseOneKeepsLimits(r: Registry, g: Id)
    requires LimitsInv(r)
    ensures LimitsInv(CloseAll(r, {g}))
  {
    CloseKeepsLimits(r, {g}, CloseAll(r, {g}));
  }

  lemma LimitsGive(r: Registry)
    requires LimitsInv(r)
    ensures |r.gateways| <= GATEWAYS && |r.mounts| <= MOUNTS && |r.tickets| <= TICKETS
  {
  }

  lemma IssueKeepsLimits(r: Registry, owner: Owner, g: Id, now: int, id: Id)
    requires LimitsInv(r)
    ensures LimitsInv(IssueTicket(r, owner, g, now, id).0)
  {
    var r' := IssueTicket(r, owner, g, now, id).0;
    var kept := Unexpired(r.tickets, now);
    SubsetSize(kept.Keys, r.tickets.Keys);
    assert |kept[id := Ticket(owner, g, now + TICKET_LIFE)].Keys| <= |kept.Keys + {id}| by {
      SubsetSize(kept[id := Ticket(owner, g, now + TICKET_LIFE)].Keys, kept.Keys + {id});
    }
    hide Unexpired;
    FewerKeepLimits(r, r');
  }

  lemma MountKeepsLimits(r: Registry, owner: Owner, path: string, runtime: Id, valid: bool, id: Id)
    requires LimitsInv(r)
    ensures LimitsInv(RegisterMount(r, owner, path, runtime, valid, id).0)
  {
    hide Owned, Overlapped, Drawn, LimitsInv;
    LimitsGive(r);
    MapGrows(r.mounts, id, Mount(owner, path, runtime));
    FewerKeepLimits(r, RegisterMount(r, owner, path, runtime, valid, id).0);
  }

  lemma UseKeepsLimits(r: Registry, op: Op)
    requires LimitsInv(r) && (op.ConsumeOp? || op.AttachOp? || op.RegisterRuntimeOp?)
    ensures LimitsInv(Do(r, op).0)
  {
    hide Owned, Drawn, LimitsInv;
    LimitsGive(r);
    UseShrinks(r, op);
    hide Do;
    MapShrinks(r.tickets, Do(r, op).0.tickets);
    FewerKeepLimits(r, Do(r, op).0);
  }

  lemma UseShrinks(r: Registry, op: Op)
    requires op.ConsumeOp? || op.AttachOp? || op.RegisterRuntimeOp?
    ensures var r' := Do(r, op).0;
      && r'.mounts == r.mounts && r'.tickets.Keys <= r.tickets.Keys && r'.gateways.Keys == r.gateways.Keys
      && forall g | g in r'.gateways :: r'.gateways[g].owner == r.gateways[g].owner
  {
    match op
    case ConsumeOp(_, _) =>
    case AttachOp(_, _) =>
    case RegisterRuntimeOp(_, _, _, _, _) =>
  }

  lemma RemovalsKeepLimits(r: Registry, op: Op)
    requires LimitsInv(r) && (op.RemoveRuntimeOp? || op.RemoveMountOp? || op.StopOp?)
    ensures LimitsInv(Do(r, op).0)
  {
    hide LimitsInv, CloseAll, Served, OfMount, Stopped;
    var r' := Do(r, op).0;
    if r' != r {
      match op {
        case RemoveRuntimeOp(_, id) => CloseKeepsLimits(r, Served(r, id), r');
        case RemoveMountOp(_, m) => CloseKeepsLimits(r, OfMount(r, m), r');
        case StopOp(owner) => CloseKeepsLimits(r, Stopped(r, owner), r');
      }
    }
  }

  lemma ClosingKeepsLimits(r: Registry, op: Op)
    requires LimitsInv(r) && (op.CloseGatewayOp? || op.RetireOp?)
    ensures LimitsInv(Do(r, op).0)
  {
    hide LimitsInv, CloseAll;
    CloseOneKeepsLimits(r, op.id);
  }

  lemma LimitsStep(r: Registry, op: Op)
    requires LimitsInv(r) && r.gateways.Keys <= r.issued
    ensures LimitsInv(Do(r, op).0)
  {
    match op
    case OpenGatewayOp(owner, m, valid, id) => hide OpenGateway, LimitsInv; OpenKeepsLimits(r, owner, m, valid, id);
    case IssueTicketOp(owner, g, now, id) => hide IssueTicket, LimitsInv; IssueKeepsLimits(r, owner, g, now, id);
    case CloseGatewayOp(_, _) => hide *; ClosingKeepsLimits(r, op);
    case RetireOp(_, _) => hide *; ClosingKeepsLimits(r, op);
    case RemoveRuntimeOp(_, _) => hide *; RemovalsKeepLimits(r, op);
    case RemoveMountOp(_, _) => hide *; RemovalsKeepLimits(r, op);
    case StopOp(_) => hide *; RemovalsKeepLimits(r, op);
    case RegisterMountOp(owner, path, run, valid, id) =>
      hide RegisterMount, LimitsInv; MountKeepsLimits(r, owner, path, run, valid, id);
    case _ => hide *; UseKeepsLimits(r, op);
  }

  lemma InvStep(r: Registry, op: Op)
    requires Inv(r)
    ensures Inv(Do(r, op).0) && r.issued <= Do(r, op).0.issued
  {
    LinksStep(r, op);
    IssuedStep(r, op);
    PathsStep(r, op);
    LimitsStep(r, op);
  }

  function Run(r: Registry, ops: seq<Op>): Registry
    decreases |ops|
  {
    if ops == [] then r else Run(Do(r, ops[0]).0, ops[1..])
  }

  lemma {:induction false} RunInv(r: Registry, ops: seq<Op>)
    requires Inv(r)
    ensures Inv(Run(r, ops)) && r.issued <= Run(r, ops).issued
    decreases |ops|
  {
    hide Do, Inv;
    if ops != [] {
      InvStep(r, ops[0]);
      RunInv(Do(r, ops[0]).0, ops[1..]);
    }
  }

  /**
   * After any operations: every gateway's mount exists and has the same owner, every ticket names an
   * existing gateway of the same owner, every mount on a runtime is on the current one and its owner's;
   * the limits hold; and nothing is left after the host was stopped.
   */
  lemma Integrity(ops: seq<Op>)
    ensures var r := Run(EMPTY, ops); LinksInv(r) && LimitsInv(r)
  {
    RunInv(EMPTY, ops);
  }

  /** Mounts never overlap, so a request path is served by at most one of them. */
  lemma UniqueRoute(ops: seq<Op>, path: string, m: Id, n: Id)
    requires var r := Run(EMPTY, ops);
      m in r.mounts && n in r.mounts && Serves(r.mounts[m].path, path) && Serves(r.mounts[n].path, path)
    ensures m == n
  {
    RunInv(EMPTY, ops);
    var r := Run(EMPTY, ops);
    SharedOverlap(r.mounts[m].path, r.mounts[n].path, path);
  }

  // ---- single use ----------------------------------------------------------------------------

  /** An identifier that was given out once and is not a ticket any more never is one again. */
  lemma {:induction false} SpentForGood(r: Registry, ops: seq<Op>, t: Id)
    requires Inv(r) && t in r.issued && t !in r.tickets
    ensures t !in Run(r, ops).tickets
    decreases |ops|
  {
    if ops != [] {
      InvStep(r, ops[0]);
      SpentStep(r, ops[0], t);
      hide Do, Inv;
      SpentForGood(Do(r, ops[0]).0, ops[1..], t);
    }
  }

  lemma SpentStep(r: Registry, op: Op, t: Id)
    requires t in r.issued && t !in r.tickets
    ensures t !in Do(r, op).0.tickets
  {
    if op.IssueTicketOp? {
      hide Overlap, Owned;
    } else {
      TicketsShrink(r, op);
      hide Do;
    }
  }

  /** Tickets come into being in one way only. */
  lemma TicketsShrink(r: Registry, op: Op)
    requires !op.IssueTicketOp?
    ensures Do(r, op).0.tickets.Keys <= r.tickets.Keys
  {
    hide CloseAll, Served, OfMount, Stopped, Owned, Overlapped, Drawn;
    match op
    case StopOp(owner) => CloseAllShrinks(r, Stopped(r, owner));
    case RemoveMountOp(_, m) => CloseAllShrinks(r, OfMount(r, m));
    case RemoveRuntimeOp(_, id) => CloseAllShrinks(r, Served(r, id));
    case CloseGatewayOp(_, g) => CloseAllShrinks(r, {g});
    case RetireOp(g, _) => CloseAllShrinks(r, {g});
    case _ =>
  }

  lemma ConsumeSpends(r: Registry, t: Id, now: int)
    ensures t !in Consume(r, t, now).0.tickets && Consume(r, t, now).0.issued == r.issued
    ensures Do(r, ConsumeOp(t, now)) == Consume(r, t, now)
  {
  }

  /** A ticket grants access at most once: whatever its outcome, every later use is denied. */
  lemma TicketOnce(before: seq<Op>, t: Id, now: int, after: seq<Op>, later: int)
    requires var r := Run(EMPTY, before); t in r.tickets
    ensures var r := Consume(Run(EMPTY, before), t, now).0;
      Consume(Run(r, after), t, later).1 == Denied
  {
    var r := Run(EMPTY, before);
    RunInv(EMPTY, before);
    assert t in r.issued;
    ConsumeSpends(r, t, now);
    hide Inv, Run, Do;
    InvStep(r, ConsumeOp(t, now));
    SpentForGood(Consume(r, t, now).0, after, t);
  }

  /** A gateway that is attached or gone, and cannot come back as a free one. */
  ghost predicate Taken(r: Registry, g: Id) {
    g in r.issued && (g in r.gateways ==> r.gateways[g].attached)
  }

  lemma TakenByRemoval(r: Registry, op: Op, g: Id)
    requires Taken(r, g)
    requires op.StopOp? || op.RemoveMountOp? || op.RemoveRuntimeOp? || op.CloseGatewayOp? || op.RetireOp?
    ensures Taken(Do(r, op).0, g)
  {
    hide CloseAll, Served, OfMount, Stopped;
    match op
    case StopOp(owner) => CloseAllShrinks(r, Stopped(r, owner));
    case RemoveMountOp(_, m) => CloseAllShrinks(r, OfMount(r, m));
    case RemoveRuntimeOp(_, id) => CloseAllShrinks(r, Served(r, id));
    case CloseGatewayOp(_, id) => CloseAllShrinks(r, {id});
    case RetireOp(id, _) => CloseAllShrinks(r, {id});
  }

  lemma TakenByOthers(r: Registry, op: Op, g: Id)
    requires Taken(r, g)
    requires op.RegisterRuntimeOp? || op.RegisterMountOp? || op.OpenGatewayOp? || op.IssueTicketOp? || op.ConsumeOp? || op.AttachOp?
    ensures Taken(Do(r, op).0, g)
  {
    hide Overlapped, Owned, Unexpired;
    match op
    case RegisterRuntimeOp(_, _, _, _, _) =>
    case RegisterMountOp(_, _, _, _, _) =>
    case OpenGatewayOp(_, _, _, _) =>
    case IssueTicketOp(_, _, _, _) =>
    case ConsumeOp(_, _) =>
    case AttachOp(_, _) =>
  }

  lemma TakenStep(r: Registry, op: Op, g: Id)
    requires Taken(r, g)
    ensures Taken(Do(r, op).0, g)
  {
    hide Do, Taken;
    if op.StopOp? || op.RemoveMountOp? || op.RemoveRuntimeOp? || op.CloseGatewayOp? || op.RetireOp? {
      TakenByRemoval(r, op, g);
    } else {
      TakenByOthers(r, op, g);
    }
  }

  lemma {:induction false} TakenForGood(r: Registry, ops: seq<Op>, g: Id)
    requires Taken(r, g)
    ensures Taken(Run(r, ops), g)
    decreases |ops|
  {
    hide Do, Taken;
    if ops != [] {
      TakenStep(r, ops[0], g);
      TakenForGood(Do(r, ops[0]).0, ops[1..], g);
    }
  }

  /** A gateway's stream is handed out at most once, and no ticket grants it afterwards. */
  lemma AttachOnce(before: seq<Op>, owner: Owner, g: Id, after: seq<Op>)
    requires Attach(Run(EMPTY, before), owner, g).1 == Attached
    ensures var r := Run(Attach(Run(EMPTY, before), owner, g).0, after);
      && (forall other :: Attach(r, other, g).1 == NotFound)
      && forall t, now, other :: Consume(r, t, now).1 != Granted(other, g)
  {
    RunInv(EMPTY, before);
    TakenForGood(Attach(Run(EMPTY, before), owner, g).0, after, g);
  }

  /** What a ticket grants can be attached at once, by the plugin it was issued to and for. */
  lemma GrantAttaches(ops: seq<Op>, t: Id, now: int)
    requires Consume(Run(EMPTY, ops), t, now).1.Granted?
    ensures var (r, grant) := Consume(Run(EMPTY, ops), t, now);
      Attach(r, grant.owner, grant.gateway).1 == Attached
  {
    hide Run;
    GrantFacts(Run(EMPTY, ops), t, now);
  }

  lemma GrantFacts(r: Registry, t: Id, now: int)
    requires Consume(r, t, now).1.Granted?
    ensures var (r', grant) := Consume(r, t, now); Attach(r', grant.owner, grant.gateway).1 == Attached
  {
  }

  /** After a plugin has stopped, nothing of it is left. */
  lemma StopRemovesAll(ops: seq<Op>, owner: Owner)
    ensures var r := Stop(Run(EMPTY, ops), owner).0;
      && (forall m | m in r.mounts :: owner != 0 && r.mounts[m].owner != owner)
      && (forall g | g in r.gateways :: owner != 0 && r.gateways[g].owner != owner)
      && (forall t | t in r.tickets :: owner != 0 && r.tickets[t].owner != owner)
      && (r.runtime.Some? ==> owner != 0 && r.runtime.value.owner != owner)
  {
    hide Run;
    RunInv(EMPTY, ops);
    StopFacts(Run(EMPTY, ops), owner);
  }

  lemma StopFacts(r: Registry, owner: Owner)
    requires Inv(r)
    ensures var r' := Stop(r, owner).0;
      && (forall m | m in r'.mounts :: owner != 0 && r'.mounts[m].owner != owner)
      && (forall g | g in r'.gateways :: owner != 0 && r'.gateways[g].owner != owner)
      && (forall t | t in r'.tickets :: owner != 0 && r'.tickets[t].owner != owner)
      && (r'.runtime.Some? ==> owner != 0 && r'.runtime.value.owner != owner)
  {
    hide LimitsInv, PathsInv, IssuedInv;
    LinksStop(r, owner);
  }

  lemma LinksStop(r: Registry, owner: Owner)
    requires LinksInv(r) && IssuedInv(r)
    ensures LinksInv(Stop(r, owner).0)
  {
    LinksRemoveAll(r, StopOp(owner));
  }

  // ---- the object ----------------------------------------------------------------------------

  class Host {
    var mounts: map<Id, Mount>
    var gateways: map<Id, Gateway>
    var tickets: map<Id, Ticket>
    var runtime: Option<Runtime>
    var closed: bool
    ghost var issued: set<Id>

    ghost function View(): Registry
      reads this
    {
      Registry(mounts, gateways, tickets, runtime, closed, issued)
    }

    constructor ()
      ensures View() == EMPTY
    {
      mounts, gateways, tickets, runtime, closed, issued := map[], map[], map[], None, false, {};
    }

    /** closeLocked: the gateway goes, then its tickets one by one, in any order. */
    method CloseLocked(g: Id)
      modifies this
      ensures View() == CloseAll(old(View()), {g})
    {
      gateways := gateways - {g};
      var keys := tickets.Keys;
      while keys != {}
        invariant gateways == old(gateways) - {g}
        invariant mounts == old(mounts) && runtime == old(runtime) && closed == old(closed) && issued == old(issued)
        invariant keys <= tickets.Keys <= old(tickets).Keys
        invariant forall t | t in tickets :: tickets[t] == old(tickets)[t]
        invariant forall t | t in old(tickets) :: t in tickets <==> t in keys || old(tickets)[t].gateway != g
        decreases keys
      {
        var t :| t in keys;
        if tickets[t].gateway == g {
          tickets := tickets - {t};
        }
        keys := keys - {t};
      }
      assert tickets == CloseAll(old(View()), {g}).tickets;
    }

    /** The loops that close every gateway of a runtime, of a mount or of an owner. */
    method CloseEach(ids: set<Id>)
      modifies this
      ensures View() == CloseAll(old(View()), ids)
    {
      var left := ids;
      assert old(View()) == CloseAll(old(View()), {});
      while left != {}
        invariant left <= ids && View() == CloseAll(old(View()), ids - left)
        decreases left
      {
        var g :| g in left;
        CloseTwice(old(View()), ids - left, g);
        CloseLocked(g);
        assert ids - left + {g} == ids - (left - {g});
        left := left - {g};
      }
      assert ids - {} == ids;
    }

    method RuntimeRegister(owner: Owner, bootstrap: string, worker: string, valid: bool, id: Id) returns (reply: Reply)
      requires id !in issued
      modifies this
      ensures (View(), reply) == RegisterRuntime(old(View()), owner, bootstrap, worker, valid, id)
    {
      if closed {
        return ShuttingDown;
      }
      if !valid {
        return Invalid;
      }
      if runtime.Some? {
        if runtime.value.owner != owner || runtime.value.bootstrap != bootstrap || runtime.value.worker != worker {
          return AlreadyExists;
        }
        return Issued(runtime.value.id);
      }
      if id == 0 {
        return Invalid;
      }
      runtime := Some(Runtime(id, owner, bootstrap, worker));
      issued := issued + {id};
      return Issued(id);
    }

    method RuntimeRemove(owner: Owner, id: Id) returns (reply: Reply)
      modifies this
      ensures (View(), reply) == RemoveRuntime(old(View()), owner, id)
    {
      if closed {
        return ShuttingDown;
      }
      if id == 0 {
        return Invalid;
      }
      if runtime.None? || runtime.value.id != id || runtime.value.owner != owner {
        return NotFound;
      }
      CloseEach(set g | g in gateways && gateways[g].mount in mounts && mounts[gateways[g].mount].runtime == id);
      mounts := map m | m in mounts && mounts[m].runtime != id :: mounts[m];
      runtime := None;
      return Done;
    }

    method PublicationRegister(owner: Owner, path: string, rid: Id, valid: bool, id: Id) returns (reply: Reply)
      requires id !in issued
      modifies this
      ensures (View(), reply) == RegisterMount(old(View()), owner, path, rid, valid, id)
    {
      if closed {
        return ShuttingDown;
      }
      if !valid || (rid != 0 && (runtime.None? || runtime.value.id != rid || runtime.value.owner != owner)) {
        return Invalid;
      }
      var keys := mounts.Keys;
      while keys != {}
        invariant keys <= mounts.Keys && View() == old(View())
        invariant forall m | m in mounts && m !in keys :: !Overlap(mounts[m].path, path)
        decreases keys
      {
        var m :| m in keys;
        if Overlap(mounts[m].path, path) {
          return AlreadyExists;
        }
        keys := keys - {m};
      }
      if |mounts| >= MOUNTS {
        return ResourceLimit;
      }
      if id == 0 {
        return Invalid;
      }
      mounts := mounts[id := Mount(owner, path, rid)];
      issued := issued + {id};
      return Issued(id);
    }

    method PublicationRemove(owner: Owner, m: Id) returns (reply: Reply)
      modifies this
      ensures (View(), reply) == RemoveMount(old(View()), owner, m)
    {
      if closed {
        return ShuttingDown;
      }
      if m == 0 {
        return Invalid;
      }
      if m in mounts {
        if mounts[m].owner != owner {
          return NotFound;
        }
        CloseEach(set g | g in gateways && gateways[g].mount == m);
        mounts := mounts - {m};
      }
      return Done;
    }

    method CountOwned(owner: Owner) returns (owned: nat)
      ensures owned == |Owned(View(), owner)|
    {
      owned := 0;
      var keys := gateways.Keys;
      ghost var all := Owned(View(), owner);
      while keys != {}
        invariant keys <= gateways.Keys && owned == |all - keys|
        decreases keys
      {
        var g :| g in keys;
        if gateways[g].owner == owner {
          assert all - (keys - {g}) == (all - keys) + {g};
          owned := owned + 1;
        } else {
          assert all - (keys - {g}) == all - keys;
        }
        keys := keys - {g};
      }
      assert all - {} == all;
    }

    method GatewayOpen(owner: Owner, m: Id, valid: bool, id: Id) returns (reply: Reply)
      requires id !in issued
      modifies this
      ensures (View(), reply) == OpenGateway(old(View()), owner, m, valid, id)
    {
      if closed {
        return ShuttingDown;
      }
      if m !in mounts || mounts[m].owner != owner {
        return NotFound;
      }
      var owned := CountOwned(owner);
      if owned >= GATEWAYS_PER_OWNER || |gateways| >= GATEWAYS {
        return ResourceLimit;
      }
      if !valid || id == 0 {
        return Invalid;
      }
      gateways := gateways[id := Gateway(owner, m, false)];
      issued := issued + {id};
      return Issued(id);
    }

    method GatewayClose(owner: Owner, g: Id) returns (reply: Reply)
      modifies this
      ensures (View(), reply) == CloseGateway(old(View()), owner, g)
    {
      if closed {
        return ShuttingDown;
      }
      if g == 0 {
        return Invalid;
      }
      if g in gateways {
        if gateways[g].owner != owner {
          return NotFound;
        }
        CloseLocked(g);
      }
      return Done;
    }

    method GatewayRetire(g: Id, timer: bool)
      modifies this
      ensures View() == Retire(old(View()), g, timer).0
    {
      if g in gateways && !(timer && gateways[g].attached) {
        CloseLocked(g);
      }
    }

    method StreamTicket(owner: Owner, g: Id, now: int, id: Id) returns (reply: Reply)
      requires id !in issued
      modifies this
      ensures (View(), reply) == IssueTicket(old(View()), owner, g, now, id)
    {
      if closed {
        return ShuttingDown;
      }
      if g !in gateways || gateways[g].owner != owner || gateways[g].attached {
        return NotFound;
      }
      var keys := tickets.Keys;
      while keys != {}
        invariant keys <= tickets.Keys <= old(tickets).Keys && View() == old(View()).(tickets := tickets)
        invariant forall t | t in tickets :: tickets[t] == old(tickets)[t]
        invariant forall t | t in old(tickets) :: t in tickets <==> t in keys || now <= old(tickets)[t].expires
        decreases keys
      {
        var t :| t in keys;
        if now > tickets[t].expires {
          tickets := tickets - {t};
        }
        keys := keys - {t};
      }
      assert tickets == Unexpired(old(tickets), now);
      if |tickets| >= TICKETS {
        return ResourceLimit;
      }
      if id == 0 {
        return Invalid;
      }
      tickets := tickets[id := Ticket(owner, g, now + TICKET_LIFE)];
      issued := issued + {id};
      return Issued(id);
    }

    method ConsumeTicket(t: Id, now: int) returns (reply: Reply)
      modifies this
      ensures (View(), reply) == Consume(old(View()), t, now)
    {
      if t !in tickets {
        return Denied;
      }
      var ticket := tickets[t];
      tickets := tickets - {t};
      if now < ticket.expires && ticket.gateway in gateways {
        var g := gateways[ticket.gateway];
        if g.owner == ticket.owner && !g.attached {
          return Granted(ticket.owner, ticket.gateway);
        }
      }
      return Denied;
    }

    method AttachStream(owner: Owner, g: Id) returns (reply: Reply)
      modifies this
      ensures (View(), reply) == Attach(old(View()), owner, g)
    {
      if g !in gateways || gateways[g].owner != owner || gateways[g].attached {
        return NotFound;
      }
      gateways := gateways[g := gateways[g].(attached := true)];
      return Attached;
    }

    method StopOwner(owner: Owner)
      modifies this
      ensures View() == Stop(old(View()), owner).0
    {
      if owner == 0 {
        closed := true;
      }
      CloseEach(set g | g in gateways && (owner == 0 || gateways[g].owner == owner));
      mounts := map m | m in mounts && !(owner == 0 || mounts[m].owner == owner) :: mounts[m];
      if runtime.Some? && (owner == 0 || runtime.value.owner == owner) {
        runtime := None;
      }
    }

    /** The publication that serves a request path; the mounts are tried in any order. */
    method Lookup(path: string) returns (m: Option<Id>)
      ensures m.Some? ==> m.value in mounts && Serves(mounts[m.value].path, path)
      ensures m.None? ==> forall n | n in mounts :: !Serves(mounts[n].path, path)
      ensures Inv(View()) ==> forall n | n in mounts && Serves(mounts[n].path, path) :: m == Some(n)
    {
      m := None;
      var keys := mounts.Keys;
      while keys != {} && m.None?
        invariant keys <= mounts.Keys
        invariant m.None? ==> forall n | n in mounts && n !in keys :: !Serves(mounts[n].path, path)
        invariant m.Some? ==> m.value in mounts && Serves(mounts[m.value].path, path)
        decreases keys
      {
        var n :| n in keys;
        if path == mounts[n].path || HasPrefix(path, mounts[n].path + "/") {
          m := Some(n);
        }
        keys := keys - {n};
      }
      if m.Some? {
        forall n | n in mounts && Serves(mounts[n].path, path)
          ensures Inv(View()) ==> m == Some(n)
        {
          SharedOverlap(mounts[m.value].path, mounts[n].path, path);
        }
      }
    }
  }

  lemma CloseTwice(r: Registry, ids: set<Id>, g: Id)
    ensures CloseAll(CloseAll(r, ids), {g}) == CloseAll(r, ids + {g})
  {
  }
}
