/**
 * What each operation on the browser registry (internal/core/browser_publication.go) does, told by what
 * was in it before and what is in it afterwards, for every reachable registry.
 */
module PublicationEffects {
  import opened BrowserPaths
  import opened Finite
  import opened Options
  import opened Publications

  /** All as it was, but for some mounts, some gateways, and the tickets of those gateways. */
  ghost predicate Without(r: Registry, r': Registry, mounts: set<Id>, gateways: set<Id>) {
    && r'.mounts == r.mounts - mounts && r'.gateways == r.gateways - gateways
    && (forall t :: t in r'.tickets <==> t in r.tickets && r.tickets[t].gateway !in gateways)
    && (forall t | t in r'.tickets :: r'.tickets[t] == r.tickets[t])
    && r'.issued == r.issued
  }

  ghost predicate Unserved(r: Registry, path: string) {
    forall m, p: string | m in r.mounts :: !(Serves(r.mounts[m].path, p) && Serves(path, p))
  }

  lemma Reachable(ops: seq<Op>)
    ensures Inv(Run(EMPTY, ops))
  {
    RunInv(EMPTY, ops);
  }

  lemma UnservedIff(r: Registry, path: string)
    ensures Unserved(r, path) <==> !Overlapped(r, path)
  {
    hide Serves, Overlap;
    forall m | m in r.mounts
      ensures Overlap(r.mounts[m].path, path) <==> exists p :: Serves(r.mounts[m].path, p) && Serves(path, p)
    {
      OverlapIffShared(r.mounts[m].path, path);
    }
  }

  // ---- mounts and runtimes -------------------------------------------------------------------

  /**
   * A mount is registered exactly if the host is up, the request in order, its runtime the owner's current
   * one, no request path is served already, and there is room. It is then the only thing new.
   */
  lemma MountRegistered(ops: seq<Op>, owner: Owner, path: string, runtime: Id, valid: bool, id: Id)
    requires Drawn(Run(EMPTY, ops), id)
    ensures var r := Run(EMPTY, ops); var (r', reply) := RegisterMount(r, owner, path, runtime, valid, id);
      && (reply == Issued(id) <==>
            && !r.closed && valid && |r.mounts| < 256 && Unserved(r, path)
            && (runtime == 0 || (r.runtime.Some? && r.runtime.value.id == runtime && r.runtime.value.owner == owner)))
      && (if reply == Issued(id)
          then r' == r.(mounts := r.mounts[id := Mount(owner, path, runtime)], issued := r.issued + {id})
          else r' == r)
  {
    UnservedIff(Run(EMPTY, ops), path);
    hide Run, Unserved, Overlapped;
  }

  /**
   * The owner of a mount removes it together with the gateways on it and their tickets, and nothing else;
   * then its path can be registered again. Others are refused and change nothing.
   */
  lemma MountRemoved(ops: seq<Op>, owner: Owner, m: Id, id: Id)
    requires m in Run(EMPTY, ops).mounts && Drawn(Run(EMPTY, ops), id)
    ensures var r := Run(EMPTY, ops); var (r', reply) := RemoveMount(r, owner, m);
      if r.mounts[m].owner == owner then
        && reply == Done && r'.runtime == r.runtime && r'.closed == r.closed
        && Without(r, r', {m}, set g | g in r.gateways && r.gateways[g].mount == m)
        && RegisterMount(r', owner, r.mounts[m].path, 0, true, id).1 == Issued(id)
      else reply == NotFound && r' == r
  {
    RunInv(EMPTY, ops);
    hide Run;
    RemovedFacts(Run(EMPTY, ops), owner, m, id);
  }

  /** Removing what is not there succeeds and changes nothing. */
  lemma NothingToRemove(ops: seq<Op>, owner: Owner, m: Id)
    requires m != 0 && m !in Run(EMPTY, ops).mounts && !Run(EMPTY, ops).closed
    ensures RemoveMount(Run(EMPTY, ops), owner, m) == (Run(EMPTY, ops), Done)
  {
  }

  lemma RemovedFacts(r: Registry, owner: Owner, m: Id, id: Id)
    requires Inv(r) && m in r.mounts && Drawn(r, id)
    ensures var (r', reply) := RemoveMount(r, owner, m);
      if r.mounts[m].owner == owner then
        && reply == Done && r'.runtime == r.runtime && r'.closed == r.closed
        && Without(r, r', {m}, set g | g in r.gateways && r.gateways[g].mount == m)
        && RegisterMount(r', owner, r.mounts[m].path, 0, true, id).1 == Issued(id)
      else reply == NotFound && r' == r
  {
    hide Inv, RemoveMount, RegisterMount, Overlap, Without, Overlapped;
    OpenWithMount(r, m);
    RemovedRest(r, owner, m);
    var r' := RemoveMount(r, owner, m).0;
    if r.mounts[m].owner == owner {
      PathIsFree(r, m);
      MountsLeft(r, r', m);
      FreePathRegisters(r', owner, r.mounts[m].path, id);
    }
  }

  lemma FreePathRegisters(r: Registry, owner: Owner, path: string, id: Id)
    requires !r.closed && |r.mounts| < MOUNTS && Drawn(r, id)
    requires forall n | n in r.mounts :: !Overlap(r.mounts[n].path, path)
    ensures RegisterMount(r, owner, path, 0, true, id).1 == Issued(id)
  {
    hide Overlap;
  }

  lemma MountsLeft(r: Registry, r': Registry, m: Id)
    requires r'.mounts == r.mounts - {m}
    ensures forall n | n in r'.mounts :: n in r.mounts && n != m && r'.mounts[n] == r.mounts[n]
  {
  }

  lemma OpenWithMount(r: Registry, m: Id)
    requires Inv(r) && m in r.mounts
    ensures !r.closed && m != 0 && |r.mounts - {m}| < MOUNTS
  {
    assert (r.mounts - {m}).Keys == r.mounts.Keys - {m};
    RemoveOne(r.mounts.Keys, m);
    hide PathsInv;
  }

  /** No other mount overlaps the path of one that is there. */
  lemma PathIsFree(r: Registry, m: Id)
    requires Inv(r) && m in r.mounts
    ensures forall n | n in r.mounts && n != m :: !Overlap(r.mounts[n].path, r.mounts[m].path)
  {
    hide LinksInv, LimitsInv, IssuedInv, Overlap;
  }

  lemma RemovedRest(r: Registry, owner: Owner, m: Id)
    requires !r.closed && m != 0 && m in r.mounts
    ensures var (r', reply) := RemoveMount(r, owner, m);
      if r.mounts[m].owner == owner then
        && reply == Done && r'.runtime == r.runtime && r'.closed == r.closed
        && r'.mounts == r.mounts - {m} && r'.issued == r.issued
        && Without(r, r', {m}, set g | g in r.gateways && r.gateways[g].mount == m)
      else reply == NotFound && r' == r
  {
  }

  /** A runtime is the owner's to register while there is none, and to find again while it is the same. */
  lemma RuntimeRegistered(ops: seq<Op>, owner: Owner, bootstrap: string, worker: string, valid: bool, id: Id)
    requires Drawn(Run(EMPTY, ops), id)
    ensures var r := Run(EMPTY, ops); var (r', reply) := RegisterRuntime(r, owner, bootstrap, worker, valid, id);
      && (reply == Issued(id) <==> !r.closed && valid && r.runtime.None?)
      && (reply == Issued(id) ==>
            r' == r.(runtime := Some(Runtime(id, owner, bootstrap, worker)), issued := r.issued + {id}))
      && (reply != Issued(id) ==> r' == r)
      && (forall same :: reply == Issued(same) && same != id <==>
            valid && r.runtime == Some(Runtime(same, owner, bootstrap, worker)))
      && (reply == AlreadyExists <==>
            valid && r.runtime.Some? && r.runtime.value != Runtime(r.runtime.value.id, owner, bootstrap, worker))
  {
    RunInv(EMPTY, ops);
    hide Run;
    hide LimitsInv, PathsInv;
  }

  /** Removing a runtime takes the mounts that use it, their gateways and tickets; then any plugin may register one. */
  lemma RuntimeRemoved(ops: seq<Op>, owner: Owner, id: Id, next: Id, other: Owner, bootstrap: string, worker: string)
    requires Drawn(Run(EMPTY, ops), next)
    ensures var r := Run(EMPTY, ops); var (r', reply) := RemoveRuntime(r, owner, id);
      && (reply == Done <==> r.runtime.Some? && r.runtime.value.id == id && r.runtime.value.owner == owner)
      && (reply != Done ==> r' == r)
      && (reply == Done ==>
            && r'.runtime.None? && r'.closed == r.closed
            && Without(r, r', set m | m in r.mounts && r.mounts[m].runtime == id,
                       set g | g in r.gateways && r.gateways[g].mount in r.mounts && r.mounts[r.gateways[g].mount].runtime == id)
            && RegisterRuntime(r', other, bootstrap, worker, true, next).1 == Issued(next))
  {
    RunInv(EMPTY, ops);
    hide Run;
    RuntimeFacts(Run(EMPTY, ops), owner, id);
    hide LimitsInv, PathsInv;
  }

  lemma RuntimeFacts(r: Registry, owner: Owner, id: Id)
    requires Inv(r)
    ensures var (r', reply) := RemoveRuntime(r, owner, id);
      && (reply == Done <==> r.runtime.Some? && r.runtime.value.id == id && r.runtime.value.owner == owner)
      && (reply != Done ==> r' == r)
      && (reply == Done ==>
            && !r.closed && r'.runtime.None? && r'.closed == r.closed
            && Without(r, r', set m | m in r.mounts && r.mounts[m].runtime == id,
                       set g | g in r.gateways && r.gateways[g].mount in r.mounts && r.mounts[r.gateways[g].mount].runtime == id))
  {
    hide LimitsInv, PathsInv;
    assert r.runtime.Some? ==> r.runtime.value.id != 0 && !r.closed;
  }

  // ---- gateways ------------------------------------------------------------------------------

  /**
   * A gateway is opened exactly if the mount is the owner's, the owner has fewer than 8 and the host fewer
   * than 64; it is free, and the only thing new.
   */
  lemma GatewayOpened(ops: seq<Op>, owner: Owner, m: Id, valid: bool, id: Id)
    requires Drawn(Run(EMPTY, ops), id)
    ensures var r := Run(EMPTY, ops); var (r', reply) := OpenGateway(r, owner, m, valid, id);
      && (reply == Issued(id) <==>
            && m in r.mounts && r.mounts[m].owner == owner && valid
            && |set g | g in r.gateways && r.gateways[g].owner == owner| < 8 && |r.gateways| < 64)
      && (if reply == Issued(id)
          then r' == r.(gateways := r.gateways[id := Gateway(owner, m, false)], issued := r.issued + {id})
          else r' == r)
      && (reply == Issued(id) ==> Attach(r', owner, id).1 == Attached)
  {
    hide Run, Inv;
    Reachable(ops);
    OpenedFacts(Run(EMPTY, ops), owner, m, valid, id);
  }

  lemma OpenedFacts(r: Registry, owner: Owner, m: Id, valid: bool, id: Id)
    requires Inv(r) && Drawn(r, id)
    ensures var (r', reply) := OpenGateway(r, owner, m, valid, id);
      && (reply == Issued(id) <==>
            && m in r.mounts && r.mounts[m].owner == owner && valid
            && |set g | g in r.gateways && r.gateways[g].owner == owner| < 8 && |r.gateways| < 64)
      && (if reply == Issued(id)
          then r' == r.(gateways := r.gateways[id := Gateway(owner, m, false)], issued := r.issued + {id})
          else r' == r)
      && (reply == Issued(id) ==> Attach(r', owner, id).1 == Attached)
  {
    assert r.closed ==> r.mounts == map[] by { hide LimitsInv, PathsInv, IssuedInv; }
    hide Inv;
    assert Owned(r, owner) == set g | g in r.gateways && r.gateways[g].owner == owner;
  }

  /** The owner closes a gateway with its tickets and nothing else; one that is gone may be closed again. */
  lemma GatewayClosed(ops: seq<Op>, owner: Owner, g: Id)
    requires g != 0
    ensures var r := Run(EMPTY, ops); var (r', reply) := CloseGateway(r, owner, g);
      && (reply == Done <==> !r.closed && (g in r.gateways ==> r.gateways[g].owner == owner))
      && r'.runtime == r.runtime && r'.closed == r.closed
      && Without(r, r', {}, if reply == Done then {g} else {})
  {
    RunInv(EMPTY, ops);
    hide Run;
    CloseFacts(Run(EMPTY, ops), g);
    hide LimitsInv, PathsInv;
  }

  lemma CloseFacts(r: Registry, g: Id)
    requires Inv(r)
    ensures var r' := CloseAll(r, {g}); r'.runtime == r.runtime && r'.closed == r.closed && Without(r, r', {}, {g})
    ensures g !in r.gateways ==> CloseAll(r, {g}) == r
    ensures Without(r, r, {}, {})
  {
    hide LimitsInv, PathsInv;
    assert r.mounts - {} == r.mounts && r.gateways - {} == r.gateways;
    if g !in r.gateways {
      assert CloseAll(r, {g}).tickets == r.tickets;
      assert r.gateways - {g} == r.gateways;
    }
  }

  /** The minute's timer takes a gateway exactly if no stream is attached; its end takes it in any case. */
  lemma GatewayRetired(ops: seq<Op>, g: Id, timer: bool)
    ensures var r := Run(EMPTY, ops); var r' := Retire(r, g, timer).0;
      && r'.runtime == r.runtime && r'.closed == r.closed
      && Without(r, r', {}, if timer && g in r.gateways && r.gateways[g].attached then {} else {g})
  {
    RunInv(EMPTY, ops);
    hide Run;
    CloseFacts(Run(EMPTY, ops), g);
    hide Inv;
  }

  /** A stream is attached exactly if the gateway is the owner's and free; that mark is all that changes. */
  lemma GatewayAttached(ops: seq<Op>, owner: Owner, g: Id)
    ensures var r := Run(EMPTY, ops); var (r', reply) := Attach(r, owner, g);
      && (reply == Attached <==> g in r.gateways && r.gateways[g] == Gateway(owner, r.gateways[g].mount, false))
      && (if reply == Attached
          then r' == r.(gateways := r.gateways[g := Gateway(owner, r.gateways[g].mount, true)])
          else r' == r)
  {
  }

  /** A stop takes the owner's mounts and gateways with their tickets, and leaves all others as they are. */
  lemma OwnerStopped(ops: seq<Op>, owner: Owner)
    ensures var r := Run(EMPTY, ops); var r' := Stop(r, owner).0;
      && Without(r, r', set m | m in r.mounts && (owner == 0 || r.mounts[m].owner == owner),
                 set g | g in r.gateways && (owner == 0 || r.gateways[g].owner == owner))
      && r'.runtime == (if r.runtime.Some? && owner != 0 && r.runtime.value.owner != owner then r.runtime else None)
      && (r'.closed <==> r.closed || owner == 0)
  {
    hide Run;
  }

  // ---- tickets -------------------------------------------------------------------------------

  /** Tickets that have not expired. */
  function Lasting(r: Registry, now: int): set<Id> {
    set t | t in r.tickets && now <= r.tickets[t].expires
  }

  ghost predicate KeepsLasting(r: Registry, r': Registry, now: int) {
    forall t | t in Lasting(r, now) :: t in r.tickets && t in r'.tickets && r'.tickets[t] == r.tickets[t]
  }

  /**
   * A ticket is issued exactly if the gateway is the owner's and free and fewer than 256 tickets have not
   * expired; expired ones are dropped, the others stay.
   */
  lemma TicketIssued(ops: seq<Op>, owner: Owner, g: Id, now: int, id: Id)
    requires Drawn(Run(EMPTY, ops), id)
    ensures var r := Run(EMPTY, ops); var (r', reply) := IssueTicket(r, owner, g, now, id);
      && (reply == Issued(id) <==>
            && g in r.gateways && r.gateways[g] == Gateway(owner, r.gateways[g].mount, false)
            && |Lasting(r, now)| < 256)
      && KeepsLasting(r, r', now)
      && (if reply == Issued(id) then
            && r' == r.(tickets := r'.tickets, issued := r.issued + {id})
            && r'.tickets.Keys == Lasting(r, now) + {id} && r'.tickets[id] == Ticket(owner, g, now + 60)
          else r' == r.(tickets := r'.tickets))
  {
    RunInv(EMPTY, ops);
    hide Run;
    TicketFacts(Run(EMPTY, ops), owner, g, now, id);
    hide Inv, Lasting, KeepsLasting;
  }

  lemma TicketFacts(r: Registry, owner: Owner, g: Id, now: int, id: Id)
    requires Inv(r) && Drawn(r, id)
    ensures var (r', reply) := IssueTicket(r, owner, g, now, id);
      && (reply == Issued(id) <==>
            && g in r.gateways && r.gateways[g] == Gateway(owner, r.gateways[g].mount, false)
            && |Lasting(r, now)| < 256)
      && KeepsLasting(r, r', now)
      && (if reply == Issued(id) then
            && r' == r.(tickets := r'.tickets, issued := r.issued + {id})
            && r'.tickets.Keys == Lasting(r, now) + {id} && r'.tickets[id] == Ticket(owner, g, now + 60)
          else r' == r.(tickets := r'.tickets))
  {
    hide Inv, Unexpired, Lasting;
    NewTicket(r, id, now);
    KeptTickets(r, now);
    var r' := IssueTicket(r, owner, g, now, id).0;
    if r'.tickets != r.tickets {
      assert forall t | t in Lasting(r, now) :: r'.tickets[t] == Unexpired(r.tickets, now)[t];
    }
  }

  lemma NewTicket(r: Registry, id: Id, now: int)
    requires Inv(r) && Drawn(r, id)
    ensures id !in Lasting(r, now) && (r.closed ==> r.gateways == map[])
  {
    hide LimitsInv, PathsInv;
  }

  lemma KeptTickets(r: Registry, now: int)
    ensures var kept := Unexpired(r.tickets, now);
      && kept.Keys == Lasting(r, now) && |kept| == |Lasting(r, now)|
      && forall t | t in Lasting(r, now) :: t in r.tickets && t in kept && kept[t] == r.tickets[t]
  {
    var kept := Unexpired(r.tickets, now);
    assert kept.Keys == Lasting(r, now);
    assert |kept| == |kept.Keys|;
  }

  /** What a ticket stands for as long as its gateway is there. */
  ghost predicate Stands(r: Registry, t: Id, ticket: Ticket) {
    && t in r.issued && ticket.gateway in r.issued
    && (t in r.tickets ==> r.tickets[t] == ticket)
    && (ticket.gateway in r.gateways ==> r.gateways[ticket.gateway].owner == ticket.owner && t in r.tickets)
  }

  /** Neither presented nor overtaken by an issue after it expired. */
  predicate Leaves(op: Op, t: Id, expires: int) {
    !(op.ConsumeOp? && op.id == t) && (op.IssueTicketOp? ==> op.now <= expires)
  }

  lemma StandsByRemoval(r: Registry, op: Op, t: Id, ticket: Ticket)
    requires Stands(r, t, ticket)
    requires op.StopOp? || op.RemoveMountOp? || op.RemoveRuntimeOp? || op.CloseGatewayOp? || op.RetireOp?
    ensures Stands(Do(r, op).0, t, ticket)
  {
    match op
    case StopOp(_) =>
    case RemoveMountOp(_, _) =>
    case RemoveRuntimeOp(_, _) =>
    case CloseGatewayOp(_, _) =>
    case RetireOp(_, _) =>
  }

  lemma StandsByOthers(r: Registry, op: Op, t: Id, ticket: Ticket)
    requires Stands(r, t, ticket) && Leaves(op, t, ticket.expires)
    requires op.RegisterRuntimeOp? || op.RegisterMountOp? || op.OpenGatewayOp? || op.IssueTicketOp? || op.ConsumeOp? || op.AttachOp?
    ensures Stands(Do(r, op).0, t, ticket)
  {
    hide Overlapped, Owned;
    match op
    case RegisterRuntimeOp(_, _, _, _, _) =>
    case RegisterMountOp(_, _, _, _, _) =>
    case OpenGatewayOp(_, _, _, _) =>
    case IssueTicketOp(_, _, _, _) =>
    case ConsumeOp(_, _) =>
    case AttachOp(_, _) =>
  }

  lemma {:induction false} StandsOn(r: Registry, ops: seq<Op>, t: Id, ticket: Ticket)
    requires Stands(r, t, ticket) && forall op | op in ops :: Leaves(op, t, ticket.expires)
    ensures Stands(Run(r, ops), t, ticket)
    decreases |ops|
  {
    hide Stands, Leaves, Do;
    if ops != [] {
      var op := ops[0];
      if op.StopOp? || op.RemoveMountOp? || op.RemoveRuntimeOp? || op.CloseGatewayOp? || op.RetireOp? {
        StandsByRemoval(r, op, t, ticket);
      } else {
        StandsByOthers(r, op, t, ticket);
      }
      StandsOn(Do(r, op).0, ops[1..], t, ticket);
    }
  }

  /**
   * What a ticket is worth. After any operations that neither present it nor come, with a clock past its
   * minute, upon the dropping of expired ones, it grants its gateway to its owner exactly if presented
   * within the minute while the gateway is there and free.
   */
  lemma TicketWorth(before: seq<Op>, owner: Owner, g: Id, now: int, t: Id, after: seq<Op>, later: int)
    requires IssueTicket(Run(EMPTY, before), owner, g, now, t).1 == Issued(t)
    requires forall op | op in after :: Leaves(op, t, now + 60)
    ensures var r := Run(IssueTicket(Run(EMPTY, before), owner, g, now, t).0, after);
      Consume(r, t, later).1 ==
        if later < now + 60 && g in r.gateways && !r.gateways[g].attached then Granted(owner, g) else Denied
  {
    hide Run, Leaves, Inv, IssueTicket, Consume, Stands;
    Reachable(before);
    StandsWhenIssued(Run(EMPTY, before), owner, g, now, t);
    var r := IssueTicket(Run(EMPTY, before), owner, g, now, t).0;
    StandsOn(r, after, t, Ticket(owner, g, now + 60));
    WorthNow(Run(r, after), t, Ticket(owner, g, now + 60), later);
  }

  lemma StandsWhenIssued(r: Registry, owner: Owner, g: Id, now: int, t: Id)
    requires Inv(r) && IssueTicket(r, owner, g, now, t).1 == Issued(t)
    ensures Stands(IssueTicket(r, owner, g, now, t).0, t, Ticket(owner, g, now + 60))
  {
    hide LimitsInv, PathsInv, LinksInv, Unexpired;
  }

  lemma WorthNow(r: Registry, t: Id, ticket: Ticket, later: int)
    requires Stands(r, t, ticket)
    ensures Consume(r, t, later).1 ==
      if later < ticket.expires && ticket.gateway in r.gateways && !r.gateways[ticket.gateway].attached
      then Granted(ticket.owner, ticket.gateway) else Denied
  {
  }

  /** Presenting one ticket takes that ticket and nothing else. */
  lemma TicketPresented(ops: seq<Op>, t: Id, now: int)
    ensures var r := Run(EMPTY, ops); var r' := Consume(r, t, now).0;
      r' == r.(tickets := r.tickets - {t})
  {
    var r := Run(EMPTY, ops);
    hide Run;
    if t !in r.tickets {
      assert r.tickets - {t} == r.tickets;
    }
  }
}
