/**
 * The table of plugin network streams (internal/core/plugin_network_streams.go): admission limits, the
 * records kept of closed streams, and the eviction of the oldest of them.
 */
module NetworkStreams {
  import opened Finite
  import opened Options

  /** Stream identifiers and plugin names, of which only equality matters. */
  type Id = nat
  type Owner = nat

  const OPEN_PER_OWNER: nat := 8
  const OPEN_GLOBAL: nat := 64
  const RECORDS_PER_OWNER: nat := 32
  const RECORDS_GLOBAL: nat := 256
  const RETENTION: int := 300

  datatype State = Open | Eof | Failed | Closed

  datatype Stream = Stream(owner: Owner, state: State, attached: bool, closedAt: int)

  type Items = map<Id, Stream>

  datatype Table = Table(items: Items, closed: bool)

  const EMPTY: Table := Table(map[], false)

  function Owned(items: Items, owner: Owner): set<Id> {
    set id | id in items && items[id].owner == owner
  }

  function AllOpen(items: Items): set<Id> {
    set id | id in items && items[id].state.Open?
  }

  function OwnedOpen(items: Items, owner: Owner): set<Id> {
    set id | id in items && items[id].owner == owner && items[id].state.Open?
  }

  // ---- operations ----------------------------------------------------------------------------

  predicate Stale(s: Stream, now: int) {
    !s.state.Open? && now - s.closedAt >= RETENTION
  }

  function Pruned(items: Items, now: int): Items {
    map id | id in items && !Stale(items[id], now) :: items[id]
  }

  /** A closed record, of the given owner if there is one. */
  predicate Eligible(items: Items, owner: Option<Owner>, id: Id) {
    id in items && !items[id].state.Open? && (owner.Some? ==> items[id].owner == owner.value)
  }

  ghost predicate Oldest(items: Items, owner: Option<Owner>, id: Id) {
    Eligible(items, owner, id) && forall other | Eligible(items, owner, other) :: items[id].closedAt <= items[other].closedAt
  }

  /** `after` lacks the oldest eligible record of `before`, any of them if several are equally old. */
  ghost predicate Evicts(before: Items, owner: Option<Owner>, after: Items) {
    || (after == before && forall id :: !Eligible(before, owner, id))
    || exists id :: Oldest(before, owner, id) && after == before - {id}
  }

  datatype OpenResult = Opened | ShuttingDown | StreamLimit | RecordLimit

  /** The steps of `open` once the connection is dialled, under the manager's lock. */
  ghost predicate Admits(t: Table, owner: Owner, id: Id, now: int, r: OpenResult, t': Table) {
    var pruned := Pruned(t.items, now);
    if t.closed then r == ShuttingDown && t' == t
    else if |OwnedOpen(pruned, owner)| >= OPEN_PER_OWNER || |AllOpen(pruned)| >= OPEN_GLOBAL then
      r == StreamLimit && t' == t.(items := pruned)
    else
      exists mid, last :: MakesRoom(pruned, owner, mid, last) && Settles(t, owner, id, last, r, t')
  }

  ghost predicate MakesRoom(pruned: Items, owner: Owner, mid: Items, last: Items) {
    && (if |Owned(pruned, owner)| >= RECORDS_PER_OWNER then Evicts(pruned, Some(owner), mid) else mid == pruned)
    && (if |mid| >= RECORDS_GLOBAL then Evicts(mid, None, last) else last == mid)
  }

  ghost predicate Settles(t: Table, owner: Owner, id: Id, last: Items, r: OpenResult, t': Table) {
    if |last| >= RECORDS_GLOBAL || |Owned(last, owner)| >= RECORDS_PER_OWNER then
      r == RecordLimit && t' == t.(items := last)
    else
      r == Opened && t' == t.(items := last[id := Stream(owner, Open, false, 0)])
  }

  function MarkClosed(t: Table, id: Id, state: State, now: int): Table {
    if id in t.items && t.items[id].state.Open? then
      t.(items := t.items[id := t.items[id].(state := state, closedAt := now)])
    else t
  }

  function Attach(t: Table, owner: Owner, id: Id): (Table, bool) {
    if id in t.items && t.items[id].owner == owner && t.items[id].state.Open? && !t.items[id].attached
    then (t.(items := t.items[id := t.items[id].(attached := true)]), true)
    else (t, false)
  }

  function StopOwner(t: Table, owner: Owner): Table {
    t.(items := t.items - Owned(t.items, owner))
  }

  // ---- limits in every reachable state -------------------------------------------------------

  datatype Op =
    | OpenOp(owner: Owner, id: Id, now: int, r: OpenResult)
    | Close(id: Id, state: State, now: int)
    | AttachOp(owner: Owner, id: Id)
    | Expire(id: Id, now: int)           // the retention timer of a closed record
    | Stop(owner: Owner)
    | Shutdown

  ghost predicate Step(t: Table, op: Op, t': Table) {
    match op
    case OpenOp(owner, id, now, r) => id !in t.items && Admits(t, owner, id, now, r, t')
    case Close(id, state, now) => state != Open && t' == MarkClosed(t, id, state, now)
    case AttachOp(owner, id) => t' == Attach(t, owner, id).0
    case Expire(id, now) => t' == if id in t.items && Stale(t.items[id], now) then t.(items := t.items - {id}) else t
    case Stop(owner) => t' == StopOwner(t, owner)
    case Shutdown => t' == Table(map[], true)
  }

  ghost predicate Inv(t: Table) {
    && (forall owner :: |OwnedOpen(t.items, owner)| <= OPEN_PER_OWNER)
    && |AllOpen(t.items)| <= OPEN_GLOBAL
    && (forall owner :: |Owned(t.items, owner)| <= RECORDS_PER_OWNER)
    && |t.items| <= RECORDS_GLOBAL
  }

  /** Fewer records, and closed ones in place of open ones, break no limit. */
  ghost predicate Within(less: Items, more: Items) {
    forall id | id in less :: id in more && less[id].owner == more[id].owner && (less[id].state.Open? ==> more[id].state.Open?)
  }

  lemma WithinKeeps(t: Table, t': Table)
    requires Inv(t) && Within(t'.items, t.items)
    ensures Inv(t')
  {
    forall owner
      ensures |OwnedOpen(t'.items, owner)| <= OPEN_PER_OWNER && |Owned(t'.items, owner)| <= RECORDS_PER_OWNER
    {
      SubsetSize(OwnedOpen(t'.items, owner), OwnedOpen(t.items, owner));
      SubsetSize(Owned(t'.items, owner), Owned(t.items, owner));
    }
    SubsetSize(AllOpen(t'.items), AllOpen(t.items));
    SubsetSize(t'.items.Keys, t.items.Keys);
  }

  /** Room is made exactly where it is needed, so the final refusal cannot be reached. */
  lemma EvictionMakesRoom(before: Items, owner: Option<Owner>, after: Items)
    requires Evicts(before, owner, after)
    requires if owner.Some? then |OwnedOpen(before, owner.value)| < |Owned(before, owner.value)| else |AllOpen(before)| < |before|
    ensures Within(after, before) && |after| == |before| - 1
    ensures owner.Some? ==> |Owned(after, owner.value)| == |Owned(before, owner.value)| - 1
  {
    var all := if owner.Some? then Owned(before, owner.value) else before.Keys;
    var open := if owner.Some? then OwnedOpen(before, owner.value) else AllOpen(before);
    SubsetSize(open, all);
    var some := InDifference(all, open);
    assert Eligible(before, owner, some);
    var id :| Oldest(before, owner, id) && after == before - {id};
    assert after.Keys == before.Keys - {id};
    RemoveOne(before.Keys, id);
    if owner.Some? {
      assert Owned(after, owner.value) == Owned(before, owner.value) - {id};
      RemoveOne(Owned(before, owner.value), id);
    }
  }

  lemma InDifference(all: set<Id>, part: set<Id>) returns (x: Id)
    requires part <= all && |part| < |all|
    ensures x in all && x !in part
  {
    assert |all - part| == |all| - |part|;
    x :| x in all - part;
  }

  lemma PruneKeeps(t: Table, now: int)
    requires Inv(t)
    ensures Inv(t.(items := Pruned(t.items, now)))
    ensures AllOpen(Pruned(t.items, now)) == AllOpen(t.items)
    ensures forall owner :: OwnedOpen(Pruned(t.items, now), owner) == OwnedOpen(t.items, owner)
    ensures forall s | s in AllOpen(t.items) :: Pruned(t.items, now)[s] == t.items[s]
  {
    WithinKeeps(t, t.(items := Pruned(t.items, now)));
  }

  lemma Absent(less: Items, more: Items, id: Id)
    requires Within(less, more) && id !in more
    ensures id !in less
  {
  }

  lemma StillOpen(before: Items, last: Items, id: Id, after: Items)
    requires id !in before && after.Keys == last.Keys + {id} && forall s | s in last :: s != id ==> after[s] == last[s]
    requires forall s | s in AllOpen(before) :: s in last && last[s] == before[s]
    ensures forall s | s in AllOpen(before) :: s in after && after[s] == before[s]
  {
  }

  lemma SettlesOpens(t: Table, owner: Owner, id: Id, last: Items, r: OpenResult, t': Table)
    requires Settles(t, owner, id, last, r, t') && |last| < RECORDS_GLOBAL && |Owned(last, owner)| < RECORDS_PER_OWNER
    ensures r == Opened && t' == t.(items := last[id := Stream(owner, Open, false, 0)])
  {
  }

  /** What follows once the limits on open streams are passed. */
  lemma AdmissionGoesOn(t: Table, pruned: Items, owner: Owner, id: Id, r: OpenResult, t': Table)
    requires Inv(t.(items := pruned)) && id !in pruned
    requires |OwnedOpen(pruned, owner)| < OPEN_PER_OWNER && |AllOpen(pruned)| < OPEN_GLOBAL
    requires exists mid, last :: MakesRoom(pruned, owner, mid, last) && Settles(t, owner, id, last, r, t')
    ensures Inv(t') && r == Opened
    ensures forall s | s in AllOpen(pruned) :: s in t'.items && t'.items[s] == pruned[s]
  {
    hide MakesRoom, OwnedOpen, AllOpen, Owned, Inv, Within;
    var mid, last :| MakesRoom(pruned, owner, mid, last) && Settles(t, owner, id, last, r, t');
    hide Settles;
    AdmissionRoom(t, owner, pruned, mid, last);
    SettlesOpens(t, owner, id, last, r, t');
    Absent(last, pruned, id);
    Admitted(t.(items := last), owner, id, t');
    StillOpen(pruned, last, id, t'.items);
  }

  lemma AdmissionSafe(t: Table, owner: Owner, id: Id, now: int, r: OpenResult, t': Table)
    requires Inv(t) && id !in t.items && Admits(t, owner, id, now, r, t')
    ensures Inv(t') && r != RecordLimit
    ensures r == StreamLimit <==>
      !t.closed && (|OwnedOpen(t.items, owner)| == OPEN_PER_OWNER || |AllOpen(t.items)| == OPEN_GLOBAL)
    ensures forall s | s in AllOpen(t.items) :: s in t'.items && t'.items[s] == t.items[s]
  {
    PruneKeeps(t, now);
    PrunedSubset(t.items, now);
    hide Pruned, Evicts, OwnedOpen, Owned, Settles;
    if !t.closed && r != StreamLimit {
      AdmissionGoesOn(t, Pruned(t.items, now), owner, id, r, t');
    }
  }

  lemma PrunedSubset(items: Items, now: int)
    ensures Pruned(items, now).Keys <= items.Keys
  {
  }

  lemma AdmissionRoom(t: Table, owner: Owner, pruned: Items, mid: Items, last: Items)
    requires Inv(t.(items := pruned)) && |OwnedOpen(pruned, owner)| < OPEN_PER_OWNER && |AllOpen(pruned)| < OPEN_GLOBAL
    requires MakesRoom(pruned, owner, mid, last)
    ensures Inv(t.(items := last)) && Within(last, pruned)
    ensures |last| < RECORDS_GLOBAL && |Owned(last, owner)| < RECORDS_PER_OWNER
    ensures |OwnedOpen(last, owner)| < OPEN_PER_OWNER && |AllOpen(last)| < OPEN_GLOBAL
    ensures forall s | s in AllOpen(pruned) :: s in last && last[s] == pruned[s]
  {
    if |Owned(pruned, owner)| >= RECORDS_PER_OWNER { EvictionMakesRoom(pruned, Some(owner), mid); }
    assert Within(mid, pruned);
    SubsetSize(AllOpen(mid), AllOpen(pruned));
    if |mid| >= RECORDS_GLOBAL { EvictionMakesRoom(mid, None, last); }
    assert Within(last, mid);
    WithinKeeps(t.(items := pruned), t.(items := last));
    SubsetSize(AllOpen(last), AllOpen(pruned));
    SubsetSize(OwnedOpen(last, owner), OwnedOpen(pruned, owner));
    SubsetSize(Owned(last, owner), Owned(mid, owner));
  }

  lemma OneMoreOpen(items: Items, owner: Owner, id: Id, other: Owner)
    requires id !in items
    ensures var items' := items[id := Stream(owner, Open, false, 0)];
      && OwnedOpen(items', other) == OwnedOpen(items, other) + (if other == owner then {id} else {})
      && AllOpen(items') == AllOpen(items) + {id}
  {
  }

  lemma OneMoreOwned(items: Items, owner: Owner, id: Id, other: Owner)
    requires id !in items
    ensures Owned(items[id := Stream(owner, Open, false, 0)], other) == Owned(items, other) + (if other == owner then {id} else {})
  {
  }

  lemma OneMore(items: Items, owner: Owner, id: Id, other: Owner)
    requires id !in items
    ensures var items' := items[id := Stream(owner, Open, false, 0)];
      var one := if other == owner then 1 else 0;
      && |OwnedOpen(items', other)| <= |OwnedOpen(items, other)| + one
      && |Owned(items', other)| <= |Owned(items, other)| + one
      && |AllOpen(items')| <= |AllOpen(items)| + 1
      && |items'| == |items| + 1
  {
    hide OwnedOpen, AllOpen, Owned;
    OneMoreOpen(items, owner, id, other);
    OneMoreOwned(items, owner, id, other);
    assert items[id := Stream(owner, Open, false, 0)].Keys == items.Keys + {id};
  }

  lemma Admitted(t: Table, owner: Owner, id: Id, t': Table)
    requires Inv(t) && id !in t.items && t'.items == t.items[id := Stream(owner, Open, false, 0)]
    requires |t.items| < RECORDS_GLOBAL && |Owned(t.items, owner)| < RECORDS_PER_OWNER
    requires |OwnedOpen(t.items, owner)| < OPEN_PER_OWNER && |AllOpen(t.items)| < OPEN_GLOBAL
    ensures Inv(t')
  {
    hide OwnedOpen, AllOpen, Owned;
    forall other
      ensures |OwnedOpen(t'.items, other)| <= OPEN_PER_OWNER && |Owned(t'.items, other)| <= RECORDS_PER_OWNER
    {
      OneMore(t.items, owner, id, other);
    }
    OneMore(t.items, owner, id, owner);
  }

  lemma StepKeeps(t: Table, op: Op, t': Table)
    requires Inv(t) && Step(t, op, t')
    ensures Inv(t')
  {
    match op
    case OpenOp(owner, id, now, r) => AdmissionSafe(t, owner, id, now, r, t');
    case Shutdown =>
      assert forall owner :: OwnedOpen(t'.items, owner) == {} && Owned(t'.items, owner) == {};
      assert AllOpen(t'.items) == {};
    case _ => WithinKeeps(t, t');
  }

  /** A run: the tables after each operation, from the empty one. */
  ghost predicate IsRun(tables: seq<Table>, ops: seq<Op>) {
    && |tables| == |ops| + 1 && tables[0] == EMPTY
    && forall i | 0 <= i < |ops| :: Step(tables[i], ops[i], tables[i + 1])
  }

  lemma {:induction false} RunInv(tables: seq<Table>, ops: seq<Op>, i: nat)
    requires IsRun(tables, ops) && i < |tables|
    ensures Inv(tables[i])
  {
    if i == 0 {
      assert forall owner :: OwnedOpen(EMPTY.items, owner) == {} && Owned(EMPTY.items, owner) == {};
      assert AllOpen(EMPTY.items) == {};
    } else {
      RunInv(tables, ops, i - 1);
      StepKeeps(tables[i - 1], ops[i - 1], tables[i]);
    }
  }

  /** In every reachable state the four limits hold. */
  lemma LimitsHold(tables: seq<Table>, ops: seq<Op>, i: nat, owner: Owner)
    requires IsRun(tables, ops) && i < |tables|
    ensures |OwnedOpen(tables[i].items, owner)| <= 8 && |AllOpen(tables[i].items)| <= 64
    ensures |Owned(tables[i].items, owner)| <= 32 && |tables[i].items| <= 256
  {
    RunInv(tables, ops, i);
  }

  /**
   * Closed records never stand in the way of a new stream. An open in a reachable state is refused for
   * want of room exactly when too many streams are open; the refusal for too many records never
   * happens; and no open stream is touched to make room.
   */
  lemma ClosedNeverBlock(tables: seq<Table>, ops: seq<Op>, i: nat)
    requires IsRun(tables, ops) && i < |ops| && ops[i].OpenOp?
    ensures var t, op := tables[i], ops[i];
      && op.r != RecordLimit
      && (op.r == StreamLimit <==> !t.closed && (|OwnedOpen(t.items, op.owner)| == 8 || |AllOpen(t.items)| == 64))
      && (op.r == Opened <==> !t.closed && |OwnedOpen(t.items, op.owner)| < 8 && |AllOpen(t.items)| < 64)
      && forall s | s in AllOpen(t.items) :: s in tables[i + 1].items && tables[i + 1].items[s] == t.items[s]
  {
    RunInv(tables, ops, i);
    var op := ops[i];
    AdmissionSafe(tables[i], op.owner, op.id, op.now, op.r, tables[i + 1]);
  }

  /** An attach that succeeds. */
  predicate Attaches(t: Table, op: Op, id: Id) {
    op.AttachOp? && op.id == id && Attach(t, op.owner, id).1
  }

  lemma MarkStays(t: Table, op: Op, t': Table, id: Id)
    requires Step(t, op, t') && (id in t.items ==> t.items[id].attached) && !(op.OpenOp? && op.id == id)
    ensures id in t'.items ==> t'.items[id].attached
  {
    hide OwnedOpen, AllOpen, Owned;
    if op.OpenOp? && id in t'.items {
      OpenKeepsOthers(t, op.owner, op.id, op.now, op.r, t', id);
    }
  }

  /** Admission only removes records and adds the new one. */
  lemma OpenKeepsOthers(t: Table, owner: Owner, id: Id, now: int, r: OpenResult, t': Table, other: Id)
    requires Admits(t, owner, id, now, r, t') && other != id && other in t'.items
    ensures other in t.items && t'.items[other] == t.items[other]
  {
    hide OwnedOpen, AllOpen, Owned, MakesRoom, Settles;
    var pruned := Pruned(t.items, now);
    if !t.closed && |OwnedOpen(pruned, owner)| < OPEN_PER_OWNER && |AllOpen(pruned)| < OPEN_GLOBAL {
      var mid, last :| MakesRoom(pruned, owner, mid, last) && Settles(t, owner, id, last, r, t');
      RoomKeepsOthers(pruned, owner, mid, last, other);
      SettledKeepsOthers(t, owner, id, last, r, t', other);
    }
  }

  lemma EvictionKeepsOthers(before: Items, owner: Option<Owner>, after: Items, other: Id)
    requires Evicts(before, owner, after) && other in after
    ensures other in before && after[other] == before[other]
  {
  }

  lemma RoomKeepsOthers(pruned: Items, owner: Owner, mid: Items, last: Items, other: Id)
    requires MakesRoom(pruned, owner, mid, last)
    ensures other in last ==> other in pruned && last[other] == pruned[other]
  {
    hide Evicts, Owned;
    if other in last {
      if |mid| >= RECORDS_GLOBAL {
        EvictionKeepsOthers(mid, None, last, other);
      }
      if |Owned(pruned, owner)| >= RECORDS_PER_OWNER {
        EvictionKeepsOthers(pruned, Some(owner), mid, other);
      }
    }
  }

  lemma SettledKeepsOthers(t: Table, owner: Owner, id: Id, last: Items, r: OpenResult, t': Table, other: Id)
    requires Settles(t, owner, id, last, r, t') && other != id && other in t'.items
    ensures other in last && t'.items[other] == last[other]
  {
    hide Owned;
  }

  lemma {:induction false} StaysAttached(tables: seq<Table>, ops: seq<Op>, i: nat, j: nat, id: Id)
    requires IsRun(tables, ops) && i <= j < |tables|
    requires id in tables[i].items ==> tables[i].items[id].attached
    requires forall k | i <= k < j :: !(ops[k].OpenOp? && ops[k].id == id)
    ensures id in tables[j].items ==> tables[j].items[id].attached
  {
    if i < j {
      StaysAttached(tables, ops, i, j - 1, id);
      MarkStays(tables[j - 1], ops[j - 1], tables[j], id);
    }
  }

  /**
   * A stream is attached at most once in any run: after an attach that succeeded, every later one for the
   * same identifier fails, whoever asks, unless a new stream was opened under it in between.
   */
  lemma AttachedOnce(tables: seq<Table>, ops: seq<Op>, i: nat, j: nat, id: Id)
    requires IsRun(tables, ops) && i < j < |ops| && Attaches(tables[i], ops[i], id)
    requires forall k | i < k < j :: !(ops[k].OpenOp? && ops[k].id == id)
    ensures !Attaches(tables[j], ops[j], id)
  {
    assert Step(tables[i], ops[i], tables[i + 1]);
    StaysAttached(tables, ops, i + 1, j, id);
  }

  // ---- the object ----------------------------------------------------------------------------

  class Manager {
    var items: Items
    var closed: bool

    ghost function View(): Table
      reads this
    {
      Table(items, closed)
    }

    constructor ()
      ensures View() == EMPTY
    {
      items, closed := map[], false;
    }

    method Prune(now: int)
      modifies this`items
      ensures items == Pruned(old(items), now)
    {
      var keys := items.Keys;
      while keys != {}
        invariant keys <= items.Keys <= old(items).Keys
        invariant forall id | id in items :: items[id] == old(items)[id]
        invariant forall id | id in old(items) :: id in items <==> id in keys || !Stale(old(items)[id], now)
        decreases keys
      {
        var id :| id in keys;
        if !items[id].state.Open? && now - items[id].closedAt >= RETENTION {
          items := items - {id};
        }
        keys := keys - {id};
      }
    }

    method CountRecords(owner: Owner) returns (owned: nat, active: nat, ownerRecords: nat)
      ensures owned == |OwnedOpen(items, owner)| && active == |AllOpen(items)| && ownerRecords == |Owned(items, owner)|
    {
      hide OwnedOpen, AllOpen, Owned;
      owned, active, ownerRecords := 0, 0, 0;
      var keys := items.Keys;
      NothingUncovered(items, owner);
      while keys != {}
        invariant keys <= items.Keys
        invariant owned == |OwnedOpen(items, owner) - keys|
        invariant active == |AllOpen(items) - keys|
        invariant ownerRecords == |Owned(items, owner) - keys|
        decreases keys
      {
        var id :| id in keys;
        var rest := keys - {id};
        Uncovered(OwnedOpen(items, owner), keys, id);
        Uncovered(AllOpen(items), keys, id);
        Uncovered(Owned(items, owner), keys, id);
        Membership(items, owner, id);
        if items[id].owner == owner {
          ownerRecords := ownerRecords + 1;
        }
        if items[id].state.Open? {
          active := active + 1;
          if items[id].owner == owner {
            owned := owned + 1;
          }
        }
        keys := rest;
      }
      assert OwnedOpen(items, owner) - {} == OwnedOpen(items, owner);
      assert AllOpen(items) - {} == AllOpen(items);
      assert Owned(items, owner) - {} == Owned(items, owner);
    }

    method EvictOldest(owner: Option<Owner>)
      modifies this`items
      ensures Evicts(old(items), owner, items)
    {
      var oldest: Option<Id> := None;
      var keys := items.Keys;
      while keys != {}
        invariant keys <= items.Keys && items == old(items)
        invariant oldest.None? ==> forall id | id in items && id !in keys :: !Eligible(items, owner, id)
        invariant oldest.Some? ==> Eligible(items, owner, oldest.value) && oldest.value !in keys
        invariant oldest.Some? ==> forall id | Eligible(items, owner, id) && id !in keys ::
          items[oldest.value].closedAt <= items[id].closedAt
        decreases keys
      {
        var id :| id in keys;
        keys := keys - {id};
        if items[id].state.Open? || (owner.Some? && items[id].owner != owner.value) {
          continue;
        }
        if oldest.None? || items[id].closedAt < items[oldest.value].closedAt {
          oldest := Some(id);
        }
      }
      if oldest.Some? {
        assert Oldest(items, owner, oldest.value);
        items := items - {oldest.value};
      }
    }

    method Open(owner: Owner, id: Id, now: int) returns (r: OpenResult)
      modifies this`items
      ensures Admits(old(View()), owner, id, now, r, View())
    {
      if closed {
        return ShuttingDown;
      }
      Prune(now);
      ghost var pruned := items;
      var owned, active, ownerRecords := CountRecords(owner);
      if owned >= OPEN_PER_OWNER || active >= OPEN_GLOBAL {
        return StreamLimit;
      }
      if ownerRecords >= RECORDS_PER_OWNER {
        EvictOldest(Some(owner));
      }
      ghost var mid := items;
      if |items| >= RECORDS_GLOBAL {
        EvictOldest(None);
      }
      ghost var last := items;
      var _, _, records := CountRecords(owner);
      if |items| >= RECORDS_GLOBAL || records >= RECORDS_PER_OWNER {
        r := RecordLimit;
      } else {
        items := items[id := Stream(owner, State.Open, false, 0)];
        r := Opened;
      }
      assert MakesRoom(pruned, owner, mid, last) && Settles(old(View()), owner, id, last, r, View());
    }

    method Mark(id: Id, state: State, now: int) returns (changed: bool)
      modifies this`items
      ensures View() == MarkClosed(old(View()), id, state, now)
      ensures changed <==> id in old(items) && old(items)[id].state.Open?
    {
      changed := false;
      if id in items && items[id].state.Open? {
        items := items[id := items[id].(state := state, closedAt := now)];
        changed := true;
      }
    }

    method TryAttach(owner: Owner, id: Id) returns (ok: bool)
      modifies this`items
      ensures (View(), ok) == Attach(old(View()), owner, id)
    {
      if id !in items || items[id].owner != owner {
        return false;
      }
      if !items[id].state.Open? || items[id].attached {
        return false;
      }
      items := items[id := items[id].(attached := true)];
      return true;
    }

    method StopFor(owner: Owner)
      modifies this`items
      ensures View() == StopOwner(old(View()), owner)
    {
      var keys := items.Keys;
      while keys != {}
        invariant keys <= items.Keys <= old(items).Keys
        invariant forall id | id in items :: items[id] == old(items)[id]
        invariant forall id | id in old(items) :: id in items <==> id in keys || old(items)[id].owner != owner
        decreases keys
      {
        var id :| id in keys;
        if items[id].owner == owner {
          items := items - {id};
        }
        keys := keys - {id};
      }
    }
  }

  lemma Membership(items: Items, owner: Owner, id: Id)
    requires id in items
    ensures id in Owned(items, owner) <==> items[id].owner == owner
    ensures id in AllOpen(items) <==> items[id].state.Open?
    ensures id in OwnedOpen(items, owner) <==> items[id].owner == owner && items[id].state.Open?
  {
  }

  lemma NothingUncovered(items: Items, owner: Owner)
    ensures OwnedOpen(items, owner) - items.Keys == {} && AllOpen(items) - items.Keys == {}
    ensures Owned(items, owner) - items.Keys == {}
  {
  }

  lemma Uncovered(all: set<Id>, keys: set<Id>, id: Id)
    requires id in keys
    ensures |all - (keys - {id})| == |all - keys| + if id in all then 1 else 0
  {
    if id in all {
      assert all - (keys - {id}) == (all - keys) + {id};
    } else {
      assert all - (keys - {id}) == all - keys;
    }
  }
}
