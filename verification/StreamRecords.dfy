/**
 * What becomes of each record in the table of network streams (internal/core/plugin_network_streams.go): how
 * it gets in, what may change in it, and exactly what takes it out again.
 */
module StreamRecords {
  import opened Finite
  import opened Options
  import opened NetworkStreams

  // ---- in ------------------------------------------------------------------------------------

  /**
   * An open that is let in adds exactly one record, of the caller, open and not attached; every other record
   * there now was there before, unchanged, and is not out of date.
   */
  lemma OpenedIsThere(t: Table, owner: Owner, id: Id, now: int, r: OpenResult, t': Table)
    requires Inv(t) && id !in t.items && Admits(t, owner, id, now, r, t')
    ensures r == Opened <==> id in t'.items
    ensures r == Opened ==> t'.items[id] == Stream(owner, Open, false, 0)
    ensures t'.closed == t.closed
    ensures forall other | other in t'.items && other != id :: other in t.items && t'.items[other] == t.items[other]
    ensures !t.closed ==>
      forall other | other in t'.items && !t'.items[other].state.Open? :: now - t'.items[other].closedAt < 300
  {
    hide Inv, OwnedOpen, AllOpen, Owned, Evicts;
    var pruned := Pruned(t.items, now);
    if !t.closed && |OwnedOpen(pruned, owner)| < OPEN_PER_OWNER && |AllOpen(pruned)| < OPEN_GLOBAL {
      hide MakesRoom, Settles;
      var mid, last :| MakesRoom(pruned, owner, mid, last) && Settles(t, owner, id, last, r, t');
      LastIsPruned(pruned, owner, mid, last);
      SettledTable(t, owner, id, last, r, t');
    }
  }

  lemma LastIsPruned(pruned: Items, owner: Owner, mid: Items, last: Items)
    requires MakesRoom(pruned, owner, mid, last)
    ensures forall other | other in last :: other in pruned && last[other] == pruned[other]
  {
    hide MakesRoom;
    forall other | other in last
      ensures other in pruned && last[other] == pruned[other]
    {
      RoomKeepsOthers(pruned, owner, mid, last, other);
    }
  }

  lemma SettledTable(t: Table, owner: Owner, id: Id, last: Items, r: OpenResult, t': Table)
    requires Settles(t, owner, id, last, r, t')
    ensures t'.closed == t.closed && (r == Opened || r == RecordLimit)
    ensures t'.items == if r == Opened then last[id := Stream(owner, Open, false, 0)] else last
  {
    hide Owned;
  }

  // ---- out -----------------------------------------------------------------------------------

  /** An open that has not enough room for records. */
  ghost predicate Crowded(t: Table, owner: Owner, now: int) {
    |Owned(Pruned(t.items, now), owner)| >= 32 || |Pruned(t.items, now)| >= 256
  }

  lemma RoomEnough(pruned: Items, owner: Owner, mid: Items, last: Items)
    requires MakesRoom(pruned, owner, mid, last) && |Owned(pruned, owner)| < 32 && |pruned| < 256
    ensures last == pruned
  {
  }

  /** The records that made room: closed ones, none of them younger than a closed one left behind. */
  lemma RoomTakesOldest(pruned: Items, owner: Owner, mid: Items, last: Items, id: Id)
    requires MakesRoom(pruned, owner, mid, last) && id in pruned && id !in last
    ensures !pruned[id].state.Open?
    ensures forall other | other in last && !last[other].state.Open? && last[other].owner == pruned[id].owner ::
      pruned[id].closedAt <= last[other].closedAt
  {
    hide Owned;
    if |Owned(pruned, owner)| >= RECORDS_PER_OWNER {
      EvictionSpares(pruned, Some(owner), mid, id);
    }
    if |mid| >= RECORDS_GLOBAL {
      EvictionSpares(mid, None, last, id);
    }
  }

  lemma EvictionSpares(before: Items, owner: Option<Owner>, after: Items, id: Id)
    requires Evicts(before, owner, after)
    ensures forall other | other in after :: other in before && after[other] == before[other]
    ensures id in before && id !in after ==> !before[id].state.Open? && (owner.Some? ==> before[id].owner == owner.value)
    ensures id in before && id !in after ==>
      forall other | other in after && !after[other].state.Open? && (owner.Some? ==> after[other].owner == owner.value) ::
        before[id].closedAt <= after[other].closedAt
  {
  }

  /** Exactly what takes a record out of the table in one step. */
  ghost predicate Takes(t: Table, op: Op, id: Id)
    requires id in t.items
  {
    var s := t.items[id];
    match op
    case OpenOp(owner, _, now, _) => !t.closed && !s.state.Open? && (now - s.closedAt >= 300 || Crowded(t, owner, now))
    case Expire(other, now) => id == other && !s.state.Open? && now - s.closedAt >= 300
    case Stop(owner) => s.owner == owner
    case Shutdown => true
    case Close(_, _, _) => false
    case AttachOp(_, _) => false
  }

  lemma OpenTakes(t: Table, owner: Owner, newId: Id, now: int, r: OpenResult, t': Table, id: Id)
    requires Inv(t) && newId !in t.items && Admits(t, owner, newId, now, r, t') && id in t.items
    ensures id !in t'.items ==> Takes(t, OpenOp(owner, newId, now, r), id)
    ensures !t.closed && !t.items[id].state.Open? && now - t.items[id].closedAt >= 300 ==> id !in t'.items
  {
    OpenedIsThere(t, owner, newId, now, r, t');
    hide Inv, OwnedOpen, AllOpen, Owned, Evicts;
    var pruned := Pruned(t.items, now);
    if !t.closed && |OwnedOpen(pruned, owner)| < OPEN_PER_OWNER && |AllOpen(pruned)| < OPEN_GLOBAL && id in pruned {
      hide MakesRoom, Settles;
      var mid, last :| MakesRoom(pruned, owner, mid, last) && Settles(t, owner, newId, last, r, t');
      SettledTable(t, owner, newId, last, r, t');
      if id !in last {
        RoomTakesOldest(pruned, owner, mid, last, id);
        if !Crowded(t, owner, now) { RoomEnough(pruned, owner, mid, last); }
      }
    }
  }

  /**
   * In any run a record leaves in these cases only; and always in all of them but that of a crowded table,
   * which takes the oldest closed ones. So an open stream stays until it is closed, its plugin stops, or all.
   */
  lemma GoneOnlyIf(tables: seq<Table>, ops: seq<Op>, i: nat, id: Id)
    requires IsRun(tables, ops) && i < |ops| && id in tables[i].items
    ensures id !in tables[i + 1].items ==> Takes(tables[i], ops[i], id)
    ensures Takes(tables[i], ops[i], id) && !(ops[i].OpenOp? && Crowded(tables[i], ops[i].owner, ops[i].now)) ==>
      id !in tables[i + 1].items
  {
    RunInv(tables, ops, i);
    var t, op, t' := tables[i], ops[i], tables[i + 1];
    assert Step(t, op, t');
    if op.OpenOp? {
      OpenTakes(t, op.owner, op.id, op.now, op.r, t', id);
    }
    hide Inv, Admits, IsRun, Crowded, OwnedOpen, AllOpen;
  }

  // ---- in between ----------------------------------------------------------------------------

  /** What a step may change in a record that stays: its first close, and its one attachment. */
  ghost predicate Changed(s: Stream, op: Op, id: Id, s': Stream) {
    match op
    case Close(other, state, now) =>
      s' == if other == id && s.state.Open? then s.(state := state, closedAt := now) else s
    case AttachOp(owner, other) =>
      s' == if other == id && owner == s.owner && s.state.Open? then s.(attached := true) else s
    case _ => s' == s
  }

  lemma ChangedOnlyBy(tables: seq<Table>, ops: seq<Op>, i: nat, id: Id)
    requires IsRun(tables, ops) && i < |ops| && id in tables[i].items && id in tables[i + 1].items
    ensures Changed(tables[i].items[id], ops[i], id, tables[i + 1].items[id])
  {
    RunInv(tables, ops, i);
    var t, op, t' := tables[i], ops[i], tables[i + 1];
    assert Step(t, op, t');
    if op.OpenOp? {
      OpenedIsThere(t, op.owner, op.id, op.now, op.r, t');
    }
    hide Inv, Admits, IsRun, OwnedOpen, AllOpen, Owned;
  }

  lemma RunLength(tables: seq<Table>, ops: seq<Op>)
    requires IsRun(tables, ops)
    ensures |tables| == |ops| + 1
  {
  }

  /** The first close tells for good: state and time of a closed record never change while it is listed. */
  lemma {:induction false} FirstCloseStays(tables: seq<Table>, ops: seq<Op>, i: nat, j: nat, id: Id)
    requires IsRun(tables, ops) && i <= j < |tables| && id in tables[i].items && !tables[i].items[id].state.Open?
    requires forall k | i <= k <= j :: id in tables[k].items
    ensures tables[j].items[id] == tables[i].items[id]
  {
    hide IsRun;
    if i < j {
      FirstCloseStays(tables, ops, i, j - 1, id);
      assert |tables| == |ops| + 1 by { RunLength(tables, ops); }
      ChangedOnlyBy(tables, ops, j - 1, id);
    }
  }

  /** An attach succeeds exactly for the owner of an open stream that nothing is attached to. */
  lemma AttachesIff(t: Table, owner: Owner, id: Id)
    ensures Attach(t, owner, id).1 <==> id in t.items && t.items[id] == Stream(owner, Open, false, t.items[id].closedAt)
    ensures var t' := Attach(t, owner, id).0;
      t' == if Attach(t, owner, id).1 then t.(items := t.items[id := t.items[id].(attached := true)]) else t
  {
  }

  /** When a plugin stops exactly its records go, and it may open as many streams again as others leave room for. */
  lemma StopFrees(tables: seq<Table>, ops: seq<Op>, i: nat, owner: Owner)
    requires IsRun(tables, ops) && i < |ops| && ops[i] == Stop(owner)
    ensures var t, t' := tables[i], tables[i + 1];
      && t'.closed == t.closed
      && (forall id :: id in t'.items <==> id in t.items && t.items[id].owner != owner)
      && (forall id | id in t'.items :: t'.items[id] == t.items[id])
      && |Owned(t'.items, owner)| == 0 && |OwnedOpen(t'.items, owner)| == 0
  {
    var t, t' := tables[i], tables[i + 1];
    assert Step(t, ops[i], t');
    assert Owned(t'.items, owner) == {} && OwnedOpen(t'.items, owner) == {};
  }
}
