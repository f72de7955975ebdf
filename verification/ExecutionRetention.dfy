/**
 * Finishing executions and keeping only the newest finished ones (internal/history/owned.go). A table row
 * is found by its id; `row` is the rowid, which orders executions that started at the same time.
 */
module ExecutionRetention {
  import opened Finite
  import opened Options

  const RETENTION: int := 200

  type Id = nat

  datatype Outcome = Running | Finished(at: int, code: int, message: string)

  datatype Execution = Execution(owner: string, subject: string, started: int, row: nat, outcome: Outcome)

  type Rows = map<Id, Execution>

  predicate Newer(a: Execution, b: Execution) {
    a.started > b.started || (a.started == b.started && a.row > b.row)
  }

  /** Rowids are unique. */
  ghost predicate Inv(rows: Rows) {
    forall a, b :: a in rows && b in rows && rows[a].row == rows[b].row ==> a == b
  }

  function Done(rows: Rows, owner: string, subject: string): set<Id> {
    set id | id in rows && rows[id].owner == owner && rows[id].subject == subject && rows[id].outcome.Finished?
  }

  function NewerThan(rows: Rows, some: set<Id>, id: Id): set<Id>
    requires id in rows
  {
    set x | x in some && x in rows && Newer(rows[x], rows[id])
  }

  /** The finished executions of a subject past the first RETENTION in order of start, newest first. */
  function Stale(rows: Rows, owner: string, subject: string): set<Id> {
    var done := Done(rows, owner, subject);
    set id | id in done && |NewerThan(rows, done, id)| >= RETENTION
  }

  function Pruned(rows: Rows, owner: string, subject: string): Rows {
    rows - Stale(rows, owner, subject)
  }

  // ---- how many are kept ---------------------------------------------------------------------

  predicate OldestOf(rows: Rows, some: set<Id>, m: Id) {
    m in some && m in rows && forall id :: id in some && id in rows && id != m ==> Newer(rows[id], rows[m])
  }

  predicate NewestOf(rows: Rows, some: set<Id>, m: Id) {
    m in some && m in rows && forall id :: id in some && id in rows && id != m ==> Newer(rows[m], rows[id])
  }

  lemma {:induction false} Oldest(rows: Rows, some: set<Id>) returns (m: Id)
    requires Inv(rows) && some != {} && some <= rows.Keys
    ensures OldestOf(rows, some, m)
    decreases |some|
  {
    var first :| first in some;
    var rest := some - {first};
    m := first;
    assert some == rest + {first};
    if rest != {} {
      var n := Oldest(rows, rest);
      m := if Newer(rows[first], rows[n]) then n else first;
      forall id | id in some && id != m
        ensures Newer(rows[id], rows[m])
      {
        assert id in rest || id == first;
        assert id in rest && id != n ==> Newer(rows[id], rows[n]);
        assert rows[first].row != rows[n].row;
      }
    }
  }

  lemma {:induction false} Newest(rows: Rows, some: set<Id>) returns (m: Id)
    requires Inv(rows) && some != {} && some <= rows.Keys
    ensures NewestOf(rows, some, m)
    decreases |some|
  {
    var first :| first in some;
    var rest := some - {first};
    m := first;
    assert some == rest + {first};
    if rest != {} {
      var n := Newest(rows, rest);
      m := if Newer(rows[n], rows[first]) then n else first;
      forall id | id in some && id != m
        ensures Newer(rows[m], rows[id])
      {
        assert id in rest || id == first;
        assert id in rest && id != n ==> Newer(rows[n], rows[id]);
        assert rows[first].row != rows[n].row;
      }
    }
  }

  lemma AtMost(rows: Rows, owner: string, subject: string)
    requires Inv(rows)
    ensures |Done(rows, owner, subject) - Stale(rows, owner, subject)| <= RETENTION
  {
    var done := Done(rows, owner, subject);
    var kept := done - Stale(rows, owner, subject);
    if kept != {} {
      var m := Oldest(rows, kept);
      SubsetSize(kept - {m}, NewerThan(rows, done, m));
      assert |kept - {m}| == |kept| - 1;
    }
  }

  lemma AtLeast(rows: Rows, owner: string, subject: string)
    requires Inv(rows) && Stale(rows, owner, subject) != {}
    ensures |Done(rows, owner, subject) - Stale(rows, owner, subject)| >= RETENTION
  {
    var done, stale := Done(rows, owner, subject), Stale(rows, owner, subject);
    var m := Newest(rows, stale);
    forall x | x in NewerThan(rows, done, m)
      ensures x in done - stale
    {
    }
    SubsetSize(NewerThan(rows, done, m), done - stale);
  }

  lemma HowMany(rows: Rows, owner: string, subject: string)
    requires Inv(rows)
    ensures var done, stale := Done(rows, owner, subject), Stale(rows, owner, subject);
      |done - stale| == if |done| <= RETENTION then |done| else RETENTION
  {
    hide Newer, NewerThan;
    var done, stale := Done(rows, owner, subject), Stale(rows, owner, subject);
    StaleAreDone(rows, owner, subject);
    hide Done, Stale;
    AtMost(rows, owner, subject);
    if stale == {} {
      assert done - stale == done;
    } else {
      AtLeast(rows, owner, subject);
      var m :| m in stale;
      AddSize((done - stale) + {m}, done - stale, m);
      SubsetSize((done - stale) + {m}, done);
    }
  }

  lemma StaleAreDone(rows: Rows, owner: string, subject: string)
    ensures Stale(rows, owner, subject) <= Done(rows, owner, subject)
  {
  }

  lemma StaleAreOlder(rows: Rows, owner: string, subject: string, x: Id, y: Id)
    requires Inv(rows) && x in Done(rows, owner, subject) - Stale(rows, owner, subject) && y in Stale(rows, owner, subject)
    ensures Newer(rows[x], rows[y])
  {
    var done := Done(rows, owner, subject);
    if Newer(rows[y], rows[x]) {
      SubsetSize(NewerThan(rows, done, y), NewerThan(rows, done, x));
    }
  }

  /**
   * Pruning one subject leaves exactly its newest finished executions, RETENTION of them or all there are;
   * it touches no running execution and no other subject.
   */
  lemma KeepsTheNewest(rows: Rows, owner: string, subject: string)
    requires Inv(rows)
    ensures var pruned := Pruned(rows, owner, subject);
      var before, after := Done(rows, owner, subject), Done(pruned, owner, subject);
      && after <= before
      && |after| == (if |before| <= RETENTION then |before| else RETENTION)
      && (forall x, y :: x in after && y in before - after ==> Newer(rows[x], rows[y]))
      && (forall id :: id in rows && id !in before ==> id in pruned && pruned[id] == rows[id])
      && Inv(pruned)
  {
    var done, stale := Done(rows, owner, subject), Stale(rows, owner, subject);
    assert stale <= done;
    hide Stale, Newer;
    assert Done(Pruned(rows, owner, subject), owner, subject) == done - stale;
    HowMany(rows, owner, subject);
    forall x, y | x in done - stale && y in stale
      ensures Newer(rows[x], rows[y])
    {
      StaleAreOlder(rows, owner, subject, x, y);
    }
  }

  // ---- finishing -----------------------------------------------------------------------------

  datatype Updated = Updated(rows: Rows, record: Option<Execution>, changed: bool)

  /** The update under the lock, with the record that the caller gets; pruning follows if it changed a row. */
  function Update(rows: Rows, owner: string, id: Id, outcome: Outcome): Updated {
    if id !in rows || rows[id].owner != owner then Updated(rows, None, false)
    else if rows[id].outcome.Finished? then Updated(rows, Some(rows[id]), false)
    else
      var finished := rows[id].(outcome := outcome);
      Updated(rows[id := finished], Some(finished), true)
  }

  /**
   * An outcome is recorded exactly for the owner's execution while it runs, and in that row alone; the owner
   * is given the row as it then is, anybody else nothing.
   */
  lemma OutcomeRecorded(rows: Rows, owner: string, id: Id, outcome: Outcome)
    requires outcome.Finished?
    ensures var u := Update(rows, owner, id, outcome);
      && (u.changed <==> id in rows && rows[id].owner == owner && rows[id].outcome == Running)
      && u.rows.Keys == rows.Keys
      && (forall x | x in rows ::
            u.rows[x] ==
              if u.changed && x == id then Execution(owner, rows[x].subject, rows[x].started, rows[x].row, outcome)
              else rows[x])
      && (u.record == if id in rows && rows[id].owner == owner then Some(u.rows[id]) else None)
  {
  }

  /**
   * The caller is given its finished execution. Whether it can still be found after the pruning depends on
   * the others: exactly if fewer than RETENTION finished executions of the subject started after it.
   */
  lemma FoundAfterFinishIff(rows: Rows, owner: string, id: Id, outcome: Outcome)
    requires Inv(rows) && outcome.Finished? && Update(rows, owner, id, outcome).changed
    ensures var pruned := Pruned(Update(rows, owner, id, outcome).rows, owner, rows[id].subject);
      && (id in pruned <==> |NewerThan(rows, Done(rows, owner, rows[id].subject), id)| < RETENTION)
      && (id in pruned ==> pruned[id].outcome == outcome)
  {
    var finished := rows[id := rows[id].(outcome := outcome)];
    var subject := rows[id].subject;
    assert Done(finished, owner, subject) == Done(rows, owner, subject) + {id};
    assert NewerThan(finished, Done(finished, owner, subject), id) == NewerThan(rows, Done(rows, owner, subject), id);
  }

  /** A long-running execution, 0, that started before the RETENTION others of its subject; they are finished. */
  function Overtaken(owner: string, subject: string): Rows {
    map id: nat | 0 <= id <= RETENTION ::
      Execution(owner, subject, id, id, if id == 0 then Running else Finished(id, 0, ""))
  }

  function UpTo(n: nat): (s: set<Id>)
    ensures |s| == n && forall id :: id in s <==> 1 <= id <= n
  {
    if n == 0 then {} else UpTo(n - 1) + {n}
  }

  lemma AllOvertake(owner: string, subject: string)
    ensures Inv(Overtaken(owner, subject)) && 0 in Overtaken(owner, subject)
    ensures NewerThan(Overtaken(owner, subject), Done(Overtaken(owner, subject), owner, subject), 0) == UpTo(RETENTION)
  {
    hide UpTo;
    var rows := Overtaken(owner, subject);
    forall id: Id
      ensures id in NewerThan(rows, Done(rows, owner, subject), 0) <==> id in UpTo(RETENTION)
    {
    }
  }

  /** It does happen: that execution is told to be finished, and is gone. */
  lemma FinishedAndGone(owner: string, subject: string, outcome: Outcome)
    requires outcome.Finished?
    ensures var rows := Overtaken(owner, subject);
      && Inv(rows) && 0 in rows && rows[0].outcome == Running
      && Update(rows, owner, 0, outcome).record == Some(rows[0].(outcome := outcome))
      && 0 !in Pruned(Update(rows, owner, 0, outcome).rows, owner, subject)
  {
    var rows := Overtaken(owner, subject);
    assert rows[0] == Execution(owner, subject, 0, 0, Running);
    hide Overtaken, NewerThan, Done, UpTo, Pruned;
    AllOvertake(owner, subject);
    assert Update(rows, owner, 0, outcome).changed;
    hide Inv;
    FoundAfterFinishIff(rows, owner, 0, outcome);
  }

  // ---- many callers at once ------------------------------------------------------------------

  /** `due` has one entry for each caller that has updated a row and not pruned its subject yet. */
  datatype Table = Table(rows: Rows, due: multiset<(string, string)>)

  datatype Op =
    | Begin(id: Id, e: Execution)
    | UpdateOp(owner: string, id: Id, outcome: Outcome)
    | PruneOp(owner: string, subject: string)

  predicate Can(t: Table, op: Op) {
    match op
    case Begin(id, e) => id !in t.rows && e.outcome == Running && forall x :: x in t.rows ==> t.rows[x].row != e.row
    case UpdateOp(_, _, outcome) => outcome.Finished?
    case PruneOp(owner, subject) => (owner, subject) in t.due
  }

  function Do(t: Table, op: Op): Table
    requires Can(t, op)
  {
    match op
    case Begin(id, e) => t.(rows := t.rows[id := e])
    case UpdateOp(owner, id, outcome) =>
      var u := Update(t.rows, owner, id, outcome);
      Table(u.rows, if u.changed then t.due + multiset{(owner, t.rows[id].subject)} else t.due)
    case PruneOp(owner, subject) =>
      Table(Pruned(t.rows, owner, subject), t.due - multiset{(owner, subject)})
  }

  function Run(t: Table, ops: seq<Op>): Table {
    if ops == [] then t
    else
      var before := Run(t, ops[..|ops| - 1]);
      if Can(before, ops[|ops| - 1]) then Do(before, ops[|ops| - 1]) else before
  }

  /** A subject has at most RETENTION finished executions, and one more for each caller still to prune it. */
  ghost predicate TableInv(t: Table) {
    Inv(t.rows) && forall owner, subject :: |Done(t.rows, owner, subject)| <= RETENTION + t.due[(owner, subject)]
  }

  lemma UpdateDone(rows: Rows, owner: string, id: Id, outcome: Outcome, o: string, s: string)
    requires outcome.Finished? && Update(rows, owner, id, outcome).changed
    ensures Done(Update(rows, owner, id, outcome).rows, o, s) ==
      Done(rows, o, s) + if (o, s) == (owner, rows[id].subject) then {id} else {}
  {
  }

  lemma PruneDone(rows: Rows, owner: string, subject: string, o: string, s: string)
    requires Inv(rows)
    ensures |Done(Pruned(rows, owner, subject), o, s)| <= |Done(rows, o, s)|
    ensures (o, s) == (owner, subject) ==> |Done(Pruned(rows, owner, subject), o, s)| <= RETENTION
  {
    KeepsTheNewest(rows, owner, subject);
    hide Stale;
    SubsetSize(Done(Pruned(rows, owner, subject), o, s), Done(rows, o, s));
  }

  lemma UpdateKeeps(t: Table, op: Op)
    requires TableInv(t) && op.UpdateOp? && Can(t, op)
    ensures TableInv(Do(t, op))
  {
    hide Done;
    var u := Update(t.rows, op.owner, op.id, op.outcome);
    if u.changed {
      forall o, s
        ensures |Done(u.rows, o, s)| <= RETENTION + Do(t, op).due[(o, s)]
      {
        UpdateDone(t.rows, op.owner, op.id, op.outcome, o, s);
        if (o, s) == (op.owner, t.rows[op.id].subject) {
          AddSize(Done(u.rows, o, s), Done(t.rows, o, s), op.id);
        } else {
          assert Done(t.rows, o, s) + {} == Done(t.rows, o, s);
        }
      }
    }
  }

  lemma PruneKeeps(t: Table, op: Op)
    requires TableInv(t) && op.PruneOp? && Can(t, op)
    ensures TableInv(Do(t, op))
  {
    KeepsTheNewest(t.rows, op.owner, op.subject);
    hide Done, Pruned;
    forall o, s
      ensures |Done(Do(t, op).rows, o, s)| <= RETENTION + Do(t, op).due[(o, s)]
    {
      PruneDone(t.rows, op.owner, op.subject, o, s);
    }
  }

  lemma BeginKeeps(t: Table, op: Op)
    requires TableInv(t) && op.Begin? && Can(t, op)
    ensures TableInv(Do(t, op))
  {
    forall o, s
      ensures Done(Do(t, op).rows, o, s) == Done(t.rows, o, s)
    {
    }
  }

  lemma {:induction false} RunInv(t: Table, ops: seq<Op>)
    requires TableInv(t)
    ensures TableInv(Run(t, ops))
  {
    hide TableInv, Do, Can;
    if ops != [] {
      RunInv(t, ops[..|ops| - 1]);
      var before, op := Run(t, ops[..|ops| - 1]), ops[|ops| - 1];
      if Can(before, op) {
        match op
        case Begin(_, _) => BeginKeeps(before, op);
        case UpdateOp(_, _, _) => UpdateKeeps(before, op);
        case PruneOp(_, _) => PruneKeeps(before, op);
      }
    }
  }

  /**
   * With any number of callers at once, the lock free between update and pruning: a subject never has more
   * finished executions than RETENTION and those callers that have still to prune it.
   */
  lemma BoundedAtAllTimes(ops: seq<Op>, owner: string, subject: string)
    ensures var t := Run(Table(map[], multiset{}), ops);
      |Done(t.rows, owner, subject)| <= RETENTION + t.due[(owner, subject)]
  {
    forall o, s
      ensures Done(map[], o, s) == {}
    {
    }
    RunInv(Table(map[], multiset{}), ops);
    hide Run, Done;
  }

  predicate Restarts(ops: seq<Op>, id: Id) {
    exists op :: op in ops && op.Begin? && op.id == id
  }

  lemma RecordStep(t: Table, op: Op, id: Id)
    requires Can(t, op) && (id in t.rows ==> t.rows[id].outcome.Finished?) && !(op.Begin? && op.id == id)
    ensures id in Do(t, op).rows ==> id in t.rows && Do(t, op).rows[id] == t.rows[id]
  {
    hide Stale;
  }

  lemma {:induction false} RecordStays(t: Table, ops: seq<Op>, id: Id)
    requires id in t.rows && t.rows[id].outcome.Finished? && !Restarts(ops, id)
    ensures id in Run(t, ops).rows ==> Run(t, ops).rows[id] == t.rows[id]
  {
    if ops != [] {
      var before, op := ops[..|ops| - 1], ops[|ops| - 1];
      hide Do, Can;
      assert op in ops && forall x :: x in before ==> x in ops;
      RecordStays(t, before, id);
      if Can(Run(t, before), op) {
        RecordStep(Run(t, before), op, id);
      }
    }
  }

  /**
   * An outcome is recorded once. Whatever happens after it, a second report for the execution changes
   * nothing and is answered with the first record, or with nothing if that was pruned; identifiers of new
   * executions are new.
   */
  lemma FinishedOnce(t: Table, owner: string, id: Id, first: Outcome, ops: seq<Op>, second: Outcome)
    requires first.Finished? && Update(t.rows, owner, id, first).changed && !Restarts(ops, id)
    ensures var after := Run(Do(t, UpdateOp(owner, id, first)), ops);
      var again := Update(after.rows, owner, id, second);
      again == Updated(after.rows, if id in after.rows then Update(t.rows, owner, id, first).record else None, false)
  {
    RecordStays(Do(t, UpdateOp(owner, id, first)), ops, id);
    hide Run, Restarts;
  }

  class Store {
    var rows: Rows

    constructor ()
      ensures rows == map[] && Inv(rows)
    {
      rows := map[];
    }

    method UpdateRow(owner: string, id: Id, outcome: Outcome) returns (record: Option<Execution>, changed: bool)
      requires Inv(rows) && outcome.Finished?
      modifies this
      ensures Updated(rows, record, changed) == Update(old(rows), owner, id, outcome) && Inv(rows)
    {
      if id !in rows || rows[id].owner != owner {
        return None, false;
      }
      changed := !rows[id].outcome.Finished?;
      if changed {
        rows := rows[id := rows[id].(outcome := outcome)];
      }
      record := Some(rows[id]);
    }

    method PruneExecutions(owner: string, subject: string)
      requires Inv(rows)
      modifies this
      ensures rows == Pruned(old(rows), owner, subject) && Inv(rows)
    {
      var stale := Stale(rows, owner, subject);
      var left := stale;
      while left != {}
        invariant left <= stale && rows == old(rows) - (stale - left)
        decreases |left|
      {
        var id :| id in left;
        rows := rows - {id};
        left := left - {id};
      }
    }

    /** The whole call, with nobody in between. */
    method FinishExecution(owner: string, id: Id, outcome: Outcome) returns (record: Option<Execution>)
      requires Inv(rows) && outcome.Finished?
      modifies this
      ensures Inv(rows)
      ensures var u := Update(old(rows), owner, id, outcome);
        && record == u.record
        && rows == if u.changed then Pruned(u.rows, owner, u.record.value.subject) else u.rows
      ensures Update(old(rows), owner, id, outcome).changed ==> |Done(rows, owner, record.value.subject)| <= RETENTION
    {
      hide Stale, Done;
      var changed;
      record, changed := UpdateRow(owner, id, outcome);
      if changed {
        KeepsTheNewest(rows, owner, record.value.subject);
        PruneExecutions(owner, record.value.subject);
      }
    }
  }
}
