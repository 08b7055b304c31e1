/** The PostgreSQL backend (queue/postgres.py): a table keyed by id, changed by guarded
    statements. Each statement with its commit is one step; the `state` column's text is
    represented by the state it spells. */
module PostgresBackend {
  import opened Tasks
  import opened QueueSpec
  import opened MemoryBackend

  datatype Row = Row(
    id: Id,
    transportId: string,
    threadId: Option<string>,
    sender: Option<string>,
    subject: Option<string>,
    state: TaskState,
    attempts: nat,
    leaseUntil: Option<Time>,
    createdAt: Time,
    updatedAt: Time,
    specRepoUrl: Option<string>,
    specBaseBranch: Option<string>,
    specInstructions: Option<string>,
    specModelRequest: Option<string>,
    specVerify: Option<string>,
    specDependsOn: Option<seq<Id>>,
    branch: Option<string>,
    commit: Option<string>,
    prUrl: Option<string>)

  /** The columns the INSERT writes; the evidence columns are always NULL. */
  function RowFor(t: Task, s: TaskState, now: Time): Row {
    var spec := t.spec;
    Row(t.id, t.transportId, t.threadId, t.sender, t.subject, s, 0, None, now, now,
        if spec.Some? then Some(spec.value.repoUrl) else None,
        if spec.Some? then Some(spec.value.baseBranch) else None,
        if spec.Some? then Some(spec.value.instructions) else None,
        if spec.Some? then spec.value.modelRequest else None,
        if spec.Some? then spec.value.verify else None,
        if spec.Some? then Some(spec.value.dependsOn) else None,
        None, None, None)
  }

  /** Python's `value or fallback` on a nullable text column. */
  function Or(value: Option<string>, fallback: string): string {
    if value.None? || value.value == "" then fallback else value.value
  }

  function TaskFromRow(r: Row): Task {
    Task(r.id, r.transportId, r.threadId, r.sender, r.subject, r.state, r.attempts,
         r.leaseUntil, r.createdAt,
         if r.specRepoUrl.None? then None
         else Some(TaskSpec(r.specRepoUrl.value, Or(r.specBaseBranch, "main"),
                            Or(r.specInstructions, ""), r.specModelRequest, r.specVerify,
                            if r.specDependsOn.Some? then r.specDependsOn.value else [])),
         if r.branch.None? && r.commit.None? && r.prUrl.None? then None
         else Some(Evidence(r.branch, r.commit, r.prUrl)))
  }

  /** A stored task reads back exactly when it carried no evidence and named its base
      branch; those are the only two fields the columns lose. */
  lemma RowRoundTrip(t: Task, s: TaskState, now: Time)
    ensures TaskFromRow(RowFor(t, s, now)) == StoredAs(t, s, now)
       <==> t.evidence == None && (t.spec.Some? ==> t.spec.value.baseBranch != "")
    ensures Visible(TaskFromRow(RowFor(t, s, now))) == StoredAs(Visible(t), s, now)
  {}

  function Coalesce(value: Option<string>, current: Option<string>): Option<string> {
    if value.Some? then value else current
  }

  function MovedRow(r: Row, to: TaskState, evidence: Option<Evidence>, now: Time): Row {
    var e := if evidence.Some? then evidence.value else Evidence(None, None, None);
    r.(state := to,
       leaseUntil := if to == Running then r.leaseUntil else None,
       updatedAt := now,
       branch := Coalesce(e.branch, r.branch),
       commit := Coalesce(e.commit, r.commit),
       prUrl := Coalesce(e.prUrl, r.prUrl))
  }

  lemma MovedRowShows(r: Row, to: TaskState, evidence: Option<Evidence>, now: Time)
    ensures Visible(TaskFromRow(MovedRow(r, to, evidence, now))) == MovedTo(Visible(TaskFromRow(r)), to)
  {}

  /** Where the two backends' evidence differs: the dictionary replaces it, SQL merges it
      column by column. They agree exactly when the new evidence drops no recorded link. */
  lemma EvidenceAgrees(r: Row, to: TaskState, evidence: Option<Evidence>, now: Time)
    ensures
      (TaskFromRow(MovedRow(r, to, evidence, now)).evidence
        == MovedWith(TaskFromRow(r), to, evidence).evidence)
      <==> (evidence.Some? ==>
        && (evidence.value.branch.None? ==> r.branch.None?)
        && (evidence.value.commit.None? ==> r.commit.None?)
        && (evidence.value.prUrl.None? ==> r.prUrl.None?)
        && evidence.value != Evidence(None, None, None))
  {}

  ghost function TasksOf(rows: map<Id, Row>): map<Id, Task> {
    map id | id in rows :: TaskFromRow(rows[id])
  }

  lemma UpdateShows(rows: map<Id, Row>, row: Row)
    ensures ViewOf(TasksOf(rows[row.id := row])) == ViewOf(TasksOf(rows))[row.id := Visible(TaskFromRow(row))]
  {
    assert TasksOf(rows[row.id := row]) == TasksOf(rows)[row.id := TaskFromRow(row)];
    ViewOfUpdate(TasksOf(rows), TaskFromRow(row));
  }

  function ReleasedRow(r: Row, now: Time): Row {
    r.(state := Queued, attempts := r.attempts + 1, leaseUntil := None, updatedAt := now)
  }

  predicate StaleRow(r: Row, now: Time) {
    r.state == Running && r.leaseUntil.Some? && r.leaseUntil.value < now
  }

  /** The bulk UPDATE of the sweep. */
  function SweepRows(rows: map<Id, Row>, now: Time): map<Id, Row> {
    map id | id in rows :: if StaleRow(rows[id], now) then ReleasedRow(rows[id], now) else rows[id]
  }

  lemma SweepRowsShows(rows: map<Id, Row>, now: Time)
    ensures TasksOf(SweepRows(rows, now)) == PartlySwept(TasksOf(rows), rows.Keys, now)
  {
    forall id | id in rows
      ensures TaskFromRow(SweepRows(rows, now)[id]) == PartlySwept(TasksOf(rows), rows.Keys, now)[id]
    {
      SweptRowShows(rows[id], now);
    }
  }

  lemma SweptRowShows(r: Row, now: Time)
    ensures StaleRow(r, now) <==> Stale(TaskFromRow(r), now)
    ensures TaskFromRow(ReleasedRow(r, now)) == ReleasedFrom(TaskFromRow(r))
  {}

  lemma SweepRowsFetched(q: seq<Task>, rows: map<Id, Row>, now: Time)
    requires forall x :: x in q <==>
      x.id in rows && StaleRow(rows[x.id], now) && x == TaskFromRow(ReleasedRow(rows[x.id], now))
    requires NoSharedId(q)
    ensures SweptInto(q, TasksOf(rows), rows.Keys, now)
  {
    forall x ensures x in q <==>
      x.id in rows && Stale(TasksOf(rows)[x.id], now) && x == ReleasedFrom(TasksOf(rows)[x.id])
    {
      if x.id in rows {
        assert TaskFromRow(ReleasedRow(rows[x.id], now)) == ReleasedFrom(TaskFromRow(rows[x.id]));
      }
    }
  }

  /** ON CONFLICT sees the same clashes the specification does. */
  lemma ConflictShows(rows: map<Id, Row>, task: Task)
    ensures Known(ViewOf(TasksOf(rows)), task.id, task.transportId)
       <==> task.id in rows || exists i :: i in rows && rows[i].transportId == task.transportId
  {
    if i :| i in rows && rows[i].transportId == task.transportId {
      assert ViewOf(TasksOf(rows))[i].transportId == task.transportId;
    }
  }

  class PostgresQueue {
    var rows: map<Id, Row>

    /** The primary key; that transport ids stay unique follows from the statements. */
    ghost predicate Valid()
      reads this
    {
      forall id :: id in rows ==> rows[id].id == id
    }

    ghost function View(): (t: Table)
      requires Valid()
      reads this
      ensures WellFormed(t)
    {
      ViewOf(TasksOf(rows))
    }

    constructor ()
      ensures Valid() && View() == map[]
    {
      rows := map[];
    }

    method Enqueue(task: Task, state: TaskState, now: Time) returns (r: Option<Task>)
      requires Valid()
      modifies this
      ensures Valid()
      ensures (View(), Stored(VisibleOption(r))) == EnqueueSpec(old(View()), task, state, now)
    {
      if task.id in rows || exists i :: i in rows && rows[i].transportId == task.transportId {
        ConflictShows(rows, task);
        return None;
      }
      ConflictShows(rows, task);
      RowRoundTrip(task, state, now);
      UpdateShows(rows, RowFor(task, state, now));
      rows := rows[task.id := RowFor(task, state, now)];
      return Some(TaskFromRow(RowFor(task, state, now)));
    }

    method Get(id: Id) returns (r: Option<Task>)
      requires Valid()
      ensures VisibleOption(r) == if id in View() then Some(View()[id]) else None
    {
      r := if id in rows then Some(TaskFromRow(rows[id])) else None;
    }

    /** `[_task_from_row(row) for row in rows]`, in whatever order the server returns them. */
    method Fetch(ids: set<Id>) returns (q: seq<Task>)
      requires Valid() && ids <= rows.Keys
      ensures NoSharedId(q)
      ensures forall x :: x in q <==> x.id in ids && x == TaskFromRow(rows[x.id])
    {
      q := [];
      var todo := ids;
      while todo != {}
        invariant todo <= ids
        invariant NoSharedId(q)
        invariant forall x :: x in q <==> x.id in ids - todo && x == TaskFromRow(rows[x.id])
        decreases todo
      {
        var id :| id in todo;
        q := q + [TaskFromRow(rows[id])];
        todo := todo - {id};
      }
    }

    /** None is the server's error for a negative LIMIT. */
    method List(s: TaskState, limit: int) returns (r: Option<seq<Task>>)
      requires Valid()
      ensures r.None? <==> limit < 0
      ensures r.Some? ==> Listed(VisibleSeq(r.value)) == ListSpec(View(), s, limit)
    {
      if limit < 0 { return None; }
      var q := Ordered(s);
      TakeShown(q, limit);
      return Some(Take(q, limit));
    }

    /** `WHERE state ... ORDER BY created_at, id`. */
    method Ordered(s: TaskState) returns (r: seq<Task>)
      requires Valid()
      ensures VisibleSeq(r) == Listing(InState(View(), s))
    {
      var q := Fetch(set id | id in rows && rows[id].state == s);
      SortedSelection(q, TasksOf(rows), s);
      r := Sort(q);
    }

    method Claim(id: Id, now: Time, lease: Time) returns (ok: bool)
      requires Valid()
      modifies this
      ensures Valid()
      ensures (View(), Claimed(ok)) == ClaimSpec(old(View()), id, now + lease)
    {
      ok := id in rows && rows[id].state == Queued;
      if ok { TakeRow(id, now, lease); }
    }

    /** The claiming UPDATE on the one row its WHERE clause selects. */
    method TakeRow(id: Id, now: Time, lease: Time)
      requires Valid() && id in rows
      modifies this
      ensures Valid() && id in rows
      ensures Visible(TaskFromRow(rows[id])) == ClaimedUntil(old(View())[id], now + lease)
      ensures View() == old(View())[id := ClaimedUntil(old(View())[id], now + lease)]
    {
      var row := rows[id].(state := Running, leaseUntil := Some(now + lease), updatedAt := now);
      VisibleCommutes(TaskFromRow(rows[id]), Running, now + lease);
      assert TaskFromRow(row) == ClaimedUntil(TaskFromRow(rows[id]), now + lease);
      UpdateShows(rows, row);
      rows := rows[id := row];
    }

    method ClaimNext(now: Time, lease: Time) returns (r: Option<Task>)
      requires Valid()
      modifies this
      ensures Valid()
      ensures (View(), ClaimedNext(VisibleOption(r))) == ClaimNextSpec(old(View()), now + lease)
    {
      var q := Ordered(Queued);
      if q == [] { return None; }
      ghost var first := Listing(InState(View(), Queued))[0];
      assert VisibleSeq(q)[0] == first;
      assert first in InState(View(), Queued) by { InStateListing(View(), Queued); }
      TakeRow(q[0].id, now, lease);
      return Some(TaskFromRow(rows[q[0].id]));
    }

    /** The guarded UPDATE on the row it selects, with RETURNING. */
    method MoveRow(id: Id, to: TaskState, evidence: Option<Evidence>, now: Time) returns (moved: Task)
      requires Valid() && id in rows
      modifies this
      ensures Valid()
      ensures (View(), VisibleReply(Moved(moved))) == TransitionSpec(old(View()), id, old(rows)[id].state, to)
    {
      var row := MovedRow(rows[id], to, evidence, now);
      MovedRowShows(rows[id], to, evidence, now);
      UpdateShows(rows, row);
      rows := rows[id := row];
      moved := TaskFromRow(row);
    }

    method Transition(id: Id, expected: TaskState, to: TaskState, evidence: Option<Evidence>, now: Time)
      returns (reply: Reply)
      requires Valid()
      modifies this
      ensures Valid()
      ensures (View(), VisibleReply(reply)) == TransitionSpec(old(View()), id, expected, to)
    {
      reply := NotFoundError(id);
      if id in rows && rows[id].state == expected {
        var moved := MoveRow(id, to, evidence, now);
        reply := Moved(moved);
      } else if id in rows {
        reply := ConflictError(id, expected, rows[id].state);
      }
    }

    method ReleaseStale(now: Time) returns (released: seq<Task>)
      requires Valid()
      modifies this
      ensures Valid()
      ensures (View(), Released(VisibleSeq(released))) == ReleaseSpec(old(View()), now)
    {
      var hits := set id | id in rows && StaleRow(rows[id], now);
      SweepRowsShows(rows, now);
      rows := SweepRows(rows, now);
      var q := Fetch(hits);
      SortedRelease(q, old(rows), now);
      released := Sort(q);
    }
  }

  lemma SortedRelease(q: seq<Task>, rows: map<Id, Row>, now: Time)
    requires forall id :: id in rows ==> rows[id].id == id
    requires NoSharedId(q)
    requires forall x :: x in q <==>
      x.id in rows && StaleRow(rows[x.id], now) && x == TaskFromRow(ReleasedRow(rows[x.id], now))
    ensures VisibleSeq(Sort(q)) == Listing(SweptTasks(ViewOf(TasksOf(rows)), now))
    ensures ViewOf(TasksOf(SweepRows(rows, now))) == Sweep(ViewOf(TasksOf(rows)), now)
  {
    var tasks := TasksOf(rows);
    SweepRowsShows(rows, now);
    SweepRowsFetched(q, rows, now);
    assert tasks.Keys == rows.Keys;
    SortedSweep(q, tasks, now);
  }
}
