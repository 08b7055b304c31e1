/** The queue port (queue/port.py) as atomic calls on a table.
    Both backends are proved to answer every call exactly as `Exec` does. */
module QueueSpec {
  import opened Tasks

  type Table = map<Id, Task>

  /** The part of a record both backends agree on: everything except the delivery
      evidence, with an empty base branch read back as "main". */
  function Visible(t: Task): Task {
    t.(evidence := None,
       spec := if t.spec.None? then None
               else if t.spec.value.baseBranch == "" then Some(t.spec.value.(baseBranch := "main"))
               else t.spec)
  }

  lemma VisibleCommutes(t: Task, s: TaskState, now: Time)
    ensures Visible(StoredAs(t, s, now)) == StoredAs(Visible(t), s, now)
    ensures Visible(MovedTo(t, s)) == MovedTo(Visible(t), s)
    ensures Visible(ClaimedUntil(t, now)) == ClaimedUntil(Visible(t), now)
    ensures Visible(ReleasedFrom(t)) == ReleasedFrom(Visible(t))
  {}

  function VisibleOption(t: Option<Task>): Option<Task> {
    if t.None? then None else Some(Visible(t.value))
  }

  function VisibleSeq(q: seq<Task>): (r: seq<Task>)
    ensures |r| == |q| && forall i :: 0 <= i < |q| ==> r[i] == Visible(q[i])
  {
    seq(|q|, i requires 0 <= i < |q| => Visible(q[i]))
  }

  ghost predicate WellFormed(t: Table) {
    forall id :: id in t ==> t[id].id == id
  }

  ghost function InState(t: Table, s: TaskState): set<Task> {
    set id | id in t && t[id].state == s :: t[id]
  }

  lemma InStateListing(t: Table, s: TaskState)
    requires WellFormed(t)
    ensures OldestFirst(Listing(InState(t, s)), InState(t, s))
  {
    ListingLists(InState(t, s));
  }

  /** A running task whose lease lies strictly in the past. */
  predicate Stale(t: Task, now: Time) {
    t.state == Running && t.leaseUntil.Some? && t.leaseUntil.value < now
  }

  function ReleasedFrom(t: Task): Task {
    t.(state := Queued, attempts := t.attempts + 1, leaseUntil := None)
  }

  function MovedTo(t: Task, to: TaskState): Task {
    t.(state := to, leaseUntil := if to == Running then t.leaseUntil else None)
  }

  function ClaimedUntil(t: Task, until: Time): Task {
    t.(state := Running, leaseUntil := Some(until))
  }

  function StoredAs(t: Task, s: TaskState, now: Time): Task {
    t.(state := s, attempts := 0, leaseUntil := None, createdAt := now)
  }

  ghost predicate Known(t: Table, id: Id, transportId: string) {
    id in t || exists i :: i in t && t[i].transportId == transportId
  }

  /** Both records name the same sender and thread. */
  predicate SameOrigin(x: Task, y: Task) { x.sender == y.sender && x.threadId == y.threadId }

  /** What no call ever changes about a stored row, apart from adding rows. */
  ghost predicate Extends(t: Table, t': Table) {
    forall id :: id in t ==>
      id in t' && t'[id].id == t[id].id && t'[id].spec == t[id].spec
      && t'[id].transportId == t[id].transportId && SameOrigin(t'[id], t[id])
  }

  ghost function Sweep(t: Table, now: Time): (r: Table)
    requires WellFormed(t)
    ensures WellFormed(r)
  {
    map id | id in t :: if Stale(t[id], now) then ReleasedFrom(t[id]) else t[id]
  }

  /** Rewrite one existing row. */
  ghost function Put(t: Table, row: Task): (r: Table)
    requires WellFormed(t) && row.id in t
    requires row.transportId == t[row.id].transportId && row.spec == t[row.id].spec
    ensures WellFormed(r)
  {
    t[row.id := row]
  }

  ghost function Add(t: Table, row: Task): (r: Table)
    requires WellFormed(t) && !Known(t, row.id, row.transportId)
    ensures WellFormed(r)
  {
    t[row.id := row]
  }

  ghost function SweptTasks(t: Table, now: Time): set<Task> {
    set id | id in t && Stale(t[id], now) :: ReleasedFrom(t[id])
  }

  lemma SweptListing(t: Table, now: Time)
    requires WellFormed(t)
    ensures OldestFirst(Listing(SweptTasks(t, now)), SweptTasks(t, now))
  {
    ListingLists(SweptTasks(t, now));
  }

  function Take(q: seq<Task>, limit: nat): seq<Task> {
    if |q| <= limit then q else q[..limit]
  }

  lemma TakeShown(q: seq<Task>, limit: nat)
    ensures VisibleSeq(Take(q, limit)) == Take(VisibleSeq(q), limit)
  {}

  /** Python's `q[:limit]`: a negative limit drops that many from the end. */
  function Slice(q: seq<Task>, limit: int): seq<Task> {
    if limit >= 0 then Take(q, limit) else if |q| + limit >= 0 then q[..|q| + limit] else []
  }

  lemma SliceShown(q: seq<Task>, limit: int)
    ensures VisibleSeq(Slice(q, limit)) == Slice(VisibleSeq(q), limit)
  {}

  /** One call of the port, with the clock reading and caller snapshot it uses.
      `Transition` carries the id and state of the caller's copy of the task. */
  datatype Call =
    | Enqueue(task: Task, state: TaskState, now: Time)
    | Get(id: Id)
    | List(state: TaskState, limit: nat)
    | Claim(id: Id, now: Time, lease: Time)
    | ClaimNext(now: Time, lease: Time)
    | Transition(id: Id, expected: TaskState, to: TaskState, evidence: Option<Evidence>)
    | ReleaseStale(now: Time)

  datatype Reply =
    | Stored(task: Option<Task>)
    | Found(task: Option<Task>)
    | Listed(tasks: seq<Task>)
    | Claimed(ok: bool)
    | ClaimedNext(task: Option<Task>)
    | Moved(moved: Task)
    | NotFoundError(id: Id)
    | ConflictError(id: Id, expected: TaskState, actual: TaskState)
    | Released(tasks: seq<Task>)

  function VisibleReply(r: Reply): Reply {
    match r
    case Stored(t) => Stored(VisibleOption(t))
    case Found(t) => Found(VisibleOption(t))
    case Listed(q) => Listed(VisibleSeq(q))
    case ClaimedNext(t) => ClaimedNext(VisibleOption(t))
    case Moved(t) => Moved(Visible(t))
    case Released(q) => Released(VisibleSeq(q))
    case _ => r
  }

  ghost function EnqueueSpec(t: Table, task: Task, state: TaskState, now: Time): (r: (Table, Reply))
    requires WellFormed(t)
    ensures WellFormed(r.0)
  {
    if Known(t, task.id, task.transportId) then (t, Stored(None))
    else
      var stored := StoredAs(Visible(task), state, now);
      (Add(t, stored), Stored(Some(stored)))
  }

  ghost function ListSpec(t: Table, state: TaskState, limit: nat): (r: Reply)
  {
    Listed(Take(Listing(InState(t, state)), limit))
  }

  ghost function ClaimSpec(t: Table, id: Id, until: Time): (r: (Table, Reply))
    requires WellFormed(t)
    ensures WellFormed(r.0)
  {
    if id in t && t[id].state == Queued
    then (Put(t, ClaimedUntil(t[id], until)), Claimed(true))
    else (t, Claimed(false))
  }

  ghost function ClaimNextSpec(t: Table, until: Time): (r: (Table, Reply))
    requires WellFormed(t)
    ensures WellFormed(r.0)
  {
    var queued := Listing(InState(t, Queued));
    if queued == [] then (t, ClaimedNext(None))
    else
      assert queued[0] in InState(t, Queued) by { InStateListing(t, Queued); }
      var won := ClaimedUntil(queued[0], until);
      (Put(t, won), ClaimedNext(Some(won)))
  }

  ghost function TransitionSpec(t: Table, id: Id, expected: TaskState, to: TaskState): (r: (Table, Reply))
    requires WellFormed(t)
    ensures WellFormed(r.0)
  {
    if id !in t then (t, NotFoundError(id))
    else if t[id].state != expected then (t, ConflictError(id, expected, t[id].state))
    else (Put(t, MovedTo(t[id], to)), Moved(MovedTo(t[id], to)))
  }

  ghost function ReleaseSpec(t: Table, now: Time): (r: (Table, Reply))
    requires WellFormed(t)
    ensures WellFormed(r.0)
  {
    (Sweep(t, now), Released(Listing(SweptTasks(t, now))))
  }

  ghost function Exec(t: Table, c: Call): (r: (Table, Reply))
    requires WellFormed(t)
    ensures WellFormed(r.0)
  {
    match c
    case Enqueue(task, state, now) => EnqueueSpec(t, task, state, now)
    case Get(id) => (t, Found(if id in t then Some(t[id]) else None))
    case List(state, limit) => (t, ListSpec(t, state, limit))
    case Claim(id, now, lease) => ClaimSpec(t, id, now + lease)
    case ClaimNext(now, lease) => ClaimNextSpec(t, now + lease)
    case Transition(id, expected, to, _) => TransitionSpec(t, id, expected, to)
    case ReleaseStale(now) => ReleaseSpec(t, now)
  }

  lemma ClaimNextExtends(t: Table, until: Time)
    requires WellFormed(t)
    ensures Extends(t, ClaimNextSpec(t, until).0) && ClaimNextSpec(t, until).0.Keys == t.Keys
  {
    var q := Listing(InState(t, Queued));
    InStateListing(t, Queued);
    assert q != [] ==> q[0] in InState(t, Queued);
  }

  lemma ExecExtends(t: Table, c: Call)
    requires WellFormed(t)
    ensures Extends(t, Exec(t, c).0)
  {
    match c
    case ClaimNext(now, lease) => ClaimNextExtends(t, now + lease);
    case Enqueue(task, state, now) => EnqueueExtends(t, task, state, now);
    case Transition(id, expected, to, _) => TransitionExtends(t, id, expected, to);
    case ReleaseStale(now) => assert Extends(t, Sweep(t, now));
    case Claim(_, _, _) =>
    case Get(_) =>
    case List(_, _) =>
  }

  lemma EnqueueExtends(t: Table, task: Task, state: TaskState, now: Time)
    requires WellFormed(t)
    ensures Extends(t, EnqueueSpec(t, task, state, now).0)
  {}

  lemma TransitionExtends(t: Table, id: Id, expected: TaskState, to: TaskState)
    requires WellFormed(t)
    ensures Extends(t, TransitionSpec(t, id, expected, to).0)
  {}

  /** Every interleaving of any number of clients is a sequence of atomic calls. */
  type History = seq<(Call, Reply)>

  ghost function Replay(calls: seq<Call>): (r: (Table, History))
    ensures WellFormed(r.0) && |r.1| == |calls|
  {
    if calls == [] then (map[], [])
    else
      var last := |calls| - 1;
      var (t, h) := Replay(calls[..last]);
      var (t', reply) := Exec(t, calls[last]);
      (t', h + [(calls[last], reply)])
  }

  /** Dedupe: whatever is enqueued, no two rows ever share a transport id. */
  lemma {:induction false} TransportsStayUnique(calls: seq<Call>, i: Id, j: Id)
    requires var t := Replay(calls).0; i in t && j in t && t[i].transportId == t[j].transportId
    ensures i == j
  {
    var last := |calls| - 1;
    var t := Replay(calls[..last]).0;
    ExecExtends(t, calls[last]);
    if i in t && j in t {
      TransportsStayUnique(calls[..last], i, j);
    } else {
      OnlyEnqueueAdds(t, calls[last], i, j);
    }
  }

  lemma OnlyEnqueueAdds(t: Table, c: Call, i: Id, j: Id)
    requires WellFormed(t) && !(i in t && j in t)
    requires var t' := Exec(t, c).0; i in t' && j in t' && t'[i].transportId == t'[j].transportId
    ensures i == j
  {
    assert c.Enqueue? by {
      if c.ClaimNext? { ClaimNextExtends(t, c.now + c.lease); }
    }
  }

  /** Sorting records and then showing them is listing the shown records. */
  lemma ShownListing(q: seq<Task>, ts: set<Task>)
    requires NoSharedId(q) && ts == set x | x in q :: Visible(x)
    ensures VisibleSeq(Sort(q)) == Listing(ts)
  {
    SortSorts(q);
    var sorted := Sort(q);
    var shown := VisibleSeq(sorted);
    forall t ensures t in shown <==> t in ts {
      if t in ts {
        var x :| x in q && Visible(x) == t;
        var i :| 0 <= i < |sorted| && sorted[i] == x;
        assert shown[i] == t;
      }
      if t in shown {
        var i :| 0 <= i < |shown| && shown[i] == t;
        assert sorted[i] in sorted;
      }
    }
    forall a, b | a in ts && b in ts && a.id == b.id ensures a == b {
      var x, y :| x in q && y in q && Visible(x) == a && Visible(y) == b;
      assert x.id == y.id;
    }
    ListingLists(ts);
    ListingIsUnique(shown, Listing(ts), ts);
  }
}
