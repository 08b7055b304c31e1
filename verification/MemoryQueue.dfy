/** The in-memory backend (queue/memory.py): two dictionaries updated in place. */
module MemoryBackend {
  import opened Tasks
  import opened QueueSpec

  ghost function ViewOf(tasks: map<Id, Task>): Table {
    map id | id in tasks :: Visible(tasks[id])
  }

  lemma ViewOfUpdate(tasks: map<Id, Task>, row: Task)
    ensures ViewOf(tasks[row.id := row]) == ViewOf(tasks)[row.id := Visible(row)]
  {}

  /** The stored record after a guarded transition: evidence is replaced when given. */
  function MovedWith(t: Task, to: TaskState, evidence: Option<Evidence>): Task {
    MovedTo(t, to).(evidence := if evidence.Some? then evidence else t.evidence)
  }

  lemma VisibleMove(tasks: map<Id, Task>, id: Id, to: TaskState, evidence: Option<Evidence>)
    requires id in tasks && WellFormed(ViewOf(tasks))
    ensures var moved := MovedWith(tasks[id], to, evidence);
      (ViewOf(tasks[id := moved]), VisibleReply(Moved(moved)))
      == TransitionSpec(ViewOf(tasks), id, tasks[id].state, to)
  {
    var moved := MovedWith(tasks[id], to, evidence);
    assert ViewOf(tasks)[id].id == id;
    assert Visible(moved) == MovedTo(Visible(tasks[id]), to);
    ViewOfUpdate(tasks, moved);
  }

  /** The transport index and the task dictionary describe the same records. */
  ghost predicate Indexed(tasks: map<Id, Task>, byTransport: map<string, Id>) {
    && (forall id :: id in tasks ==>
      tasks[id].id == id && tasks[id].transportId in byTransport
      && byTransport[tasks[id].transportId] == id)
    && (forall x :: x in byTransport ==>
      byTransport[x] in tasks && tasks[byTransport[x]].transportId == x)
  }

  lemma UpdateKeepsIndex(tasks: map<Id, Task>, byTransport: map<string, Id>, row: Task)
    requires Indexed(tasks, byTransport)
    requires row.id in tasks && tasks[row.id].transportId == row.transportId
    ensures Indexed(tasks[row.id := row], byTransport)
  {}

  /** `q` holds, in some dictionary order, the tasks in state `s`. */
  ghost predicate Selects(q: seq<Task>, tasks: map<Id, Task>, s: TaskState) {
    NoSharedId(q) &&
    forall x :: x in q <==> x.id in tasks && tasks[x.id] == x && x.state == s
  }

  lemma SortedSelection(q: seq<Task>, tasks: map<Id, Task>, s: TaskState)
    requires WellFormed(ViewOf(tasks)) && Selects(q, tasks, s)
    ensures VisibleSeq(Sort(q)) == Listing(InState(ViewOf(tasks), s))
  {
    var ts := set x | x in q :: Visible(x);
    forall t ensures t in ts <==> t in InState(ViewOf(tasks), s) {
      if t in InState(ViewOf(tasks), s) {
        var id :| id in tasks && ViewOf(tasks)[id] == t && tasks[id].state == s;
        assert ViewOf(tasks)[id].id == tasks[id].id == id;
        assert tasks[id] in q;
      }
      if t in ts {
        var x :| x in q && Visible(x) == t;
        assert ViewOf(tasks)[x.id] == t;
      }
    }
    assert ts == InState(ViewOf(tasks), s);
    ShownListing(q, ts);
  }

  class MemoryQueue {
    var tasks: map<Id, Task>
    var byTransport: map<string, Id>

    ghost predicate Valid()
      reads this
    {
      Indexed(tasks, byTransport)
    }

    ghost function View(): (t: Table)
      requires Valid()
      reads this
      ensures WellFormed(t)
    {
      ViewOf(tasks)
    }

    constructor ()
      ensures Valid() && View() == map[]
    {
      tasks, byTransport := map[], map[];
    }

    method Enqueue(task: Task, state: TaskState, now: Time) returns (r: Option<Task>)
      requires Valid()
      modifies this
      ensures Valid()
      ensures (View(), Stored(VisibleOption(r))) == EnqueueSpec(old(View()), task, state, now)
    {
      if task.transportId in byTransport || task.id in tasks {
        assert task.transportId in byTransport ==>
          old(View())[byTransport[task.transportId]].transportId == task.transportId;
        return None;
      }
      var stored := StoredAs(task, state, now);
      tasks := tasks[stored.id := stored];
      byTransport := byTransport[stored.transportId := stored.id];
      ViewOfUpdate(old(tasks), stored);
      VisibleCommutes(task, state, now);
      return Some(stored);
    }

    method Get(id: Id) returns (r: Option<Task>)
      requires Valid()
      ensures VisibleOption(r) == if id in View() then Some(View()[id]) else None
    {
      r := if id in tasks then Some(tasks[id]) else None;
    }

    /** The comprehension over `_tasks.values()`; dictionary order is left open. */
    method Select(s: TaskState) returns (q: seq<Task>)
      requires Valid()
      ensures Selects(q, tasks, s)
    {
      q := [];
      var todo := tasks.Keys;
      while todo != {}
        invariant todo <= tasks.Keys
        invariant NoSharedId(q)
        invariant forall x :: x in q <==>
          x.id in tasks && x.id !in todo && tasks[x.id] == x && x.state == s
        decreases todo
      {
        var id :| id in todo;
        if tasks[id].state == s { q := q + [tasks[id]]; }
        todo := todo - {id};
      }
    }

    method List(s: TaskState, limit: int) returns (r: seq<Task>)
      requires Valid()
      ensures VisibleSeq(r) == Slice(Listing(InState(View(), s)), limit)
    {
      var q := Select(s);
      SortedSelection(q, tasks, s);
      SliceShown(Sort(q), limit);
      r := Slice(Sort(q), limit);
    }

    method Claim(id: Id, now: Time, lease: Time) returns (ok: bool)
      requires Valid()
      modifies this`tasks
      ensures Valid()
      ensures (View(), Claimed(ok)) == ClaimSpec(old(View()), id, now + lease)
    {
      if id !in tasks || tasks[id].state != Queued { return false; }
      var won := ClaimedUntil(tasks[id], now + lease);
      UpdateKeepsIndex(tasks, byTransport, won);
      tasks := tasks[id := won];
      ViewOfUpdate(old(tasks), won);
      VisibleCommutes(old(tasks)[id], Queued, now + lease);
      return true;
    }

    /** `min(queued, key=(created_at, id))`. */
    method Oldest(s: TaskState) returns (r: Option<Task>)
      requires Valid()
      ensures var q := Listing(InState(View(), s));
        if q == [] then r == None
        else r.Some? && r.value.id in tasks && tasks[r.value.id] == r.value && Visible(r.value) == q[0]
    {
      var q := Select(s);
      SortedSelection(q, tasks, s);
      var sorted := Sort(q);
      if sorted == [] { return None; }
      assert sorted[0] in q by { SortSorts(q); assert sorted[0] in sorted; }
      assert VisibleSeq(sorted)[0] == Visible(sorted[0]);
      return Some(sorted[0]);
    }

    method ClaimNext(now: Time, lease: Time) returns (r: Option<Task>)
      requires Valid()
      modifies this`tasks
      ensures Valid()
      ensures (View(), ClaimedNext(VisibleOption(r))) == ClaimNextSpec(old(View()), now + lease)
    {
      var oldest := Oldest(Queued);
      if oldest.None? { return None; }
      var won := ClaimedUntil(oldest.value, now + lease);
      UpdateKeepsIndex(tasks, byTransport, won);
      VisibleCommutes(oldest.value, Queued, now + lease);
      ViewOfUpdate(tasks, won);
      tasks := tasks[won.id := won];
      return Some(won);
    }

    method Move(id: Id, to: TaskState, evidence: Option<Evidence>) returns (moved: Task)
      requires Valid() && id in tasks
      modifies this`tasks
      ensures Valid()
      ensures moved == MovedWith(old(tasks)[id], to, evidence)
      ensures tasks == old(tasks)[id := moved]
      ensures (View(), VisibleReply(Moved(moved))) == TransitionSpec(old(View()), id, old(tasks)[id].state, to)
    {
      moved := MovedWith(tasks[id], to, evidence);
      UpdateKeepsIndex(tasks, byTransport, moved);
      VisibleMove(tasks, id, to, evidence);
      tasks := tasks[id := moved];
    }

    /** Replies with the moved task, or with the error the guard raises. */
    method Transition(id: Id, expected: TaskState, to: TaskState, evidence: Option<Evidence>)
      returns (reply: Reply)
      requires Valid()
      modifies this`tasks
      ensures Valid()
      ensures (View(), VisibleReply(reply)) == TransitionSpec(old(View()), id, expected, to)
      ensures reply.Moved? ==> id in old(tasks) && reply.moved == MovedWith(old(tasks)[id], to, evidence)
      ensures tasks == if reply.Moved? then old(tasks)[id := reply.moved] else old(tasks)
    {
      if id !in tasks { return NotFoundError(id); }
      if tasks[id].state != expected { return ConflictError(id, expected, tasks[id].state); }
      var moved := Move(id, to, evidence);
      return Moved(moved);
    }

    method ReleaseStale(now: Time) returns (released: seq<Task>)
      requires Valid()
      modifies this`tasks
      ensures Valid()
      ensures (View(), Released(VisibleSeq(released))) == ReleaseSpec(old(View()), now)
    {
      ghost var before := tasks;
      var q: seq<Task> := [];
      var todo := tasks.Keys;
      while todo != {}
        invariant todo <= before.Keys
        invariant tasks == PartlySwept(before, before.Keys - todo, now)
        invariant SweptInto(q, before, before.Keys - todo, now)
        decreases todo
      {
        var id :| id in todo;
        SweepOne(q, before, before.Keys - todo, now, id);
        assert before.Keys - (todo - {id}) == before.Keys - todo + {id};
        if Stale(tasks[id], now) {
          tasks := tasks[id := ReleasedFrom(tasks[id])];
          q := q + [tasks[id]];
        }
        todo := todo - {id};
      }
      assert before.Keys - todo == before.Keys;
      SortedSweep(q, before, now);
      SweepKeepsIndex(before, byTransport, now);
      released := Sort(q);
    }
  }

  /** The dictionary once the sweep has visited the ids in `seen`. */
  ghost function PartlySwept(tasks: map<Id, Task>, seen: set<Id>, now: Time): map<Id, Task> {
    map id | id in tasks :: if id in seen && Stale(tasks[id], now) then ReleasedFrom(tasks[id]) else tasks[id]
  }

  ghost predicate SweptInto(q: seq<Task>, tasks: map<Id, Task>, seen: set<Id>, now: Time) {
    NoSharedId(q) &&
    forall x :: x in q <==>
      x.id in tasks && x.id in seen && Stale(tasks[x.id], now) && x == ReleasedFrom(tasks[x.id])
  }

  lemma SweepOne(q: seq<Task>, tasks: map<Id, Task>, seen: set<Id>, now: Time, id: Id)
    requires id in tasks && id !in seen && tasks[id].id == id && SweptInto(q, tasks, seen, now)
    ensures var part := PartlySwept(tasks, seen, now);
      && part[id] == tasks[id]
      && (Stale(tasks[id], now) ==>
        && PartlySwept(tasks, seen + {id}, now) == part[id := ReleasedFrom(tasks[id])]
        && SweptInto(q + [ReleasedFrom(tasks[id])], tasks, seen + {id}, now))
      && (!Stale(tasks[id], now) ==>
        PartlySwept(tasks, seen + {id}, now) == part && SweptInto(q, tasks, seen + {id}, now))
  {}

  lemma SortedSweep(q: seq<Task>, tasks: map<Id, Task>, now: Time)
    requires WellFormed(ViewOf(tasks)) && SweptInto(q, tasks, tasks.Keys, now)
    ensures VisibleSeq(Sort(q)) == Listing(SweptTasks(ViewOf(tasks), now))
    ensures ViewOf(PartlySwept(tasks, tasks.Keys, now)) == Sweep(ViewOf(tasks), now)
  {
    SweptViews(tasks, now);
    var ts, swept := set x | x in q :: Visible(x), SweptTasks(ViewOf(tasks), now);
    forall t | t in swept ensures t in ts {
      var id :| id in tasks && Stale(tasks[id], now) && ReleasedFrom(ViewOf(tasks)[id]) == t;
      VisibleCommutes(tasks[id], Queued, now);
      assert ViewOf(tasks)[id].id == id;
      assert ReleasedFrom(tasks[id]) in q;
    }
    forall x | x in q ensures Visible(x) in swept {
      VisibleCommutes(tasks[x.id], Queued, now);
      assert Stale(ViewOf(tasks)[x.id], now);
    }
    ShownListing(q, swept);
  }

  lemma SweptViews(tasks: map<Id, Task>, now: Time)
    requires WellFormed(ViewOf(tasks))
    ensures ViewOf(PartlySwept(tasks, tasks.Keys, now)) == Sweep(ViewOf(tasks), now)
  {
    var part, view := PartlySwept(tasks, tasks.Keys, now), ViewOf(tasks);
    forall id | id in tasks ensures Visible(part[id]) == Sweep(view, now)[id] {
      VisibleCommutes(tasks[id], Queued, now);
    }
  }

  lemma SweepKeepsIndex(tasks: map<Id, Task>, byTransport: map<string, Id>, now: Time)
    requires Indexed(tasks, byTransport)
    ensures Indexed(PartlySwept(tasks, tasks.Keys, now), byTransport)
  {}
}
