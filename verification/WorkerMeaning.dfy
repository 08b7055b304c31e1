/** What one sequential `run_next` does, stated in the fields of the rows alone. */
module WorkerMeaning {
  import opened Tasks
  import opened QueueSpec
  import opened Deps
  import opened Worker

  /** Every listed dependency is done, attempts are left, and the project is enabled. */
  ghost predicate CanStart(c: Config, t: Table, x: Task) {
    && (x.spec.Some? ==> forall d :: d in x.spec.value.dependsOn ==> d in t && t[d].state == Done)
    && x.attempts < c.maxAttempts && (x.spec.Some? ==> !c.disabledRepo(x.spec.value.repoUrl))
  }

  lemma StartableMeans(c: Config, t: Table, x: Task)
    ensures Startable(c, t, x) <==> CanStart(c, t, x)
  {
    StatusMeans(t, x);
  }

  /** The queued tasks that come before `x`. */
  ghost function Ahead(t: Table, x: Task): set<Id> {
    set id | id in t && t[id].state == Queued
             && (t[id].createdAt < x.createdAt || (t[id].createdAt == x.createdAt && Before(id, x.id)))
  }

  ghost function QueuedTasks(t: Table): seq<Task> { Listing(InState(t, Queued)) }

  lemma QueuedAt(t: Table, id: Id) returns (k: nat)
    requires WellFormed(t) && id in t && t[id].state == Queued
    ensures k < |QueuedTasks(t)| && QueuedTasks(t)[k] == t[id]
  {
    InStateListing(t, Queued);
    assert t[id] in InState(t, Queued) && t[id] in QueuedTasks(t);
    k :| 0 <= k < |QueuedTasks(t)| && QueuedTasks(t)[k] == t[id];
  }

  lemma RowAt(t: Table, k: nat)
    requires WellFormed(t) && k < |QueuedTasks(t)|
    ensures var x := QueuedTasks(t)[k]; x.id in t && t[x.id] == x && x.state == Queued
  {
    InStateListing(t, Queued);
    assert QueuedTasks(t)[k] in QueuedTasks(t) && QueuedTasks(t)[k] in InState(t, Queued);
  }

  /** In the listing, being ahead is coming earlier. */
  lemma AheadAt(t: Table, i: nat, k: nat)
    requires WellFormed(t) && i < |QueuedTasks(t)| && k < |QueuedTasks(t)|
    ensures QueuedTasks(t)[i].id in Ahead(t, QueuedTasks(t)[k]) <==> i < k
  {
    var q := QueuedTasks(t);
    InStateListing(t, Queued);
    RowAt(t, i);
    OlderIsTotal(q[i], q[k]);
    assert i < k ==> Older(q[i], q[k]);
    assert k < i ==> Older(q[k], q[i]);
  }

  ghost function IdsOf(q: seq<Task>): set<Id> { set x | x in q :: x.id }

  lemma {:induction false} IdsAreDistinct(q: seq<Task>)
    requires NoSharedId(q)
    ensures |IdsOf(q)| == |q|
  {
    if q != [] {
      var front, last := q[..|q| - 1], q[|q| - 1];
      IdsAreDistinct(front);
      assert q == front + [last];
      assert IdsOf(q) == IdsOf(front) + {last.id};
    }
  }

  lemma AheadIsPrefix(t: Table, k: nat)
    requires WellFormed(t) && k < |QueuedTasks(t)|
    ensures Ahead(t, QueuedTasks(t)[k]) == IdsOf(QueuedTasks(t)[..k]) && NoSharedId(QueuedTasks(t)[..k])
  {
    var q := QueuedTasks(t);
    forall id | id in Ahead(t, q[k]) ensures id in IdsOf(q[..k]) {
      var i := QueuedAt(t, id);
      RowAt(t, i);
      AheadAt(t, i, k);
      assert q[..k][i] == q[i];
    }
    forall id | id in IdsOf(q[..k]) ensures id in Ahead(t, q[k]) {
      var i :| 0 <= i < k && q[..k][i].id == id;
      AheadAt(t, i, k);
    }
    forall i, j | 0 <= i < j < k ensures q[i].id != q[j].id {
      AheadAt(t, i, j);
      AheadAt(t, j, j);
    }
  }

  /** A queued task's position in the listing is the number of tasks ahead of it. */
  lemma AheadCount(t: Table, k: nat)
    requires WellFormed(t) && k < |QueuedTasks(t)|
    ensures |Ahead(t, QueuedTasks(t)[k])| == k
  {
    AheadIsPrefix(t, k);
    IdsAreDistinct(QueuedTasks(t)[..k]);
  }

  lemma {:induction false} FirstStartableMeans(c: Config, t: Table, tasks: seq<Task>)
    ensures var n := FirstStartable(c, t, tasks);
      && (forall j :: 0 <= j < n ==> !Startable(c, t, tasks[j]))
      && (n < |tasks| ==> Startable(c, t, tasks[n]))
    decreases |tasks|
  {
    if tasks != [] && !Startable(c, t, tasks[0]) { FirstStartableMeans(c, t, tasks[1..]); }
  }

  lemma NotBefore(c: Config, t: Table, j: nat)
    requires WellFormed(t) && j < FirstStartable(c, t, Scanned(t))
    ensures j < |QueuedTasks(t)| && !CanStart(c, t, QueuedTasks(t)[j])
  {
    FirstStartableMeans(c, t, Scanned(t));
    StartableMeans(c, t, Scanned(t)[j]);
  }

  /** Where `run_next` starts nothing, none of the hundred oldest queued tasks can start. */
  lemma StartsNoneMeans(c: Config, t: Table, t': Table, id: Id)
    requires WellFormed(t) && RunsOldest(c, t, Scanned(t), t', None)
    requires id in t && t[id].state == Queued && |Ahead(t, t[id])| < 100
    ensures !CanStart(c, t, t[id])
  {
    var k := QueuedAt(t, id);
    AheadCount(t, k);
    NotBefore(c, t, k);
  }

  /** The task `run_next` starts is queued, can start, and has fewer than a hundred queued tasks
      ahead of it, none of which can start; it is running with the new lease. */
  lemma StartsOldestMeans(c: Config, t: Table, t': Table, x: Task)
    requires WellFormed(t) && RunsOldest(c, t, Scanned(t), t', Some(x))
    ensures x.id in t && t[x.id] == x && x.state == Queued && CanStart(c, t, x) && |Ahead(t, x)| < 100
    ensures x.id in t' && t'[x.id] == x.(state := Running, leaseUntil := Some(c.now + c.lease))
    ensures forall id :: id in Ahead(t, x) ==> !CanStart(c, t, t[id])
  {
    var n := FirstStartable(c, t, Scanned(t));
    FirstStartableMeans(c, t, Scanned(t));
    StartableMeans(c, t, x);
    RowAt(t, n);
    AheadCount(t, n);
    forall id | id in Ahead(t, x) ensures !CanStart(c, t, t[id]) {
      var k := QueuedAt(t, id);
      AheadAt(t, k, n);
      NotBefore(c, t, k);
    }
  }

  // ---- What happens to the other rows

  /** The scan reaches this task and does not start it. */
  ghost predicate IsPassed(t: Table, r: Option<Task>, id: Id) {
    id in t && t[id].state == Queued && |Ahead(t, t[id])| < 100 && (r.Some? ==> id in Ahead(t, r.value))
  }

  lemma PassedIsEarly(c: Config, t: Table, t': Table, r: Option<Task>, id: Id) returns (j: nat)
    requires WellFormed(t) && RunsOldest(c, t, Scanned(t), t', r) && IsPassed(t, r, id)
    ensures j < FirstStartable(c, t, Scanned(t)) && Scanned(t)[j] == t[id]
  {
    j := QueuedAt(t, id);
    AheadCount(t, j);
    if r.Some? { AheadAt(t, j, FirstStartable(c, t, Scanned(t))); }
  }

  lemma EarlyIsPassed(c: Config, t: Table, t': Table, r: Option<Task>, j: nat)
    requires WellFormed(t) && RunsOldest(c, t, Scanned(t), t', r) && j < FirstStartable(c, t, Scanned(t))
    ensures IsPassed(t, r, Scanned(t)[j].id) && t[Scanned(t)[j].id] == Scanned(t)[j]
  {
    RowAt(t, j);
    AheadCount(t, j);
    if r.Some? { AheadAt(t, j, FirstStartable(c, t, Scanned(t))); }
  }

  /** Rows the scan does not reach stay as they are. */
  lemma OthersStay(c: Config, t: Table, t': Table, r: Option<Task>, id: Id)
    requires WellFormed(t) && RunsOldest(c, t, Scanned(t), t', r)
    requires id in t && !IsPassed(t, r, id) && (r.Some? ==> r.value.id != id)
    ensures id in t' && t'[id] == t[id]
  {
    var n := FirstStartable(c, t, Scanned(t));
    forall j | 0 <= j < n ensures Scanned(t)[j].id != id { EarlyIsPassed(c, t, t', r, j); }
    StaysIfNotScanned(c, t, Scanned(t), t', r, n, id);
  }

  lemma StaysIfNotScanned(c: Config, t: Table, tasks: seq<Task>, t': Table, r: Option<Task>, n: nat, id: Id)
    requires n <= |tasks| && StartedAt(c, t, tasks, t', r, n) && id in t && (r.Some? ==> r.value.id != id)
    requires forall j :: 0 <= j < n ==> tasks[j].id != id
    ensures id in t' && t'[id] == t[id]
  {}

  lemma FailedStays(c: Config, t: Table, t': Table, r: Option<Task>, d: Id)
    requires WellFormed(t) && RunsOldest(c, t, Scanned(t), t', r) && IsFailed(t, d)
    ensures IsFailed(t', d)
  {
    if r.Some? { StartsOldestMeans(c, t, t', r.value); }
    OthersStay(c, t, t', r, d);
  }

  lemma FailedHasCause(c: Config, t: Table, t': Table, r: Option<Task>, j: nat) returns (d: Id)
    requires WellFormed(t) && RunsOldest(c, t, Scanned(t), t', r)
    requires j < FirstStartable(c, t, Scanned(t)) && Fails(c, t, Scanned(t), j)
    requires StatusOf(t, DependsOn(Scanned(t)[j])) != Ready
    ensures d in DependsOn(Scanned(t)[j]) && IsFailed(t', d)
  {
    var tasks := Scanned(t);
    var deps := DependsOn(tasks[j]);
    if e :| e in deps && IsFailed(t, e) {
      d := e;
      FailedStays(c, t, t', r, d);
    } else {
      var k :| 0 <= k < j && tasks[k].id in deps && Fails(c, t, tasks, k);
      d := tasks[k].id;
      assert PassedOver(t', tasks[k], true);
    }
  }

  /** A task the scan passes over is left as it is or failed: failed if a dependency had failed, or
      if it was ready (and so refused by a guard); and only if so, or if a dependency has failed
      by the end of the scan. */
  lemma PassedMeans(c: Config, t: Table, t': Table, r: Option<Task>, id: Id)
    requires WellFormed(t) && RunsOldest(c, t, Scanned(t), t', r) && IsPassed(t, r, id)
    ensures id in t'
    ensures var x, y := t[id], t'[id];
      var ready := x.spec.Some? ==> forall d :: d in x.spec.value.dependsOn ==> d in t && t[d].state == Done;
      && (y == x || y == x.(state := Failed, leaseUntil := None))
      && (ready || (x.spec.Some? && exists d :: d in x.spec.value.dependsOn && d in t && (t[d].state == Failed || t[d].state == Rejected))
          ==> y.state == Failed)
      && (y.state == Failed ==>
          ready || (x.spec.Some? && exists d :: d in x.spec.value.dependsOn && d in t' && (t'[d].state == Failed || t'[d].state == Rejected)))
  {
    var j := PassedIsEarly(c, t, t', r, id);
    var tasks := Scanned(t);
    StatusMeans(t, tasks[j]);
    assert PassedOver(t', tasks[j], Fails(c, t, tasks, j));
    FirstStartableMeans(c, t, tasks);
    assert !Startable(c, t, tasks[j]);
    if Fails(c, t, tasks, j) && StatusOf(t, DependsOn(tasks[j])) != Ready {
      var d := FailedHasCause(c, t, t', r, j);
      assert tasks[j].spec.Some?;
    }
  }
}
