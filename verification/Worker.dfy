/** `TaskWorker.run_next` (worker.py) on a queue no one else is using. */
module Worker {
  import opened Tasks
  import opened QueueSpec
  import opened MemoryBackend
  import opened Deps

  /** The worker's configuration: the attempts limit, the repositories whose project policy
      is disabled, and the lease end a claim made now would get. */
  datatype Config = Config(maxAttempts: int, disabledRepo: string -> bool, now: Time, lease: Time)

  predicate Denied(c: Config, t: Task) {
    t.spec.Some? && c.disabledRepo(t.spec.value.repoUrl)
  }

  /** What makes a queued task runnable. */
  ghost predicate Startable(c: Config, t: Table, task: Task) {
    StatusOf(t, DependsOn(task)) == Ready && task.attempts < c.maxAttempts && !Denied(c, task)
  }

  /** One turn of the loop for a task it does not start. */
  ghost function Pass(c: Config, t: Table, task: Task): (r: Table)
    requires WellFormed(t)
    ensures WellFormed(r)
  {
    if StatusOf(t, DependsOn(task)) == Blocked then t
    else TransitionSpec(t, task.id, task.state, Failed).0
  }

  ghost function RunNextSpec(c: Config, t: Table, tasks: seq<Task>): (r: (Table, Option<Task>))
    requires WellFormed(t)
    ensures WellFormed(r.0)
    decreases |tasks|
  {
    if tasks == [] then (t, None)
    else if Startable(c, t, tasks[0]) && HasQueued(t, tasks[0].id)
    then (ClaimSpec(t, tasks[0].id, c.now + c.lease).0, Some(tasks[0]))
    else if Startable(c, t, tasks[0]) then RunNextSpec(c, t, tasks[1..])
    else RunNextSpec(c, Pass(c, t, tasks[0]), tasks[1..])
  }

  ghost predicate HasQueued(t: Table, id: Id) { id in t && t[id].state == Queued }

  /** `tasks` are current copies of distinct queued rows. */
  ghost predicate Fresh(t: Table, tasks: seq<Task>) {
    NoSharedId(tasks) &&
    forall x :: x in tasks ==> x.id in t && t[x.id] == x && x.state == Queued
  }

  /** The position of the first task that is runnable at the start. */
  ghost function FirstStartable(c: Config, t: Table, tasks: seq<Task>): (n: nat)
    ensures n <= |tasks|
    decreases |tasks|
  {
    if tasks == [] || Startable(c, t, tasks[0]) then 0 else 1 + FirstStartable(c, t, tasks[1..])
  }

  /** Rows that fail along the way never make another task more or less runnable. */
  lemma PassKeepsReadiness(c: Config, t: Table, task: Task, other: Task)
    requires WellFormed(t) && task.id in t && t[task.id].state == Queued
    requires other.id in t && other.id != task.id
    ensures Startable(c, Pass(c, t, task), other) <==> Startable(c, t, other)
    ensures Pass(c, t, task)[other.id] == t[other.id]
  {
    var t' := Pass(c, t, task);
    assert forall d :: IsDone(t', d) <==> IsDone(t, d);
    assert forall d :: IsDone(t, d) ==> !IsFailed(t, d) && !IsFailed(t', d);
  }

  lemma TailOfFresh(t: Table, tasks: seq<Task>)
    requires tasks != [] && Fresh(t, tasks)
    ensures Fresh(t, tasks[1..]) && tasks[0] in tasks
    ensures forall x :: x in tasks[1..] ==> x.id != tasks[0].id
  {
    forall x | x in tasks[1..] ensures x.id != tasks[0].id {
      var i :| 0 <= i < |tasks[1..]| && tasks[1..][i] == x;
      assert tasks[i + 1] == x;
    }
  }

  lemma FirstStartableShifts(c: Config, t: Table, tasks: seq<Task>)
    requires WellFormed(t) && tasks != [] && Fresh(t, tasks)
    ensures var t' := Pass(c, t, tasks[0]);
      Fresh(t', tasks[1..]) && FirstStartable(c, t', tasks[1..]) == FirstStartable(c, t, tasks[1..])
  {
    TailOfFresh(t, tasks);
    var task, rest := tasks[0], tasks[1..];
    var t' := Pass(c, t, task);
    forall x | x in rest
      ensures t'[x.id] == t[x.id] && (Startable(c, t', x) <==> Startable(c, t, x))
    {
      PassKeepsReadiness(c, t, task, x);
    }
    SameFirst(c, t, t', rest);
  }

  lemma {:induction false} SameFirst(c: Config, t: Table, t': Table, rest: seq<Task>)
    requires forall x :: x in rest ==> (Startable(c, t', x) <==> Startable(c, t, x))
    ensures FirstStartable(c, t', rest) == FirstStartable(c, t, rest)
    decreases |rest|
  {
    if rest != [] {
      assert rest[0] in rest;
      SameFirst(c, t, t', rest[1..]);
    }
  }

  /** The scan fails its task `j`: a dependency had failed at the outset or is failed earlier in
      the same scan, or every dependency is done and the attempts or policy guard refuses. */
  ghost predicate Fails(c: Config, t: Table, tasks: seq<Task>, j: nat)
    requires j < |tasks|
  {
    var deps := DependsOn(tasks[j]);
    || (exists d :: d in deps && IsFailed(t, d))
    || (exists k :: 0 <= k < j && tasks[k].id in deps && Fails(c, t, tasks, k))
    || (StatusOf(t, deps) == Ready && (tasks[j].attempts >= c.maxAttempts || Denied(c, tasks[j])))
  }

  /** What one passed-over task looks like afterwards: failed, or as it was and still waiting. */
  ghost predicate PassedOver(t: Table, task: Task, fails: bool) {
    task.id in t &&
    if fails then t[task.id] == MovedTo(task, Failed)
    else t[task.id] == task && exists d :: d in DependsOn(task) && !IsDone(t, d)
  }

  ghost predicate AllPassedOver(c: Config, t: Table, tasks: seq<Task>, t': Table, n: nat)
    requires n <= |tasks|
  {
    forall j :: 0 <= j < n ==> PassedOver(t', tasks[j], Fails(c, t, tasks, j))
  }

  /** What failing (or leaving) the head of the listing does to any dependency. */
  lemma HeadFails(c: Config, t: Table, tasks: seq<Task>, d: Id)
    requires WellFormed(t) && tasks != [] && Fresh(t, tasks) && !Startable(c, t, tasks[0])
    ensures var t1 := Pass(c, t, tasks[0]);
      && (IsDone(t1, d) <==> IsDone(t, d))
      && (IsFailed(t1, d) <==> IsFailed(t, d) || (d == tasks[0].id && Fails(c, t, tasks, 0)))
  {
    assert tasks[0] in tasks;
  }

  lemma ReadyShifts(c: Config, t: Table, tasks: seq<Task>, deps: seq<Id>)
    requires WellFormed(t) && tasks != [] && Fresh(t, tasks) && !Startable(c, t, tasks[0])
    ensures StatusOf(Pass(c, t, tasks[0]), deps) == Ready <==> StatusOf(t, deps) == Ready
  {
    forall d ensures IsDone(Pass(c, t, tasks[0]), d) <==> IsDone(t, d) { HeadFails(c, t, tasks, d); }
    ReadyMeansDone(t, deps);
    ReadyMeansDone(Pass(c, t, tasks[0]), deps);
  }

  /** Failing is the same seen from the whole scan or from what is left after its head. */
  lemma {:induction false} FailsShifts(c: Config, t: Table, tasks: seq<Task>, j: nat)
    requires WellFormed(t) && tasks != [] && Fresh(t, tasks) && !Startable(c, t, tasks[0]) && 0 < j < |tasks|
    ensures Fails(c, t, tasks, j) <==> Fails(c, Pass(c, t, tasks[0]), tasks[1..], j - 1)
  {
    var t1, rest, deps := Pass(c, t, tasks[0]), tasks[1..], DependsOn(tasks[j]);
    ReadyShifts(c, t, tasks, deps);
    forall d ensures IsFailed(t1, d) <==> IsFailed(t, d) || (d == tasks[0].id && Fails(c, t, tasks, 0)) {
      HeadFails(c, t, tasks, d);
    }
    forall k | 0 < k < j ensures rest[k - 1] == tasks[k] && (Fails(c, t, tasks, k) <==> Fails(c, t1, rest, k - 1)) {
      FailsShifts(c, t, tasks, k);
    }
    if k :| 0 <= k < j && tasks[k].id in deps && Fails(c, t, tasks, k) {
      assert k > 0 ==> Fails(c, t1, rest, k - 1);
    }
    if k :| 0 <= k < j - 1 && rest[k].id in deps && Fails(c, t1, rest, k) {
      assert Fails(c, t, tasks, k + 1);
    }
  }

  ghost predicate Untouched(t: Table, t': Table, tasks: seq<Task>, n: nat)
    requires n <= |tasks|
  {
    t'.Keys == t.Keys &&
    forall id :: id in t && (forall j :: 0 <= j < n ==> tasks[j].id != id) ==> t'[id] == t[id]
  }

  /** The task at position `n` was claimed, or there was none; no later row was touched. */
  ghost predicate StartedAt(c: Config, t: Table, tasks: seq<Task>, t': Table, r: Option<Task>, n: nat)
    requires n <= |tasks|
  {
    if n == |tasks| then r == None && Untouched(t, t', tasks, n)
    else
      && r == Some(tasks[n]) && Startable(c, t, tasks[n])
      && tasks[n].id in t' && t'[tasks[n].id] == ClaimedUntil(tasks[n], c.now + c.lease)
      && Untouched(t, t', tasks, n + 1)
  }

  /** The declarative reading of one sequential `run_next`. */
  ghost predicate RunsOldest(c: Config, t: Table, tasks: seq<Task>, t': Table, r: Option<Task>) {
    var n := FirstStartable(c, t, tasks);
    AllPassedOver(c, t, tasks, t', n) && StartedAt(c, t, tasks, t', r, n)
  }

  /** `run_next` starts exactly the first runnable task of its listing; each earlier one is
      now failed or still queued with an unmet dependency; every other row is untouched. */
  lemma {:induction false} RunNextRunsOldest(c: Config, t: Table, tasks: seq<Task>)
    requires WellFormed(t) && Fresh(t, tasks)
    ensures RunsOldest(c, t, tasks, RunNextSpec(c, t, tasks).0, RunNextSpec(c, t, tasks).1)
    decreases |tasks|
  {
    if tasks != [] {
      var task, rest := tasks[0], tasks[1..];
      assert task in tasks;
      if !Startable(c, t, task) {
        FirstStartableShifts(c, t, tasks);
        RunNextRunsOldest(c, Pass(c, t, task), rest);
        var (t', r) := RunNextSpec(c, Pass(c, t, task), rest);
        PassedStaysPassed(c, t, tasks, t', r);
      }
    }
  }

  lemma PassedStaysPassed(c: Config, t: Table, tasks: seq<Task>, t': Table, r: Option<Task>)
    requires WellFormed(t) && tasks != [] && Fresh(t, tasks) && !Startable(c, t, tasks[0])
    requires var t1 := Pass(c, t, tasks[0]);
      && Fresh(t1, tasks[1..])
      && FirstStartable(c, t1, tasks[1..]) == FirstStartable(c, t, tasks[1..])
      && RunsOldest(c, t1, tasks[1..], t', r)
    ensures RunsOldest(c, t, tasks, t', r)
  {
    var n := FirstStartable(c, t, tasks[1..]);
    assert FirstStartable(c, t, tasks) == n + 1;
    PassedPrefix(c, t, tasks, t', r);
    StartedShifts(c, t, tasks, t', r, n);
  }

  lemma StartedShifts(c: Config, t: Table, tasks: seq<Task>, t': Table, r: Option<Task>, n: nat)
    requires WellFormed(t) && tasks != [] && Fresh(t, tasks) && n < |tasks|
    requires StartedAt(c, Pass(c, t, tasks[0]), tasks[1..], t', r, n)
    ensures StartedAt(c, t, tasks, t', r, n + 1)
  {
    var rest := tasks[1..];
    UntouchedAfterPass(c, t, t', tasks, if n < |rest| then n + 1 else n);
    if n < |rest| {
      assert tasks[0] in tasks;
      StartableShifts(c, t, tasks[0], rest[n]);
    }
  }

  lemma UntouchedAfterPass(c: Config, t: Table, t': Table, tasks: seq<Task>, n: nat)
    requires WellFormed(t) && tasks != [] && Fresh(t, tasks) && n < |tasks|
    requires Untouched(Pass(c, t, tasks[0]), t', tasks[1..], n)
    ensures Untouched(t, t', tasks, n + 1)
  {
    assert tasks[0] in tasks;
    UntouchedShifts(t, Pass(c, t, tasks[0]), t', tasks, n);
  }

  lemma PassedPrefix(c: Config, t: Table, tasks: seq<Task>, t': Table, r: Option<Task>)
    requires WellFormed(t) && tasks != [] && Fresh(t, tasks) && !Startable(c, t, tasks[0])
    requires var t1 := Pass(c, t, tasks[0]);
      Fresh(t1, tasks[1..]) && RunsOldest(c, t1, tasks[1..], t', r)
    ensures var n := FirstStartable(c, Pass(c, t, tasks[0]), tasks[1..]);
      n + 1 <= |tasks| && AllPassedOver(c, t, tasks, t', n + 1)
  {
    assert tasks[0] in tasks;
    HeadUntouched(c, t, tasks, t', r);
    HeadPassedOver(c, t, tasks, t', r);
    PassedOverShifts(c, t, tasks, t', FirstStartable(c, Pass(c, t, tasks[0]), tasks[1..]));
  }

  lemma StartableShifts(c: Config, t: Table, task: Task, other: Task)
    requires WellFormed(t) && task.id in t && t[task.id].state == Queued
    requires Startable(c, Pass(c, t, task), other)
    ensures Startable(c, t, other)
  {
    var t1 := Pass(c, t, task);
    assert forall d :: IsDone(t1, d) ==> IsDone(t, d);
    assert forall d :: d in DependsOn(other) ==> IsDone(t1, d);
  }

  lemma HeadUntouched(c: Config, t: Table, tasks: seq<Task>, t': Table, r: Option<Task>)
    requires WellFormed(t) && tasks != [] && Fresh(t, tasks)
    requires RunsOldest(c, Pass(c, t, tasks[0]), tasks[1..], t', r)
    ensures var id := tasks[0].id; id in t' && t'[id] == Pass(c, t, tasks[0])[id]
  {
    TailOfFresh(t, tasks);
  }

  lemma HeadPassedOver(c: Config, t: Table, tasks: seq<Task>, t': Table, r: Option<Task>)
    requires WellFormed(t) && tasks != [] && Fresh(t, tasks) && !Startable(c, t, tasks[0])
    requires var t1 := Pass(c, t, tasks[0]);
      && Fresh(t1, tasks[1..])
      && RunsOldest(c, t1, tasks[1..], t', r)
      && tasks[0].id in t1 && tasks[0].id in t' && t'[tasks[0].id] == t1[tasks[0].id]
    ensures PassedOver(t', tasks[0], Fails(c, t, tasks, 0))
  {
    var task := tasks[0];
    assert task in tasks;
    if StatusOf(t, DependsOn(task)) == Blocked {
      var d :| d in DependsOn(task) && !IsDone(t, d);
      DoneNeverAppears(c, t, t', tasks[1..], r, d);
    }
  }

  lemma PassedOverShifts(c: Config, t: Table, tasks: seq<Task>, t': Table, n: nat)
    requires WellFormed(t) && tasks != [] && Fresh(t, tasks) && !Startable(c, t, tasks[0]) && n < |tasks|
    requires PassedOver(t', tasks[0], Fails(c, t, tasks, 0))
    requires AllPassedOver(c, Pass(c, t, tasks[0]), tasks[1..], t', n)
    ensures AllPassedOver(c, t, tasks, t', n + 1)
  {
    forall j | 0 < j < n + 1 ensures PassedOver(t', tasks[j], Fails(c, t, tasks, j)) {
      FailsShifts(c, t, tasks, j);
      assert tasks[j] == tasks[1..][j - 1];
    }
  }

  lemma UntouchedShifts(t: Table, t1: Table, t': Table, tasks: seq<Task>, n: nat)
    requires tasks != [] && n < |tasks| && Untouched(t1, t', tasks[1..], n)
    requires t1.Keys == t.Keys && forall id :: id in t && id != tasks[0].id ==> t1[id] == t[id]
    ensures Untouched(t, t', tasks, n + 1)
  {
    forall id | id in t && forall j :: 0 <= j < n + 1 ==> tasks[j].id != id
      ensures t'[id] == t[id]
    {
      assert tasks[0].id != id;
      forall j | 0 <= j < n ensures tasks[1..][j].id != id {
        assert tasks[j + 1] == tasks[1..][j];
      }
    }
  }

  /** Nothing is finished by scanning: a row that was not done is still not done. */
  lemma DoneNeverAppears(c: Config, t: Table, t': Table, tasks: seq<Task>, r: Option<Task>, d: Id)
    requires Fresh(t, tasks) && !IsDone(t, d) && RunsOldest(c, t, tasks, t', r)
    ensures !IsDone(t', d)
  {
    var n := FirstStartable(c, t, tasks);
    if j :| 0 <= j < n && tasks[j].id == d {
      PassedIsNotDone(t', tasks[j], Fails(c, t, tasks, j), d);
    } else if n < |tasks| && tasks[n].id == d {
    } else {
      assert d in t ==> t'[d] == t[d];
    }
  }

  lemma PassedIsNotDone(t: Table, task: Task, fails: bool, d: Id)
    requires PassedOver(t, task, fails) && task.id == d && task.state == Queued
    ensures !IsDone(t, d)
  {}

  /** The listing `run_next` scans: the oldest hundred queued tasks. */
  ghost function Scanned(t: Table): seq<Task> {
    Take(Listing(InState(t, Queued)), 100)
  }

  lemma ScannedIsFresh(t: Table)
    requires WellFormed(t)
    ensures Fresh(t, Scanned(t))
  {
    InStateListing(t, Queued);
    var q := Listing(InState(t, Queued));
    forall i, j | 0 <= i < j < |q| ensures q[i].id != q[j].id {
      assert q[i] in InState(t, Queued) && q[j] in InState(t, Queued);
      OlderIsTotal(q[i], q[j]);
      assert Older(q[i], q[j]);
    }
    forall x | x in Scanned(t) ensures x.id in t && t[x.id] == x && x.state == Queued {
      assert x in q;
    }
  }

  method Fail(q: MemoryQueue, task: Task)
    requires q.Valid()
    modifies q
    ensures q.Valid() && q.View() == TransitionSpec(old(q.View()), task.id, task.state, Failed).0
  {
    var _ := q.Transition(task.id, task.state, Failed, None);
  }

  /** One turn of the loop: fail the task, leave it, or claim it. */
  method Visit(q: MemoryQueue, c: Config, task: Task) returns (won: bool)
    requires q.Valid()
    modifies q
    ensures q.Valid()
    ensures var t := old(q.View()); var v := Visible(task);
      if Startable(c, t, v) then won == HasQueued(t, v.id) && q.View() == ClaimSpec(t, v.id, c.now + c.lease).0
      else !won && q.View() == Pass(c, t, v)
  {
    won := false;
    var status, _, _ := DependencyStatus(q, task);
    var go := status == Ready && task.attempts < c.maxAttempts && !Denied(c, task);
    assert DependsOn(Visible(task)) == DependsOn(task);
    assert go == Startable(c, q.View(), Visible(task));
    if go {
      won := q.Claim(task.id, c.now, c.lease);
    } else if status != Blocked {
      Fail(q, task);
    }
  }

  method Scan(q: MemoryQueue, c: Config, tasks: seq<Task>) returns (claimed: Option<Task>)
    requires q.Valid()
    modifies q
    ensures q.Valid()
    ensures (q.View(), VisibleOption(claimed)) == RunNextSpec(c, old(q.View()), VisibleSeq(tasks))
  {
    ghost var before, listed := q.View(), VisibleSeq(tasks);
    for n := 0 to |tasks|
      invariant q.Valid()
      invariant RunNextSpec(c, before, listed) == RunNextSpec(c, q.View(), listed[n..])
    {
      var won := Visit(q, c, tasks[n]);
      if won { return Some(tasks[n]); }
    }
    return None;
  }

  /** `run_next`, up to the point where it hands the claimed task to the executor. */
  method RunNext(q: MemoryQueue, c: Config) returns (claimed: Option<Task>)
    requires q.Valid()
    modifies q
    ensures q.Valid()
    ensures RunsOldest(c, old(q.View()), Scanned(old(q.View())), q.View(), VisibleOption(claimed))
  {
    var tasks := q.List(Queued, 100);
    ScannedIsFresh(q.View());
    RunNextRunsOldest(c, q.View(), VisibleSeq(tasks));
    claimed := Scan(q, c, tasks);
  }
}
