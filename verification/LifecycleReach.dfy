/** Runs that can be built: each lemma extends a given run by the steps of one process. */
module LifecycleReach {
  import opened Tasks
  import opened QueueSpec
  import opened Deps
  import opened Lifecycle

  lemma RunOneMore(max: int, events: seq<Event>, e: Event)
    ensures Run(max, events + [e]) == Step(max, Run(max, events), e)
  {
    assert (events + [e])[..|events|] == events;
  }

  /** A worker step that leaves the table alone. */
  lemma Hop(max: int, events: seq<Event>, w: nat, i: Input, pc: Pc) returns (longer: seq<Event>)
    requires var s := Run(max, events); WorkerNext(max, s.table, PcOf(s, w), i) == WorkerStep(s.table, pc, None)
    ensures events <= longer
    ensures var s := Run(max, events); Run(max, longer) == s.(workers := s.workers[w := pc])
  {
    RunOneMore(max, events, Work(w, i));
    longer := events + [Work(w, i)];
  }

  lemma Crashes(max: int, events: seq<Event>, w: nat) returns (longer: seq<Event>)
    ensures events <= longer
    ensures var s := Run(max, events); Run(max, longer) == s.(workers := s.workers[w := Idle])
  {
    RunOneMore(max, events, Crash(w));
    longer := events + [Crash(w)];
  }

  lemma Sweeps(max: int, events: seq<Event>, now: Time) returns (longer: seq<Event>)
    ensures events <= longer
    ensures var s := Run(max, events); Run(max, longer) == s.(table := Sweep(s.table, now))
  {
    RunOneMore(max, events, SweepLeases(now));
    longer := events + [SweepLeases(now)];
  }

  /** The first task of a fresh queue: it has a spec, and depends on nothing. */
  function Sample(id: Id): Task {
    Task(id, id, None, None, None, Queued, 0, None, 0, Some(TaskSpec("r", "main", "", None, None, [])), None)
  }

  lemma Arrives(max: int, id: Id) returns (events: seq<Event>)
    ensures Run(max, events) == Start.(table := map[id := Sample(id)])
  {
    var e := Ingest(Sample(id), false, 0);
    assert Run(max, []) == Start;
    RunOneMore(max, [], e);
    events := [] + [e];
  }

  predicate AllDone(t: Table, deps: seq<Id>) { forall d :: d in deps ==> IsDone(t, d) }

  /** Reading dependencies that are all done. */
  lemma {:induction false} ReadsDone(max: int, events: seq<Event>, w: nat, task: Task, unread: seq<Id>)
    returns (longer: seq<Event>)
    requires var s := Run(max, events);
      PcOf(s, w) == Checking(task, unread, false, false, [], true) && AllDone(s.table, unread)
    ensures events <= longer
    ensures var s := Run(max, events);
      Run(max, longer) == s.(workers := s.workers[w := Checking(task, [], false, false, [], true)])
    decreases |unread|
  {
    longer := events;
    var s := Run(max, events);
    if unread == [] {
      assert w in s.workers;
      assert s.workers[w := s.workers[w]] == s.workers;
    } else {
      var i := Input(None, true, true, 0, 0);
      assert unread[0] in unread;
      longer := Hop(max, events, w, i, Checking(task, unread[1..], false, false, [], true));
      longer := ReadsDone(max, longer, w, task, unread[1..]);
    }
  }

  /** `run(id)` up to the dependency check. */
  lemma StartsChecking(max: int, events: seq<Event>, w: nat, id: Id) returns (longer: seq<Event>)
    requires var s := Run(max, events); PcOf(s, w) == Idle && id in s.table && s.table[id].attempts < max
    ensures events <= longer
    ensures var s := Run(max, events); var task := s.table[id];
      Run(max, longer) == s.(workers := s.workers[w := Checking(task, DependsOn(task), false, false, [], true)])
  {
    var i, task := Input(Some(id), true, true, 0, 0), Run(max, events).table[id];
    longer := Hop(max, events, w, i, CountingAttempts(task, [], true));
    longer := Hop(max, longer, w, i, Checking(task, DependsOn(task), false, false, [], true));
  }

  /** `run(id)` up to the policy guard, for a task under the limit whose dependencies are done. */
  lemma ReachPolicy(max: int, events: seq<Event>, w: nat, id: Id) returns (longer: seq<Event>)
    requires var s := Run(max, events);
      && PcOf(s, w) == Idle && id in s.table
      && AllDone(s.table, DependsOn(s.table[id])) && s.table[id].attempts < max
    ensures events <= longer
    ensures var s := Run(max, events);
      Run(max, longer) == s.(workers := s.workers[w := AskingPolicy(s.table[id], [], true)])
  {
    var task := Run(max, events).table[id];
    longer := StartsChecking(max, events, w, id);
    longer := ReadsDone(max, longer, w, task, DependsOn(task));
    longer := PassesDependencies(max, longer, w, task);
  }

  lemma PassesDependencies(max: int, events: seq<Event>, w: nat, task: Task) returns (longer: seq<Event>)
    requires PcOf(Run(max, events), w) == Checking(task, [], false, false, [], true)
    ensures events <= longer
    ensures var s := Run(max, events); Run(max, longer) == s.(workers := s.workers[w := AskingPolicy(task, [], true)])
  {
    longer := Hop(max, events, w, Input(None, true, true, 0, 0), AskingPolicy(task, [], true));
  }

  /** `run(id)` up to its claim. */
  lemma ReachClaim(max: int, events: seq<Event>, w: nat, id: Id) returns (longer: seq<Event>)
    requires var s := Run(max, events);
      && PcOf(s, w) == Idle && id in s.table
      && AllDone(s.table, DependsOn(s.table[id])) && s.table[id].attempts < max
    ensures events <= longer
    ensures var s := Run(max, events);
      Run(max, longer) == s.(workers := s.workers[w := Claiming(s.table[id], [], true)])
  {
    longer := ReachPolicy(max, events, w, id);
    longer := Hop(max, longer, w, Input(None, true, true, 0, 0), Claiming(Run(max, events).table[id], [], true));
  }

  lemma ClaimNow(max: int, t: Table, task: Task, todo: seq<Task>, one: bool, i: Input)
    requires WellFormed(t) && task.id in t && t[task.id].state == Queued
    ensures WorkerNext(max, t, Claiming(task, todo, one), i) ==
      WorkerStep(t[task.id := ClaimedUntil(t[task.id], i.now + i.lease)], Won(task.id), Some(task.id))
  {}

  lemma ClaimStep(max: int, s: System, w: nat, task: Task, todo: seq<Task>, one: bool, i: Input)
    requires WellFormed(s.table) && task.id in s.table && s.table[task.id].state == Queued
    requires PcOf(s, w) == Claiming(task, todo, one)
    ensures Step(max, s, Work(w, i)) ==
      s.(table := s.table[task.id := ClaimedUntil(s.table[task.id], i.now + i.lease)],
         workers := s.workers[w := Won(task.id)], claims := s.claims + [task.id])
  {
    ClaimNow(max, s.table, task, todo, one, i);
  }

  /** The claim itself, whatever the age of the copy it is based on. */
  lemma Claims(max: int, events: seq<Event>, w: nat, task: Task, todo: seq<Task>, one: bool, until: Time)
    returns (longer: seq<Event>)
    requires var s := Run(max, events);
      PcOf(s, w) == Claiming(task, todo, one) && task.id in s.table && s.table[task.id].state == Queued
    ensures events <= longer
    ensures var s := Run(max, events);
      Run(max, longer) == s.(table := s.table[task.id := ClaimedUntil(s.table[task.id], until)],
                             workers := s.workers[w := Won(task.id)], claims := s.claims + [task.id])
  {
    var i := Input(None, true, true, until, 0);
    ClaimStep(max, Run(max, events), w, task, todo, one, i);
    RunOneMore(max, events, Work(w, i));
    longer := events + [Work(w, i)];
  }

  /** The partner of the topological order: from every reachable state with an idle worker, a
      queued task under the limit whose dependencies are done can be claimed next. */
  lemma ReadyCanBeClaimed(max: int, events: seq<Event>, w: nat, id: Id) returns (longer: seq<Event>)
    requires var s := Run(max, events);
      && PcOf(s, w) == Idle && id in s.table && s.table[id].state == Queued
      && AllDone(s.table, DependsOn(s.table[id])) && s.table[id].attempts < max
    ensures events <= longer
    ensures var s, s' := Run(max, events), Run(max, longer);
      s'.claims == s.claims + [id] && id in s'.table && s'.table[id] == ClaimedUntil(s.table[id], 0) && PcOf(s', w) == Won(id)
  {
    longer := ReachClaim(max, events, w, id);
    longer := Claims(max, longer, w, Run(max, events).table[id], [], true, 0);
  }

  /** A worker that won finishes its run well: the row it reads back, in whatever state, is
      moved to `done`. */
  lemma Finishes(max: int, events: seq<Event>, w: nat, id: Id) returns (longer: seq<Event>)
    requires PcOf(Run(max, events), w) == Won(id) && id in Run(max, events).table
    ensures events <= longer
    ensures var s := Run(max, events);
      Run(max, longer) == s.(table := s.table[id := MovedTo(s.table[id], Done)], workers := s.workers[w := Idle])
  {
    var i, row := Input(None, true, true, 0, 0), Run(max, events).table[id];
    longer := Hop(max, events, w, i, Executing(row));
    longer := Reports(max, longer, w, row);
  }

  lemma Reports(max: int, events: seq<Event>, w: nat, row: Task) returns (longer: seq<Event>)
    requires var s := Run(max, events); PcOf(s, w) == Executing(row) && row.id in s.table && s.table[row.id] == row
    ensures events <= longer
    ensures var s := Run(max, events);
      Run(max, longer) == s.(table := s.table[row.id := MovedTo(row, Done)], workers := s.workers[w := Idle])
  {
    var e := Work(w, Input(None, true, true, 0, 0));
    RunOneMore(max, events, e);
    longer := events + [e];
  }

  /** So a ready task can also be brought to `done`. */
  lemma ReadyCanFinish(max: int, events: seq<Event>, w: nat, id: Id) returns (longer: seq<Event>)
    requires var s := Run(max, events);
      && PcOf(s, w) == Idle && id in s.table && s.table[id].state == Queued
      && AllDone(s.table, DependsOn(s.table[id])) && s.table[id].attempts < max
    ensures events <= longer
    ensures id in Run(max, longer).table && Run(max, longer).table[id].state == Done
  {
    longer := ReadyCanBeClaimed(max, events, w, id);
    longer := Finishes(max, longer, w, id);
  }
}
