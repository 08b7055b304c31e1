/** Runs that pass the attempts limit, up to the bound. */
module LifecycleOvershoot {
  import opened Tasks
  import opened QueueSpec
  import opened Lifecycle
  import opened LifecycleReach
  import opened LifecycleAttempts

  /** With a limit of one, two workers pass the guard together, the first one's lease is swept,
      and the second claims the task after it has already used its only attempt. */
  lemma StaleGuardOvershoots() returns (events: seq<Event>, id: Id)
    ensures var s := Run(1, events);
      id in s.table && s.table[id].state == Running && s.table[id].attempts == 1 && s.claims == [id, id]
  {
    id := "t";
    events := Arrives(1, id);
    events := SoloReads(1, events, 0, id, 0, Queued, 0);
    events := SoloReads(1, events, 1, id, 0, Queued, 0);
    events := ClaimAndRelease(1, events, 0, Sample(id), 0, 0);
    events := SoloClaims(1, events, 1, Sample(id), 1, 1);
  }

  /** The queue holds one task, without dependencies, which was claimed `times` times. */
  ghost predicate Solo(s: System, id: Id, attempts: nat, state: TaskState, times: nat) {
    && s.table.Keys == {id} && DependsOn(s.table[id]) == []
    && s.table[id].attempts == attempts && s.table[id].state == state
    && (state == Running ==> s.table[id].leaseUntil == Some(0))
    && Times(s.claims, id) == times
  }

  lemma SoloArrives(max: int, id: Id) returns (events: seq<Event>)
    ensures Solo(Run(max, events), id, 0, Queued, 0) && Run(max, events).workers == map[0 := Idle]
  {
    events := Arrives(max, id);
    events := Crashes(max, events, 0);
  }

  lemma SoloReads(max: int, events: seq<Event>, w: nat, id: Id, a: nat, st: TaskState, n: nat)
    returns (longer: seq<Event>)
    requires Solo(Run(max, events), id, a, st, n) && PcOf(Run(max, events), w) == Idle && a < max
    ensures var s := Run(max, events);
      Run(max, longer) == s.(workers := s.workers[w := Claiming(s.table[id], [], true)])
    ensures Solo(Run(max, longer), id, a, st, n)
  {
    longer := ReachClaim(max, events, w, id);
  }

  lemma SoloClaims(max: int, events: seq<Event>, w: nat, copy: Task, a: nat, n: nat) returns (longer: seq<Event>)
    requires Solo(Run(max, events), copy.id, a, Queued, n) && PcOf(Run(max, events), w) == Claiming(copy, [], true)
    ensures Solo(Run(max, longer), copy.id, a, Running, n + 1)
    ensures Run(max, longer).workers == Run(max, events).workers[w := Won(copy.id)]
    ensures Run(max, longer).claims == Run(max, events).claims + [copy.id]
  {
    TimesAppend(Run(max, events).claims, copy.id, copy.id);
    longer := Claims(max, events, w, copy, [], true, 0);
  }

  lemma SoloReleases(max: int, events: seq<Event>, id: Id, a: nat, n: nat) returns (longer: seq<Event>)
    requires Solo(Run(max, events), id, a, Running, n)
    ensures Solo(Run(max, longer), id, a + 1, Queued, n)
    ensures Run(max, longer).workers == Run(max, events).workers && Run(max, longer).claims == Run(max, events).claims
  {
    longer := Sweeps(max, events, 1);
  }

  lemma SoloCrashes(max: int, events: seq<Event>, w: nat, id: Id, a: nat, st: TaskState, n: nat)
    returns (longer: seq<Event>)
    requires Solo(Run(max, events), id, a, st, n)
    ensures Solo(Run(max, longer), id, a, st, n) && Run(max, longer).workers == Run(max, events).workers[w := Idle]
  {
    longer := Crashes(max, events, w);
  }

  lemma ClaimAndRelease(max: int, events: seq<Event>, w: nat, copy: Task, a: nat, n: nat) returns (longer: seq<Event>)
    requires Solo(Run(max, events), copy.id, a, Queued, n) && PcOf(Run(max, events), w) == Claiming(copy, [], true)
    ensures Solo(Run(max, longer), copy.id, a + 1, Queued, n + 1)
    ensures Run(max, longer).workers == Run(max, events).workers[w := Won(copy.id)]
    ensures Run(max, longer).claims == Run(max, events).claims + [copy.id]
  {
    longer := SoloClaims(max, events, w, copy, a, n);
    longer := SoloReleases(max, longer, copy.id, a, n + 1);
  }

  /** The one worker reads the task and claims it. */
  lemma AloneClaims(max: int, events: seq<Event>, id: Id, a: nat, n: nat) returns (longer: seq<Event>)
    requires Solo(Run(max, events), id, a, Queued, n) && Run(max, events).workers == map[0 := Idle] && a < max
    ensures Solo(Run(max, longer), id, a, Running, n + 1) && Run(max, longer).workers == map[0 := Won(id)]
  {
    var copy := Run(max, events).table[id];
    longer := SoloReads(max, events, 0, id, a, Queued, n);
    assert Run(max, longer).workers == map[0 := Claiming(copy, [], true)];
    longer := SoloClaims(max, longer, 0, copy, a, n);
  }

  /** One worker, crashing each time, uses up attempts one by one. */
  lemma {:induction false} Raises(max: int, id: Id, a: nat) returns (events: seq<Event>)
    requires a < max
    ensures Solo(Run(max, events), id, a, Queued, a) && Run(max, events).workers == map[0 := Idle]
  {
    if a == 0 {
      events := SoloArrives(max, id);
    } else {
      events := Raises(max, id, a - 1);
      events := AloneClaims(max, events, id, a - 1, a - 1);
      events := SoloReleases(max, events, id, a - 1, a);
      events := SoloCrashes(max, events, 0, id, a, Queued, a);
    }
  }

  /** The first `k` of `n` workers have used their copies; the others still hold theirs. */
  ghost function Crowd(n: nat, k: nat, copy: Task): map<nat, Pc> {
    map w: nat | 0 <= w < n :: Stand(w, k, copy)
  }

  function Stand(w: nat, k: nat, copy: Task): Pc {
    if w < k then Won(copy.id) else Claiming(copy, [], true)
  }

  lemma OneUsesItsCopy(n: nat, k: nat, copy: Task)
    requires 0 < k <= n
    ensures Crowd(n, k - 1, copy)[k - 1 := Won(copy.id)] == Crowd(n, k, copy)
    ensures k - 1 in Crowd(n, k - 1, copy) && Crowd(n, k - 1, copy)[k - 1] == Claiming(copy, [], true)
  {}

  lemma {:induction false} CrowdSize(n: nat, k: nat, copy: Task)
    ensures |Crowd(n, k, copy)| == n
  {
    if n > 0 {
      CrowdSize(n - 1, k, copy);
      assert Crowd(n, k, copy).Keys == Crowd(n - 1, k, copy).Keys + {n - 1};
    }
  }

  lemma OneMoreJoins(n: nat, copy: Task)
    ensures Crowd(n, 0, copy)[n := Claiming(copy, [], true)] == Crowd(n + 1, 0, copy) && n !in Crowd(n, 0, copy)
  {}

  lemma OneAlone(copy: Task)
    ensures map[0 := Idle][0 := Claiming(copy, [], true)] == Crowd(1, 0, copy)
  {}

  /** Any number of workers read the row while it runs, and pass the guard. */
  lemma {:induction false} Gathers(max: int, events: seq<Event>, id: Id, a: nat, c: nat, n: nat)
    returns (longer: seq<Event>)
    requires Solo(Run(max, events), id, a, Running, c) && Run(max, events).workers == map[0 := Idle] && a < max && n > 0
    ensures Solo(Run(max, longer), id, a, Running, c)
    ensures Run(max, longer).workers == Crowd(n, 0, Run(max, events).table[id])
    ensures Run(max, longer).table == Run(max, events).table
  {
    var copy := Run(max, events).table[id];
    if n == 1 {
      longer := SoloReads(max, events, 0, id, a, Running, c);
      OneAlone(copy);
    } else {
      longer := Gathers(max, events, id, a, c, n - 1);
      OneMoreJoins(n - 1, copy);
      longer := SoloReads(max, longer, n - 1, id, a, Running, c);
    }
  }

  /** Each of them in turn claims the task and loses its lease. */
  lemma {:induction false} Drains(max: int, events: seq<Event>, copy: Task, a: nat, c: nat, n: nat, k: nat)
    returns (longer: seq<Event>)
    requires Solo(Run(max, events), copy.id, a, Queued, c) && Run(max, events).workers == Crowd(n, 0, copy) && k <= n
    ensures Solo(Run(max, longer), copy.id, a + k, Queued, c + k) && Run(max, longer).workers == Crowd(n, k, copy)
    decreases k
  {
    longer := events;
    if k > 0 {
      longer := Drains(max, events, copy, a, c, n, k - 1);
      OneUsesItsCopy(n, k, copy);
      longer := ClaimAndRelease(max, longer, k - 1, copy, a + (k - 1), c + (k - 1));
    }
  }

  /** The last attempt is running, and its worker has crashed. */
  lemma LastAttemptAbandoned(max: int, id: Id) returns (events: seq<Event>)
    requires max > 0
    ensures Solo(Run(max, events), id, max - 1, Running, max) && Run(max, events).workers == map[0 := Idle]
  {
    events := Raises(max, id, max - 1);
    events := AloneClaims(max, events, id, max - 1, max - 1);
    events := SoloCrashes(max, events, 0, id, max - 1, Running, max);
  }

  /** The bounds on attempts and on claims are reached together, for every limit and every number
      of workers. */
  lemma OvershootIsReached(max: int, n: nat) returns (events: seq<Event>, id: Id)
    requires max > 0 && n > 0
    ensures var s := Run(max, events);
      |s.workers| == n && id in s.table && s.table[id].attempts == max + n && Times(s.claims, id) == max + n
  {
    id := "t";
    events := LastAttemptAbandoned(max, id);
    var copy := Run(max, events).table[id];
    events := Gathers(max, events, id, max - 1, max, n);
    events := SoloReleases(max, events, id, max - 1, max);
    events := Drains(max, events, copy, max, max, n, n);
    CrowdSize(n, n, copy);
  }
}
