/** Claims respect dependencies in every interleaving. */
module LifecycleOrder {
  import opened Tasks
  import opened QueueSpec
  import opened Deps
  import opened Lifecycle

  /** `x` is a copy, possibly old, of a stored row. */
  ghost predicate CopyOf(t: Table, x: Task) { x.id in t && t[x.id].spec == x.spec }

  ghost predicate Copies(t: Table, q: seq<Task>) { forall x :: x in q ==> CopyOf(t, x) }

  ghost predicate DepsClaimed(task: Task, claims: seq<Id>) {
    forall d :: d in DependsOn(task) ==> d in claims
  }

  /** What a worker knows: once it has read every dependency as done, each was claimed. */
  ghost predicate WorkerOk(t: Table, claims: seq<Id>, pc: Pc) {
    match pc
    case Idle => true
    case Scanning(todo) => Copies(t, todo)
    case Checking(task, unread, failed, blocked, todo, one) =>
      CopyOf(t, task) && Copies(t, todo) &&
      (!failed && !blocked ==> forall d :: d in DependsOn(task) ==> d in unread || d in claims)
    case CountingAttempts(task, todo, one) =>
      CopyOf(t, task) && Copies(t, todo) && (!one ==> DepsClaimed(task, claims))
    case AskingPolicy(task, todo, one) => CopyOf(t, task) && Copies(t, todo) && DepsClaimed(task, claims)
    case Claiming(task, todo, one) => CopyOf(t, task) && Copies(t, todo) && DepsClaimed(task, claims)
    case Won(id) => id in claims
    case Executing(row) => row.id in claims
  }

  ghost predicate DoneWasClaimed(t: Table, claims: seq<Id>) {
    forall id :: id in t && t[id].state == Done ==> id in claims
  }

  /** Every claim comes after a claim of each of the task's dependencies. */
  ghost predicate Topological(t: Table, claims: seq<Id>) {
    forall i :: 0 <= i < |claims| ==> claims[i] in t && DepsClaimed(t[claims[i]], claims[..i])
  }

  ghost predicate OrderInv(s: System) {
    && WellFormed(s.table)
    && DoneWasClaimed(s.table, s.claims)
    && Topological(s.table, s.claims)
    && forall w :: w in s.workers ==> WorkerOk(s.table, s.claims, s.workers[w])
  }

  lemma WorkerOkIsStable(t: Table, t': Table, claims: seq<Id>, claims': seq<Id>, pc: Pc)
    requires WorkerOk(t, claims, pc) && Extends(t, t') && claims <= claims'
    ensures WorkerOk(t', claims', pc)
  {
    assert forall d :: d in claims ==> d in claims';
  }

  lemma {:induction false} TopologicalIsStable(t: Table, t': Table, claims: seq<Id>)
    requires Topological(t, claims) && Extends(t, t')
    ensures Topological(t', claims)
  {
    forall i | 0 <= i < |claims|
      ensures claims[i] in t' && DepsClaimed(t'[claims[i]], claims[..i])
    {
      assert DepsClaimed(t[claims[i]], claims[..i]);
    }
  }

  lemma TransitionKeeps(t: Table, id: Id, expected: TaskState, to: TaskState, claims: seq<Id>)
    requires WellFormed(t) && DoneWasClaimed(t, claims) && (to == Done ==> id in claims)
    ensures var t' := TransitionSpec(t, id, expected, to).0; Extends(t, t') && DoneWasClaimed(t', claims)
  {}

  /** A worker that does not claim: it keeps its knowledge and finishes only what was claimed. */
  ghost predicate Quiet(t: Table, claims: seq<Id>, n: WorkerStep) {
    n.won == None && WellFormed(n.table) && Extends(t, n.table)
    && DoneWasClaimed(n.table, claims) && WorkerOk(n.table, claims, n.pc)
  }

  lemma FailTaskKeeps(t: Table, claims: seq<Id>, task: Task, todo: seq<Task>, one: bool)
    requires WellFormed(t) && DoneWasClaimed(t, claims) && Copies(t, todo)
    ensures Quiet(t, claims, FailTask(t, task, todo, one))
  {
    TransitionKeeps(t, task.id, task.state, Failed, claims);
  }

  lemma ListingCopies(t: Table)
    requires WellFormed(t)
    ensures Copies(t, Take(Listing(InState(t, Queued)), 100))
  {
    InStateListing(t, Queued);
    var q := Listing(InState(t, Queued));
    forall x | x in Take(q, 100) ensures CopyOf(t, x) { assert x in q; }
  }

  lemma StartKeeps(max: int, t: Table, claims: seq<Id>, pc: Pc, i: Input)
    requires WellFormed(t) && DoneWasClaimed(t, claims) && WorkerOk(t, claims, pc)
    requires pc.Idle? || pc.Scanning?
    ensures Quiet(t, claims, WorkerNext(max, t, pc, i))
  {
    ListingCopies(t);
  }

  lemma ReadKeeps(t: Table, claims: seq<Id>, pc: Pc)
    requires DoneWasClaimed(t, claims) && WorkerOk(t, claims, pc) && pc.Checking? && pc.unread != []
    ensures WorkerOk(t, claims, ReadDependency(t, pc))
  {
    var pc' := ReadDependency(t, pc);
    if !pc'.failed && !pc'.blocked {
      forall d | d in DependsOn(pc.task) ensures d in pc'.unread || d in claims {
        assert pc.unread == [pc.unread[0]] + pc.unread[1..];
      }
    }
  }

  lemma CheckKeeps(max: int, t: Table, claims: seq<Id>, pc: Pc, i: Input)
    requires WellFormed(t) && DoneWasClaimed(t, claims) && WorkerOk(t, claims, pc) && pc.Checking?
    ensures Quiet(t, claims, WorkerNext(max, t, pc, i))
  {
    if pc.unread != [] { ReadKeeps(t, claims, pc); }
    else { FailTaskKeeps(t, claims, pc.task, pc.todo, pc.one); }
  }

  lemma GuardKeeps(max: int, t: Table, claims: seq<Id>, pc: Pc, i: Input)
    requires WellFormed(t) && DoneWasClaimed(t, claims) && WorkerOk(t, claims, pc)
    requires pc.CountingAttempts? || pc.AskingPolicy?
    ensures Quiet(t, claims, WorkerNext(max, t, pc, i))
  {
    FailTaskKeeps(t, claims, pc.task, pc.todo, pc.one);
  }

  lemma ExecuteKeeps(max: int, t: Table, claims: seq<Id>, pc: Pc, i: Input)
    requires WellFormed(t) && DoneWasClaimed(t, claims) && WorkerOk(t, claims, pc)
    requires pc.Won? || pc.Executing?
    ensures Quiet(t, claims, WorkerNext(max, t, pc, i))
  {
    if pc.Executing? {
      TransitionKeeps(t, pc.row.id, pc.row.state, if i.ok then Done else Failed, claims);
    }
  }

  lemma QuietKeeps(max: int, t: Table, claims: seq<Id>, pc: Pc, i: Input)
    requires WellFormed(t) && DoneWasClaimed(t, claims) && WorkerOk(t, claims, pc) && !pc.Claiming?
    ensures Quiet(t, claims, WorkerNext(max, t, pc, i))
  {
    match pc
    case Idle => StartKeeps(max, t, claims, pc, i);
    case Scanning(_) => StartKeeps(max, t, claims, pc, i);
    case Checking(_, _, _, _, _, _) => CheckKeeps(max, t, claims, pc, i);
    case CountingAttempts(_, _, _) => GuardKeeps(max, t, claims, pc, i);
    case AskingPolicy(_, _, _) => GuardKeeps(max, t, claims, pc, i);
    case Won(_) => ExecuteKeeps(max, t, claims, pc, i);
    case Executing(_) => ExecuteKeeps(max, t, claims, pc, i);
  }

  /** The claiming step: it appends a task whose dependencies are all in the record already. */
  lemma ClaimKeeps(max: int, t: Table, claims: seq<Id>, pc: Pc, i: Input)
    requires WellFormed(t) && DoneWasClaimed(t, claims) && WorkerOk(t, claims, pc) && pc.Claiming?
    requires Topological(t, claims)
    ensures var n := WorkerNext(max, t, pc, i);
      var claims' := if n.won.Some? then claims + [n.won.value] else claims;
      && WellFormed(n.table) && Extends(t, n.table)
      && DoneWasClaimed(n.table, claims') && WorkerOk(n.table, claims', n.pc)
      && Topological(n.table, claims')
  {
    var n := WorkerNext(max, t, pc, i);
    ExecExtends(t, Claim(pc.task.id, i.now, i.lease));
    TopologicalIsStable(t, n.table, claims);
    if n.won.Some? { TopologicalGrows(n.table, claims, pc.task.id); }
  }

  lemma TopologicalGrows(t: Table, claims: seq<Id>, id: Id)
    requires Topological(t, claims) && id in t && DepsClaimed(t[id], claims)
    ensures Topological(t, claims + [id])
  {
    var claims' := claims + [id];
    forall k | 0 <= k < |claims'| ensures claims'[k] in t && DepsClaimed(t[claims'[k]], claims'[..k]) {
      assert claims'[..k] == if k < |claims| then claims[..k] else claims;
    }
  }

  lemma WorkExtends(max: int, s: System, w: nat, i: Input)
    requires OrderInv(s)
    ensures Extends(s.table, Step(max, s, Work(w, i)).table)
  {
    var pc := PcOf(s, w);
    if pc.Claiming? { ClaimKeeps(max, s.table, s.claims, pc, i); } else { QuietKeeps(max, s.table, s.claims, pc, i); }
  }

  lemma WorkKeeps(max: int, s: System, w: nat, i: Input)
    requires OrderInv(s)
    ensures OrderInv(Step(max, s, Work(w, i)))
  {
    var pc, s' := PcOf(s, w), Step(max, s, Work(w, i));
    if pc.Claiming? {
      ClaimKeeps(max, s.table, s.claims, pc, i);
    } else {
      QuietKeeps(max, s.table, s.claims, pc, i);
      TopologicalIsStable(s.table, s'.table, s.claims);
    }
    forall v | v in s'.workers ensures WorkerOk(s'.table, s'.claims, s'.workers[v]) {
      if v != w { WorkerOkIsStable(s.table, s'.table, s.claims, s'.claims, s.workers[v]); }
    }
  }

  /** Steps of the other processes: the table only extends, and nothing becomes done. */
  lemma OthersKeep(max: int, s: System, e: Event)
    requires OrderInv(s) && !e.Work?
    requires var s' := Step(max, s, e);
      WellFormed(s'.table) && Extends(s.table, s'.table) && DoneWasClaimed(s'.table, s.claims)
    ensures OrderInv(Step(max, s, e))
  {
    var s' := Step(max, s, e);
    TopologicalIsStable(s.table, s'.table, s.claims);
    forall v | v in s'.workers ensures WorkerOk(s'.table, s'.claims, s'.workers[v]) {
      if s'.workers[v] != Idle {
        WorkerOkIsStable(s.table, s'.table, s.claims, s'.claims, s.workers[v]);
      }
    }
  }

  lemma IngestExtends(max: int, s: System, e: Event)
    requires OrderInv(s) && e.Ingest?
    ensures var s' := Step(max, s, e);
      WellFormed(s'.table) && Extends(s.table, s'.table) && DoneWasClaimed(s'.table, s.claims)
  {}

  lemma SweepExtends(max: int, s: System, e: Event)
    requires OrderInv(s) && e.SweepLeases?
    ensures var s' := Step(max, s, e);
      WellFormed(s'.table) && Extends(s.table, s'.table) && DoneWasClaimed(s'.table, s.claims)
  {}

  lemma ReplyExtends(max: int, s: System, e: Event)
    requires OrderInv(s) && e.Reply?
    ensures var s' := Step(max, s, e);
      WellFormed(s'.table) && Extends(s.table, s'.table) && DoneWasClaimed(s'.table, s.claims)
  {
    var rc := RcOf(s, e.reply);
    if rc.HasRedeemed? {
      TransitionKeeps(s.table, rc.task.id, rc.task.state, Target(rc.mail.approve, rc.a.action), s.claims);
    }
  }

  lemma StepKeepsOrder(max: int, s: System, e: Event)
    requires OrderInv(s)
    ensures OrderInv(Step(max, s, e))
  {
    match e
    case Work(w, i) => WorkKeeps(max, s, w, i);
    case Ingest(_, _, _) => IngestExtends(max, s, e); OthersKeep(max, s, e);
    case SweepLeases(_) => SweepExtends(max, s, e); OthersKeep(max, s, e);
    case Reply(_, _) => ReplyExtends(max, s, e); OthersKeep(max, s, e);
    case Crash(_) => OthersKeep(max, s, e);
    case IssueToken(_, _, _, _, _) => OthersKeep(max, s, e);
  }

  lemma {:induction false} RunKeepsOrder(max: int, events: seq<Event>)
    ensures OrderInv(Run(max, events))
  {
    if events != [] {
      RunKeepsOrder(max, events[..|events| - 1]);
      StepKeepsOrder(max, Run(max, events[..|events| - 1]), events[|events| - 1]);
    }
  }

  /** In every run, the record of claims (and so the order of first claims) is a topological
      order of `depends_on`, and only claimed tasks are ever done. */
  lemma ClaimsAreTopological(max: int, events: seq<Event>)
    ensures var s := Run(max, events);
      && DoneWasClaimed(s.table, s.claims)
      && (forall i :: 0 <= i < |s.claims| ==> s.claims[i] in s.table)
      && forall i, d ::
        (0 <= i < |s.claims| && s.table[s.claims[i]].spec.Some? && d in s.table[s.claims[i]].spec.value.dependsOn)
        ==> d in s.claims[..i]
  {
    RunKeepsOrder(max, events);
    var s := Run(max, events);
    forall i, d | 0 <= i < |s.claims| && s.table[s.claims[i]].spec.Some?
                  && d in s.table[s.claims[i]].spec.value.dependsOn
      ensures d in s.claims[..i]
    {
      assert DepsClaimed(s.table[s.claims[i]], s.claims[..i]) && d in DependsOn(s.table[s.claims[i]]);
    }
  }

  /** A chain of dependencies: each task depends on the next. */
  ghost predicate Chain(t: Table, p: seq<Id>) {
    forall k :: 0 <= k < |p| - 1 ==>
      p[k] in t && t[p[k]].spec.Some? && p[k + 1] in t[p[k]].spec.value.dependsOn
  }

  function First(claims: seq<Id>, id: Id): (i: nat)
    requires id in claims
    ensures i < |claims| && claims[i] == id && forall j :: 0 <= j < i ==> claims[j] != id
  {
    if claims[0] == id then 0 else 1 + First(claims[1..], id)
  }

  lemma ChainSuffix(t: Table, p: seq<Id>, n: nat)
    requires Chain(t, p) && n <= |p|
    ensures Chain(t, p[n..])
  {
    var q := p[n..];
    forall k | 0 <= k < |q| - 1 ensures q[k] in t && t[q[k]].spec.Some? && q[k + 1] in t[q[k]].spec.value.dependsOn {
      assert p[n + k + 1] in t[p[n + k]].spec.value.dependsOn;
    }
  }

  /** Along a chain starting at a claimed task, first claims strictly descend. */
  lemma {:induction false} ChainDescends(t: Table, claims: seq<Id>, p: seq<Id>)
    requires Topological(t, claims) && Chain(t, p) && |p| >= 2 && p[0] in claims
    ensures p[|p| - 1] in claims && First(claims, p[|p| - 1]) < First(claims, p[0])
    decreases |p|
  {
    var i := First(claims, p[0]);
    assert DepsClaimed(t[claims[i]], claims[..i]);
    assert p[0 + 1] in DependsOn(t[p[0]]);
    var j :| 0 <= j < i && claims[j] == p[1];
    assert First(claims, p[1]) <= j;
    if |p| > 2 {
      ChainSuffix(t, p, 1);
      ChainDescends(t, claims, p[1..]);
    }
  }

  lemma CyclesAreUnclaimed(t: Table, claims: seq<Id>, p: seq<Id>, cycle: nat)
    requires Topological(t, claims) && Chain(t, p) && cycle < |p| - 1 && p[cycle] == p[|p| - 1]
    ensures p[0] !in claims
  {
    if p[0] in claims {
      if cycle > 0 { ChainDescends(t, claims, p[..cycle + 1]); }
      ChainSuffix(t, p, cycle);
      ChainDescends(t, claims, p[cycle..]);
      assert false;
    }
  }

  /** A task from which dependencies lead into a cycle is never claimed, so never done. */
  lemma CyclesAreNeverClaimed(max: int, events: seq<Event>, p: seq<Id>, cycle: nat)
    requires Chain(Run(max, events).table, p) && cycle < |p| - 1 && p[cycle] == p[|p| - 1]
    ensures p[0] !in Run(max, events).claims
    ensures p[0] in Run(max, events).table ==> Run(max, events).table[p[0]].state != Done
  {
    var s := Run(max, events);
    RunKeepsOrder(max, events);
    CyclesAreUnclaimed(s.table, s.claims, p, cycle);
  }
}
