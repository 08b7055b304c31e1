/** The attempts limit under concurrency: the guard reads a copy taken before the claim. */
module LifecycleAttempts {
  import opened Tasks
  import opened QueueSpec
  import opened Lifecycle
  import opened LifecycleApproval
  import T = Termination

  // ---- What attempts count

  /** How often the lease sweep took this task back from a worker. */
  ghost function Releases(max: int, events: seq<Event>, id: Id): nat {
    if events == [] then 0
    else
      var last := |events| - 1;
      var s, e := Run(max, events[..last]), events[last];
      Releases(max, events[..last], id)
      + if e.SweepLeases? && id in s.table && Stale(s.table[id], e.now) then 1 else 0
  }

  lemma WorkKeepsAttempts(max: int, t: Table, pc: Pc, i: Input, id: Id)
    requires WellFormed(t)
    ensures var t' := WorkerNext(max, t, pc, i).table;
      t'.Keys == t.Keys && (id in t ==> t'[id].attempts == t[id].attempts)
  {}

  lemma StepCountsReleases(max: int, s: System, e: Event, id: Id)
    requires WellFormed(s.table)
    ensures var t, t' := s.table, Step(max, s, e).table;
      && (id in t ==> id in t')
      && (id in t ==> t'[id].attempts == t[id].attempts + if e.SweepLeases? && Stale(t[id], e.now) then 1 else 0)
      && (id !in t && id in t' ==> t'[id].attempts == 0)
  {
    if e.Work? { WorkKeepsAttempts(max, s.table, PcOf(s, e.worker), e.input, id); }
  }

  /** In every run a task's attempts are the leases released from it, nothing else. */
  lemma {:induction false} AttemptsCountReleases(max: int, events: seq<Event>, id: Id)
    ensures id in Run(max, events).table ==> Run(max, events).table[id].attempts == Releases(max, events, id)
    ensures id !in Run(max, events).table ==> Releases(max, events, id) == 0
  {
    if events != [] {
      AttemptsCountReleases(max, events[..|events| - 1], id);
      StepCountsReleases(max, Run(max, events[..|events| - 1]), events[|events| - 1], id);
    }
  }

  lemma {:induction false} RowsPersist(max: int, events: seq<Event>, n: nat, id: Id)
    requires n <= |events| && id in Run(max, events[..n]).table
    ensures id in Run(max, events).table
  {
    if n == |events| {
      assert events[..n] == events;
    } else {
      var front := events[..|events| - 1];
      assert front[..n] == events[..n];
      RowsPersist(max, front, n, id);
      StepCountsReleases(max, Run(max, front), events[|events| - 1], id);
    }
  }

  // ---- What a worker's copies are

  /** `x` is one of the copies a worker holds. */
  ghost predicate Holds(pc: Pc, x: Task) {
    match pc
    case Scanning(todo) => x in todo
    case Checking(task, _, _, _, todo, _) => x == task || x in todo
    case CountingAttempts(task, todo, _) => x == task || x in todo
    case AskingPolicy(task, todo, _) => x == task || x in todo
    case Claiming(task, todo, _) => x == task || x in todo
    case _ => false
  }

  ghost predicate RowAt(max: int, events: seq<Event>, n: nat, x: Task)
    requires n <= |events|
  {
    var t := Run(max, events[..n]).table; x.id in t && t[x.id] == x
  }

  lemma ListedAreRows(t: Table, x: Task)
    requires WellFormed(t) && x in Take(Listing(InState(t, Queued)), 100)
    ensures x.id in t && t[x.id] == x
  {
    InStateListing(t, Queued);
    assert x in Listing(InState(t, Queued));
  }

  lemma NextHolds(max: int, t: Table, pc: Pc, i: Input, x: Task)
    requires WellFormed(t) && Holds(WorkerNext(max, t, pc, i).pc, x)
    ensures Holds(pc, x) || (x.id in t && t[x.id] == x)
  {
    if pc.Idle? && i.target.None? { ListedAreRows(t, x); }
  }

  lemma StepHolds(max: int, s: System, e: Event, w: nat, x: Task)
    requires WellFormed(s.table) && Holds(PcOf(Step(max, s, e), w), x)
    ensures Holds(PcOf(s, w), x) || (x.id in s.table && s.table[x.id] == x)
  {
    if e.Work? && e.worker == w { NextHolds(max, s.table, PcOf(s, w), e.input, x); }
  }

  /** Every copy a worker holds was the stored row at some earlier moment. */
  lemma {:induction false} CopiesAreEarlierRows(max: int, events: seq<Event>, w: nat, x: Task) returns (n: nat)
    requires Holds(PcOf(Run(max, events), w), x)
    ensures n <= |events| && RowAt(max, events, n, x)
  {
    var front, e := events[..|events| - 1], events[|events| - 1];
    var s := Run(max, front);
    StepHolds(max, s, e, w, x);
    if Holds(PcOf(s, w), x) {
      n := CopiesAreEarlierRows(max, front, w, x);
      assert front[..n] == events[..n];
    } else {
      n := |front|;
    }
  }

  /** Past the attempts guard, the copy in hand is under the limit. */
  ghost predicate Guarded(max: int, pc: Pc) {
    (pc.Checking? && pc.one) || pc.AskingPolicy? || pc.Claiming? ==> pc.task.attempts < max
  }

  lemma NextGuarded(max: int, t: Table, pc: Pc, i: Input)
    requires WellFormed(t) && Guarded(max, pc)
    ensures Guarded(max, WorkerNext(max, t, pc, i).pc)
  {}

  lemma {:induction false} GuardsHold(max: int, events: seq<Event>, w: nat)
    ensures Guarded(max, PcOf(Run(max, events), w))
  {
    if events != [] {
      var s, e := Run(max, events[..|events| - 1]), events[|events| - 1];
      GuardsHold(max, events[..|events| - 1], w);
      if e.Work? && e.worker == w {
        NextGuarded(max, s.table, PcOf(s, w), e.input);
      } else {
        assert PcOf(Step(max, s, e), w) in {PcOf(s, w), Idle};
      }
    }
  }

  /** When the limit holds at a claim: the worker's copy was read at some moment `n`, under the
      limit, and the row it is about to claim is still under the limit exactly when fewer leases
      of that task were released since than the copy had attempts left. */
  lemma LimitHoldsExactlyWhen(max: int, events: seq<Event>, w: nat) returns (n: nat)
    ensures n <= |events|
    ensures var s := Run(max, events);
      PcOf(s, w).Claiming? ==>
        var copy := PcOf(s, w).task;
        && RowAt(max, events, n, copy) && copy.id in s.table
        && (s.table[copy.id].attempts < max <==>
            Releases(max, events, copy.id) - Releases(max, events[..n], copy.id) < max - copy.attempts)
        && copy.attempts < max
  {
    n := 0;
    if !PcOf(Run(max, events), w).Claiming? { return; }
    var copy := PcOf(Run(max, events), w).task;
    n := CopiesAreEarlierRows(max, events, w, copy);
    GuardsHold(max, events, w);
    RowsPersist(max, events, n, copy.id);
    AttemptsCountReleases(max, events, copy.id);
    AttemptsCountReleases(max, events[..n], copy.id);
  }

  // ---- How far the limit can be passed

  /** A worker still holds a copy of the task from before its attempts ran out. */
  ghost predicate HoldsOld(max: int, pc: Pc, id: Id) {
    exists x :: Holds(pc, x) && x.id == id && x.attempts < max
  }

  ghost function Holders(max: int, s: System, id: Id): (ws: set<nat>)
    ensures ws <= s.workers.Keys
  {
    set w | w in s.workers && HoldsOld(max, s.workers[w], id)
  }

  function One(b: bool): nat { if b then 1 else 0 }

  function Limit(max: int): nat { if max < 0 then 0 else max }

  /** Past the limit, each attempt beyond it, the run in progress and each old copy are paid for
      by a worker of their own. */
  ghost predicate Paid(max: int, s: System, id: Id) {
    id in s.table && s.table[id].attempts >= Limit(max) ==>
      s.table[id].attempts - Limit(max) + One(s.table[id].state == Running) + |Holders(max, s, id)| <= |s.workers|
  }

  lemma SubsetSize(a: set<nat>, b: set<nat>)
    requires a <= b
    ensures |a| <= |b| && (a != b ==> |a| < |b|)
  {
    assert b == a + (b - a);
  }

  /** A copy read when the attempts are used up is not an old one. */
  lemma NextHoldsOld(max: int, t: Table, pc: Pc, i: Input, id: Id)
    requires WellFormed(t) && id in t && t[id].attempts >= max
    requires HoldsOld(max, WorkerNext(max, t, pc, i).pc, id)
    ensures HoldsOld(max, pc, id)
  {
    var x :| Holds(WorkerNext(max, t, pc, i).pc, x) && x.id == id && x.attempts < max;
    NextHolds(max, t, pc, i, x);
  }

  lemma WorkShrinksHolders(max: int, s: System, w: nat, i: Input, id: Id)
    requires WellFormed(s.table) && id in s.table && s.table[id].attempts >= max
    ensures var s' := Step(max, s, Work(w, i)); Holders(max, s', id) <= Holders(max, s, id)
  {
    var s' := Step(max, s, Work(w, i));
    forall v | v in Holders(max, s', id) ensures v in Holders(max, s, id) {
      if v == w { NextHoldsOld(max, s.table, PcOf(s, w), i, id); }
    }
  }

  lemma OthersShrinkHolders(max: int, s: System, e: Event, id: Id)
    requires WellFormed(s.table) && !e.Work?
    ensures Holders(max, Step(max, s, e), id) <= Holders(max, s, id)
    ensures s.workers.Keys <= Step(max, s, e).workers.Keys
  {}

  /** The only way into `running` is a claim, by a worker whose copy passed the guard. */
  lemma ClaimsUseHolders(max: int, s: System, w: nat, i: Input, id: Id)
    requires WellFormed(s.table) && Guarded(max, PcOf(s, w)) && id in s.table
    ensures var s' := Step(max, s, Work(w, i));
      s'.table[id].state == Running && s.table[id].state != Running ==>
        w in Holders(max, s, id) && w !in Holders(max, s', id)
  {
    var s', pc := Step(max, s, Work(w, i)), PcOf(s, w);
    if s'.table[id].state == Running && s.table[id].state != Running {
      assert pc.Claiming? && pc.task.id == id && s'.workers[w] == Won(id);
      assert Holds(pc, pc.task);
    }
  }

  lemma OthersNeverStart(max: int, s: System, e: Event, id: Id)
    requires WellFormed(s.table) && !e.Work? && id in Step(max, s, e).table
    requires e.Reply? ==> RcOf(s, e.reply).HasRedeemed? ==> RcOf(s, e.reply).task.state == Action
    ensures Step(max, s, e).table[id].state == Running ==> id in s.table && s.table[id].state == Running
    ensures e.SweepLeases? && Step(max, s, e).table[id].attempts != s.table[id].attempts ==>
      s.table[id].state == Running && Step(max, s, e).table[id].state != Running
  {}

  lemma WorkKeepsPaid(max: int, s: System, w: nat, i: Input, id: Id)
    requires WellFormed(s.table) && Guarded(max, PcOf(s, w)) && Paid(max, s, id)
    ensures Paid(max, Step(max, s, Work(w, i)), id)
  {
    var s' := Step(max, s, Work(w, i));
    StepCountsReleases(max, s, Work(w, i), id);
    if id in s.table && s.table[id].attempts >= Limit(max) {
      WorkShrinksHolders(max, s, w, i, id);
      ClaimsUseHolders(max, s, w, i, id);
      SubsetSize(Holders(max, s', id), Holders(max, s, id));
      SubsetSize(s.workers.Keys, s'.workers.Keys);
    }
  }

  lemma OthersKeepPaid(max: int, s: System, e: Event, id: Id)
    requires WellFormed(s.table) && !e.Work? && Paid(max, s, id)
    requires e.Reply? ==> RcOf(s, e.reply).HasRedeemed? ==> RcOf(s, e.reply).task.state == Action
    ensures Paid(max, Step(max, s, e), id)
  {
    var s' := Step(max, s, e);
    StepCountsReleases(max, s, e, id);
    OthersShrinkHolders(max, s, e, id);
    SubsetSize(Holders(max, s', id), Holders(max, s, id));
    SubsetSize(Holders(max, s, id), s.workers.Keys);
    SubsetSize(s.workers.Keys, s'.workers.Keys);
    if id in s'.table { OthersNeverStart(max, s, e, id); }
  }

  lemma {:induction false} RunKeepsPaid(max: int, events: seq<Event>, id: Id)
    ensures Paid(max, Run(max, events), id)
  {
    if events != [] {
      var front, e := events[..|events| - 1], events[|events| - 1];
      RunKeepsPaid(max, front, id);
      if e.Work? {
        GuardsHold(max, front, e.worker);
        WorkKeepsPaid(max, Run(max, front), e.worker, e.input, id);
      } else {
        RunKeepsGate(max, front);
        OthersKeepPaid(max, Run(max, front), e, id);
      }
    }
  }

  /** In every interleaving the limit is passed by at most the number of workers. */
  lemma OvershootIsBounded(max: int, events: seq<Event>, id: Id)
    requires id in Run(max, events).table
    ensures Run(max, events).table[id].attempts <= Limit(max) + |Run(max, events).workers|
  {
    RunKeepsPaid(max, events, id);
  }

  // ---- How often a task is claimed

  function Times(claims: seq<Id>, id: Id): nat {
    if claims == [] then 0 else Times(claims[..|claims| - 1], id) + One(claims[|claims| - 1] == id)
  }

  lemma TimesAppend(claims: seq<Id>, x: Id, id: Id)
    ensures Times(claims + [x], id) == Times(claims, id) + One(x == id)
  {
    assert (claims + [x])[..|claims|] == claims;
  }

  /** Each claim of the task was released, except for the one it runs or has ended with. */
  ghost predicate SpentIn(t: Table, claims: seq<Id>, id: Id) {
    Times(claims, id) <=
      if id in t then t[id].attempts + One(t[id].state == Running || T.Terminal(t[id].state)) else 0
  }

  ghost predicate Spent(s: System, id: Id) { SpentIn(s.table, s.claims, id) }

  /** Past the limit, each claim beyond it and each old copy are paid for by a worker. */
  ghost predicate ClaimsPaid(max: int, s: System, id: Id) {
    id in s.table && s.table[id].attempts >= Limit(max) ==>
      Times(s.claims, id) + |Holders(max, s, id)| <= Limit(max) + |s.workers|
  }

  lemma WonMeans(max: int, t: Table, pc: Pc, i: Input)
    requires WellFormed(t) && WorkerNext(max, t, pc, i).won.Some?
    ensures var n := WorkerNext(max, t, pc, i); var id := n.won.value;
      id in t && t[id].state == Queued && n.table[id].state == Running
  {}

  lemma WorkEnds(max: int, t: Table, pc: Pc, i: Input, id: Id)
    requires WellFormed(t) && id in t
    ensures var t' := WorkerNext(max, t, pc, i).table;
      id in t' && (t'[id].state != t[id].state ==> t'[id].state == Running || T.Terminal(t'[id].state))
  {}

  lemma WorkKeepsSpent(max: int, t: Table, pc: Pc, i: Input, claims: seq<Id>, id: Id)
    requires WellFormed(t) && SpentIn(t, claims, id)
    ensures var n := WorkerNext(max, t, pc, i);
      SpentIn(n.table, if n.won.Some? then claims + [n.won.value] else claims, id)
  {
    var n := WorkerNext(max, t, pc, i);
    WorkKeepsAttempts(max, t, pc, i, id);
    if id in t { WorkEnds(max, t, pc, i, id); }
    if n.won.Some? {
      WonMeans(max, t, pc, i);
      TimesAppend(claims, n.won.value, id);
    }
  }

  lemma OthersKeepSpent(max: int, s: System, e: Event, id: Id)
    requires WellFormed(s.table) && !e.Work? && Spent(s, id)
    requires e.Reply? ==> RcOf(s, e.reply).HasRedeemed? ==> RcOf(s, e.reply).task.state == Action
    ensures Spent(Step(max, s, e), id)
  {}

  lemma WorkKeepsClaimsPaid(max: int, s: System, w: nat, i: Input, id: Id)
    requires WellFormed(s.table) && Guarded(max, PcOf(s, w)) && ClaimsPaid(max, s, id)
    ensures ClaimsPaid(max, Step(max, s, Work(w, i)), id)
  {
    var s', n := Step(max, s, Work(w, i)), WorkerNext(max, s.table, PcOf(s, w), i);
    WorkKeepsAttempts(max, s.table, PcOf(s, w), i, id);
    if id in s.table && s.table[id].attempts >= Limit(max) {
      WorkShrinksHolders(max, s, w, i, id);
      ClaimsUseHolders(max, s, w, i, id);
      SubsetSize(Holders(max, s', id), Holders(max, s, id));
      SubsetSize(s.workers.Keys, s'.workers.Keys);
      if n.won.Some? {
        WonMeans(max, s.table, PcOf(s, w), i);
        TimesAppend(s.claims, n.won.value, id);
      }
    }
  }

  lemma OthersKeepClaimsPaid(max: int, s: System, e: Event, id: Id)
    requires WellFormed(s.table) && !e.Work? && Spent(s, id) && ClaimsPaid(max, s, id)
    ensures ClaimsPaid(max, Step(max, s, e), id)
  {
    var s' := Step(max, s, e);
    StepCountsReleases(max, s, e, id);
    OthersShrinkHolders(max, s, e, id);
    SubsetSize(Holders(max, s', id), Holders(max, s, id));
    SubsetSize(Holders(max, s, id), s.workers.Keys);
    SubsetSize(s.workers.Keys, s'.workers.Keys);
  }

  lemma {:induction false} RunKeepsClaimsPaid(max: int, events: seq<Event>, id: Id)
    ensures Spent(Run(max, events), id) && ClaimsPaid(max, Run(max, events), id)
  {
    if events != [] {
      var front, e := events[..|events| - 1], events[|events| - 1];
      RunKeepsClaimsPaid(max, front, id);
      if e.Work? {
        GuardsHold(max, front, e.worker);
        WorkKeepsSpent(max, Run(max, front).table, PcOf(Run(max, front), e.worker), e.input, Run(max, front).claims, id);
        WorkKeepsClaimsPaid(max, Run(max, front), e.worker, e.input, id);
      } else {
        RunKeepsGate(max, front);
        OthersKeepSpent(max, Run(max, front), e, id);
        OthersKeepClaimsPaid(max, Run(max, front), e, id);
      }
    }
  }

  /** In every interleaving, stale guards included, a task is claimed at most as often as the
      limit allows plus once for each worker; and never more often than it was released, but for
      the claim it runs or has ended with. */
  lemma ClaimsAreBounded(max: int, events: seq<Event>, id: Id)
    ensures Times(Run(max, events).claims, id) <= Limit(max) + |Run(max, events).workers|
    ensures Spent(Run(max, events), id)
  {
    RunKeepsClaimsPaid(max, events, id);
  }
}
