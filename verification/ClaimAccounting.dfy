/** Conservation of claims, read off the calls and replies alone: any number of workers
    may issue the calls, in any interleaving. */
module ClaimAccounting {
  import opened Tasks
  import opened QueueSpec

  datatype Kind = EnterQueued | LeaveQueued | WinClaim | LeaveRunning | LeaseRelease

  predicate Sweeps(e: (Call, Reply), id: Id) {
    e.1.Released? && exists x :: x in e.1.tasks && x.id == id
  }

  predicate Is(k: Kind, e: (Call, Reply), id: Id) {
    match k
    case WinClaim =>
      || (e.0.Claim? && e.0.id == id && e.1 == Claimed(true))
      || (e.1.ClaimedNext? && e.1.task.Some? && e.1.task.value.id == id)
    case LeaseRelease => Sweeps(e, id)
    case LeaveQueued =>
      e.0.Transition? && e.1.Moved? && e.0.id == id && e.0.expected == Queued
    case LeaveRunning =>
      e.0.Transition? && e.1.Moved? && e.0.id == id && e.0.expected == Running
    case EnterQueued =>
      || (e.0.Enqueue? && e.0.task.id == id && e.0.state == Queued
          && e.1.Stored? && e.1.task.Some?)
      || (e.0.Transition? && e.1.Moved? && e.0.id == id && e.0.to == Queued)
      || Sweeps(e, id)
  }

  function One(b: bool): nat { if b then 1 else 0 }

  function Tally(k: Kind, h: History, id: Id): nat {
    if h == [] then 0
    else Tally(k, h[..|h| - 1], id) + One(Is(k, h[|h| - 1], id))
  }

  predicate HasState(t: Table, id: Id, s: TaskState) { id in t && t[id].state == s }

  /** No caller stores or moves a task straight into `running`; only claims do. */
  predicate NeverForcesRunning(c: Call) {
    !(c.Enqueue? && c.state == Running) && !(c.Transition? && c.to == Running)
  }

  lemma SweepReply(t: Table, now: Time, id: Id)
    requires WellFormed(t)
    ensures Sweeps((ReleaseStale(now), Exec(t, ReleaseStale(now)).1), id)
       <==> (id in t && Stale(t[id], now))
  {
    var q := Listing(SweptTasks(t, now));
    SweptListing(t, now);
    if id in t && Stale(t[id], now) {
      assert ReleasedFrom(t[id]) in SweptTasks(t, now);
      assert ReleasedFrom(t[id]) in q;
    }
    forall x | x in q && x.id == id ensures id in t && Stale(t[id], now) {
      assert x in SweptTasks(t, now);
    }
  }

  lemma ClaimReply(t: Table, c: Call, id: Id)
    requires WellFormed(t) && Is(WinClaim, (c, Exec(t, c).1), id)
    ensures HasState(t, id, Queued) && HasState(Exec(t, c).0, id, Running)
  {
    if c.ClaimNext? {
      var q := Listing(InState(t, Queued));
      InStateListing(t, Queued);
      assert q[0] in InState(t, Queued);
    } else {
      assert c.Claim?;
    }
  }

  /** One call changes the two occupancy bits by exactly the events it reports. */
  ghost predicate Balances(t: Table, c: Call, id: Id)
    requires WellFormed(t)
  {
    var (t', r) := Exec(t, c);
    && One(HasState(t', id, Queued)) + One(Is(WinClaim, (c, r), id)) + One(Is(LeaveQueued, (c, r), id))
       == One(HasState(t, id, Queued)) + One(Is(EnterQueued, (c, r), id))
    && One(HasState(t', id, Running)) + One(Is(LeaveRunning, (c, r), id)) + One(Is(LeaseRelease, (c, r), id))
       == One(HasState(t, id, Running)) + One(Is(WinClaim, (c, r), id))
  }

  lemma ClaimNextBalances(t: Table, now: Time, lease: Time, id: Id)
    requires WellFormed(t)
    ensures Balances(t, ClaimNext(now, lease), id)
  {
    var q := Listing(InState(t, Queued));
    InStateListing(t, Queued);
    assert q != [] ==> q[0] in InState(t, Queued);
  }

  lemma SweepBalances(t: Table, now: Time, id: Id)
    requires WellFormed(t)
    ensures Balances(t, ReleaseStale(now), id)
  {
    SweepReply(t, now, id);
  }

  lemma EnqueueBalances(t: Table, c: Call, id: Id)
    requires WellFormed(t) && c.Enqueue? && c.state != Running
    ensures Balances(t, c, id)
  {}

  lemma TransitionBalances(t: Table, c: Call, id: Id)
    requires WellFormed(t) && c.Transition? && c.to != Running
    ensures Balances(t, c, id)
  {}

  lemma CallBalances(t: Table, c: Call, id: Id)
    requires WellFormed(t) && NeverForcesRunning(c)
    ensures Balances(t, c, id)
  {
    match c
    case Enqueue(_, _, _) => EnqueueBalances(t, c, id);
    case Transition(_, _, _, _) => TransitionBalances(t, c, id);
    case ReleaseStale(now) => SweepBalances(t, now, id);
    case ClaimNext(now, lease) => ClaimNextBalances(t, now, lease, id);
    case Get(_) =>
    case List(_, _) =>
    case Claim(_, _, _) =>
  }

  /** For every task, after every sequence of calls: entries into `queued` are the claims won,
      the other exits and the occupant; claims won are the guarded exits from `running`, the
      lease releases and the occupant. */
  lemma {:induction false} ClaimsAreConserved(calls: seq<Call>, id: Id)
    requires forall c :: c in calls ==> NeverForcesRunning(c)
    ensures var (t, h) := Replay(calls);
      && Tally(EnterQueued, h, id)
         == Tally(WinClaim, h, id) + Tally(LeaveQueued, h, id) + One(HasState(t, id, Queued))
      && Tally(WinClaim, h, id)
         == Tally(LeaveRunning, h, id) + Tally(LeaseRelease, h, id) + One(HasState(t, id, Running))
  {
    if calls != [] {
      var last := |calls| - 1;
      var (t, h) := Replay(calls[..last]);
      ClaimsAreConserved(calls[..last], id);
      CallBalances(t, calls[last], id);
      assert Replay(calls).1[..last] == h;
    }
  }

  lemma {:induction false} ReplayPrefix(calls: seq<Call>, n: nat)
    requires n <= |calls|
    ensures Replay(calls).1[..n] == Replay(calls[..n]).1
  {
    if n == |calls| {
      assert calls[..n] == calls;
    } else {
      var last := |calls| - 1;
      ReplayPrefix(calls[..last], n);
      assert calls[..last][..n] == calls[..n];
    }
  }

  lemma {:induction false} TallyGrowsByAnEvent(k: Kind, h: History, id: Id, m: nat, n: nat)
    requires m <= n <= |h|
    ensures Tally(k, h[..m], id) <= Tally(k, h[..n], id)
    ensures Tally(k, h[..m], id) < Tally(k, h[..n], id) ==> exists i :: m <= i < n && Is(k, h[i], id)
  {
    if m < n {
      TallyGrowsByAnEvent(k, h, id, m, n - 1);
      assert h[..n][..n - 1] == h[..n - 1];
      assert Is(k, h[n - 1], id) ==> m <= n - 1 < n;
    }
  }

  lemma ReplayStep(calls: seq<Call>, i: nat)
    requires i < |calls|
    ensures var t := Replay(calls[..i]).0;
      && Replay(calls).1[i] == (calls[i], Exec(t, calls[i]).1)
      && Replay(calls[..i + 1]).0 == Exec(t, calls[i]).0
  {
    var front := calls[..i + 1];
    assert front[..i] == calls[..i] && front[i] == calls[i];
    ReplayPrefix(calls, i + 1);
    assert Replay(calls).1[i] == Replay(calls).1[..i + 1][i];
  }

  lemma WinnerFoundItQueued(calls: seq<Call>, i: nat, id: Id)
    requires i < |calls| && Is(WinClaim, Replay(calls).1[i], id)
    ensures HasState(Replay(calls[..i]).0, id, Queued) && HasState(Replay(calls[..i + 1]).0, id, Running)
  {
    ReplayStep(calls, i);
    ClaimReply(Replay(calls[..i]).0, calls[i], id);
  }

  /** Two workers never hold the same task at once: between two successful claims there is
      a guarded exit from `running` or a lease release of that task. */
  lemma ClaimsAlternateWithExits(calls: seq<Call>, i: nat, j: nat, id: Id)
    requires forall c :: c in calls ==> NeverForcesRunning(c)
    requires i < j < |calls|
    requires Is(WinClaim, Replay(calls).1[i], id) && Is(WinClaim, Replay(calls).1[j], id)
    ensures exists k ::
      i < k < j && (Is(LeaveRunning, Replay(calls).1[k], id) || Is(LeaseRelease, Replay(calls).1[k], id))
  {
    var h := Replay(calls).1;
    WinnerFoundItQueued(calls, i, id);
    WinnerFoundItQueued(calls, j, id);
    ReplayPrefix(calls, i + 1);
    ReplayPrefix(calls, j);
    ClaimsAreConserved(calls[..i + 1], id);
    ClaimsAreConserved(calls[..j], id);
    TallyGrowsByAnEvent(WinClaim, h, id, i + 1, j);
    TallyGrowsByAnEvent(LeaveRunning, h, id, i + 1, j);
    TallyGrowsByAnEvent(LeaseRelease, h, id, i + 1, j);
  }
}
