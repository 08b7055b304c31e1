/** What each call of the queue port does, stated in the fields of the rows alone. */
module QueueMeaning {
  import opened Tasks
  import opened QueueSpec

  /** Older first; at the same instant the smaller id first (`Tasks.BeforeMeans`). */
  predicate InOrder(q: seq<Task>) {
    forall i, j :: 0 <= i < j < |q| ==>
      q[i].createdAt < q[j].createdAt || (q[i].createdAt == q[j].createdAt && Before(q[i].id, q[j].id))
  }

  /** Everything about a record is shown except its evidence; an empty base branch shows as
      "main". */
  lemma VisibleMeans(x: Task, y: Task)
    ensures Visible(x) == Visible(y) <==>
      && x.id == y.id && x.transportId == y.transportId && x.threadId == y.threadId && x.sender == y.sender
      && x.subject == y.subject && x.state == y.state && x.attempts == y.attempts
      && x.leaseUntil == y.leaseUntil && x.createdAt == y.createdAt
      && (x.spec.None? <==> y.spec.None?)
      && (x.spec.Some? ==>
        var a, b := x.spec.value, y.spec.value;
        && a.repoUrl == b.repoUrl && a.instructions == b.instructions && a.modelRequest == b.modelRequest
        && a.verify == b.verify && a.dependsOn == b.dependsOn
        && (a.baseBranch == b.baseBranch || {a.baseBranch, b.baseBranch} == {"", "main"}))
  {
    assert "main" != "";
  }

  /** Equal replies are equal in kind and in every task they carry, as far as tasks are shown. */
  lemma VisibleReplyMeans(a: Reply, b: Reply)
    requires VisibleReply(a) == VisibleReply(b)
    ensures (a.Claimed? || a.NotFoundError? || a.ConflictError?) ==> a == b
    ensures a.Stored? ==> b.Stored? && SameShown(a.task, b.task)
    ensures a.Found? ==> b.Found? && SameShown(a.task, b.task)
    ensures a.ClaimedNext? ==> b.ClaimedNext? && SameShown(a.task, b.task)
    ensures a.Moved? ==> b.Moved? && Visible(a.moved) == Visible(b.moved)
    ensures a.Listed? || a.Released? ==>
      && (a.Listed? <==> b.Listed?) && (a.Released? <==> b.Released?) && |a.tasks| == |b.tasks|
      && forall i :: 0 <= i < |a.tasks| ==> Visible(a.tasks[i]) == Visible(b.tasks[i])
  {
    if a.Listed? || a.Released? {
      forall i | 0 <= i < |a.tasks| ensures Visible(a.tasks[i]) == Visible(b.tasks[i]) {
        assert VisibleSeq(a.tasks)[i] == VisibleSeq(b.tasks)[i];
      }
    }
  }

  predicate SameShown(x: Option<Task>, y: Option<Task>) {
    (x.None? <==> y.None?) && (x.Some? ==> Visible(x.value) == Visible(y.value))
  }

  /** `get` changes nothing and finds exactly the stored rows. */
  lemma GetMeans(t: Table, id: Id)
    requires WellFormed(t)
    ensures Exec(t, Get(id)) == (t, Found(if id in t then Some(t[id]) else None))
  {}

  /** `enqueue` stores nothing when the id or the transport id is known; otherwise it adds one
      row with the caller's identity and spec, no attempts, no lease and the clock's time. */
  lemma EnqueueMeans(t: Table, x: Task, s: TaskState, now: Time)
    requires WellFormed(t)
    ensures var known := x.id in t || exists i :: i in t && t[i].transportId == x.transportId;
      var (t', r) := Exec(t, Enqueue(x, s, now));
      && (known ==> t' == t && r == Stored(None))
      && (!known ==>
        && t'.Keys == t.Keys + {x.id} && r == Stored(Some(t'[x.id]))
        && (forall i :: i in t ==> t'[i] == t[i])
        && var y := t'[x.id];
           && y.id == x.id && y.transportId == x.transportId && y.threadId == x.threadId && y.sender == x.sender
           && y.subject == x.subject && y.state == s && y.attempts == 0 && y.leaseUntil == None && y.createdAt == now
           && (y.spec.None? <==> x.spec.None?)
           && (x.spec.Some? ==>
             && y.spec.value.(baseBranch := "") == x.spec.value.(baseBranch := "")
             && y.spec.value.baseBranch == if x.spec.value.baseBranch == "" then "main" else x.spec.value.baseBranch))
  {}

  /** `claim` succeeds exactly on a queued row; only its state and lease change. */
  lemma ClaimMeans(t: Table, id: Id, now: Time, lease: Time)
    requires WellFormed(t)
    ensures var (t', r) := Exec(t, Claim(id, now, lease));
      if id in t && t[id].state == Queued
      then r == Claimed(true) && t' == t[id := t[id].(state := Running, leaseUntil := Some(now + lease))]
      else r == Claimed(false) && t' == t
  {}

  /** `transition` checks existence, then the expected state; it changes the state, and clears
      the lease unless the new state is `running`. */
  lemma TransitionMeans(t: Table, id: Id, expected: TaskState, to: TaskState, e: Option<Evidence>)
    requires WellFormed(t)
    ensures var (t', r) := Exec(t, Transition(id, expected, to, e));
      if id !in t then t' == t && r == NotFoundError(id)
      else if t[id].state != expected then t' == t && r == ConflictError(id, expected, t[id].state)
      else
        var moved := if to == Running then t[id].(state := to) else t[id].(state := to, leaseUntil := None);
        t' == t[id := moved] && r == Moved(moved)
  {}

  /** `release_stale` takes back exactly the running rows whose lease ended before `now`: each is
      queued again with one more attempt and no lease, and listed, oldest first. */
  lemma ReleaseMeans(t: Table, now: Time)
    requires WellFormed(t)
    ensures var (t', r) := Exec(t, ReleaseStale(now));
      && r.Released? && t'.Keys == t.Keys && InOrder(r.tasks)
      && (forall y :: y in r.tasks ==> y.id in t && t'[y.id] == y)
      && (forall id :: id in t ==>
        var x := t[id];
        if x.state == Running && x.leaseUntil.Some? && x.leaseUntil.value < now
        then t'[id] == x.(state := Queued, attempts := x.attempts + 1, leaseUntil := None) && t'[id] in r.tasks
        else t'[id] == x && x !in r.tasks && forall y :: y in r.tasks ==> y.id != id)
  {
    var (t', r) := Exec(t, ReleaseStale(now));
    SweptListing(t, now);
    forall id | id in t && !(t[id].state == Running && t[id].leaseUntil.Some? && t[id].leaseUntil.value < now)
      ensures forall y :: y in r.tasks ==> y.id != id
    {
      forall y | y in r.tasks ensures y.id != id { assert y in SweptTasks(t, now); }
    }
    forall id | id in t && t[id].state == Running && t[id].leaseUntil.Some? && t[id].leaseUntil.value < now
      ensures t'[id] in r.tasks
    {
      assert t'[id] in SweptTasks(t, now);
    }
    forall y | y in r.tasks ensures y.id in t && t'[y.id] == y { assert y in SweptTasks(t, now); }
  }

  /** `list` shows rows of the state, oldest first, as many as there are up to the limit; what
      it leaves out comes after everything it shows. */
  lemma ListMeans(t: Table, s: TaskState, limit: nat)
    requires WellFormed(t)
    ensures var (t', r) := Exec(t, List(s, limit));
      && t' == t && r.Listed? && InOrder(r.tasks) && |r.tasks| <= limit
      && (forall x :: x in r.tasks ==> x.id in t && t[x.id] == x && x.state == s)
      && (forall id :: id in t && t[id].state == s && t[id] !in r.tasks ==>
        |r.tasks| == limit && InOrder(r.tasks + [t[id]]))
  {
    InStateListing(t, s);
    var q := Listing(InState(t, s));
    var r := Exec(t, List(s, limit)).1.tasks;
    forall x | x in r ensures x.id in t && t[x.id] == x && x.state == s { assert x in q && x in InState(t, s); }
    forall id | id in t && t[id].state == s && t[id] !in r
      ensures |r| == limit && InOrder(r + [t[id]])
    {
      assert t[id] in InState(t, s) && t[id] in q;
      var k :| 0 <= k < |q| && q[k] == t[id];
      assert forall i :: 0 <= i < |r| ==> r[i] in r && q[i] == r[i];
    }
  }

  /** `claim_next` claims a queued row than which none is older, or finds none queued. */
  lemma ClaimNextMeans(t: Table, now: Time, lease: Time)
    requires WellFormed(t)
    ensures var (t', r) := Exec(t, ClaimNext(now, lease));
      && r.ClaimedNext?
      && (r.task.None? <==> forall id :: id in t ==> t[id].state != Queued)
      && (r.task.None? ==> t' == t)
      && (r.task.Some? ==>
        var x := r.task.value;
        && x.id in t && t[x.id].state == Queued
        && x == t[x.id].(state := Running, leaseUntil := Some(now + lease)) && t' == t[x.id := x]
        && forall id :: id in t && t[id].state == Queued && id != x.id ==>
          x.createdAt < t[id].createdAt || (x.createdAt == t[id].createdAt && Before(x.id, id)))
  {
    InStateListing(t, Queued);
    var q := Listing(InState(t, Queued));
    if q != [] { assert q[0] in q && q[0] in InState(t, Queued); }
    forall id | id in t && t[id].state == Queued
      ensures q != [] && (id != q[0].id ==>
        q[0].createdAt < t[id].createdAt || (q[0].createdAt == t[id].createdAt && Before(q[0].id, id)))
    {
      assert t[id] in InState(t, Queued) && t[id] in q;
      var k :| 0 <= k < |q| && q[k] == t[id];
      assert k > 0 ==> Older(q[0], q[k]);
    }
  }

  /** The dictionary backend's slice, for every limit. */
  lemma SliceMeans(q: seq<Task>, limit: int)
    ensures var n := if limit < 0 then |q| + limit else limit;
      Slice(q, limit) == if n < 0 then [] else if n > |q| then q else q[..n]
  {
    assert q[..|q|] == q;
  }
}
