/** Dependency gating (deps.py). */
module Deps {
  import opened Tasks
  import opened QueueSpec
  import opened MemoryBackend

  datatype Status = Ready | Blocked | DependencyFailed

  predicate IsDone(t: Table, d: Id) { d in t && t[d].state == Done }

  predicate IsFailed(t: Table, d: Id) { d in t && (t[d].state == Failed || t[d].state == Rejected) }

  /** A failed dependency outweighs everything; otherwise one that is not done (or not
      known yet) blocks. */
  ghost function StatusOf(t: Table, deps: seq<Id>): Status {
    if exists d :: d in deps && IsFailed(t, d) then DependencyFailed
    else if exists d :: d in deps && !IsDone(t, d) then Blocked
    else Ready
  }

  /** The status in the fields of the task and the rows: ready exactly when every listed id is a
      done row (or nothing is listed), failed exactly when one is a failed or rejected row. */
  lemma StatusMeans(t: Table, task: Task)
    ensures StatusOf(t, DependsOn(task)) == Ready <==>
      (task.spec.Some? ==> forall d :: d in task.spec.value.dependsOn ==> d in t && t[d].state == Done)
    ensures StatusOf(t, DependsOn(task)) == DependencyFailed <==>
      task.spec.Some? && exists d :: d in task.spec.value.dependsOn && d in t && (t[d].state == Failed || t[d].state == Rejected)
  {
    assert task.spec.Some? ==> DependsOn(task) == task.spec.value.dependsOn;
  }

  lemma ReadyMeansDone(t: Table, deps: seq<Id>)
    ensures StatusOf(t, deps) == Ready <==> forall d :: d in deps ==> IsDone(t, d)
  {}

  /** A dependency that is not in the queue (yet) keeps the task waiting and never fails it: the
      verdict is `failed` exactly when another dependency failed, and the task is ready as soon
      as this one and all the others are done. */
  lemma UnknownOnlyBlocks(t: Table, t': Table, deps: seq<Id>, d: Id)
    requires d in deps && d !in t
    ensures StatusOf(t, deps) == DependencyFailed <==> exists x :: x in deps && x != d && IsFailed(t, x)
    ensures StatusOf(t, deps) != Ready
    ensures IsDone(t', d) && (forall x :: x in deps && x != d ==> IsDone(t', x)) ==> StatusOf(t', deps) == Ready
  {}

  function FailedAmong(t: Table, deps: seq<Id>): seq<Id> {
    if deps == [] then []
    else
      var d := deps[|deps| - 1];
      FailedAmong(t, deps[..|deps| - 1]) + if IsFailed(t, d) then [d] else []
  }

  function PendingAmong(t: Table, deps: seq<Id>): seq<Id> {
    if deps == [] then []
    else
      var d := deps[|deps| - 1];
      PendingAmong(t, deps[..|deps| - 1]) + if IsDone(t, d) || IsFailed(t, d) then [] else [d]
  }

  lemma {:induction false} AmongMembers(t: Table, deps: seq<Id>, d: Id)
    ensures d in FailedAmong(t, deps) <==> d in deps && IsFailed(t, d)
    ensures d in PendingAmong(t, deps) <==> d in deps && !IsFailed(t, d) && !IsDone(t, d)
  {
    if deps != [] {
      AmongMembers(t, deps[..|deps| - 1], d);
      assert deps == deps[..|deps| - 1] + [deps[|deps| - 1]];
    }
  }

  /** The status follows from which of the two lists is empty. */
  lemma StatusFromLists(t: Table, deps: seq<Id>)
    ensures StatusOf(t, deps) == if FailedAmong(t, deps) != [] then DependencyFailed
                                 else if PendingAmong(t, deps) != [] then Blocked else Ready
  {
    var f, p := FailedAmong(t, deps), PendingAmong(t, deps);
    forall d ensures (d in f <==> d in deps && IsFailed(t, d))
                  && (d in p <==> d in deps && !IsFailed(t, d) && !IsDone(t, d)) {
      AmongMembers(t, deps, d);
    }
    assert f != [] ==> f[0] in f;
    assert p != [] ==> p[0] in p;
  }

  /** `dependency_status`: the status, with the ids it waits on and those that failed. */
  method DependencyStatus(q: MemoryQueue, task: Task)
    returns (status: Status, blockedOn: seq<Id>, failedOn: seq<Id>)
    requires q.Valid()
    ensures status == StatusOf(q.View(), DependsOn(task))
    ensures status == Ready <==>
      (task.spec.Some? ==> forall d :: d in task.spec.value.dependsOn ==> d in q.tasks && q.tasks[d].state == Done)
    ensures status == DependencyFailed <==>
      task.spec.Some? && exists d ::
        d in task.spec.value.dependsOn && d in q.tasks && (q.tasks[d].state == Failed || q.tasks[d].state == Rejected)
    ensures failedOn == FailedAmong(q.View(), DependsOn(task))
    ensures blockedOn == PendingAmong(q.View(), DependsOn(task))
  {
    var deps := DependsOn(task);
    blockedOn, failedOn := [], [];
    for n := 0 to |deps|
      invariant failedOn == FailedAmong(q.View(), deps[..n])
      invariant blockedOn == PendingAmong(q.View(), deps[..n])
    {
      assert deps[..n + 1][..n] == deps[..n];
      var dependency := q.Get(deps[n]);
      if dependency.None? {
        blockedOn := blockedOn + [deps[n]];
      } else if dependency.value.state == Done {
      } else if dependency.value.state == Failed || dependency.value.state == Rejected {
        failedOn := failedOn + [deps[n]];
      } else {
        blockedOn := blockedOn + [deps[n]];
      }
    }
    assert deps[..|deps|] == deps;
    StatusFromLists(q.View(), deps);
    StatusMeans(q.View(), task);
    status := if failedOn != [] then DependencyFailed else if blockedOn != [] then Blocked else Ready;
  }
}
