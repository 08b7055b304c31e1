/** Both backends answer every sequence of calls identically. */
module Backends {
  import opened Tasks
  import opened QueueSpec
  import opened MemoryBackend
  import opened PostgresBackend

  method QueryMemory(q: MemoryQueue, c: Call) returns (reply: Reply)
    requires q.Valid() && (c.Get? || c.List?)
    ensures (q.View(), VisibleReply(reply)) == Exec(q.View(), c)
  {
    if c.Get? {
      var r := q.Get(c.id);
      reply := Found(r);
    } else {
      var r := q.List(c.state, c.limit);
      reply := Listed(r);
    }
  }

  method ClaimMemory(q: MemoryQueue, c: Call) returns (reply: Reply)
    requires q.Valid() && (c.Claim? || c.ClaimNext?)
    modifies q
    ensures q.Valid()
    ensures (q.View(), VisibleReply(reply)) == Exec(old(q.View()), c)
  {
    if c.Claim? {
      var r := q.Claim(c.id, c.now, c.lease);
      reply := Claimed(r);
    } else {
      var r := q.ClaimNext(c.now, c.lease);
      reply := ClaimedNext(r);
    }
  }

  method CallMemory(q: MemoryQueue, c: Call) returns (reply: Reply)
    requires q.Valid()
    modifies q
    ensures q.Valid()
    ensures (q.View(), VisibleReply(reply)) == Exec(old(q.View()), c)
  {
    match c
    case Enqueue(task, state, now) => var r := q.Enqueue(task, state, now); reply := Stored(r);
    case Get(_) => reply := QueryMemory(q, c);
    case List(_, _) => reply := QueryMemory(q, c);
    case Claim(_, _, _) => reply := ClaimMemory(q, c);
    case ClaimNext(_, _) => reply := ClaimMemory(q, c);
    case Transition(id, expected, to, evidence) => reply := q.Transition(id, expected, to, evidence);
    case ReleaseStale(now) => var r := q.ReleaseStale(now); reply := Released(r);
  }

  method QueryPostgres(q: PostgresQueue, c: Call) returns (reply: Reply)
    requires q.Valid() && (c.Get? || c.List?)
    ensures (q.View(), VisibleReply(reply)) == Exec(q.View(), c)
  {
    if c.Get? {
      var r := q.Get(c.id);
      reply := Found(r);
    } else {
      var r := q.List(c.state, c.limit);
      reply := Listed(r.value);
    }
  }

  method ClaimPostgres(q: PostgresQueue, c: Call) returns (reply: Reply)
    requires q.Valid() && (c.Claim? || c.ClaimNext?)
    modifies q
    ensures q.Valid()
    ensures (q.View(), VisibleReply(reply)) == Exec(old(q.View()), c)
  {
    if c.Claim? {
      var r := q.Claim(c.id, c.now, c.lease);
      reply := Claimed(r);
    } else {
      var r := q.ClaimNext(c.now, c.lease);
      reply := ClaimedNext(r);
    }
  }

  method CallPostgres(q: PostgresQueue, c: Call, clock: Time) returns (reply: Reply)
    requires q.Valid()
    modifies q
    ensures q.Valid()
    ensures (q.View(), VisibleReply(reply)) == Exec(old(q.View()), c)
  {
    match c
    case Enqueue(task, state, now) => var r := q.Enqueue(task, state, now); reply := Stored(r);
    case Get(_) => reply := QueryPostgres(q, c);
    case List(_, _) => reply := QueryPostgres(q, c);
    case Claim(_, _, _) => reply := ClaimPostgres(q, c);
    case ClaimNext(_, _) => reply := ClaimPostgres(q, c);
    case Transition(id, expected, to, evidence) =>
      reply := q.Transition(id, expected, to, evidence, clock);
    case ReleaseStale(now) => var r := q.ReleaseStale(now); reply := Released(r);
  }

  /** The replies two fresh queues give to the same calls, as far as both can show them.
      `clock` is whatever the SQL backend stamps into `updated_at`. */
  method RunBoth(calls: seq<Call>, clock: Time) returns (memory: seq<Reply>, postgres: seq<Reply>)
    ensures |memory| == |postgres| == |calls|
    ensures forall i :: 0 <= i < |calls| ==>
      VisibleReply(memory[i]) == VisibleReply(postgres[i]) == Replay(calls).1[i].1
  {
    var m := new MemoryQueue();
    var p := new PostgresQueue();
    memory, postgres := [], [];
    for n := 0 to |calls|
      invariant m.Valid() && p.Valid() && fresh(m) && fresh(p)
      invariant |memory| == |postgres| == n
      invariant m.View() == p.View() == Replay(calls[..n]).0
      invariant forall i :: 0 <= i < n ==>
        VisibleReply(memory[i]) == VisibleReply(postgres[i]) == Replay(calls[..n]).1[i].1
    {
      assert calls[..n + 1][..n] == calls[..n];
      var a := CallMemory(m, calls[n]);
      var b := CallPostgres(p, calls[n], clock);
      memory, postgres := memory + [a], postgres + [b];
    }
    assert calls[..|calls|] == calls;
  }
}
