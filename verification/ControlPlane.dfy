/** The inbound loop (control_plane.py) with the approval service (approvals_service.py), run
    sequentially. Authentication, repository policy, scanners and deciders answer arbitrarily
    per delivery; parsing a reply and normalising a message depend on the message alone. */
module ControlPlane {
  import opened Tasks
  import opened QueueSpec
  import opened MemoryBackend
  import A = Approvals
  import L = Lifecycle
  import AuthResults

  datatype ApprovalReply = ApprovalReply(token: A.Token, approve: bool)

  datatype Message = Message(
    transportId: string,
    threadId: Option<string>,
    sender: Option<string>,
    subject: Option<string>,
    body: string)

  datatype Config = Config(
    approvals: bool,
    parse: string -> Option<ApprovalReply>,
    normalize: Message -> Option<TaskSpec>,
    ttl: Time)

  /** A message with what the outside answers about it on this delivery, the random token that
      would be drawn for it, and the clock readings. */
  datatype Delivery = Delivery(
    message: Message,
    admitted: bool,
    allowed: bool,
    scanner: bool,
    security: bool,
    needsHuman: bool,
    token: A.Token,
    now: Time,
    stamp: Time)

  datatype Report = Report(
    accepted: seq<string>,
    rejected: seq<string>,
    denied: seq<string>,
    decided: seq<string>,
    suspicious: seq<string>,
    gated: seq<string>,
    needsHuman: seq<string>)

  datatype Plane = Plane(table: Table, store: A.Store, report: Report)

  const EmptyReport := Report([], [], [], [], [], [], [])

  // ---- Approval replies

  ghost predicate Applicable(t: Table, store: A.Store, r: ApprovalReply, m: Message) {
    r.token in store && store[r.token].taskId in t
    && var task := t[store[r.token].taskId];
       task.state == Action && A.Fits(m.sender, m.threadId, task.sender, task.threadId)
  }

  /** `ApprovalService.apply`: check, redeem, and move the task to what the action implies. */
  ghost function ApplySpec(t: Table, store: A.Store, r: ApprovalReply, m: Message, check: Time, stamp: Time)
    : (x: (Table, A.Store, bool))
    requires WellFormed(t)
    ensures WellFormed(x.0)
  {
    if !Applicable(t, store, r, m) then (t, store, false)
    else
      var (store', res) := A.RedeemSpec(store, r.token, check, stamp);
      if !res.Redeemed? then (t, store', false)
      else
        var target := L.Target(r.approve, res.approval.action);
        (TransitionSpec(t, store[r.token].taskId, Action, target).0, store', true)
  }

  /** The token is known, unused and unexpired, its task is waiting in `action`, and the message's
      sender and thread fit it. */
  ghost predicate MayDecide(t: Table, store: A.Store, token: A.Token, m: Message, check: Time) {
    token in store && var a := store[token];
      && a.usedAt.None? && check < a.expiresAt
      && a.taskId in t && t[a.taskId].state == Action
      && (m.sender.Some? && t[a.taskId].sender.Some? ==>
        AuthResults.Lower(m.sender.value) == AuthResults.Lower(t[a.taskId].sender.value))
      && (m.threadId.Some? && t[a.taskId].threadId.Some? ==> m.threadId == t[a.taskId].threadId)
  }

  /** A reply decides exactly when it may; approving a `run` token queues the task, approving any
      other marks it approved, anything else rejects it; the token is used up; and a reply that
      does not decide changes nothing. */
  lemma ApplyMeans(t: Table, store: A.Store, r: ApprovalReply, m: Message, check: Time, stamp: Time)
    requires WellFormed(t)
    ensures var (t', store', ok) := ApplySpec(t, store, r, m, check, stamp);
      && (ok <==> MayDecide(t, store, r.token, m, check))
      && (!ok ==> t' == t && store' == store)
      && (ok ==>
        var a, id := store[r.token], store[r.token].taskId;
        && store' == store[r.token := a.(usedAt := Some(stamp))]
        && t' == t[id := t[id].(leaseUntil := None,
             state := if !r.approve then Rejected else if a.action == "run" then Queued else Approved)])
  {}

  method Apply(q: MemoryQueue, s: A.ApprovalRegistry, r: ApprovalReply, m: Message, check: Time, stamp: Time)
    returns (ok: bool)
    requires q.Valid() && s.Valid()
    modifies q, s
    ensures q.Valid() && s.Valid()
    ensures (q.View(), s.byToken, ok) == ApplySpec(old(q.View()), old(s.byToken), r, m, check, stamp)
    ensures ok <==> MayDecide(old(q.View()), old(s.byToken), r.token, m, check)
    ensures !ok ==> q.View() == old(q.View()) && s.byToken == old(s.byToken)
    ensures ok ==>
      var a, id := old(s.byToken)[r.token], old(s.byToken)[r.token].taskId;
      && s.byToken == old(s.byToken)[r.token := a.(usedAt := Some(stamp))]
      && q.View() == old(q.View())[id := old(q.View())[id].(leaseUntil := None,
           state := if !r.approve then Rejected else if a.action == "run" then Queued else Approved)]
  {
    ApplyMeans(q.View(), s.byToken, r, m, check, stamp);
    if r.token !in s.byToken { return false; }
    var approval := s.byToken[r.token];
    var task := q.Get(approval.taskId);
    if task.None? || task.value.state != Action { return false; }
    if A.Differs(A.LowerOption(m.sender), A.LowerOption(task.value.sender)) { return false; }
    if A.Differs(m.threadId, task.value.threadId) { return false; }
    var res := s.Redeem(r.token, check, stamp);
    if !res.Redeemed? { return false; }
    var target := L.Target(r.approve, res.approval.action);
    var _ := q.Transition(approval.taskId, task.value.state, target, None);
    return true;
  }

  // ---- Ingest

  function TaskFor(m: Message, spec: TaskSpec): Task {
    Task(m.transportId, m.transportId, m.threadId, m.sender, m.subject, Received, 0, None, 0, Some(spec), None)
  }

  /** A decision is only read from an in-thread reply, and only with approvals configured. */
  function Decision(c: Config, m: Message): Option<ApprovalReply> {
    if c.approvals && m.threadId.Some? then c.parse(m.body) else None
  }

  /** `_flag_suspicious`: the report's new list and the verdict, with the code's test that
      skips the second scanner's finding for an id already listed. */
  function Flag(suspicious: seq<string>, d: Delivery): (seq<string>, bool) {
    var id := d.message.transportId;
    var (list, yes) := if d.scanner then (suspicious + [id], true) else (suspicious, false);
    if d.security && id !in list then (list + [id], true) else (list, yes)
  }

  predicate Gated(c: Config, flagged: bool, d: Delivery) { c.approvals && (flagged || d.needsHuman) }

  ghost function Store(c: Config, p: Plane, d: Delivery, spec: TaskSpec): (r: Plane)
    requires WellFormed(p.table)
    ensures WellFormed(r.table)
  {
    var id := d.message.transportId;
    var (suspicious, flagged) := Flag(p.report.suspicious, d);
    var gated := Gated(c, flagged, d);
    var (t', reply) := EnqueueSpec(p.table, TaskFor(d.message, spec), if gated then Action else Queued, d.now);
    var report := p.report.(suspicious := suspicious);
    if reply.task.None? then Plane(t', p.store, report)
    else if !gated then Plane(t', p.store, report.(accepted := report.accepted + [id]))
    else
      Plane(t', p.store[d.token := A.Issued(d.token, id, "run", d.now, c.ttl)],
            report.(accepted := report.accepted + [id], gated := report.gated + [id],
                    needsHuman := if flagged then report.needsHuman else report.needsHuman + [id]))
  }

  ghost function Handle(c: Config, p: Plane, d: Delivery): (r: Plane)
    requires WellFormed(p.table)
    ensures WellFormed(r.table)
  {
    var m, id := d.message, d.message.transportId;
    if !d.admitted then p.(report := p.report.(denied := p.report.denied + [id]))
    else if Decision(c, m).Some? then
      var (t', store', ok) := ApplySpec(p.table, p.store, Decision(c, m).value, m, d.now, d.stamp);
      Plane(t', store', if ok then p.report.(decided := p.report.decided + [id]) else p.report)
    else if c.normalize(m).None? || !d.allowed then
      p.(report := p.report.(rejected := p.report.rejected + [id]))
    else Store(c, p, d, c.normalize(m).value)
  }

  ghost function HandleAll(c: Config, p: Plane, ds: seq<Delivery>): (r: Plane)
    requires WellFormed(p.table)
    ensures WellFormed(r.table)
  {
    if ds == [] then p else Handle(c, HandleAll(c, p, ds[..|ds| - 1]), ds[|ds| - 1])
  }

  class Inbound {
    const c: Config
    const queue: MemoryQueue
    const registry: A.ApprovalRegistry

    constructor (c: Config, queue: MemoryQueue, registry: A.ApprovalRegistry)
      ensures this.c == c && this.queue == queue && this.registry == registry
    {
      this.c, this.queue, this.registry := c, queue, registry;
    }

    method Enqueue(d: Delivery, spec: TaskSpec, report: Report) returns (r: Report)
      requires queue.Valid() && registry.Valid()
      modifies queue, registry
      ensures queue.Valid() && registry.Valid()
      ensures Plane(queue.View(), registry.byToken, r)
           == Store(c, Plane(old(queue.View()), old(registry.byToken), report), d, spec)
    {
      var id := d.message.transportId;
      var (suspicious, flagged) := Flag(report.suspicious, d);
      r := report.(suspicious := suspicious);
      var gated := Gated(c, flagged, d);
      var stored := queue.Enqueue(TaskFor(d.message, spec), if gated then Action else Queued, d.now);
      if stored.None? { return; }
      r := r.(accepted := r.accepted + [id]);
      if gated {
        var _ := registry.Issue(d.token, id, "run", d.now, c.ttl);
        r := r.(gated := r.gated + [id]);
        if !flagged { r := r.(needsHuman := r.needsHuman + [id]); }
      }
    }

    method HandleOne(d: Delivery, report: Report) returns (r: Report)
      requires queue.Valid() && registry.Valid()
      modifies queue, registry
      ensures queue.Valid() && registry.Valid()
      ensures Plane(queue.View(), registry.byToken, r)
           == Handle(c, Plane(old(queue.View()), old(registry.byToken), report), d)
    {
      var m, id := d.message, d.message.transportId;
      r := report;
      if !d.admitted {
        r := r.(denied := r.denied + [id]);
      } else if Decision(c, m).Some? {
        var ok := Apply(queue, registry, Decision(c, m).value, m, d.now, d.stamp);
        if ok { r := r.(decided := r.decided + [id]); }
      } else if c.normalize(m).None? || !d.allowed {
        r := r.(rejected := r.rejected + [id]);
      } else {
        r := Enqueue(d, c.normalize(m).value, report);
      }
    }

    /** `ingest` for one batch. */
    method Ingest(ds: seq<Delivery>) returns (report: Report)
      requires queue.Valid() && registry.Valid()
      modifies queue, registry
      ensures queue.Valid() && registry.Valid()
      ensures Plane(queue.View(), registry.byToken, report)
           == HandleAll(c, Plane(old(queue.View()), old(registry.byToken), EmptyReport), ds)
    {
      report := EmptyReport;
      for n := 0 to |ds|
        invariant queue.Valid() && registry.Valid()
        invariant Plane(queue.View(), registry.byToken, report)
               == HandleAll(c, Plane(old(queue.View()), old(registry.byToken), EmptyReport), ds[..n])
      {
        assert ds[..n + 1][..n] == ds[..n];
        report := HandleOne(ds[n], report);
      }
      assert ds[..|ds|] == ds;
    }
  }

  // ---- One delivery, in the fields of the message and the rows

  /** A message that is not admitted is only reported; so is one that is no task, or whose
      repository is not allowed. */
  lemma RefusedMeans(c: Config, p: Plane, d: Delivery)
    requires WellFormed(p.table)
    ensures var p', id := Handle(c, p, d), d.message.transportId;
      var decision := c.approvals && d.message.threadId.Some? && c.parse(d.message.body).Some?;
      && (!d.admitted ==> p' == p.(report := p.report.(denied := p.report.denied + [id])))
      && (d.admitted && !decision && (c.normalize(d.message).None? || !d.allowed) ==>
        p' == p.(report := p.report.(rejected := p.report.rejected + [id])))
  {}

  /** A reply is applied, and reported exactly when it decided. */
  lemma DecisionMeans(c: Config, p: Plane, d: Delivery)
    requires WellFormed(p.table) && d.admitted
    requires c.approvals && d.message.threadId.Some? && c.parse(d.message.body).Some?
    ensures var p', r := Handle(c, p, d), c.parse(d.message.body).value;
      var ok := MayDecide(p.table, p.store, r.token, d.message, d.now);
      p'.report == if ok then p.report.(decided := p.report.decided + [d.message.transportId]) else p.report
  {
    ApplyMeans(p.table, p.store, c.parse(d.message.body).value, d.message, d.now, d.stamp);
  }

  /** The delivery reaches the queue. */
  predicate Offered(c: Config, d: Delivery) {
    && d.admitted && d.allowed && c.normalize(d.message).Some?
    && !(c.approvals && d.message.threadId.Some? && c.parse(d.message.body).Some?)
  }

  /** Offering a known message stores nothing; a new one is stored once, with its own thread,
      sender and subject, the normalised spec and the clock's time, and nothing else moves. */
  lemma OfferedMeans(c: Config, p: Plane, d: Delivery)
    requires WellFormed(p.table) && Offered(c, d)
    ensures var p', m := Handle(c, p, d), d.message; var id := m.transportId;
      var known := id in p.table || exists i :: i in p.table && p.table[i].transportId == id;
      && p'.report.accepted == (if known then p.report.accepted else p.report.accepted + [id])
      && p'.report.suspicious == (if d.scanner || (d.security && id !in p.report.suspicious)
                                  then p.report.suspicious + [id] else p.report.suspicious)
      && p'.report.denied == p.report.denied && p'.report.rejected == p.report.rejected
      && p'.report.decided == p.report.decided
      && (known ==> p'.table == p.table && p'.store == p.store)
      && (!known ==>
        && id in p'.table && p'.table == p.table[id := p'.table[id]]
        && var x := p'.table[id];
           && x.id == id && x.transportId == id && x.threadId == m.threadId && x.sender == m.sender
           && x.subject == m.subject && x.attempts == 0 && x.leaseUntil == None && x.createdAt == d.now
           && x.spec.Some? && x.spec.value.(baseBranch := "") == c.normalize(m).value.(baseBranch := ""))
  {}

  // ---- Redelivery

  /** The delivery was stored as a new task. */
  ghost predicate Accepts(c: Config, p: Plane, d: Delivery)
    requires WellFormed(p.table)
  {
    Handle(c, p, d).report.accepted != p.report.accepted
  }

  lemma HandleExtends(c: Config, p: Plane, d: Delivery)
    requires WellFormed(p.table)
    ensures Extends(p.table, Handle(c, p, d).table)
  {}

  lemma {:induction false} HandleAllExtends(c: Config, p: Plane, ds: seq<Delivery>)
    requires WellFormed(p.table)
    ensures Extends(p.table, HandleAll(c, p, ds).table)
  {
    if ds != [] {
      HandleAllExtends(c, p, ds[..|ds| - 1]);
      HandleExtends(c, HandleAll(c, p, ds[..|ds| - 1]), ds[|ds| - 1]);
    }
  }

  lemma AcceptedIsStored(c: Config, p: Plane, d: Delivery)
    requires WellFormed(p.table) && Accepts(c, p, d)
    ensures d.message.transportId in Handle(c, p, d).table && Decision(c, d.message).None?
  {}

  /** Whole batches, each with a report of its own. */
  ghost function HandleBatches(c: Config, p: Plane, batches: seq<seq<Delivery>>): (r: Plane)
    requires WellFormed(p.table)
    ensures WellFormed(r.table)
  {
    if batches == [] then p
    else
      var q := HandleBatches(c, p, batches[..|batches| - 1]);
      HandleAll(c, q.(report := EmptyReport), batches[|batches| - 1])
  }

  lemma {:induction false} HandleBatchesExtends(c: Config, p: Plane, batches: seq<seq<Delivery>>)
    requires WellFormed(p.table)
    ensures Extends(p.table, HandleBatches(c, p, batches).table)
  {
    if batches != [] {
      HandleBatchesExtends(c, p, batches[..|batches| - 1]);
      var q := HandleBatches(c, p, batches[..|batches| - 1]);
      HandleAllExtends(c, q.(report := EmptyReport), batches[|batches| - 1]);
    }
  }

  /** After a message is accepted, whatever the rest of its batch, the batches after it and the
      start of the next one hold, delivering it again changes no task and issues no token. */
  lemma RedeliveryIsNoOp(c: Config, p: Plane, d: Delivery, rest: seq<Delivery>,
                         batches: seq<seq<Delivery>>, start: seq<Delivery>, again: Delivery)
    requires WellFormed(p.table) && Accepts(c, p, d) && again.message == d.message
    ensures
      var later := HandleBatches(c, HandleAll(c, Handle(c, p, d), rest), batches);
      var before := HandleAll(c, later.(report := EmptyReport), start);
      var after := Handle(c, before, again);
      after.table == before.table && after.store == before.store
      && after.report.accepted == before.report.accepted
  {
    AcceptedIsStored(c, p, d);
    var p1 := HandleAll(c, Handle(c, p, d), rest);
    var p2 := HandleBatches(c, p1, batches);
    HandleAllExtends(c, Handle(c, p, d), rest);
    HandleBatchesExtends(c, p1, batches);
    HandleAllExtends(c, p2.(report := EmptyReport), start);
  }

  // ---- Reports

  ghost predicate Disjoint(a: seq<string>, b: seq<string>) { forall x :: x in a ==> x !in b }

  predicate Subset(a: seq<string>, b: seq<string>) { forall x :: x in a ==> x in b }

  predicate Distinct(ds: seq<Delivery>) {
    forall i, j :: 0 <= i < j < |ds| ==> ds[i].message.transportId != ds[j].message.transportId
  }

  ghost predicate Listed(r: Report, id: string) {
    id in r.accepted || id in r.rejected || id in r.denied || id in r.decided
  }

  ghost predicate Sound(r: Report) {
    && Disjoint(r.accepted, r.rejected) && Disjoint(r.accepted, r.denied) && Disjoint(r.accepted, r.decided)
    && Disjoint(r.rejected, r.denied) && Disjoint(r.rejected, r.decided) && Disjoint(r.denied, r.decided)
  }

  ghost predicate GatesSound(r: Report) { Subset(r.needsHuman, r.gated) && Subset(r.gated, r.accepted) }

  /** One delivery is listed under at most one heading. */
  lemma HandleListsOnce(c: Config, p: Plane, d: Delivery)
    requires WellFormed(p.table) && Sound(p.report) && !Listed(p.report, d.message.transportId)
    ensures Sound(Handle(c, p, d).report)
  {}

  lemma HandleLists(c: Config, p: Plane, d: Delivery, id: string)
    requires WellFormed(p.table) && Listed(Handle(c, p, d).report, id)
    ensures Listed(p.report, id) || id == d.message.transportId
  {}

  lemma HandleKeepsGates(c: Config, p: Plane, d: Delivery)
    requires WellFormed(p.table) && GatesSound(p.report)
    ensures GatesSound(Handle(c, p, d).report)
  {}

  lemma {:induction false} ListedCameIn(c: Config, p: Plane, ds: seq<Delivery>, id: string)
    requires WellFormed(p.table) && p.report == EmptyReport && Listed(HandleAll(c, p, ds).report, id)
    ensures exists d :: d in ds && d.message.transportId == id
  {
    var last := |ds| - 1;
    HandleLists(c, HandleAll(c, p, ds[..last]), ds[last], id);
    if id == ds[last].message.transportId {
      assert ds[last] in ds;
    } else {
      ListedCameIn(c, p, ds[..last], id);
      assert forall d :: d in ds[..last] ==> d in ds;
    }
  }

  /** In a batch of distinct messages each lands under at most one of accepted, rejected, denied
      and decided; in any batch, needs_human is within gated, and gated within accepted. */
  lemma {:induction false} ReportsAreSound(c: Config, p: Plane, ds: seq<Delivery>)
    requires WellFormed(p.table) && p.report == EmptyReport
    ensures GatesSound(HandleAll(c, p, ds).report)
    ensures Distinct(ds) ==> Sound(HandleAll(c, p, ds).report)
  {
    if ds != [] {
      var last := |ds| - 1;
      var before := HandleAll(c, p, ds[..last]);
      ReportsAreSound(c, p, ds[..last]);
      HandleKeepsGates(c, before, ds[last]);
      if Distinct(ds) {
        if Listed(before.report, ds[last].message.transportId) {
          ListedCameIn(c, p, ds[..last], ds[last].message.transportId);
          assert false;
        }
        HandleListsOnce(c, before, ds[last]);
      }
    }
  }

  // ---- Flagged messages

  /** An id already reported suspicious has been offered to the queue. */
  ghost predicate SuspectsKnown(p: Plane) {
    forall x :: x in p.report.suspicious ==> Known(p.table, x, x)
  }

  lemma KnownPersists(t: Table, t': Table, x: string)
    requires Known(t, x, x) && Extends(t, t')
    ensures Known(t', x, x)
  {
    if x !in t {
      var i :| i in t && t[i].transportId == x;
      assert i in t' && t'[i].transportId == x;
    }
  }

  lemma StoreKeepsSuspects(c: Config, p: Plane, d: Delivery, spec: TaskSpec)
    requires WellFormed(p.table) && SuspectsKnown(p)
    ensures SuspectsKnown(Store(c, p, d, spec))
  {
    var p' := Store(c, p, d, spec);
    var id := d.message.transportId;
    assert Extends(p.table, p'.table) && Known(p'.table, id, id);
    forall x | x in p'.report.suspicious ensures Known(p'.table, x, x) {
      if x != id {
        assert x in p.report.suspicious;
        KnownPersists(p.table, p'.table, x);
      }
    }
  }

  lemma {:induction false} SuspectsStayKnown(c: Config, p: Plane, ds: seq<Delivery>)
    requires WellFormed(p.table) && p.report == EmptyReport
    ensures SuspectsKnown(HandleAll(c, p, ds))
  {
    if ds != [] {
      var last := |ds| - 1;
      var q := HandleAll(c, p, ds[..last]);
      var q' := Handle(c, q, ds[last]);
      SuspectsStayKnown(c, p, ds[..last]);
      HandleExtends(c, q, ds[last]);
      if q'.report.suspicious == q.report.suspicious {
        forall x | x in q'.report.suspicious ensures Known(q'.table, x, x) { KnownPersists(q.table, q'.table, x); }
      } else {
        StoreKeepsSuspects(c, q, ds[last], c.normalize(ds[last].message).value);
      }
    }
  }

  /** Where an accepted message goes: parked in `action`, with a run token of its own, exactly
      when approvals are configured and a scanner flags it or it needs a human; queued otherwise.
      Skipping a second finding for an id already listed lets none through: such an id is
      already known to the queue. */
  lemma RiskyIsParked(c: Config, p: Plane, ds: seq<Delivery>, d: Delivery)
    requires WellFormed(p.table) && p.report == EmptyReport
    requires Accepts(c, HandleAll(c, p, ds), d)
    ensures var before := HandleAll(c, p, ds); var after, id := Handle(c, before, d), d.message.transportId;
      var risky := c.approvals && (d.scanner || d.security || d.needsHuman);
      && id in after.table && after.table[id].state == (if risky then Action else Queued)
      && after.report.gated == before.report.gated + (if risky then [id] else [])
      && after.report.needsHuman ==
           before.report.needsHuman + (if risky && !d.scanner && !d.security then [id] else [])
      && after.store == (if risky
           then before.store[d.token := A.Approval(d.token, id, "run", d.now, d.now + c.ttl, None)] else before.store)
  {
    SuspectsStayKnown(c, p, ds);
    var before := HandleAll(c, p, ds);
    assert d.message.transportId !in before.report.suspicious;
    StoredWhere(c, before, d, c.normalize(d.message).value);
  }

  lemma StoredWhere(c: Config, p: Plane, d: Delivery, spec: TaskSpec)
    requires WellFormed(p.table) && d.message.transportId !in p.report.suspicious
    requires !Known(p.table, d.message.transportId, d.message.transportId)
    ensures var after, id := Store(c, p, d, spec), d.message.transportId;
      var risky := c.approvals && (d.scanner || d.security || d.needsHuman);
      && id in after.table && after.table[id].state == (if risky then Action else Queued)
      && after.report.gated == p.report.gated + (if risky then [id] else [])
      && after.report.needsHuman == p.report.needsHuman + (if risky && !d.scanner && !d.security then [id] else [])
      && after.store == (if risky
           then p.store[d.token := A.Approval(d.token, id, "run", d.now, d.now + c.ttl, None)] else p.store)
  {}
}
