/** Tasks parked at ingest run only after their own approval, in every interleaving. */
module LifecycleApproval {
  import opened Tasks
  import opened QueueSpec
  import opened Lifecycle
  import opened LifecycleOrder
  import A = Approvals

  /** A `run` token issued for `id` was redeemed, before it expired, with "approve", by a reply
      from the task's own sender and thread (where both are known). */
  ghost predicate RunApproved(rs: seq<Redemption>, id: Id, sender: Option<string>, threadId: Option<string>) {
    exists r :: r in rs && r.mail.approve && r.a.action == "run" && r.a.taskId == id && r.at < r.a.expiresAt
                && A.Fits(r.mail.sender, r.mail.threadId, sender, threadId)
  }

  predicate Runnable(s: TaskState) { s == Queued || s == Running || s == Done }

  ghost predicate GateHolds(t: Table, claims: seq<Id>, rs: seq<Redemption>, parked: set<Id>) {
    forall id :: id in parked ==>
      id in t && (Runnable(t[id].state) || id in claims ==> RunApproved(rs, id, t[id].sender, t[id].threadId))
  }

  /** Apart from its use stamp, `a` is a stored token. */
  ghost predicate FromStore(store: A.Store, a: A.Approval) {
    a.token in store && store[a.token].(usedAt := a.usedAt) == a
  }

  /** Each redemption used a distinct stored token, before its expiry. */
  ghost predicate TokensHold(store: A.Store, rs: seq<Redemption>) {
    && (forall k :: k in store ==> store[k].token == k)
    && (forall i :: 0 <= i < |rs| ==>
      rs[i].at < rs[i].a.expiresAt && rs[i].a.token in store
      && store[rs[i].a.token] == rs[i].a && rs[i].a.usedAt.Some?)
    && (forall i, j :: 0 <= i < j < |rs| ==> rs[i].a.token != rs[j].a.token)
  }

  /** The copy in hand is of a row that still has the same origin, which the reply fits. */
  ghost predicate Decides(t: Table, mail: ReplyMail, a: A.Approval, task: Task) {
    && task.id == a.taskId && task.state == Action && Fits(mail, task)
    && task.id in t && SameOrigin(t[task.id], task)
  }

  ghost predicate ReplyOk(t: Table, store: A.Store, rs: seq<Redemption>, rc: Rc) {
    match rc
    case Waiting => true
    case HasToken(mail, a) => FromStore(store, a)
    case HasTask(mail, a, task) => FromStore(store, a) && Decides(t, mail, a, task)
    case HasRedeemed(mail, a, task) =>
      Decides(t, mail, a, task) && exists r :: r in rs && r.mail == mail && r.a == a && r.at < a.expiresAt
  }

  ghost predicate GateInv(s: System) {
    && OrderInv(s)
    && TokensHold(s.store, s.redemptions)
    && GateHolds(s.table, s.claims, s.redemptions, s.parked)
    && forall r :: r in s.replies ==> ReplyOk(s.table, s.store, s.redemptions, s.replies[r])
  }

  /** Tokens are only added or stamped. */
  ghost predicate StoreExtends(store: A.Store, store': A.Store) {
    forall k :: k in store ==> k in store' && store'[k].(usedAt := store[k].usedAt) == store[k]
  }

  lemma ReplyOkIsStable(s: System, s': System, rc: Rc)
    requires ReplyOk(s.table, s.store, s.redemptions, rc)
    requires Extends(s.table, s'.table) && StoreExtends(s.store, s'.store) && s.redemptions <= s'.redemptions
    ensures ReplyOk(s'.table, s'.store, s'.redemptions, rc)
  {
    assert forall r :: r in s.redemptions ==> r in s'.redemptions;
  }

  lemma ApprovedIsStable(rs: seq<Redemption>, rs': seq<Redemption>, id: Id,
                         sender: Option<string>, threadId: Option<string>)
    requires RunApproved(rs, id, sender, threadId) && rs <= rs'
    ensures RunApproved(rs', id, sender, threadId)
  {
    var r :| r in rs && r.mail.approve && r.a.action == "run" && r.a.taskId == id && r.at < r.a.expiresAt
             && A.Fits(r.mail.sender, r.mail.threadId, sender, threadId);
    assert r in rs';
  }

  /** A guarded transition opens a gate only into a runnable state. */
  lemma TransitionKeepsGate(t: Table, id: Id, expected: TaskState, to: TaskState,
                            claims: seq<Id>, rs: seq<Redemption>, parked: set<Id>)
    requires WellFormed(t) && GateHolds(t, claims, rs, parked)
    requires Runnable(to) && id in parked && id in t ==> RunApproved(rs, id, t[id].sender, t[id].threadId)
    ensures GateHolds(TransitionSpec(t, id, expected, to).0, claims, rs, parked)
  {}

  lemma WorkKeepsGate(max: int, s: System, w: nat, i: Input)
    requires GateInv(s)
    ensures var s' := Step(max, s, Work(w, i)); GateHolds(s'.table, s'.claims, s'.redemptions, s'.parked)
  {
    var pc := PcOf(s, w);
    if pc.Checking? || pc.CountingAttempts? || pc.AskingPolicy? {
      TransitionKeepsGate(s.table, pc.task.id, pc.task.state, Failed, s.claims, s.redemptions, s.parked);
      assert WorkerNext(max, s.table, pc, i).won == None;
    } else if pc.Executing? {
      TransitionKeepsGate(s.table, pc.row.id, pc.row.state, if i.ok then Done else Failed,
                          s.claims, s.redemptions, s.parked);
    } else if pc.Claiming? {
      ClaimKeepsGate(s.table, pc.task.id, i.now + i.lease, s.claims, s.redemptions, s.parked);
    }
  }

  /** Claiming needs a queued row, so a parked task that is claimed was approved. */
  lemma ClaimKeepsGate(t: Table, id: Id, until: Time, claims: seq<Id>, rs: seq<Redemption>, parked: set<Id>)
    requires WellFormed(t) && GateHolds(t, claims, rs, parked)
    ensures var (t', reply) := ClaimSpec(t, id, until);
      GateHolds(t', if reply.ok then claims + [id] else claims, rs, parked)
  {}

  lemma IngestKeepsGate(max: int, s: System, e: Event)
    requires GateInv(s) && e.Ingest?
    ensures var s' := Step(max, s, e); GateHolds(s'.table, s'.claims, s'.redemptions, s'.parked)
  {
    assert forall id :: id in s.claims ==> id in s.table;
  }

  lemma SweepKeepsGate(max: int, s: System, e: Event)
    requires GateInv(s) && e.SweepLeases?
    ensures var s' := Step(max, s, e); GateHolds(s'.table, s'.claims, s'.redemptions, s'.parked)
  {}

  lemma RedeemKeepsTokens(store: A.Store, rs: seq<Redemption>, a: A.Approval, mail: ReplyMail, check: Time, stamp: Time)
    requires TokensHold(store, rs) && FromStore(store, a)
    requires A.RedeemSpec(store, a.token, check, stamp).1.Redeemed?
    ensures var (store', r) := A.RedeemSpec(store, a.token, check, stamp);
      && StoreExtends(store, store')
      && TokensHold(store', rs + [Redemption(mail, r.approval, check)])
      && r.approval.taskId == a.taskId
  {
    var (store', r) := A.RedeemSpec(store, a.token, check, stamp);
    forall i | 0 <= i < |rs| ensures rs[i].a.token != a.token {}
  }

  lemma ReplyKeepsGate(max: int, s: System, e: Event)
    requires GateInv(s) && e.Reply?
    ensures var s' := Step(max, s, e); GateHolds(s'.table, s'.claims, s'.redemptions, s'.parked)
  {
    var s', rc := Step(max, s, e), RcOf(s, e.reply);
    if rc.HasRedeemed? {
      RedeemedIsApproved(s, rc);
      TransitionKeepsGate(s.table, rc.task.id, rc.task.state, Target(rc.mail.approve, rc.a.action),
                          s.claims, s.redemptions, s.parked);
    } else {
      forall id | id in s.parked && RunApproved(s.redemptions, id, s.table[id].sender, s.table[id].threadId)
        ensures RunApproved(s'.redemptions, id, s.table[id].sender, s.table[id].threadId)
      {
        ApprovedIsStable(s.redemptions, s'.redemptions, id, s.table[id].sender, s.table[id].threadId);
      }
    }
  }

  lemma RedeemedIsApproved(s: System, rc: Rc)
    requires rc.HasRedeemed? && ReplyOk(s.table, s.store, s.redemptions, rc)
    ensures var x := s.table[rc.task.id];
      Target(rc.mail.approve, rc.a.action) == Queued ==> RunApproved(s.redemptions, rc.task.id, x.sender, x.threadId)
  {
    var r :| r in s.redemptions && r.mail == rc.mail && r.a == rc.a && r.at < rc.a.expiresAt;
    assert Target(rc.mail.approve, rc.a.action) == Queued ==> r.mail.approve && r.a.action == "run";
  }

  lemma ReplyKeepsTokens(max: int, s: System, e: Event)
    requires GateInv(s) && e.Reply?
    ensures var s' := Step(max, s, e);
      && StoreExtends(s.store, s'.store) && s.redemptions <= s'.redemptions
      && TokensHold(s'.store, s'.redemptions)
      && ReplyOk(s'.table, s'.store, s'.redemptions, s'.replies[e.reply])
  {
    var s', rc := Step(max, s, e), RcOf(s, e.reply);
    if rc.HasTask? && A.RedeemSpec(s.store, rc.a.token, e.answer.check, e.answer.stamp).1.Redeemed? {
      RedeemKeepsTokens(s.store, s.redemptions, rc.a, rc.mail, e.answer.check, e.answer.stamp);
      assert s'.redemptions[|s.redemptions|] in s'.redemptions;
    }
  }

  lemma ReplyKeepsAll(max: int, s: System, e: Event)
    requires GateInv(s) && e.Reply?
    ensures GateInv(Step(max, s, e))
  {
    var s' := Step(max, s, e);
    StepKeepsOrder(max, s, e);
    ReplyExtends(max, s, e);
    ReplyKeepsGate(max, s, e);
    ReplyKeepsTokens(max, s, e);
    forall r | r in s'.replies ensures ReplyOk(s'.table, s'.store, s'.redemptions, s'.replies[r]) {
      if r != e.reply { ReplyOkIsStable(s, s', s.replies[r]); }
    }
  }

  /** The other processes leave the replies in progress alone. */
  lemma OthersKeepReplies(max: int, s: System, e: Event)
    requires GateInv(s) && !e.Reply?
    ensures var s' := Step(max, s, e);
      && TokensHold(s'.store, s'.redemptions)
      && forall r :: r in s'.replies ==> ReplyOk(s'.table, s'.store, s'.redemptions, s'.replies[r])
  {
    var s' := Step(max, s, e);
    StepExtends(max, s, e);
    forall r | r in s'.replies ensures ReplyOk(s'.table, s'.store, s'.redemptions, s'.replies[r]) {
      ReplyOkIsStable(s, s', s.replies[r]);
    }
  }

  lemma StepExtends(max: int, s: System, e: Event)
    requires OrderInv(s)
    ensures Extends(s.table, Step(max, s, e).table)
  {
    match e
    case Work(w, i) => WorkExtends(max, s, w, i);
    case Ingest(_, _, _) => IngestExtends(max, s, e);
    case SweepLeases(_) => SweepExtends(max, s, e);
    case Reply(_, _) => ReplyExtends(max, s, e);
    case IssueToken(_, _, _, _, _) =>
    case Crash(_) =>
  }

  lemma StepKeepsGate(max: int, s: System, e: Event)
    requires GateInv(s)
    ensures GateInv(Step(max, s, e))
  {
    StepKeepsOrder(max, s, e);
    if !e.Reply? { OthersKeepReplies(max, s, e); }
    match e
    case Work(w, i) => WorkKeepsGate(max, s, w, i);
    case Ingest(_, _, _) => IngestKeepsGate(max, s, e);
    case SweepLeases(_) => SweepKeepsGate(max, s, e);
    case Reply(_, _) => ReplyKeepsAll(max, s, e);
    case IssueToken(_, _, _, _, _) =>
    case Crash(_) =>
  }

  lemma {:induction false} RunKeepsGate(max: int, events: seq<Event>)
    ensures GateInv(Run(max, events))
  {
    if events != [] {
      RunKeepsGate(max, events[..|events| - 1]);
      StepKeepsGate(max, Run(max, events[..|events| - 1]), events[|events| - 1]);
    }
  }

  /** At no point of any run is a parked task queued, running or done, nor has it ever been
      claimed, unless a `run` token for that same task was redeemed unexpired with "approve" by a
      reply that fits the task's sender and thread. */
  lemma ParkedTasksNeedApproval(max: int, events: seq<Event>, id: Id)
    requires id in Run(max, events).parked
    ensures var s := Run(max, events);
      && id in s.table
      && (Runnable(s.table[id].state) || id in s.claims ==>
          RunApproved(s.redemptions, id, s.table[id].sender, s.table[id].threadId))
  {
    RunKeepsGate(max, events);
  }

  /** Across every interleaving of replies no token is redeemed twice, and none at or after
      its expiry. */
  lemma RedemptionsAreSingleUse(max: int, events: seq<Event>, i: nat, j: nat)
    requires i < |Run(max, events).redemptions| && j < |Run(max, events).redemptions|
    ensures var rs := Run(max, events).redemptions;
      rs[i].at < rs[i].a.expiresAt && (rs[i].a.token == rs[j].a.token ==> i == j)
  {
    RunKeepsGate(max, events);
  }
}
