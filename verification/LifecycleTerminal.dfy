/** Terminal states under concurrency: a finished task may still change its label, but it
    never runs again; and an approval does release a parked task. */
module LifecycleTerminal {
  import opened Tasks
  import opened QueueSpec
  import opened Lifecycle
  import opened LifecycleApproval
  import opened LifecycleReach
  import T = Termination
  import A = Approvals

  ghost predicate Ended(t: Table, id: Id) { id in t && T.Terminal(t[id].state) }

  lemma TransitionKeepsEnded(t: Table, i: Id, expected: TaskState, to: TaskState, id: Id)
    requires WellFormed(t) && Ended(t, id) && (T.Terminal(to) || !T.Terminal(expected))
    ensures Ended(TransitionSpec(t, i, expected, to).0, id)
  {}

  /** Workers only ever move rows to `done`, `failed` or, when queued, to `running`. */
  lemma WorkKeepsEnded(max: int, t: Table, pc: Pc, i: Input, id: Id)
    requires WellFormed(t) && Ended(t, id)
    ensures var n := WorkerNext(max, t, pc, i); Ended(n.table, id) && n.won != Some(id)
  {
    if pc.Checking? || pc.CountingAttempts? || pc.AskingPolicy? {
      TransitionKeepsEnded(t, pc.task.id, pc.task.state, Failed, id);
    } else if pc.Executing? {
      TransitionKeepsEnded(t, pc.row.id, pc.row.state, if i.ok then Done else Failed, id);
    }
  }

  lemma StepKeepsEnded(max: int, s: System, e: Event, id: Id)
    requires GateInv(s) && Ended(s.table, id)
    ensures var s' := Step(max, s, e);
      && Ended(s'.table, id)
      && (s'.claims == s.claims || (s'.claims == s.claims + [s'.claims[|s.claims|]] && s'.claims[|s.claims|] != id))
  {
    if e.Work? {
      WorkKeepsEnded(max, s.table, PcOf(s, e.worker), e.input, id);
    } else if e.Reply? && RcOf(s, e.reply).HasRedeemed? {
      var rc := RcOf(s, e.reply);
      TransitionKeepsEnded(s.table, rc.task.id, rc.task.state, Target(rc.mail.approve, rc.a.action), id);
    }
  }

  /** `after` continues `before` without naming `id` again. */
  ghost predicate ContinuesWithout(before: seq<Id>, after: seq<Id>, id: Id) {
    |before| <= |after| && before == after[..|before|] && forall k :: |before| <= k < |after| ==> after[k] != id
  }

  lemma OneMoreClaim(before: seq<Id>, mid: seq<Id>, after: seq<Id>, id: Id)
    requires ContinuesWithout(before, mid, id)
    requires after == mid || (|mid| < |after| && after == mid + [after[|mid|]] && after[|mid|] != id)
    ensures ContinuesWithout(before, after, id)
  {}

  /** Once a task is done, failed, rejected or approved, then in every continuation of the run
      it stays in one of those states and is never claimed again. */
  lemma {:induction false} EndedNeverRunsAgain(max: int, events: seq<Event>, n: nat, id: Id)
    requires n <= |events| && Ended(Run(max, events[..n]).table, id)
    ensures Ended(Run(max, events).table, id)
    ensures ContinuesWithout(Run(max, events[..n]).claims, Run(max, events).claims, id)
  {
    if n == |events| {
      assert events[..n] == events;
    } else {
      var prior, last := events[..|events| - 1], events[|events| - 1];
      assert prior[..n] == events[..n];
      EndedNeverRunsAgain(max, prior, n, id);
      RunKeepsGate(max, prior);
      var s := Run(max, prior);
      StepKeepsEnded(max, s, last, id);
      OneMoreClaim(Run(max, events[..n]).claims, s.claims, Step(max, s, last).claims, id);
    }
  }

  /** The worker's next step fails the task it is looking at. */
  ghost predicate GivesUp(max: int, pc: Pc, i: Input) {
    || (pc.Checking? && pc.unread == [] && pc.failed)
    || (pc.CountingAttempts? && pc.task.attempts >= max)
    || (pc.AskingPolicy? && pc.task.spec.Some? && !i.enabled)
  }

  /** The worker acts on a copy it read when the task had already `ended`: a guard
      refuses it, or a run that lost its lease reports late, with a different outcome. */
  ghost predicate Relabels(max: int, pc: Pc, i: Input, id: Id, ended: TaskState) {
    || (GivesUp(max, pc, i) && pc.task.id == id && pc.task.state == ended && ended != Failed)
    || (pc.Executing? && pc.row.id == id && pc.row.state == ended && ended != if i.ok then Done else Failed)
  }

  lemma WorkRelabelsExactlyWhen(max: int, t: Table, pc: Pc, i: Input, id: Id)
    requires WellFormed(t) && Ended(t, id)
    ensures var t' := WorkerNext(max, t, pc, i).table;
      id in t' && (t'[id].state != t[id].state <==> Relabels(max, pc, i, id, t[id].state))
  {}

  lemma OthersKeepLabels(max: int, s: System, e: Event, id: Id)
    requires GateInv(s) && Ended(s.table, id) && !e.Work?
    ensures var t' := Step(max, s, e).table; id in t' && t'[id].state == s.table[id].state
  {
    if e.Reply? { ReplyKeepsLabels(s, RcOf(s, e.reply), e.answer, id); }
  }

  lemma ReplyKeepsLabels(s: System, rc: Rc, i: ReplyInput, id: Id)
    requires WellFormed(s.table) && ReplyOk(s.table, s.store, s.redemptions, rc) && Ended(s.table, id)
    ensures var t' := ReplyNext(s.table, s.store, rc, i).table; id in t' && t'[id].state == s.table[id].state
  {}

  /** In every run, the label of an ended task changes in a step exactly when that step is such
      a worker's. */
  lemma LabelChangesExactlyWhen(max: int, events: seq<Event>, e: Event, id: Id)
    requires Ended(Run(max, events).table, id)
    ensures var s := Run(max, events); var t' := Step(max, s, e).table;
      && id in t'
      && (t'[id].state != s.table[id].state <==>
          e.Work? && Relabels(max, PcOf(s, e.worker), e.input, id, s.table[id].state))
  {
    var s := Run(max, events);
    RunKeepsGate(max, events);
    if e.Work? {
      WorkRelabelsExactlyWhen(max, s.table, PcOf(s, e.worker), e.input, id);
    } else {
      OthersKeepLabels(max, s, e, id);
    }
  }

  /** A guard that refuses a task fails it, whatever its state was when it was read. */
  lemma GuardFails(max: int, events: seq<Event>, w: nat, i: Input, task: Task) returns (longer: seq<Event>)
    requires var s := Run(max, events); var pc := PcOf(s, w);
      && task.id in s.table && s.table[task.id] == task && GivesUp(max, pc, i) && pc.task == task
    ensures events <= longer
    ensures task.id in Run(max, longer).table && Run(max, longer).table[task.id] == MovedTo(task, Failed)
  {
    RunOneMore(max, events, Work(w, i));
    longer := events + [Work(w, i)];
  }

  /** `run(id)` on a finished task whose attempts are used up fails it. */
  lemma AttemptsFailFinished(max: int, events: seq<Event>, w: nat, id: Id) returns (longer: seq<Event>)
    requires var s := Run(max, events); PcOf(s, w) == Idle && id in s.table && s.table[id].attempts >= max
    ensures events <= longer
    ensures id in Run(max, longer).table && Run(max, longer).table[id].state == Failed
  {
    var i, task := Input(Some(id), true, true, 0, 0), Run(max, events).table[id];
    longer := Hop(max, events, w, i, CountingAttempts(task, [], true));
    longer := GuardFails(max, longer, w, i, task);
  }

  /** `run(id)` on a finished task whose project was disabled since fails it. */
  lemma PolicyFailsFinished(max: int, events: seq<Event>, w: nat, id: Id) returns (longer: seq<Event>)
    requires var s := Run(max, events);
      && PcOf(s, w) == Idle && id in s.table && s.table[id].attempts < max && s.table[id].spec.Some?
      && AllDone(s.table, DependsOn(s.table[id]))
    ensures events <= longer
    ensures id in Run(max, longer).table && Run(max, longer).table[id].state == Failed
  {
    var task := Run(max, events).table[id];
    longer := ReachPolicy(max, events, w, id);
    longer := GuardFails(max, longer, w, Input(Some(id), false, true, 0, 0), task);
  }

  ghost predicate IsIn(max: int, events: seq<Event>, id: Id, state: TaskState) {
    id in Run(max, events).table && Run(max, events).table[id].state == state
  }

  /** `done` is not final: a run reaches it and goes on to `failed`. The task is claimed, its
      lease is swept before the worker reads it back, and the worker finishes; `run(id)` then
      finds the only attempt used up. */
  lemma DoneBecomesFailed() returns (before: seq<Event>, after: seq<Event>, id: Id)
    ensures before <= after && IsIn(1, before, id, Done) && IsIn(1, after, id, Failed)
  {
    id := "t";
    before := Arrives(1, id);
    before := ReadyCanBeClaimed(1, before, 0, id);
    before := SweptThenFinished(1, before, 0, id);
    after := AttemptsFailFinished(1, before, 0, id);
  }

  lemma SweptThenFinished(max: int, events: seq<Event>, w: nat, id: Id) returns (longer: seq<Event>)
    requires var s := Run(max, events); PcOf(s, w) == Won(id) && id in s.table && Stale(s.table[id], 1)
    ensures var s, s' := Run(max, events), Run(max, longer);
      && PcOf(s', w) == Idle && id in s'.table && s'.table[id].state == Done
      && s'.table[id].attempts == s.table[id].attempts + 1
  {
    longer := Sweeps(max, events, 1);
    longer := Finishes(max, longer, w, id);
  }

  /** The commoner case, under any positive limit: nothing goes wrong, the task is done, and its
      project is disabled before someone runs it again. */
  lemma DoneBecomesFailedByPolicy(max: int) returns (before: seq<Event>, after: seq<Event>, id: Id)
    requires max > 0
    ensures before <= after && IsIn(max, before, id, Done) && IsIn(max, after, id, Failed)
  {
    id := "t";
    before := Arrives(max, id);
    before := ReachClaim(max, before, 0, id);
    before := Claims(max, before, 0, Sample(id), [], true, 0);
    before := Finishes(max, before, 0, id);
    after := PolicyFailsFinished(max, before, 0, id);
  }

  /** The partner of the approval gate: an approving reply with an unused, unexpired `run`
      token for a parked task, from its sender and thread, does release it to `queued`. */
  lemma ApprovalReleases(max: int, events: seq<Event>, r: nat, mail: ReplyMail, check: Time)
    returns (longer: seq<Event>)
    requires var s := Run(max, events);
      && RcOf(s, r) == Waiting && mail.approve && mail.token in s.store
      && var a := s.store[mail.token];
         && a.usedAt.None? && check < a.expiresAt && a.action == "run"
         && a.taskId in s.table && s.table[a.taskId].state == Action && Fits(mail, s.table[a.taskId])
    ensures events <= longer
    ensures var id := Run(max, events).store[mail.token].taskId;
      id in Run(max, longer).table && Run(max, longer).table[id].state == Queued
  {
    var s, i := Run(max, events), ReplyInput(mail, check, check);
    RunKeepsGate(max, events);
    var a := s.store[mail.token];
    var e := Event.Reply(r, i);
    RunOneMore(max, events, e);
    longer := events + [e];
    RunOneMore(max, longer, e);
    longer := longer + [e];
    longer := RedeemAndMove(max, longer, r, i, a);
  }

  lemma RedeemAndMove(max: int, events: seq<Event>, r: nat, i: ReplyInput, a: A.Approval)
    returns (longer: seq<Event>)
    requires var s := Run(max, events);
      && a.taskId in s.table && s.table[a.taskId].state == Action
      && i.mail.approve && RcOf(s, r) == HasTask(i.mail, a, s.table[a.taskId])
      && a.token in s.store && s.store[a.token] == a && a.usedAt.None? && i.check < a.expiresAt && a.action == "run"
    ensures events <= longer
    ensures a.taskId in Run(max, longer).table && Run(max, longer).table[a.taskId].state == Queued
  {
    var e, used := Event.Reply(r, i), a.(usedAt := Some(i.stamp));
    RunOneMore(max, events, e);
    longer := events + [e];
    assert RcOf(Run(max, longer), r) == HasRedeemed(i.mail, used, Run(max, events).table[a.taskId]);
    longer := MoveRedeemed(max, longer, r, i, used, Run(max, events).table[a.taskId]);
  }

  lemma MoveRedeemed(max: int, events: seq<Event>, r: nat, i: ReplyInput, a: A.Approval, task: Task)
    returns (longer: seq<Event>)
    requires var s := Run(max, events);
      && task.id in s.table && s.table[task.id] == task
      && i.mail.approve && RcOf(s, r) == HasRedeemed(i.mail, a, task) && a.action == "run"
    ensures events <= longer
    ensures task.id in Run(max, longer).table && Run(max, longer).table[task.id].state == Queued
  {
    RunOneMore(max, events, Event.Reply(r, i));
    longer := events + [Event.Reply(r, i)];
  }
}
