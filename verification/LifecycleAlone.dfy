/** The concurrent system with one process at work: a worker left alone performs `run_next`, and
    a reply left alone performs `ApprovalService.apply`. */
module LifecycleAlone {
  import opened Tasks
  import opened QueueSpec
  import opened Deps
  import opened Worker
  import opened Lifecycle
  import opened LifecycleReach
  import LA = LifecycleApproval
  import A = Approvals
  import C = ControlPlane

  // ---- A worker's steps, one after the other

  /** The table, where the worker stands, and what it has won. */
  datatype Solo = Solo(table: Table, pc: Pc, won: seq<Id>)

  ghost predicate Sound(x: Solo) { WellFormed(x.table) }

  ghost function Advance(max: int, x: Solo, i: Input): (y: Solo)
    requires Sound(x)
    ensures Sound(y)
  {
    var n := WorkerNext(max, x.table, x.pc, i);
    Solo(n.table, n.pc, if n.won.Some? then x.won + [n.won.value] else x.won)
  }

  ghost function Alone(max: int, x: Solo, inputs: seq<Input>): (y: Solo)
    requires Sound(x)
    ensures Sound(y)
    decreases |inputs|
  {
    if inputs == [] then x else Alone(max, Advance(max, x, inputs[0]), inputs[1..])
  }

  const Nothing := Input(None, true, true, 0, 0)

  /** One more step in front. */
  lemma Prepend(max: int, x: Solo, i: Input, y: Solo, rest: seq<Input>) returns (all: seq<Input>)
    requires Sound(x) && Advance(max, x, i) == y
    ensures Alone(max, x, all) == Alone(max, y, rest)
  {
    all := [i] + rest;
    assert all[1..] == rest;
  }

  // ---- Reading dependencies

  ghost predicate AnyFailed(t: Table, q: seq<Id>) { exists d :: d in q && IsFailed(t, d) }

  ghost predicate AnyPending(t: Table, q: seq<Id>) { exists d :: d in q && !IsFailed(t, d) && !IsDone(t, d) }

  lemma AnyOfFirst(t: Table, q: seq<Id>)
    requires q != []
    ensures AnyFailed(t, q) <==> IsFailed(t, q[0]) || AnyFailed(t, q[1..])
    ensures AnyPending(t, q) <==> (!IsFailed(t, q[0]) && !IsDone(t, q[0])) || AnyPending(t, q[1..])
  {
    assert q == [q[0]] + q[1..];
  }

  /** Where reading all that is unread leads. */
  ghost function Folded(t: Table, pc: Pc): Pc
    requires pc.Checking?
  {
    pc.(unread := [], failed := pc.failed || AnyFailed(t, pc.unread), blocked := pc.blocked || AnyPending(t, pc.unread))
  }

  /** Reading the dependencies one by one adds up to the two questions `deps` asks. */
  lemma {:induction false} ReadsAll(max: int, x: Solo, rest: seq<Input>) returns (all: seq<Input>)
    requires Sound(x) && x.pc.Checking?
    ensures Alone(max, x, all) == Alone(max, x.(pc := Folded(x.table, x.pc)), rest)
    decreases |x.pc.unread|
  {
    if x.pc.unread == [] {
      assert x.(pc := Folded(x.table, x.pc)) == x;
      all := rest;
    } else {
      AnyOfFirst(x.table, x.pc.unread);
      var next := x.(pc := ReadDependency(x.table, x.pc));
      all := ReadsAll(max, next, rest);
      all := Prepend(max, x, Nothing, next, all);
    }
  }

  /** From the listing to the verdict on one task's dependencies. */
  lemma ChecksFirst(max: int, x: Solo, task: Task, todo: seq<Task>, rest: seq<Input>) returns (all: seq<Input>)
    requires Sound(x) && x.pc == Scanning([task] + todo)
    ensures var deps := DependsOn(task);
      Alone(max, x, all) == Alone(max, x.(pc :=
        Checking(task, [], AnyFailed(x.table, deps), AnyPending(x.table, deps), todo, false)), rest)
  {
    var next := x.(pc := Checking(task, DependsOn(task), false, false, todo, false));
    all := ReadsAll(max, next, rest);
    all := Prepend(max, x, Nothing, next, all);
  }

  // ---- One task

  /** A task whose dependencies are not all done is failed or left. */
  lemma VisitsUnready(max: int, c: Config, x: Solo, task: Task, todo: seq<Task>, rest: seq<Input>)
    returns (all: seq<Input>)
    requires Sound(x) && x.pc == Scanning([task] + todo) && HasQueued(x.table, task.id) && task.state == Queued
    requires StatusOf(x.table, DependsOn(task)) != Ready
    ensures Alone(max, x, all) == Alone(max, x.(table := Pass(c, x.table, task), pc := Scanning(todo)), rest)
  {
    var deps := DependsOn(task);
    var checked := x.(pc := Checking(task, [], AnyFailed(x.table, deps), AnyPending(x.table, deps), todo, false));
    all := Prepend(max, checked, Nothing, x.(table := Pass(c, x.table, task), pc := Scanning(todo)), rest);
    all := ChecksFirst(max, x, task, todo, all);
  }

  /** A ready task goes on to the two guards. */
  lemma PassesGate(max: int, x: Solo, task: Task, todo: seq<Task>, rest: seq<Input>) returns (all: seq<Input>)
    requires Sound(x) && x.pc == Scanning([task] + todo) && StatusOf(x.table, DependsOn(task)) == Ready
    ensures Alone(max, x, all) == Alone(max, x.(pc := CountingAttempts(task, todo, false)), rest)
  {
    ReadyMeansDone(x.table, DependsOn(task));
    var checked := x.(pc := Checking(task, [], false, false, todo, false));
    all := Prepend(max, checked, Nothing, x.(pc := CountingAttempts(task, todo, false)), rest);
    all := ChecksFirst(max, x, task, todo, all);
  }

  lemma GuardRefuses(max: int, c: Config, x: Solo, task: Task, todo: seq<Task>, rest: seq<Input>) returns (all: seq<Input>)
    requires Sound(x) && x.pc == CountingAttempts(task, todo, false)
    requires HasQueued(x.table, task.id) && task.state == Queued && (task.attempts >= max || Denied(c, task))
    ensures Alone(max, x, all) ==
      Alone(max, x.(table := TransitionSpec(x.table, task.id, Queued, Failed).0, pc := Scanning(todo)), rest)
  {
    var asked, i := x.(pc := AskingPolicy(task, todo, false)), Nothing.(enabled := false);
    var failed := x.(table := TransitionSpec(x.table, task.id, Queued, Failed).0, pc := Scanning(todo));
    if task.attempts >= max {
      all := Prepend(max, x, i, failed, rest);
    } else {
      all := Prepend(max, asked, i, failed, rest);
      all := Prepend(max, x, i, asked, all);
    }
  }

  lemma GuardsPass(max: int, x: Solo, task: Task, todo: seq<Task>, until: Time) returns (all: seq<Input>)
    requires Sound(x) && x.pc == CountingAttempts(task, todo, false)
    requires HasQueued(x.table, task.id) && task.attempts < max
    ensures Alone(max, x, all) == Solo(ClaimSpec(x.table, task.id, until).0, Won(task.id), x.won + [task.id])
  {
    var asked, claiming := x.(pc := AskingPolicy(task, todo, false)), x.(pc := Claiming(task, todo, false));
    var won := Solo(ClaimSpec(x.table, task.id, until).0, Won(task.id), x.won + [task.id]);
    all := Prepend(max, claiming, Nothing.(now := until), won, []);
    all := Prepend(max, asked, Nothing, claiming, all);
    all := Prepend(max, x, Nothing, asked, all);
  }

  /** A task the scan does not start. */
  lemma Skips(max: int, c: Config, x: Solo, task: Task, todo: seq<Task>, rest: seq<Input>) returns (all: seq<Input>)
    requires Sound(x) && x.pc == Scanning([task] + todo) && HasQueued(x.table, task.id) && task.state == Queued
    requires c.maxAttempts == max && !Startable(c, x.table, task)
    ensures Alone(max, x, all) == Alone(max, x.(table := Pass(c, x.table, task), pc := Scanning(todo)), rest)
  {
    if StatusOf(x.table, DependsOn(task)) == Ready {
      all := GuardRefuses(max, c, x.(pc := CountingAttempts(task, todo, false)), task, todo, rest);
      all := PassesGate(max, x, task, todo, all);
    } else {
      all := VisitsUnready(max, c, x, task, todo, rest);
    }
  }

  // ---- The scan

  /** How a turn of `run_next` on `todo` ends. */
  ghost function Turn(c: Config, x: Solo, todo: seq<Task>): Solo
    requires Sound(x)
  {
    var (t, r) := RunNextSpec(c, x.table, todo);
    if r.Some? then Solo(t, Won(r.value.id), x.won + [r.value.id]) else Solo(t, Idle, x.won)
  }

  lemma TurnStep(c: Config, x: Solo, todo: seq<Task>)
    requires Sound(x) && todo != [] && HasQueued(x.table, todo[0].id)
    ensures Startable(c, x.table, todo[0]) ==>
      var id := todo[0].id; Turn(c, x, todo) == Solo(ClaimSpec(x.table, id, c.now + c.lease).0, Won(id), x.won + [id])
    ensures !Startable(c, x.table, todo[0]) ==>
      Turn(c, x, todo) == Turn(c, x.(table := Pass(c, x.table, todo[0]), pc := Scanning(todo[1..])), todo[1..])
  {}

  lemma {:induction false} ScansAlone(max: int, c: Config, x: Solo, todo: seq<Task>) returns (all: seq<Input>)
    requires Sound(x) && x.pc == Scanning(todo) && Fresh(x.table, todo) && c.maxAttempts == max
    ensures Alone(max, x, all) == Turn(c, x, todo)
    decreases |todo|
  {
    if todo == [] {
      all := Prepend(max, x, Nothing, x.(pc := Idle), []);
    } else {
      var task, rest := todo[0], todo[1..];
      assert todo == [task] + rest && task in todo;
      TurnStep(c, x, todo);
      if Startable(c, x.table, task) {
        all := GuardsPass(max, x.(pc := CountingAttempts(task, rest, false)), task, rest, c.now + c.lease);
        all := PassesGate(max, x, task, rest, all);
      } else {
        FirstStartableShifts(c, x.table, todo);
        all := ScansAlone(max, c, x.(table := Pass(c, x.table, task), pc := Scanning(rest)), rest);
        all := Skips(max, c, x, task, rest, all);
      }
    }
  }

  // ---- In the system

  function Works(w: nat, inputs: seq<Input>): (q: seq<Event>)
    ensures |q| == |inputs|
  {
    if inputs == [] then [] else [Work(w, inputs[0])] + Works(w, inputs[1..])
  }

  ghost function View(s: System, w: nat): Solo { Solo(s.table, PcOf(s, w), s.claims) }

  lemma ViewSteps(max: int, s: System, w: nat, i: Input)
    requires WellFormed(s.table)
    ensures View(Step(max, s, Work(w, i)), w) == Advance(max, View(s, w), i)
  {}

  lemma OneWork(max: int, events: seq<Event>, w: nat, i: Input)
    ensures View(Run(max, events + [Work(w, i)]), w) == Advance(max, View(Run(max, events), w), i)
  {
    RunOneMore(max, events, Work(w, i));
    ViewSteps(max, Run(max, events), w, i);
  }

  lemma FirstWork(events: seq<Event>, w: nat, inputs: seq<Input>)
    requires inputs != []
    ensures events + Works(w, inputs) == (events + [Work(w, inputs[0])]) + Works(w, inputs[1..])
  {}

  lemma AloneStep(max: int, x: Solo, inputs: seq<Input>)
    requires Sound(x) && inputs != []
    ensures Alone(max, x, inputs) == Alone(max, Advance(max, x, inputs[0]), inputs[1..])
  {}

  lemma {:induction false} WorksAlone(max: int, events: seq<Event>, w: nat, inputs: seq<Input>)
    ensures View(Run(max, events + Works(w, inputs)), w) == Alone(max, View(Run(max, events), w), inputs)
    decreases |inputs|
  {
    if inputs == [] {
      assert events + Works(w, inputs) == events;
    } else {
      OneWork(max, events, w, inputs[0]);
      AloneStep(max, View(Run(max, events), w), inputs);
      FirstWork(events, w, inputs);
      WorksAlone(max, events + [Work(w, inputs[0])], w, inputs[1..]);
    }
  }

  lemma IdleRunsNext(max: int, c: Config, x: Solo) returns (all: seq<Input>)
    requires Sound(x) && x.pc == Idle && c.maxAttempts == max
    ensures Alone(max, x, all) == Turn(c, x, Scanned(x.table))
  {
    ScannedIsFresh(x.table);
    var scanning := x.(pc := Scanning(Scanned(x.table)));
    all := ScansAlone(max, c, scanning, Scanned(x.table));
    all := Prepend(max, x, Nothing, scanning, all);
  }

  /** From every reachable state, an idle worker whose steps nothing interrupts performs exactly
      the sequential `run_next` of `Worker`: same table, same task started. */
  lemma WorkerAloneRunsNext(max: int, c: Config, events: seq<Event>, w: nat) returns (inputs: seq<Input>)
    requires PcOf(Run(max, events), w) == Idle && c.maxAttempts == max
    ensures var t := Run(max, events).table;
      View(Run(max, events + Works(w, inputs)), w) == Turn(c, View(Run(max, events), w), Scanned(t))
  {
    inputs := IdleRunsNext(max, c, View(Run(max, events), w));
    WorksAlone(max, events, w, inputs);
  }

  // ---- Replies

  ghost function FourReplies(s: System, r: nat, i: ReplyInput): ReplyStep
    requires WellFormed(s.table)
  {
    var a := ReplyNext(s.table, s.store, RcOf(s, r), i);
    var b := ReplyNext(a.table, a.store, a.rc, i);
    var d := ReplyNext(b.table, b.store, b.rc, i);
    ReplyNext(d.table, d.store, d.rc, i)
  }

  lemma StepsAreApply(s: System, r: nat, i: ReplyInput, m: C.Message)
    requires WellFormed(s.table) && RcOf(s, r) == Waiting && (forall k :: k in s.store ==> s.store[k].token == k)
    requires m.sender == i.mail.sender && m.threadId == i.mail.threadId
    ensures var (t', store', ok) :=
        C.ApplySpec(s.table, s.store, C.ApprovalReply(i.mail.token, i.mail.approve), m, i.check, i.stamp);
      FourReplies(s, r, i).table == t' && FourReplies(s, r, i).store == store'
  {
    var a := ReplyNext(s.table, s.store, RcOf(s, r), i);
    var b := ReplyNext(a.table, a.store, a.rc, i);
    assert a.table == b.table == s.table && a.store == b.store == s.store;
    if b.rc.HasTask? {
      LastTwoSteps(s.table, s.store, b.rc, i);
      assert i.mail.token in s.store && b.rc == HasTask(i.mail, s.store[i.mail.token], s.table[s.store[i.mail.token].taskId]);
    } else {
      NoDecision(s.table, s.store, b.rc, i);
    }
  }

  lemma LastTwoSteps(t: Table, store: A.Store, rc: Rc, i: ReplyInput)
    requires WellFormed(t) && rc.HasTask?
    ensures var d := ReplyNext(t, store, rc, i); var e := ReplyNext(d.table, d.store, d.rc, i);
      var (store', res) := A.RedeemSpec(store, rc.a.token, i.check, i.stamp);
      && e.store == store'
      && e.table == if res.Redeemed? then TransitionSpec(t, rc.task.id, rc.task.state, Target(rc.mail.approve, res.approval.action)).0 else t
  {}

  lemma NoDecision(t: Table, store: A.Store, rc: Rc, i: ReplyInput)
    requires WellFormed(t) && rc == Waiting
    ensures var d := ReplyNext(t, store, rc, i); var e := ReplyNext(d.table, d.store, d.rc, i);
      e.table == t && e.store == store
  {}

  lemma OneReply(max: int, events: seq<Event>, r: nat, i: ReplyInput)
    ensures var s, s' := Run(max, events), Run(max, events + [Event.Reply(r, i)]);
      var n := ReplyNext(s.table, s.store, RcOf(s, r), i);
      s'.table == n.table && s'.store == n.store && RcOf(s', r) == n.rc
  {
    RunOneMore(max, events, Event.Reply(r, i));
  }

  /** From every reachable state, a reply whose four steps nothing interrupts has exactly the
      effect of `ApprovalService.apply`. */
  lemma ReplyAloneApplies(max: int, events: seq<Event>, r: nat, i: ReplyInput, m: C.Message) returns (longer: seq<Event>)
    requires RcOf(Run(max, events), r) == Waiting
    requires m.sender == i.mail.sender && m.threadId == i.mail.threadId
    ensures events <= longer
    ensures var s, s' := Run(max, events), Run(max, longer);
      var (t', store', ok) :=
        C.ApplySpec(s.table, s.store, C.ApprovalReply(i.mail.token, i.mail.approve), m, i.check, i.stamp);
      s'.table == t' && s'.store == store'
  {
    LA.RunKeepsGate(max, events);
    StepsAreApply(Run(max, events), r, i, m);
    var half := TwoReplies(max, events, r, i);
    longer := TwoReplies(max, half, r, i);
  }

  lemma TwoReplies(max: int, events: seq<Event>, r: nat, i: ReplyInput) returns (longer: seq<Event>)
    ensures events <= longer
    ensures var s, s' := Run(max, events), Run(max, longer);
      var a := ReplyNext(s.table, s.store, RcOf(s, r), i);
      var b := ReplyNext(a.table, a.store, a.rc, i);
      s'.table == b.table && s'.store == b.store && RcOf(s', r) == b.rc
  {
    OneReply(max, events, r, i);
    longer := events + [Event.Reply(r, i)];
    OneReply(max, longer, r, i);
    longer := longer + [Event.Reply(r, i)];
  }
}
