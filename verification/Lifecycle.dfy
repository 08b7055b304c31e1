/** The task lifecycle as a system of concurrent processes. Each call on the queue or the
    approval store is one atomic step; every interleaving of any number of workers, lease
    sweeps, ingests and approval replies is a sequence of events. */
module Lifecycle {
  import opened Tasks
  import opened QueueSpec
  import opened Deps
  import A = Approvals

  /** Where a worker stands (worker.py, executor.py). It holds only copies of rows, which may
      be out of date; `one` marks `run(id)`, which handles a single task, against `run_next`. */
  datatype Pc =
    | Idle
    | Scanning(todo: seq<Task>)
    | Checking(task: Task, unread: seq<Id>, failed: bool, blocked: bool, todo: seq<Task>, one: bool)
    | CountingAttempts(task: Task, todo: seq<Task>, one: bool)
    | AskingPolicy(task: Task, todo: seq<Task>, one: bool)
    | Claiming(task: Task, todo: seq<Task>, one: bool)
    | Won(id: Id)
    | Executing(row: Task)

  /** Everything a worker step takes from outside: which task to run (or the next), the
      policy's answer (asked only for a task with a spec), how the run ended, the clock and the lease. */
  datatype Input = Input(target: Option<Id>, enabled: bool, ok: bool, now: Time, lease: Time)

  datatype WorkerStep = WorkerStep(table: Table, pc: Pc, won: Option<Id>)

  function Resume(todo: seq<Task>, one: bool): Pc { if one then Idle else Scanning(todo) }

  /** `queue.transition(task, FAILED)`; a conflict raises and ends the worker's turn. */
  ghost function FailTask(t: Table, task: Task, todo: seq<Task>, one: bool): (r: WorkerStep)
    requires WellFormed(t)
  {
    var (t', reply) := TransitionSpec(t, task.id, task.state, Failed);
    WorkerStep(t', if reply.Moved? then Resume(todo, one) else Idle, None)
  }

  ghost function ReadDependency(t: Table, pc: Pc): Pc
    requires pc.Checking? && pc.unread != []
  {
    var d := pc.unread[0];
    pc.(unread := pc.unread[1..],
        failed := pc.failed || IsFailed(t, d),
        blocked := pc.blocked || (!IsFailed(t, d) && !IsDone(t, d)))
  }

  ghost function WorkerNext(max: int, t: Table, pc: Pc, i: Input): WorkerStep
    requires WellFormed(t)
  {
    match pc
    case Idle =>
      if i.target.None? then WorkerStep(t, Scanning(Take(Listing(InState(t, Queued)), 100)), None)
      else if i.target.value in t then WorkerStep(t, CountingAttempts(t[i.target.value], [], true), None)
      else WorkerStep(t, Idle, None)
    case Scanning(todo) =>
      if todo == [] then WorkerStep(t, Idle, None)
      else WorkerStep(t, Checking(todo[0], DependsOn(todo[0]), false, false, todo[1..], false), None)
    case Checking(task, unread, failed, blocked, todo, one) =>
      if unread != [] then WorkerStep(t, ReadDependency(t, pc), None)
      else if failed then FailTask(t, task, todo, one)
      else if blocked then WorkerStep(t, Resume(todo, one), None)
      else WorkerStep(t, if one then AskingPolicy(task, todo, one) else CountingAttempts(task, todo, one), None)
    case CountingAttempts(task, todo, one) =>
      if task.attempts >= max then FailTask(t, task, todo, one)
      else if one then WorkerStep(t, Checking(task, DependsOn(task), false, false, todo, one), None)
      else WorkerStep(t, AskingPolicy(task, todo, one), None)
    case AskingPolicy(task, todo, one) =>
      if task.spec.Some? && !i.enabled then FailTask(t, task, todo, one)
      else WorkerStep(t, Claiming(task, todo, one), None)
    case Claiming(task, todo, one) =>
      var (t', reply) := ClaimSpec(t, task.id, i.now + i.lease);
      if reply.ok then WorkerStep(t', Won(task.id), Some(task.id))
      else WorkerStep(t', Resume(todo, one), None)
    case Won(id) => WorkerStep(t, if id in t then Executing(t[id]) else Idle, None)
    case Executing(row) =>
      WorkerStep(TransitionSpec(t, row.id, row.state, if i.ok then Done else Failed).0, Idle, None)
  }

  /** Where a reply being applied stands (approvals_service.py). */
  datatype Rc =
    | Waiting
    | HasToken(mail: ReplyMail, a: A.Approval)
    | HasTask(mail: ReplyMail, a: A.Approval, task: Task)
    | HasRedeemed(mail: ReplyMail, a: A.Approval, task: Task)

  /** A parsed reply: its token and decision, and where it came from. */
  datatype ReplyMail = ReplyMail(token: A.Token, approve: bool, sender: Option<string>, threadId: Option<string>)

  datatype ReplyInput = ReplyInput(mail: ReplyMail, check: Time, stamp: Time)

  /** The reply's sender and thread agree with the task's. */
  predicate Fits(mail: ReplyMail, task: Task) { A.Fits(mail.sender, mail.threadId, task.sender, task.threadId) }

  /** A successful redemption: the reply, the token, and the clock reading its expiry was checked against. */
  datatype Redemption = Redemption(mail: ReplyMail, a: A.Approval, at: Time)

  datatype ReplyStep = ReplyStep(table: Table, store: A.Store, rc: Rc, redeemed: Option<Redemption>)

  function Target(approve: bool, action: string): TaskState {
    if !approve then Rejected else if action == "run" then Queued else Approved
  }

  ghost function ReplyNext(t: Table, store: A.Store, rc: Rc, i: ReplyInput): ReplyStep
    requires WellFormed(t)
  {
    match rc
    case Waiting =>
      ReplyStep(t, store, if i.mail.token in store then HasToken(i.mail, store[i.mail.token]) else Waiting, None)
    case HasToken(mail, a) =>
      if a.taskId in t && t[a.taskId].state == Action && Fits(mail, t[a.taskId])
      then ReplyStep(t, store, HasTask(mail, a, t[a.taskId]), None)
      else ReplyStep(t, store, Waiting, None)
    case HasTask(mail, a, task) =>
      var (store', r) := A.RedeemSpec(store, a.token, i.check, i.stamp);
      if r.Redeemed?
      then ReplyStep(t, store', HasRedeemed(mail, r.approval, task), Some(Redemption(mail, r.approval, i.check)))
      else ReplyStep(t, store', Waiting, None)
    case HasRedeemed(mail, a, task) =>
      ReplyStep(TransitionSpec(t, task.id, task.state, Target(mail.approve, a.action)).0, store, Waiting, None)
  }

  /** The shared state, the processes, and three records of the past: the successful claims
      in order, the redemptions in order, and the tasks ingest parked in `action`. */
  datatype System = System(
    table: Table,
    store: A.Store,
    workers: map<nat, Pc>,
    replies: map<nat, Rc>,
    claims: seq<Id>,
    redemptions: seq<Redemption>,
    parked: set<Id>)

  datatype Event =
    | Ingest(task: Task, gated: bool, now: Time)
    | IssueToken(token: A.Token, taskId: Id, action: string, now: Time, ttl: Time)
    | Work(worker: nat, input: Input)
    | Crash(worker: nat)
    | SweepLeases(now: Time)
    | Reply(reply: nat, answer: ReplyInput)

  function PcOf(s: System, w: nat): Pc { if w in s.workers then s.workers[w] else Idle }

  function RcOf(s: System, r: nat): Rc { if r in s.replies then s.replies[r] else Waiting }

  ghost function Step(max: int, s: System, e: Event): System
    requires WellFormed(s.table)
  {
    match e
    case Ingest(task, gated, now) =>
      var (t', reply) := EnqueueSpec(s.table, task, if gated then Action else Queued, now);
      s.(table := t', parked := if gated && reply.task.Some? then s.parked + {task.id} else s.parked)
    case IssueToken(token, taskId, action, now, ttl) =>
      if token in s.store then s
      else s.(store := s.store[token := A.Issued(token, taskId, action, now, ttl)])
    case Work(w, input) =>
      var n := WorkerNext(max, s.table, PcOf(s, w), input);
      s.(table := n.table, workers := s.workers[w := n.pc],
         claims := if n.won.Some? then s.claims + [n.won.value] else s.claims)
    case Crash(w) => s.(workers := s.workers[w := Idle])
    case SweepLeases(now) => s.(table := Sweep(s.table, now))
    case Reply(r, answer) =>
      var n := ReplyNext(s.table, s.store, RcOf(s, r), answer);
      s.(table := n.table, store := n.store, replies := s.replies[r := n.rc],
         redemptions := if n.redeemed.Some? then s.redemptions + [n.redeemed.value] else s.redemptions)
  }

  lemma StepKeepsWellFormed(max: int, s: System, e: Event)
    requires WellFormed(s.table)
    ensures WellFormed(Step(max, s, e).table)
  {}

  const Start := System(map[], map[], map[], map[], [], [], {})

  /** The state after any finite run. */
  ghost function Run(max: int, events: seq<Event>): (s: System)
    ensures WellFormed(s.table)
  {
    if events == [] then Start
    else
      var s := Run(max, events[..|events| - 1]);
      StepKeepsWellFormed(max, s, events[|events| - 1]);
      Step(max, s, events[|events| - 1])
  }
}
