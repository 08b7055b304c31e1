/** One task run end to end (executor.py): harness, verify gate, bounded review, publication,
    the closing transition, and the end of the environment session. Harness, verifier,
    reviewer, git, queue and notifier behave arbitrarily. */
module Executor {
  import opened Tasks
  import opened Journal
  import opened Sandbox

  datatype ExecutedTask = ExecutedTask(
    prUrl: Option<string>,
    exitCode: int,
    failure: Option<FailureKind>,
    review: Option<bool>)

  /** How `execute` ends once the worktree exists: it returns, or an exception escapes from
      the named place. */
  datatype Outcome =
    | Finished(task: ExecutedTask)
    | ReportRaised(task: ExecutedTask)
    | SessionRaised
    | GitRaised
    | MoveRaised

  datatype Publishing = Published(url: string) | Unpublished(failure: FailureKind) | Raised

  /** How one git operation goes: well, with a `GitError`, or with another exception. */
  datatype GitOutcome = Fine | GitFails | OtherFails

  /** What a finished run's journal must show. */
  ghost predicate Delivered(p: Journal.Run, t: ExecutedTask) {
    && p.moves == [(if t.failure.None? then Done else Failed, t.prUrl)]
    && (t.failure.None? <==> t.prUrl.Some?)
    && (t.prUrl.Some? ==> p.prs == [t.prUrl.value])
    && t.review == p.last && t.failure == p.why
    && Classified(t)
  }

  /** The harness's exit code decides, and is told by, the harness failure kinds. */
  predicate Classified(t: ExecutedTask) {
    && (t.failure == Some(HarnessMissing) <==> t.exitCode == 127)
    && (t.failure == Some(Timeout) <==> t.exitCode == 124)
    && (t.failure == Some(HarnessFailed) <==> t.exitCode !in {0, 124, 127})
  }

  class TaskExecutor {
    const host: Host
    const session: ContainerSandbox?
    const router: RoutingRunner?
    const fixedBox: ContainerSandbox?
    const hasVerifier: bool
    const verifierBox: ContainerSandbox?
    const hasReviewer: bool
    const rounds: int
    ghost const boxes: set<ContainerSandbox>

    /** How the factory wires a worker: a fixed runner and the verifier run in the executor's
        session or in none; a routing runner brings one session per harness. */
    ghost predicate Valid()
    {
      && (forall b :: b in boxes ==> b.host == host)
      && (session != null ==> session in boxes)
      && (fixedBox == null || fixedBox == session)
      && (verifierBox == null || verifierBox == session)
      && (router != null ==>
        forall k :: k in router.runners && router.runners[k] != null ==> router.runners[k] in boxes)
    }

    constructor (host: Host, session: ContainerSandbox?, router: RoutingRunner?, fixedBox: ContainerSandbox?,
                 hasVerifier: bool, verifierBox: ContainerSandbox?, hasReviewer: bool, rounds: int,
                 ghost boxes: set<ContainerSandbox>)
      ensures this.host == host && this.session == session && this.router == router
      ensures this.fixedBox == fixedBox && this.hasVerifier == hasVerifier && this.verifierBox == verifierBox
      ensures this.hasReviewer == hasReviewer && this.rounds == rounds && this.boxes == boxes
    {
      this.host, this.session, this.router, this.fixedBox := host, session, router, fixedBox;
      this.hasVerifier, this.verifierBox := hasVerifier, verifierBox;
      this.hasReviewer, this.rounds, this.boxes := hasReviewer, rounds, boxes;
    }

    /** Only `used` may hold a container, and it is the only one started in this run. */
    ghost predicate Only(used: ContainerSandbox?)
      reads host, boxes
    {
      && Valid()
      && (forall b :: b in boxes && b != used ==> b.container == None)
      && (used == null ==> host.B().good && host.B().live == None)
      && (used != null ==> used in boxes && used.InStep())
      && (host.B().starts == 0 || (host.B().starts == 1 && used != null && used.container.Some?))
    }

    ghost predicate Fit(used: ContainerSandbox?)
      reads host, boxes
      requires Only(used)
    {
      used != null ==> used.Usable()
    }

    /** Record an effect that no container takes part in. */
    method Note(e: Effect, ghost used: ContainerSandbox?)
      requires Only(used) && WatchBox(host.B(), e) == host.B()
      modifies host`journal
      ensures Only(used) && host.B() == old(host.B())
      ensures host.P() == WatchRun(host.hasVerify, old(host.P()), e)
    {
      host.Log(e);
    }

    /** Record an effect that is just a failure of the given kind. */
    method Fails(e: Effect, f: FailureKind, ghost used: ContainerSandbox?)
      requires Only(used)
      requires (e == VerifyRefused && f == VerifyBlocked) || (e == VerifyRaised && f == VerifyFailed)
            || (e == GitErrored && f == PublishFailed)
      modifies host`journal
      ensures Only(used) && host.B() == old(host.B())
      ensures host.P() == old(host.P()).(why := Some(f))
    {
      Note(e, used);
    }

    /** Record that the harness could not be run. */
    method NoHarness(ghost used: ContainerSandbox?)
      requires Only(used)
      modifies host`journal
      ensures Only(used) && host.B() == old(host.B())
      ensures host.P() == if old(host.P()).succeeded then old(host.P()).(dropped := true)
                          else old(host.P()).(why := Some(HarnessFailed))
    {
      Note(HarnessRaised, used);
    }

    /** The verify command itself. */
    method Command(name: Option<nat>, ghost used: ContainerSandbox?) returns (passed: bool)
      requires Only(used) && Fit(used) && MayRunIn(host.B(), name)
      modifies host`journal
      ensures Only(used) && Fit(used)
      ensures host.B().outside == old(host.B().outside) + if name.None? then 1 else 0
      ensures host.P() == if passed then old(host.P()).(vouched := true) else old(host.P()).(why := Some(VerifyFailed))
    {
      passed := *;
      host.Log(Verified(name, passed));
    }

    /** The container to run a command in; `ok` is false when wrapping raises. */
    method Enter(box: ContainerSandbox?, ghost used: ContainerSandbox?) returns (ok: bool, name: Option<nat>)
      requires Only(used) && Fit(used) && (box == null || box == used)
      modifies host`journal, host`nextName, boxes`container
      ensures Only(used) && host.P() == old(host.P()) && host.B().outside == old(host.B().outside)
      ensures ok ==> Fit(used) && MayRunIn(host.B(), name) && (name.None? <==> box == null)
    {
      ok, name := true, None;
      if box != null {
        name := box.Wrap();
        ok := name.Some?;
      }
    }

    /** The runner will choose `box` for this task: it is fixed, or remembered by the router. */
    ghost predicate Routes(task: Id, box: ContainerSandbox?)
      reads router
    {
      if router == null then box == fixedBox
      else
        router.cachedTask == Some(task) && router.cachedChoice.Some?
        && var r := router.RunnerFor(router.cachedChoice.value); r.Some? && router.runners[r.value] == box
    }

    /** The session the runner runs this task in. */
    method HarnessBox(task: Id, ghost box: ContainerSandbox?) returns (b: ContainerSandbox?)
      requires Routes(task, box)
      modifies router
      ensures Routes(task, box) && b == box
      ensures router != null ==> router.asked == old(router.asked)
    {
      b := fixedBox;
      if router != null {
        var found, chosen := router.SessionFor(task);
        b := chosen;
      }
    }

    /** `_run_harness`: an exception counts as exit code 1. */
    method RunHarness(task: Id, ghost box: ContainerSandbox?, ghost used: ContainerSandbox?) returns (code: int)
      requires Only(used) && Fit(used) && Routes(task, box) && (box == null || box == used)
      requires host.P().last != Some(true)
      modifies router, host`journal, host`nextName, boxes`container
      ensures Only(used) && Routes(task, box)
      ensures router != null ==> router.asked == old(router.asked)
      ensures code == 0 ==> Fit(used) && host.P().runs == old(host.P().runs) + 1
      ensures old(host.P()).runs <= host.P().runs <= old(host.P()).runs + 1
      ensures host.P() == old(host.P()).(runs := host.P().runs,
        vouched := old(host.P()).vouched && code != 0, succeeded := old(host.P()).succeeded || code == 0,
        dropped := old(host.P()).dropped || (code != 0 && old(host.P()).succeeded),
        why := if code != 0 && !old(host.P()).succeeded then Some(HarnessFailure(code)) else old(host.P()).why)
      ensures host.B().outside == old(host.B().outside) + if box == null then host.P().runs - old(host.P().runs) else 0
    {
      var b := HarnessBox(task, box);
      code := RunIn(b, used);
    }

    /** The harness in the given session, or outside when there is none. */
    method RunIn(b: ContainerSandbox?, ghost used: ContainerSandbox?) returns (code: int)
      requires Only(used) && Fit(used) && (b == null || b == used) && host.P().last != Some(true)
      modifies host`journal, host`nextName, boxes`container
      ensures Only(used)
      ensures code == 0 ==> Fit(used) && host.P().runs == old(host.P().runs) + 1
      ensures old(host.P()).runs <= host.P().runs <= old(host.P()).runs + 1
      ensures host.P() == old(host.P()).(runs := host.P().runs,
        vouched := old(host.P()).vouched && code != 0, succeeded := old(host.P()).succeeded || code == 0,
        dropped := old(host.P()).dropped || (code != 0 && old(host.P()).succeeded),
        why := if code != 0 && !old(host.P()).succeeded then Some(HarnessFailure(code)) else old(host.P()).why)
      ensures host.B().outside == old(host.B().outside) + if b == null then host.P().runs - old(host.P().runs) else 0
    {
      var ok, name := Enter(b, used);
      if !ok {
        NoHarness(used);
        return 1;
      }
      code := Harness(name, used);
    }

    /** The harness process itself. */
    method Harness(name: Option<nat>, ghost used: ContainerSandbox?) returns (code: int)
      requires Only(used) && Fit(used) && MayRunIn(host.B(), name) && host.P().last != Some(true)
      modifies host`journal
      ensures Only(used) && Fit(used)
      ensures host.P() == old(host.P()).(runs := old(host.P()).runs + 1,
        vouched := old(host.P()).vouched && code != 0, succeeded := old(host.P()).succeeded || code == 0,
        dropped := old(host.P()).dropped || (code != 0 && old(host.P()).succeeded),
        why := if code != 0 && !old(host.P()).succeeded then Some(HarnessFailure(code)) else old(host.P()).why)
      ensures host.B().outside == old(host.B().outside) + if name.None? then 1 else 0
    {
      var raises: bool := *;
      code := *;
      if raises { code := 1; }
      host.Log(HarnessRan(name, code));
    }

    /** `_verify`: no command passes; a blocked or raising one fails. */
    method Verify(box: ContainerSandbox?, ghost used: ContainerSandbox?) returns (failure: Option<FailureKind>)
      requires Only(used) && Fit(used) && (box == null || box == used)
      modifies host`journal, host`nextName, boxes`container
      ensures Only(used)
      ensures failure.None? ==> Fit(used) && (host.hasVerify ==> host.P().vouched)
      ensures host.hasVerify && !hasVerifier ==> failure == Some(VerifyBlocked)
      ensures failure.Some? ==> failure.value == VerifyFailed || failure.value == VerifyBlocked
      ensures host.P() == old(host.P()).(vouched := old(host.P()).vouched || (host.hasVerify && failure.None?),
                                         why := if failure.Some? then failure else old(host.P()).why)
      ensures box != null || !hasVerifier ==> host.B().outside == old(host.B().outside)
      ensures box == null && host.hasVerify && failure.None? ==> host.B().outside == old(host.B().outside) + 1
    {
      if !host.hasVerify { return None; }
      var allowed: bool := *;
      if !hasVerifier || !allowed {
        Fails(VerifyRefused, VerifyBlocked, used);
        return Some(VerifyBlocked);
      }
      var ok, name := Enter(box, used);
      var raises: bool := *;
      if !ok || raises {
        Fails(VerifyRaised, VerifyFailed, used);
        return Some(VerifyFailed);
      }
      var passed := Command(name, used);
      return if passed then None else Some(VerifyFailed);
    }

    /** Harness and verify commands both go to a session. */
    ghost predicate Inside(box: ContainerSandbox?, vbox: ContainerSandbox?) {
      box != null && (hasVerifier ==> vbox != null)
    }

    /** One revision: re-run the harness, and re-verify what it produced. A re-run that
        fails is not verified: it leaves the earlier result standing. */
    method Revise(task: Id, ghost box: ContainerSandbox?, vbox: ContainerSandbox?, ghost used: ContainerSandbox?)
      returns (code: int, failure: Option<FailureKind>)
      requires Only(used) && Fit(used) && Routes(task, box)
      requires (box == null || box == used) && (vbox == null || vbox == used)
      requires host.hasVerify ==> host.P().vouched
      requires host.P().last == Some(false) && host.P().succeeded
      modifies router, host`journal, host`nextName, boxes`container
      ensures Only(used) && Routes(task, box)
      ensures router != null ==> router.asked == old(router.asked)
      ensures failure.None? && host.hasVerify ==> host.P().vouched
      ensures failure.None? && code == 0 ==> Fit(used)
      ensures code != 0 ==> failure == None
      ensures failure.Some? ==> failure.value == VerifyFailed || failure.value == VerifyBlocked
      ensures old(host.P()).runs <= host.P().runs <= old(host.P()).runs + 1
      ensures code == 0 ==> host.P().runs == old(host.P()).runs + 1
      ensures host.P() == old(host.P()).(runs := host.P().runs, vouched := host.P().vouched,
                                         dropped := old(host.P()).dropped || code != 0,
                                         why := if failure.Some? then failure else old(host.P()).why)
      ensures Inside(box, vbox) ==> host.B().outside == old(host.B().outside)
    {
      failure := None;
      code := RunHarness(task, box, used);
      if code == 0 { failure := Verify(vbox, used); }
    }

    /** The verdict of one review round, or None when the reviewer (or the diff) raises. */
    method Review(ghost used: ContainerSandbox?) returns (verdict: Option<bool>)
      requires Only(used) && Fit(used)
      modifies host`journal
      ensures Only(used) && Fit(used) && host.B() == old(host.B())
      ensures host.P() == if verdict.Some? then old(host.P()).(verdicts := old(host.P()).verdicts + 1, last := verdict)
                          else old(host.P()).(skipped := true)
    {
      var raises: bool, approved: bool := *, *;
      if raises {
        Note(ReviewSkipped, used);
        return None;
      }
      Note(Reviewed(approved), used);
      return Some(approved);
    }

    /** Why a debate stops: none was wanted, the last verdict approves, a review was not
        obtained, a revision failed, or the revisions are used up. */
    ghost predicate Settled(p: Journal.Run) {
      Rounds() == 0 || p.last == Some(true) || p.skipped || p.dropped || p.verdicts == Rounds() + 1
    }

    /** The effective number of revisions. */
    function Rounds(): nat { if hasReviewer && rounds > 0 then rounds else 0 }

    /** Everything but the harness runs, the reviews, the verify mark and the failure. */
    ghost predicate OnlyDebated(p: Journal.Run, q: Journal.Run) {
      q.good == p.good && q.succeeded == p.succeeded && q.prs == p.prs && q.moves == p.moves && q.stage == p.stage
    }

    /** One round of the debate: a review and, if it asks for it and `more` are left, a revision.
        `over` when the debate ends here. */
    method Round(task: Id, more: bool, ghost box: ContainerSandbox?, vbox: ContainerSandbox?,
                 ghost used: ContainerSandbox?)
      returns (over: bool, verdict: Option<bool>, failure: Option<FailureKind>)
      requires Only(used) && Fit(used) && Routes(task, box)
      requires (box == null || box == used) && (vbox == null || vbox == used)
      requires host.P().succeeded && host.P().last != Some(true) && (host.hasVerify ==> host.P().vouched)
      modifies router, host`journal, host`nextName, boxes`container
      ensures Only(used) && Routes(task, box)
      ensures router != null ==> router.asked == old(router.asked)
      ensures failure.None? && host.hasVerify ==> host.P().vouched
      ensures failure.Some? ==> failure.value == VerifyFailed || failure.value == VerifyBlocked
      ensures OnlyDebated(old(host.P()), host.P())
      ensures host.P().why == if failure.Some? then failure else old(host.P()).why
      ensures host.P().last == if verdict.Some? then verdict else old(host.P()).last
      ensures host.P().verdicts == old(host.P()).verdicts + if verdict.Some? then 1 else 0
      ensures old(host.P()).runs <= host.P().runs <= old(host.P()).runs + if verdict == Some(false) && more then 1 else 0
      ensures !over ==> more && Fit(used) && failure == None && verdict == Some(false)
      ensures !over ==> host.P().runs == old(host.P()).runs + 1
      ensures over && failure.None? ==>
        verdict == Some(true) || host.P().skipped || host.P().dropped || (verdict == Some(false) && !more)
      ensures Inside(box, vbox) ==> host.B().outside == old(host.B().outside)
    {
      failure := None;
      verdict := Review(used);
      if verdict.None? || verdict.value || !more { return true, verdict, None; }
      var next: int;
      next, failure := Revise(task, box, vbox, used);
      over := next != 0 || failure.Some?;
    }

    /** `_debate`: review, and on "revise" re-run and re-verify, at most `rounds` times. */
    method Debate(task: Id, code: int, ghost box: ContainerSandbox?, vbox: ContainerSandbox?,
                  ghost used: ContainerSandbox?)
      returns (last: int, failure: Option<FailureKind>, review: Option<bool>)
      requires code == 0 && Only(used) && Fit(used) && Routes(task, box)
      requires (box == null || box == used) && (vbox == null || vbox == used)
      requires host.P().runs <= 1 && host.P().verdicts == 0 && host.P().last == None
      requires host.P().succeeded && (host.hasVerify ==> host.P().vouched)
      modifies router, host`journal, host`nextName, boxes`container
      ensures Only(used)
      ensures router != null ==> router.asked == old(router.asked)
      ensures failure.None? && host.hasVerify ==> host.P().vouched
      ensures last == 0 && (failure.Some? ==> failure.value == VerifyFailed || failure.value == VerifyBlocked)
      ensures review == host.P().last
      ensures host.P().runs <= old(host.P().runs) + Rounds() && host.P().verdicts <= Rounds() + 1
      ensures Rounds() > 0 ==> host.P().verdicts <= host.P().runs - old(host.P().runs) + 1 <= host.P().verdicts + 1
      ensures failure.None? ==> Settled(host.P())
      ensures Rounds() == 0 ==> host.P() == old(host.P())
      ensures OnlyDebated(old(host.P()), host.P())
      ensures host.P().why == if failure.Some? then failure else old(host.P()).why
      ensures Inside(box, vbox) ==> host.B().outside == old(host.B().outside)
    {
      last, failure, review := code, None, None;
      if !hasReviewer || rounds <= 0 { return; }
      var remaining := rounds;
      ghost var p, outside := host.P(), host.B().outside;
      while true
        invariant 0 <= remaining <= rounds
        invariant Only(used) && Fit(used) && Routes(task, box) && failure == None
        invariant router != null ==> router.asked == old(router.asked)
        invariant host.hasVerify ==> host.P().vouched
        invariant last == 0 && host.P().succeeded && review == host.P().last && review != Some(true)
        invariant host.P().runs == p.runs + rounds - remaining && host.P().verdicts == rounds - remaining
        invariant OnlyDebated(p, host.P()) && host.P().why == p.why
        invariant Inside(box, vbox) ==> host.B().outside == outside
        decreases remaining
      {
        var over, verdict, f := Round(task, remaining > 0, box, vbox, used);
        failure := f;
        if verdict.Some? { review := verdict; }
        if over { return; }
        remaining := remaining - 1;
      }
    }

    /** One git operation; it leaves its effect only if it goes well. */
    method Git(e: Effect, ghost used: ContainerSandbox?) returns (o: GitOutcome)
      requires Only(used)
      requires e.Committed? || e.ChangesSeen? || e.Pushed? ||
        (e.PrOpened? && host.P().succeeded && host.P().stage == 3 && (host.hasVerify ==> host.P().vouched))
      modifies host`journal
      ensures Only(used) && host.B() == old(host.B())
      ensures host.P() == old(host.P()).(
        stage := if o == Fine then Advance(old(host.P()).stage, e) else old(host.P()).stage,
        prs := if o == Fine && e.PrOpened? then old(host.P()).prs + [e.url] else old(host.P()).prs,
        why := if o == GitFails then Some(PublishFailed)
               else if o == Fine && e == ChangesSeen(false) then Some(NoChanges) else old(host.P()).why)
    {
      o := *;
      match o
      case Fine => Note(e, used);
      case GitFails => Fails(GitErrored, PublishFailed, used);
      case OtherFails =>
    }

    /** The exception a failed git operation raises, as `execute` handles it. */
    function Stopped(o: GitOutcome): Publishing { if o == GitFails then Unpublished(PublishFailed) else Raised }

    /** Commit, check for changes, push, open the draft PR. */
    method Publish(ghost used: ContainerSandbox?) returns (r: Publishing)
      requires Only(used) && host.P().succeeded && host.P().stage == 0 && (host.hasVerify ==> host.P().vouched)
      modifies host`journal
      ensures Only(used) && host.B() == old(host.B())
      ensures r.Unpublished? ==> r.failure == NoChanges || r.failure == PublishFailed
      ensures host.P() == old(host.P()).(stage := host.P().stage,
        prs := if r.Published? then old(host.P()).prs + [r.url] else old(host.P()).prs,
        why := if r.Unpublished? then Some(r.failure) else old(host.P()).why)
    {
      var stopped := Prepare(used);
      if stopped.Some? { return stopped.value; }
      var url: string := *;
      var o := Git(PrOpened(url), used);
      if o != Fine { return Stopped(o); }
      return Published(url);
    }

    /** Everything before the PR: `None` once the commit is pushed. */
    method Prepare(ghost used: ContainerSandbox?) returns (r: Option<Publishing>)
      requires Only(used)
      modifies host`journal
      ensures Only(used) && host.B() == old(host.B())
      ensures r.None? ==> host.P().stage == 3
      ensures r.Some? ==> r.value == Raised || r.value == Unpublished(NoChanges) || r.value == Unpublished(PublishFailed)
      ensures host.P() == old(host.P()).(stage := host.P().stage,
        why := if r.Some? && r.value.Unpublished? then Some(r.value.failure) else old(host.P()).why)
    {
      var o := Git(Committed, used);
      if o != Fine { return Some(Stopped(o)); }
      r := SeeChanges(used);
      if r.Some? { return; }
      o := Git(Pushed, used);
      if o != Fine { return Some(Stopped(o)); }
    }

    method SeeChanges(ghost used: ContainerSandbox?) returns (r: Option<Publishing>)
      requires Only(used) && host.P().stage == 1
      modifies host`journal
      ensures Only(used) && host.B() == old(host.B())
      ensures r.None? ==> host.P().stage == 2
      ensures r.Some? ==> r.value == Raised || r.value == Unpublished(NoChanges) || r.value == Unpublished(PublishFailed)
      ensures host.P() == old(host.P()).(stage := host.P().stage,
        why := if r.Some? && r.value.Unpublished? then Some(r.value.failure) else old(host.P()).why)
    {
      var some: bool := *;
      var o := Git(ChangesSeen(some), used);
      if o != Fine { return Some(Stopped(o)); }
      return if some then None else Some(Unpublished(NoChanges));
    }

    /** The guarded transition out of `running`. */
    method Move(to: TaskState, prUrl: Option<string>)
      modifies host`journal
      ensures host.B() == old(host.B())
      ensures host.P() == old(host.P()).(moves := old(host.P()).moves + [(to, prUrl)])
    {
      host.Log(Moved(to, prUrl));
    }

    /** The closing transition and the report. */
    method Conclude(t: ExecutedTask) returns (r: Outcome)
      requires host.P().moves == [] && t.review == host.P().last && t.failure == host.P().why
      requires t.failure.None? <==> t.prUrl.Some?
      requires t.prUrl.Some? ==> host.P().prs == [t.prUrl.value]
      requires Classified(t)
      modifies host`journal
      ensures host.B() == old(host.B())
      ensures r == Finished(t) || r == ReportRaised(t) || r == MoveRaised
      ensures r == MoveRaised ==> host.P() == old(host.P())
      ensures r != MoveRaised ==> Delivered(host.P(), t)
      ensures host.P().good == old(host.P()).good && host.P().runs == old(host.P()).runs
      ensures host.P().verdicts == old(host.P()).verdicts && host.P().last == old(host.P()).last
      ensures host.P().skipped == old(host.P()).skipped && host.P().dropped == old(host.P()).dropped
    {
      var conflict: bool := *;
      if conflict { return MoveRaised; }
      Move(if t.failure.None? then Done else Failed, t.prUrl);
      var reportFails: bool := *;
      return if reportFails then ReportRaised(t) else Finished(t);
    }

    /** Harness, verify, review, publish: everything that decides the run's result. The run's
        session is `used`. `None` means an error other than a git error escaped. */
    method Produce(task: Id, ghost box: ContainerSandbox?, vbox: ContainerSandbox?, ghost used: ContainerSandbox?)
      returns (r: Option<ExecutedTask>)
      requires Only(used) && Fit(used) && Routes(task, box)
      requires (box == null || box == used) && (vbox == null || vbox == used)
      requires host.P() == Publication(host.hasVerify, [])
      modifies router, host`journal, host`nextName, boxes`container
      ensures Only(used)
      ensures router != null ==> router.asked == old(router.asked)
      ensures Disciplined(host.P()) && host.P().moves == []
      ensures Inside(box, vbox) ==> host.B().outside == old(host.B().outside)
      ensures r.Some? ==>
        && (r.value.failure.None? <==> r.value.prUrl.Some?)
        && (r.value.prUrl.Some? ==> host.P().prs == [r.value.prUrl.value])
        && (r.value.failure.None? ==> Settled(host.P()))
        && r.value.review == host.P().last && r.value.failure == host.P().why && Classified(r.value)
    {
      var code := RunHarness(task, box, used);
      if code != 0 { return Some(ExecutedTask(None, code, Some(HarnessFailure(code)), None)); }
      r := Accept(task, box, vbox, used);
    }

    /** What follows a harness run that succeeded. */
    method Accept(task: Id, ghost box: ContainerSandbox?, vbox: ContainerSandbox?, ghost used: ContainerSandbox?)
      returns (r: Option<ExecutedTask>)
      requires Only(used) && Fit(used) && Routes(task, box)
      requires (box == null || box == used) && (vbox == null || vbox == used)
      requires host.P() == Publication(host.hasVerify, []).(runs := 1, succeeded := true)
      modifies router, host`journal, host`nextName, boxes`container
      ensures Only(used)
      ensures router != null ==> router.asked == old(router.asked)
      ensures Disciplined(host.P()) && host.P().moves == []
      ensures Inside(box, vbox) ==> host.B().outside == old(host.B().outside)
      ensures r.Some? ==>
        && (r.value.failure.None? <==> r.value.prUrl.Some?)
        && (r.value.prUrl.Some? ==> host.P().prs == [r.value.prUrl.value])
        && (r.value.failure.None? ==> Settled(host.P()))
        && r.value.review == host.P().last && r.value.failure == host.P().why && Classified(r.value)
    {
      var failure := Verify(vbox, used);
      if failure.Some? { return Some(ExecutedTask(None, 0, failure, None)); }
      var last, again, review := Debate(task, 0, box, vbox, used);
      if again.Some? { return Some(ExecutedTask(None, last, again, review)); }
      var p := Publish(used);
      match p
      case Published(url) => return Some(ExecutedTask(Some(url), last, None, review));
      case Unpublished(f) => return Some(ExecutedTask(None, last, Some(f), review));
      case Raised => return None;
    }

    /** The wiring keeps every command in a session: each routed harness has one, which verify
        then shares; without routing the fixed harness and the verifier both use the executor's. */
    ghost predicate Contained() {
      if router == null then Inside(fixedBox, verifierBox)
      else forall k :: k in router.runners ==> router.runners[k] != null
    }

    /** PRs only for vouched work; at most R re-runs and, if there is a debate, R + 1 reviews. */
    ghost predicate Disciplined(p: Journal.Run) {
      p.good && p.runs <= 1 + Rounds() && p.verdicts <= if Rounds() > 0 then Rounds() + 1 else 0
    }

    /** `execute` from the point where the worktree exists, up to the `finally` block. */
    method Attempt(task: Id) returns (r: Outcome, runSession: ContainerSandbox?)
      requires Only(null) && host.journal == []
      modifies router, host`journal, host`nextName, boxes`container
      ensures Only(if runSession != null then runSession else session)
      ensures router != null ==> router.asked <= old(router.asked) + 1
      ensures Disciplined(host.P())
      ensures Contained() ==> host.B().outside == 0
      ensures r.Finished? || r.ReportRaised? ==> Delivered(host.P(), r.task)
      ensures (r.Finished? || r.ReportRaised?) && r.task.failure.None? ==> Settled(host.P())
      ensures !r.Finished? && !r.ReportRaised? ==> host.P().moves == []
    {
      runSession := null;
      var box, vbox := fixedBox, verifierBox;
      if router != null {
        var found, s := router.SessionFor(task);
        if !found { return SessionRaised, null; }
        runSession, box := s, s;
        if s != null { vbox := s; }
      }
      ghost var used := if runSession != null then runSession else session;
      var t := Produce(task, box, vbox, used);
      if t.None? { return GitRaised, runSession; }
      r := Conclude(t.value);
    }

    /** `execute` on a claimed task whose worktree was created. On every path, normal or
        exceptional: each container started is removed, at most one was started, no command
        ran in it before its setup was complete, none ran outside it if the wiring gives every
        command a session, PRs are opened only for verified work, and
        the task leaves `running` exactly once, unless an error escaped before the transition. */
    method Execute(task: Id, hasVerify: bool) returns (r: Outcome)
      requires Valid() && forall b :: b in boxes ==> b.container == None
      modifies router, host, boxes
      ensures Valid() && forall b :: b in boxes ==> b.container == None
      ensures host.hasVerify == hasVerify
      ensures host.B().good && host.B().live == None && host.B().starts <= 1
      ensures Contained() ==> host.B().outside == 0
      ensures router != null ==> router.asked <= old(router.asked) + 1
      ensures Disciplined(host.P())
      ensures r.Finished? || r.ReportRaised? ==> Delivered(host.P(), r.task)
      ensures (r.Finished? || r.ReportRaised?) && r.task.failure.None? ==> Settled(host.P())
      ensures !r.Finished? && !r.ReportRaised? ==> host.P().moves == []
    {
      host.journal, host.hasVerify := [], hasVerify;
      var runSession;
      r, runSession := Attempt(task);
      if runSession != null && runSession != session { runSession.Close(); }
      if session != null { session.Close(); }
    }
  }
}
