/** The two-process protocol over a shared directory (runners/shared.py): every unlink, write,
    existence test and read is one step, and the two processes interleave freely. The files'
    JSON is taken as invertible; each call's request carries the call's number so that answers
    can be told apart, which the code itself does not do. */
module SharedDir {
  import opened Tasks

  datatype Request = Request(call: nat, instructions: string, workdir: string, branch: string)

  /** A harness result, with the number of the request it was computed from. */
  datatype Answer = Answer(call: nat, exitCode: int)

  /** `DelegatingRunner.run`: remove the old result, write the request, poll, read, remove. */
  datatype Control =
    | Between
    | Unlinked(call: nat)
    | Polling(call: nat)
    | SawResult(call: nat)
    | HasRead(call: nat, answer: Answer)

  /** `serve`: poll, read the request, run, write the result, remove the request. */
  datatype Harness =
    | Watching
    | SawRequest
    | Running(request: Request)
    | Ran(answer: Answer)
    | Answered

  /** How a call ended: `answer` is None when it timed out. */
  datatype Return = Return(call: nat, answer: Option<Answer>)

  datatype State = State(
    request: Option<Request>,
    result: Option<Answer>,
    control: Control,
    harness: Harness,
    calls: nat,
    executed: seq<nat>,
    ended: seq<Return>,
    clean: bool)

  datatype Event =
    | CallStarts
    | RequestWritten(instructions: string, workdir: string, branch: string)
    | ControlPolls
    | ResultRead
    | ResultRemoved
    | CallTimesOut
    | HarnessPolls
    | RequestRead
    | HarnessRuns(exitCode: int)
    | ResultWritten
    | RequestRemoved

  /** The harness still owes an answer to a request it has read. */
  predicate Busy(h: Harness) { h.Running? || h.Ran? }

  /** A step that is not enabled leaves the state as it is. `clean` records, for the call in
      progress, whether its request was written with no result file present and the harness
      not busy. */
  function Step(s: State, e: Event): State {
    match e
    case CallStarts =>
      if s.control.Between? then s.(control := Unlinked(s.calls), calls := s.calls + 1, result := None) else s
    case RequestWritten(instructions, workdir, branch) =>
      if s.control.Unlinked?
      then s.(control := Polling(s.control.call),
              request := Some(Request(s.control.call, instructions, workdir, branch)),
              clean := s.result.None? && !Busy(s.harness))
      else s
    case ControlPolls =>
      if s.control.Polling? && s.result.Some? then s.(control := SawResult(s.control.call)) else s
    case ResultRead =>
      if s.control.SawResult? && s.result.Some?
      then s.(control := HasRead(s.control.call, s.result.value)) else s
    case ResultRemoved =>
      if s.control.HasRead?
      then s.(control := Between, result := None,
              ended := s.ended + [Return(s.control.call, Some(s.control.answer))])
      else s
    case CallTimesOut =>
      if s.control.Polling?
      then s.(control := Between, ended := s.ended + [Return(s.control.call, None)]) else s
    case HarnessPolls =>
      if s.harness.Watching? && s.request.Some? then s.(harness := SawRequest) else s
    case RequestRead =>
      if s.harness.SawRequest? && s.request.Some? then s.(harness := Harness.Running(s.request.value)) else s
    case HarnessRuns(exitCode) =>
      if s.harness.Running?
      then s.(harness := Ran(Answer(s.harness.request.call, exitCode)),
              executed := s.executed + [s.harness.request.call])
      else s
    case ResultWritten =>
      if s.harness.Ran? then s.(harness := Answered, result := Some(s.harness.answer)) else s
    case RequestRemoved =>
      if s.harness.Answered? then s.(harness := Watching, request := None) else s
  }

  const Start := State(None, None, Between, Watching, 0, [], [], true)

  function RunFrom(s: State, events: seq<Event>): State {
    if events == [] then s else Step(RunFrom(s, events[..|events| - 1]), events[|events| - 1])
  }

  function Run(events: seq<Event>): State { RunFrom(Start, events) }

  predicate InCall(c: Control) { c.Polling? || c.SawResult? || c.HasRead? }

  // ---- At most once

  predicate NoRepeat(q: seq<nat>) { forall i, j :: 0 <= i < j < |q| ==> q[i] != q[j] }

  /** Nothing outside the control process mentions a call that has not written its request. */
  predicate Numbered(s: State) {
    var written := if s.control.Unlinked? then s.calls - 1 else s.calls;
    && (!s.control.Between? ==> s.control.call + 1 == s.calls)
    && (s.request.Some? ==> s.request.value.call < written)
    && (s.harness.Running? ==> s.harness.request.call < written)
    && (s.harness.Ran? ==> s.harness.answer.call < written)
    && (s.result.Some? ==> s.result.value.call < written)
    && (s.control.HasRead? ==> s.control.answer.call < written)
    && (forall k :: k in s.executed ==> k < written)
  }

  /** The request on disk is unexecuted unless the harness is about to remove it. */
  predicate AtMostOnce(s: State) {
    && Numbered(s)
    && NoRepeat(s.executed)
    && (s.harness.Running? ==> s.harness.request.call !in s.executed)
    && (s.request.Some? && !s.harness.Ran? && !s.harness.Answered? ==> s.request.value.call !in s.executed)
  }

  lemma StepKeepsAtMostOnce(s: State, e: Event)
    requires AtMostOnce(s)
    ensures AtMostOnce(Step(s, e))
  {}

  lemma {:induction false} RunKeepsAtMostOnce(events: seq<Event>)
    ensures AtMostOnce(Run(events))
  {
    if events != [] {
      RunKeepsAtMostOnce(events[..|events| - 1]);
      StepKeepsAtMostOnce(Run(events[..|events| - 1]), events[|events| - 1]);
    }
  }

  /** In every interleaving, timeouts included, no request is executed twice. */
  lemma RequestsRunAtMostOnce(events: seq<Event>, i: nat, j: nat)
    requires i < j < |Run(events).executed|
    ensures Run(events).executed[i] != Run(events).executed[j]
  {
    RunKeepsAtMostOnce(events);
  }

  // ---- Own answers

  /** While a cleanly started call is in progress, everything in flight is its own. */
  predicate CleanInv(s: State) {
    InCall(s.control) && s.clean ==>
      var k := s.control.call;
      && (s.request.Some? ==> s.request.value.call == k)
      && (s.result.Some? ==> s.result.value.call == k)
      && (s.harness.Running? ==> s.harness.request.call == k)
      && (s.harness.Ran? ==> s.harness.answer.call == k)
      && (s.control.HasRead? ==> s.control.answer.call == k)
  }

  lemma StepKeepsClean(s: State, e: Event)
    requires CleanInv(s)
    ensures CleanInv(Step(s, e))
  {}

  /** Without timeouts the directory is quiet between calls: no result is left, and the
      harness is idle or only has the answered request left to remove. */
  predicate Quiet(s: State) {
    s.result.None? && !Busy(s.harness) && !s.harness.SawRequest?
    && (s.harness.Watching? ==> s.request.None?)
  }

  /** A call's answer is on disk only after the harness is done with its request. */
  predicate Settled(s: State) {
    s.result.Some? ==>
      !Busy(s.harness) && !s.harness.SawRequest? && (s.harness.Watching? ==> s.request.None?)
  }

  predicate AllAnswered(q: seq<Return>) { forall r :: r in q ==> r.answer.Some? }

  predicate OwnAnswers(q: seq<Return>) {
    forall i :: 0 <= i < |q| && q[i].answer.Some? && AllAnswered(q[..i]) ==> q[i].answer.value.call == q[i].call
  }

  predicate OwnInv(s: State) {
    && CleanInv(s)
    && OwnAnswers(s.ended)
    && (AllAnswered(s.ended) ==>
      && (InCall(s.control) ==> s.clean && Settled(s))
      && (!InCall(s.control) ==> Quiet(s))
      && (s.control.SawResult? || s.control.HasRead? ==> s.result.Some?))
  }

  lemma AppendReturn(q: seq<Return>, r: Return)
    requires OwnAnswers(q) && (AllAnswered(q) && r.answer.Some? ==> r.answer.value.call == r.call)
    ensures OwnAnswers(q + [r])
    ensures AllAnswered(q + [r]) <==> AllAnswered(q) && r.answer.Some?
  {
    var q' := q + [r];
    forall i | 0 <= i < |q'| && q'[i].answer.Some? && AllAnswered(q'[..i])
      ensures q'[i].answer.value.call == q'[i].call
    {
      assert q'[..i] == if i < |q| then q[..i] else q;
    }
    assert q'[|q|] in q' && forall x :: x in q ==> x in q';
  }

  lemma StepKeepsOwn(s: State, e: Event)
    requires OwnInv(s)
    ensures OwnInv(Step(s, e))
  {
    StepKeepsClean(s, e);
    if e.ResultRemoved? && s.control.HasRead? {
      AppendReturn(s.ended, Return(s.control.call, Some(s.control.answer)));
    } else if e.CallTimesOut? && s.control.Polling? {
      AppendReturn(s.ended, Return(s.control.call, None));
    }
  }

  lemma {:induction false} RunKeepsOwn(events: seq<Event>)
    ensures OwnInv(Run(events))
  {
    if events != [] {
      RunKeepsOwn(events[..|events| - 1]);
      StepKeepsOwn(Run(events[..|events| - 1]), events[|events| - 1]);
    }
  }

  /** If no earlier call timed out, any answer a call returns was computed from that call's
      own request. */
  lemma AnswersAreOwn(events: seq<Event>, i: nat)
    requires i < |Run(events).ended| && Run(events).ended[i].answer.Some?
    requires forall j :: 0 <= j < i ==> Run(events).ended[j].answer.Some?
    ensures Run(events).ended[i].answer.value.call == Run(events).ended[i].call
  {
    RunKeepsOwn(events);
    var q := Run(events).ended;
    assert AllAnswered(q[..i]);
  }

  // ---- Exactly when a call is safe

  /** However the processes continue, the call now in progress cannot return an answer
      computed from another call's request. */
  ghost predicate SafeCall(s: State)
    requires InCall(s.control)
  {
    forall events :: Safely(RunFrom(s, events), s.control.call)
  }

  predicate Safely(s: State, k: nat) {
    s.control.HasRead? && s.control.call == k ==> s.control.answer.call == k
  }

  predicate StillClean(s: State, k: nat) {
    CleanInv(s) && (InCall(s.control) && s.control.call == k ==> s.clean)
    && k < s.calls && (!s.control.Between? ==> s.control.call < s.calls)
    && (s.control.Unlinked? ==> s.control.call != k)
  }

  lemma StepKeepsStillClean(s: State, k: nat, e: Event)
    requires StillClean(s, k)
    ensures StillClean(Step(s, e), k)
  {
    StepKeepsClean(s, e);
  }

  lemma {:induction false} CleanStaysSafe(s: State, k: nat, events: seq<Event>)
    requires StillClean(s, k)
    ensures StillClean(RunFrom(s, events), k)
  {
    if events != [] {
      var last := |events| - 1;
      CleanStaysSafe(s, k, events[..last]);
      StepKeepsStillClean(RunFrom(s, events[..last]), k, events[last]);
    }
  }

  lemma RunTwo(s: State, e: Event, f: Event)
    ensures RunFrom(s, [e]) == Step(s, e)
    ensures RunFrom(s, [e, f]) == Step(Step(s, e), f)
  {
    assert [e][..0] == [] && [e, f][..1] == [e];
  }

  lemma {:induction false} RunAppend(s: State, p: seq<Event>, q: seq<Event>)
    ensures RunFrom(s, p + q) == RunFrom(RunFrom(s, p), q)
  {
    if q == [] {
      assert p + q == p;
    } else {
      RunAppend(s, p, q[..|q| - 1]);
      assert (p + q)[..|p + q| - 1] == p + q[..|q| - 1];
    }
  }

  /** From a result file of another call, polling and reading returns it. */
  lemma WrongAnswerReachable(s: State) returns (events: seq<Event>)
    requires s.control.Polling? && (s.result.Some? || Busy(s.harness))
    requires s.result.Some? ==> s.result.value.call != s.control.call
    requires s.harness.Running? ==> s.harness.request.call != s.control.call
    requires s.harness.Ran? ==> s.harness.answer.call != s.control.call
    ensures !Safely(RunFrom(s, events), s.control.call)
  {
    var finish := [];
    if s.result.None? {
      finish := [HarnessRuns(0), ResultWritten];
      RunTwo(s, HarnessRuns(0), ResultWritten);
    }
    var poll := [ControlPolls, ResultRead];
    RunTwo(RunFrom(s, finish), ControlPolls, ResultRead);
    RunAppend(s, finish, poll);
    events := finish + poll;
  }

  /** Exactly the calls whose request was written into a quiet directory are safe: no result
      file, and no older request still being run. */
  lemma SafeExactlyWhenClean(events: seq<Event>, e: Event)
    requires e.RequestWritten? && Run(events).control.Unlinked?
    ensures var s := Run(events);
      SafeCall(Step(s, e)) <==> s.result.None? && !Busy(s.harness)
  {
    var s := Run(events);
    var s' := Step(s, e);
    var k := s.control.call;
    RunKeepsAtMostOnce(events);
    RunKeepsOwn(events);
    StepKeepsClean(s, e);
    if s'.clean {
      forall more ensures Safely(RunFrom(s', more), k) { CleanStaysSafe(s', k, more); }
    } else {
      var bad := WrongAnswerReachable(s');
      assert !Safely(RunFrom(s', bad), k);
    }
  }

  // ---- Exactly when a request can be run at all

  /** Request `k` is off the disk, or will be removed by a harness that never read it. */
  predicate Doomed(s: State, k: nat) {
    && k < s.calls && k !in s.executed
    && (s.control.Unlinked? ==> s.control.call != k)
    && (s.harness.Running? ==> s.harness.request.call != k)
    && (s.request.Some? && s.request.value.call == k ==> Busy(s.harness) || s.harness.Answered?)
  }

  lemma StepKeepsDoomed(s: State, k: nat, e: Event)
    requires Doomed(s, k)
    ensures Doomed(Step(s, e), k)
  {}

  lemma {:induction false} DoomedStays(s: State, k: nat, events: seq<Event>)
    requires Doomed(s, k)
    ensures Doomed(RunFrom(s, events), k)
  {
    if events != [] {
      DoomedStays(s, k, events[..|events| - 1]);
      StepKeepsDoomed(RunFrom(s, events[..|events| - 1]), k, events[|events| - 1]);
    }
  }

  /** The harness removes whatever request is on disk once it has answered one, so a request
      written while it is anywhere past reading is lost: it can still be run exactly when the
      harness is watching or has only seen that a file exists. */
  lemma RunnableExactlyWhenIdle(events: seq<Event>, e: Event)
    requires e.RequestWritten? && Run(events).control.Unlinked?
    ensures var s := Run(events);
      (exists more :: s.control.call in RunFrom(Step(s, e), more).executed)
      <==> s.harness.Watching? || s.harness.SawRequest?
  {
    var s := Run(events);
    var s', k := Step(s, e), s.control.call;
    RunKeepsAtMostOnce(events);
    if s.harness.Watching? || s.harness.SawRequest? {
      var see := if s.harness.Watching? then [HarnessPolls] else [];
      var seen := RunFrom(s', see);
      if s.harness.Watching? { RunTwo(s', HarnessPolls, HarnessPolls); }
      RunTwo(seen, RequestRead, HarnessRuns(0));
      RunAppend(s', see, [RequestRead, HarnessRuns(0)]);
      assert k in RunFrom(s', see + [RequestRead, HarnessRuns(0)]).executed;
    } else {
      forall more ensures k !in RunFrom(s', more).executed { DoomedStays(s', k, more); }
    }
  }

  // ---- Both failures do happen

  lemma Then(events: seq<Event>, e: Event) returns (longer: seq<Event>)
    ensures Run(longer) == Step(Run(events), e)
  {
    longer := events + [e];
    assert longer[..|events|] == events;
  }

  const First := Request(0, "a", "/w", "b")
  const Second := Request(1, "c", "/w", "b")

  /** Call 0 times out while the harness runs its request; call 1 writes the next request. */
  lemma SecondCallOverlaps() returns (events: seq<Event>)
    ensures Run(events) ==
      State(Some(Second), None, Polling(1), Harness.Running(First), 2, [], [Return(0, None)], false)
  {
    events := Then([], CallStarts);
    events := Then(events, RequestWritten("a", "/w", "b"));
    events := Then(events, HarnessPolls);
    events := Then(events, RequestRead);
    events := Then(events, CallTimesOut);
    events := Then(events, CallStarts);
    events := Then(events, RequestWritten("c", "/w", "b"));
  }

  /** The result of a timed-out call is returned by the next call as its own. */
  lemma LateAnswerReachesNextCall() returns (events: seq<Event>)
    ensures Run(events).ended == [Return(0, None), Return(1, Some(Answer(0, 7)))]
  {
    events := SecondCallOverlaps();
    events := Then(events, HarnessRuns(7));
    events := Then(events, ResultWritten);
    events := Then(events, ControlPolls);
    events := Then(events, ResultRead);
    events := Then(events, ResultRemoved);
  }

  /** The harness removes the next call's request unread: it is off the disk while its call is
      still waiting, and no continuation ever executes it. */
  lemma UnreadRequestIsRemoved() returns (events: seq<Event>)
    ensures Run(events).control == Polling(1) && Run(events).request == None && Run(events).executed == [0]
    ensures forall more :: 1 !in RunFrom(Run(events), more).executed
  {
    events := SecondCallOverlaps();
    events := Then(events, HarnessRuns(7));
    events := Then(events, ResultWritten);
    events := Then(events, RequestRemoved);
    var s := Run(events);
    forall more ensures 1 !in RunFrom(s, more).executed { DoomedStays(s, 1, more); }
  }

  // ---- What reaches the harness

  /** A call that starts and writes its request while the harness owes no answer is safe, whatever
      result file an earlier call left behind: starting removes it. */
  lemma StartingClearsResults(events: seq<Event>, e: Event)
    requires e.RequestWritten? && Run(events).control.Between? && !Busy(Run(events).harness)
    ensures var s := Step(Step(Run(events), CallStarts), e); InCall(s.control) && SafeCall(s)
  {
    var started := Then(events, CallStarts);
    SafeExactlyWhenClean(started, e);
  }

  /** The request was written, with just this content, by the call it belongs to. */
  ghost predicate WrittenAt(events: seq<Event>, r: Request, n: nat) {
    n < |events| && events[n].RequestWritten? && Run(events[..n]).control == Unlinked(r.call)
    && r.instructions == events[n].instructions && r.workdir == events[n].workdir && r.branch == events[n].branch
  }

  predicate InFlight(s: State, r: Request) { s.request == Some(r) || s.harness == Harness.Running(r) }

  /** In every run, what is on disk or being run is exactly what some call wrote. */
  lemma {:induction false} RequestsArriveIntact(events: seq<Event>, r: Request) returns (n: nat)
    requires InFlight(Run(events), r)
    ensures WrittenAt(events, r, n)
  {
    var last := |events| - 1;
    var front := events[..last];
    if InFlight(Run(front), r) {
      n := RequestsArriveIntact(front, r);
      assert front[..n] == events[..n];
    } else {
      n := last;
    }
  }

  /** The harness's exit code travels to the caller unchanged: an answer a call returned was
      produced by a harness run, with that exit code, of the request it names. */
  ghost predicate ProducedAt(events: seq<Event>, a: Answer, n: nat) {
    n < |events| && events[n].HarnessRuns? && events[n].exitCode == a.exitCode
    && Run(events[..n]).harness.Running? && Run(events[..n]).harness.request.call == a.call
  }

  ghost predicate HasAnswer(s: State, a: Answer) {
    || s.result == Some(a) || s.harness == Ran(a) || (s.control.HasRead? && s.control.answer == a)
    || exists r :: r in s.ended && r.answer == Some(a)
  }

  lemma AnswerStep(s: State, e: Event, a: Answer)
    requires HasAnswer(Step(s, e), a)
    ensures HasAnswer(s, a) || (e.HarnessRuns? && e.exitCode == a.exitCode && s.harness.Running? && s.harness.request.call == a.call)
  {
    var s' := Step(s, e);
    if r :| r in s'.ended && r.answer == Some(a) { assert r in s.ended || r == s'.ended[|s.ended|]; }
  }

  lemma {:induction false} AnswersAreProduced(events: seq<Event>, a: Answer) returns (n: nat)
    requires HasAnswer(Run(events), a)
    ensures ProducedAt(events, a, n)
  {
    var last := |events| - 1;
    var front := events[..last];
    AnswerStep(Run(front), events[last], a);
    if HasAnswer(Run(front), a) {
      n := AnswersAreProduced(front, a);
      assert front[..n] == events[..n];
    } else {
      n := last;
    }
  }
}
