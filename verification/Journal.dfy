/** The effects of one task run, in the order they happen, and two monitors that read them. */
module Journal {
  import opened Tasks

  datatype Effect =
    | Started(c: nat, setups: nat)
    | SetupRan(c: nat, ok: bool)
    | HarnessRan(box: Option<nat>, exitCode: int)
    | HarnessRaised
    | Verified(box: Option<nat>, ok: bool)
    | VerifyRefused
    | VerifyRaised
    | Reviewed(approved: bool)
    | ReviewSkipped
    | Committed
    | ChangesSeen(some: bool)
    | Pushed
    | PrOpened(url: string)
    | GitErrored
    | Moved(to: TaskState, prUrl: Option<string>)
    | Removed(c: nat)

  // ---- Containers

  /** The live container, its setup commands still to succeed, whether one failed, how many
      containers were started, how many harness and verify commands ran outside any container,
      and whether every effect so far was in order. */
  datatype Boxes = Boxes(live: Option<nat>, left: nat, broken: bool, starts: nat, outside: nat, good: bool)

  function WatchBox(m: Boxes, e: Effect): Boxes {
    match e
    case Started(c, setups) => Boxes(Some(c), setups, false, m.starts + 1, m.outside, m.good && m.live.None?)
    case SetupRan(c, ok) =>
      m.(left := if ok && m.left > 0 then m.left - 1 else m.left, broken := m.broken || !ok,
         good := m.good && m.live == Some(c) && m.left > 0 && !m.broken)
    case HarnessRan(box, _) => RunCommand(m, box)
    case Verified(box, _) => RunCommand(m, box)
    case Removed(c) => m.(live := None, good := m.good && m.live == Some(c))
    case _ => m
  }

  function RunCommand(m: Boxes, box: Option<nat>): Boxes {
    m.(outside := m.outside + if box.None? then 1 else 0, good := m.good && MayRunIn(m, box))
  }

  /** A command may run outside any container, or in the live one once fully set up. */
  predicate MayRunIn(m: Boxes, box: Option<nat>) {
    box.Some? ==> m.live == box && m.left == 0 && !m.broken
  }

  function Containers(j: seq<Effect>): Boxes {
    if j == [] then Boxes(None, 0, false, 0, 0, true)
    else WatchBox(Containers(j[..|j| - 1]), j[|j| - 1])
  }

  // ---- Publication

  datatype FailureKind =
    | HarnessMissing | Timeout | HarnessFailed
    | VerifyFailed | VerifyBlocked | NoChanges | PublishFailed

  function HarnessFailure(code: int): FailureKind {
    if code == 127 then HarnessMissing else if code == 124 then Timeout else HarnessFailed
  }

  /** The failure an effect amounts to. A harness run that fails after one has succeeded is a
      revision that is dropped, not a failure of the task. */
  function Blame(e: Effect, succeeded: bool): Option<FailureKind> {
    match e
    case HarnessRan(_, code) => if code != 0 && !succeeded then Some(HarnessFailure(code)) else None
    case HarnessRaised => if succeeded then None else Some(HarnessFailed)
    case Verified(_, ok) => if ok then None else Some(VerifyFailed)
    case VerifyRefused => Some(VerifyBlocked)
    case VerifyRaised => Some(VerifyFailed)
    case ChangesSeen(some) => if some then None else Some(NoChanges)
    case GitErrored => Some(PublishFailed)
    case _ => None
  }

  /** How far publishing has come: committed, changes found, pushed. */
  function Advance(stage: nat, e: Effect): nat {
    match e
    case Committed => 1
    case ChangesSeen(some) => if some && stage == 1 then 2 else 0
    case Pushed => if stage == 2 then 3 else 0
    case _ => stage
  }

  /** `vouched`: no harness run has succeeded since the last passing verify; `succeeded`: some
      harness run exited zero; `why`: the last failure; `stage`: see `Advance`; `skipped`: a review
      was not obtained; `dropped`: a revision failed and was dropped. */
  datatype Run = Run(
    vouched: bool,
    succeeded: bool,
    good: bool,
    runs: nat,
    verdicts: nat,
    last: Option<bool>,
    prs: seq<string>,
    moves: seq<(TaskState, Option<string>)>,
    why: Option<FailureKind>,
    stage: nat,
    skipped: bool,
    dropped: bool)

  function WatchRun(verify: bool, m: Run, e: Effect): Run {
    var blame := Blame(e, m.succeeded);
    WatchWork(verify, m, e).(why := if blame.Some? then blame else m.why, stage := Advance(m.stage, e),
      skipped := m.skipped || e == ReviewSkipped, dropped := m.dropped || Drops(e, m.succeeded))
  }

  /** A harness run that fails after one has succeeded. */
  predicate Drops(e: Effect, succeeded: bool) {
    succeeded && (e == HarnessRaised || (e.HarnessRan? && e.exitCode != 0))
  }

  function WatchWork(verify: bool, m: Run, e: Effect): Run {
    match e
    case HarnessRan(_, code) =>
      m.(runs := m.runs + 1, vouched := m.vouched && code != 0, succeeded := m.succeeded || code == 0,
         good := m.good && m.last != Some(true))
    case Verified(_, ok) => m.(vouched := m.vouched || ok)
    case Reviewed(approved) => m.(verdicts := m.verdicts + 1, last := Some(approved))
    case PrOpened(url) => m.(prs := m.prs + [url], good := m.good && m.succeeded && m.stage == 3 && (verify ==> m.vouched))
    case Moved(to, prUrl) => m.(moves := m.moves + [(to, prUrl)])
    case _ => m
  }

  function Publication(verify: bool, j: seq<Effect>): Run {
    if j == [] then Run(false, false, true, 0, 0, None, [], [], None, 0, false, false)
    else WatchRun(verify, Publication(verify, j[..|j| - 1]), j[|j| - 1])
  }

  /** Appending one effect advances both monitors by one step. */
  lemma Append(verify: bool, j: seq<Effect>, e: Effect)
    ensures Containers(j + [e]) == WatchBox(Containers(j), e)
    ensures Publication(verify, j + [e]) == WatchRun(verify, Publication(verify, j), e)
  {
    assert (j + [e])[..|j|] == j;
  }

  /** What one more effect does to each mark of the publication monitor. */
  lemma Marks(verify: bool, j: seq<Effect>)
    requires j != []
    ensures Marked(Publication(verify, j[..|j| - 1]), Publication(verify, j), j[|j| - 1])
  {
    MarkedNext(verify, Publication(verify, j[..|j| - 1]), j[|j| - 1]);
  }

  predicate Marked(p: Run, q: Run, e: Effect) {
    && q.succeeded == (p.succeeded || (e.HarnessRan? && e.exitCode == 0))
    && q.last == (if e.Reviewed? then Some(e.approved) else p.last)
    && q.why == (if Blame(e, p.succeeded).Some? then Blame(e, p.succeeded) else p.why)
    && q.stage == Advance(p.stage, e)
    && q.skipped == (p.skipped || e == ReviewSkipped) && q.dropped == (p.dropped || Drops(e, p.succeeded))
    && q.vouched == (if e.HarnessRan? then p.vouched && e.exitCode != 0 else p.vouched || (e.Verified? && e.ok))
  }

  lemma MarkedNext(verify: bool, p: Run, e: Effect)
    ensures Marked(p, WatchRun(verify, p, e), e)
  {}

  // ---- What the monitors' verdicts mean

  ghost predicate VouchedAt(j: seq<Effect>, k: int) {
    0 <= k < |j| && j[k].Verified? && j[k].ok
    && forall i :: k < i < |j| && j[i].HarnessRan? ==> j[i].exitCode != 0
  }

  lemma {:induction false} VouchedMeans(verify: bool, j: seq<Effect>)
    ensures Publication(verify, j).vouched <==> exists k :: VouchedAt(j, k)
  {
    if j != [] {
      var last := |j| - 1;
      var front := j[..last];
      VouchedMeans(verify, front);
      Marks(verify, j);
      if k :| VouchedAt(j, k) { assert k < last ==> VouchedAt(front, k); }
      if k :| VouchedAt(front, k) {
        assert !(j[last].HarnessRan? && j[last].exitCode == 0) ==> VouchedAt(j, k);
      }
      assert j[last].Verified? && j[last].ok ==> VouchedAt(j, last);
    }
  }

  lemma {:induction false} SucceededMeans(verify: bool, j: seq<Effect>)
    ensures Publication(verify, j).succeeded <==> SucceededBefore(j, |j|)
  {
    if j != [] {
      SucceededMeans(verify, j[..|j| - 1]);
      Marks(verify, j);
      SuccessGrows(j);
    }
  }

  lemma SuccessGrows(j: seq<Effect>)
    requires j != []
    ensures var last := |j| - 1;
      SucceededBefore(j, |j|) <==> SucceededBefore(j[..last], last) || (j[last].HarnessRan? && j[last].exitCode == 0)
  {
    var last := |j| - 1;
    if i :| 0 <= i < last && j[..last][i].HarnessRan? && j[..last][i].exitCode == 0 { assert j[i] == j[..last][i]; }
    if i :| 0 <= i < |j| && j[i].HarnessRan? && j[i].exitCode == 0 { assert i < last ==> j[..last][i] == j[i]; }
  }

  lemma SuccessIsEarly(j: seq<Effect>, n: nat, k: nat)
    requires k <= n <= |j|
    ensures SucceededBefore(j[..n], k) == SucceededBefore(j, k)
  {
    if i :| 0 <= i < k && j[..n][i].HarnessRan? && j[..n][i].exitCode == 0 { assert j[i] == j[..n][i]; }
    if i :| 0 <= i < k && j[i].HarnessRan? && j[i].exitCode == 0 { assert j[..n][i] == j[i]; }
  }

  /** The failure recorded is that of the last effect that amounts to one; none if none does. */
  lemma {:induction false} WhyMeans(verify: bool, j: seq<Effect>)
    ensures var why := Publication(verify, j).why;
      if why.Some? then exists k :: BlamedAt(j, k) && why == BlameAt(j, k)
      else forall k :: 0 <= k < |j| ==> BlameAt(j, k) == None
  {
    if j != [] {
      var last := |j| - 1;
      var front := j[..last];
      WhyMeans(verify, front);
      Marks(verify, j);
      SucceededMeans(verify, front);
      SuccessIsEarly(j, last, last);
      BlameGrows(j);
    }
  }

  /** The blame after one more effect. */
  lemma BlameGrows(j: seq<Effect>)
    requires j != []
    ensures var last := |j| - 1; var front := j[..last]; var latest := Blame(j[last], SucceededBefore(j, last));
      && (latest.Some? ==> BlamedAt(j, last))
      && (forall k :: latest.None? && BlamedAt(front, k) ==> BlamedAt(j, k) && BlameAt(j, k) == BlameAt(front, k))
      && ((forall k :: 0 <= k < last ==> BlameAt(front, k) == None) && latest.None? ==>
          forall k :: 0 <= k <= last ==> BlameAt(j, k) == None)
  {
    var last := |j| - 1;
    var front := j[..last];
    forall k | 0 <= k < last ensures BlameAt(front, k) == BlameAt(j, k) {
      SuccessIsEarly(j, last, k);
    }
  }

  /** What effect `k` amounts to. */
  ghost function BlameAt(j: seq<Effect>, k: int): Option<FailureKind>
    requires 0 <= k < |j|
  {
    Blame(j[k], SucceededBefore(j, k))
  }

  /** Which effects amount to which failure. */
  lemma BlameMeans(e: Effect, succeeded: bool, f: FailureKind)
    requires Blame(e, succeeded) == Some(f)
    ensures f == NoChanges <==> e == ChangesSeen(false)
    ensures f == PublishFailed <==> e == GitErrored
    ensures f == VerifyBlocked <==> e == VerifyRefused
    ensures f == VerifyFailed <==> e == VerifyRaised || (e.Verified? && !e.ok)
    ensures f == HarnessMissing <==> e.HarnessRan? && e.exitCode == 127
    ensures f == Timeout <==> e.HarnessRan? && e.exitCode == 124
    ensures f == HarnessFailed <==> e == HarnessRaised || (e.HarnessRan? && e.exitCode !in {0, 124, 127})
    ensures e.HarnessRan? || e == HarnessRaised ==> !succeeded
  {}

  /** Some harness run among the first `k` effects exited zero. */
  ghost predicate SucceededBefore(j: seq<Effect>, k: int)
    requires 0 <= k <= |j|
  {
    exists i :: 0 <= i < k && j[i].HarnessRan? && j[i].exitCode == 0
  }

  /** Effect `k` amounts to a failure, and none after it does. */
  ghost predicate BlamedAt(j: seq<Effect>, k: int) {
    0 <= k < |j| && BlameAt(j, k).Some? && forall i :: k < i < |j| ==> BlameAt(j, i) == None
  }

  /** A review was not obtained exactly when the journal says so, and a revision was dropped exactly
      when the harness failed after an earlier success. */
  lemma {:induction false} StopsMean(verify: bool, j: seq<Effect>)
    ensures Publication(verify, j).skipped <==> exists k :: 0 <= k < |j| && j[k] == ReviewSkipped
    ensures Publication(verify, j).dropped <==> exists k :: DroppedAt(j, k)
  {
    if j != [] {
      var last := |j| - 1;
      var front := j[..last];
      StopsMean(verify, front);
      Marks(verify, j);
      SucceededMeans(verify, front);
      SuccessIsEarly(j, last, last);
      StopsGrow(j);
    }
  }

  ghost predicate DroppedAt(j: seq<Effect>, k: int) {
    0 <= k < |j| && SucceededBefore(j, k) && (j[k] == HarnessRaised || (j[k].HarnessRan? && j[k].exitCode != 0))
  }

  lemma StopsGrow(j: seq<Effect>)
    requires j != []
    ensures var last := |j| - 1; var front := j[..last];
      && ((exists k :: 0 <= k < |j| && j[k] == ReviewSkipped) <==>
          (exists k :: 0 <= k < last && front[k] == ReviewSkipped) || j[last] == ReviewSkipped)
      && ((exists k :: DroppedAt(j, k)) <==> (exists k :: DroppedAt(front, k)) || DroppedAt(j, last))
  {
    var last := |j| - 1;
    var front := j[..last];
    if k :| 0 <= k < last && front[k] == ReviewSkipped { assert j[k] == front[k]; }
    if k :| 0 <= k < |j| && j[k] == ReviewSkipped { assert k < last ==> front[k] == j[k]; }
    forall k | 0 <= k < last ensures DroppedAt(front, k) <==> DroppedAt(j, k) { SuccessIsEarly(j, last, k); }
  }

  /** Committed, then changes found, then pushed. */
  ghost predicate Prepared(j: seq<Effect>, a: int, b: int, c: int) {
    0 <= a < b < c < |j| && j[a].Committed? && j[b] == ChangesSeen(true) && j[c].Pushed?
  }

  lemma {:induction false} StageMeans(verify: bool, j: seq<Effect>)
    ensures Publication(verify, j).stage <= 3
    ensures Publication(verify, j).stage >= 1 ==> exists a :: 0 <= a < |j| && j[a].Committed?
    ensures Publication(verify, j).stage >= 2 ==> exists a, b :: 0 <= a < b < |j| && j[a].Committed? && j[b] == ChangesSeen(true)
    ensures Publication(verify, j).stage >= 3 ==> exists a, b, c :: Prepared(j, a, b, c)
  {
    if j != [] {
      var last := |j| - 1;
      var front := j[..last];
      StageMeans(verify, front);
      Marks(verify, j);
      var s := Publication(verify, front).stage;
      if s >= 3 {
        var a, b, c :| Prepared(front, a, b, c);
        assert Prepared(j, a, b, c);
      }
      if s >= 2 {
        var a, b :| 0 <= a < b < |front| && front[a].Committed? && front[b] == ChangesSeen(true);
        assert j[a].Committed? && j[b] == ChangesSeen(true);
        if j[last].Pushed? && s == 2 { assert Prepared(j, a, b, last); }
      }
      if s >= 1 {
        var a :| 0 <= a < |front| && front[a].Committed?;
        assert j[a].Committed?;
        if j[last] == ChangesSeen(true) && s == 1 { assert a < last && j[last] == ChangesSeen(true); }
      }
      if j[last].Committed? { assert j[last].Committed?; }
    }
  }

  /** A good journal opens a PR only after a commit, changes found and a push, in that order. */
  lemma {:induction false} PublishingMeans(verify: bool, j: seq<Effect>, i: nat)
    requires Publication(verify, j).good && i < |j| && j[i].PrOpened?
    ensures exists a, b, c :: Prepared(j, a, b, c) && c < i
  {
    var last := |j| - 1;
    if i == last {
      StageMeans(verify, j[..last]);
      var a, b, c :| Prepared(j[..last], a, b, c);
      assert Prepared(j, a, b, c);
    } else {
      PublishingMeans(verify, j[..last], i);
      var a, b, c :| Prepared(j[..last], a, b, c) && c < i;
      assert Prepared(j, a, b, c);
    }
  }

  /** A good journal opens a PR only after a harness run that exited zero and, for a task with
      a verify command, only if some verify passed before it and every harness run in between
      exited non-zero. */
  lemma {:induction false} GoodPublicationMeans(verify: bool, j: seq<Effect>, i: nat)
    requires Publication(verify, j).good && i < |j| && j[i].PrOpened?
    ensures verify ==> exists k :: VouchedAt(j[..i], k)
    ensures exists k :: 0 <= k < i && j[k].HarnessRan? && j[k].exitCode == 0
  {
    var last := |j| - 1;
    if i == last {
      VouchedMeans(verify, j[..last]);
      SucceededMeans(verify, j[..last]);
    } else {
      GoodPublicationMeans(verify, j[..last], i);
      assert j[..last][..i] == j[..i];
    }
  }

  ghost predicate LastVerdictBefore(j: seq<Effect>, i: int, k: int)
    requires 0 <= i <= |j|
  {
    0 <= k < i && j[k].Reviewed? && forall m :: k < m < i ==> !j[m].Reviewed?
  }

  /** The recorded review is the last verdict obtained, and none exactly when there was none. */
  lemma {:induction false} LastMeans(verify: bool, j: seq<Effect>)
    ensures var last := Publication(verify, j).last;
      if last.Some? then exists k :: LastVerdictBefore(j, |j|, k) && last == Some(j[k].approved)
      else forall k :: 0 <= k < |j| ==> !j[k].Reviewed?
  {
    if j != [] {
      var front := j[..|j| - 1];
      LastMeans(verify, front);
      Marks(verify, j);
      if j[|j| - 1].Reviewed? {
        assert LastVerdictBefore(j, |j|, |j| - 1);
      } else if k :| LastVerdictBefore(front, |front|, k) && Publication(verify, front).last == Some(front[k].approved) {
        assert LastVerdictBefore(j, |j|, k);
      }
    }
  }

  lemma {:induction false} LastIs(verify: bool, j: seq<Effect>, k: nat)
    requires LastVerdictBefore(j, |j|, k)
    ensures Publication(verify, j).last == Some(j[k].approved)
  {
    Marks(verify, j);
    if k < |j| - 1 { LastIs(verify, j[..|j| - 1], k); }
  }

  /** In a good journal the harness is never run again after an approving verdict. */
  lemma {:induction false} ApprovalEndsRuns(verify: bool, j: seq<Effect>, i: nat, k: nat)
    requires Publication(verify, j).good && i < |j| && j[i].HarnessRan? && LastVerdictBefore(j, i, k)
    ensures !j[k].approved
  {
    var last := |j| - 1;
    if i == last {
      LastIs(verify, j[..last], k);
    } else {
      ApprovalEndsRuns(verify, j[..last], i, k);
    }
  }

  function Count(j: seq<Effect>, e: Effect): nat {
    if j == [] then 0 else Count(j[..|j| - 1], e) + if j[|j| - 1] == e then 1 else 0
  }

  function StartsOf(j: seq<Effect>, c: nat): nat {
    if j == [] then 0
    else StartsOf(j[..|j| - 1], c) + if j[|j| - 1].Started? && j[|j| - 1].c == c then 1 else 0
  }

  /** In a good journal, removals match starts, container by container, up to the live one. */
  lemma {:induction false} RemovalsMatchStarts(j: seq<Effect>, c: nat)
    requires Containers(j).good
    ensures StartsOf(j, c) == Count(j, Removed(c)) + if Containers(j).live == Some(c) then 1 else 0
    ensures StartsOf(j, c) <= Containers(j).starts
  {
    if j != [] { RemovalsMatchStarts(j[..|j| - 1], c); }
  }

  /** When a run ends with no container live, each one was removed as often as it was started;
      with at most one start, each one started was removed exactly once. */
  lemma EndsClean(j: seq<Effect>, c: nat)
    requires Containers(j).good && Containers(j).live.None?
    ensures Count(j, Removed(c)) == StartsOf(j, c) <= Containers(j).starts
  {
    RemovalsMatchStarts(j, c);
  }

  predicate IsCommand(e: Effect) { e.HarnessRan? || e.Verified? }

  /** The most recent start: its container and number of setup commands. */
  function LastStart(j: seq<Effect>): Option<(nat, nat)> {
    if j == [] then None
    else if j[|j| - 1].Started? then Some((j[|j| - 1].c, j[|j| - 1].setups))
    else LastStart(j[..|j| - 1])
  }

  /** Setup commands run in `c` since the most recent start, with the given result. */
  function SetupsSince(j: seq<Effect>, c: nat, ok: bool): nat {
    if j == [] || j[|j| - 1].Started? then 0
    else SetupsSince(j[..|j| - 1], c, ok) + if j[|j| - 1] == SetupRan(c, ok) then 1 else 0
  }

  /** Container `c` was the last one started, and all its setup commands succeeded. */
  predicate SetUp(j: seq<Effect>, c: nat) {
    LastStart(j).Some? && LastStart(j).value.0 == c
    && SetupsSince(j, c, true) == LastStart(j).value.1 && SetupsSince(j, c, false) == 0
  }

  /** While a container is live, the monitor's counters are those of its start. */
  lemma {:induction false} LiveMeans(j: seq<Effect>)
    requires Containers(j).good && Containers(j).live.Some?
    ensures var m := Containers(j);
      && LastStart(j).Some? && LastStart(j).value.0 == m.live.value
      && m.left + SetupsSince(j, m.live.value, true) == LastStart(j).value.1
      && (m.broken <==> SetupsSince(j, m.live.value, false) > 0)
  {
    if !j[|j| - 1].Started? { LiveMeans(j[..|j| - 1]); }
  }

  /** In a good journal every command in a container ran after that container's start and
      after all of its setup commands had succeeded. */
  lemma {:induction false} CommandsRunSetUp(j: seq<Effect>, i: nat)
    requires Containers(j).good && i < |j| && IsCommand(j[i]) && j[i].box.Some?
    ensures SetUp(j[..i], j[i].box.value)
  {
    var last := |j| - 1;
    if i == last {
      LiveMeans(j[..last]);
    } else {
      CommandsRunSetUp(j[..last], i);
      assert j[..last][..i] == j[..i];
    }
  }

  lemma {:induction false} StartsGrow(j: seq<Effect>, i: nat)
    requires i <= |j|
    ensures Containers(j[..i]).starts <= Containers(j).starts
    ensures LastStart(j[..i]).Some? ==> Containers(j[..i]).starts >= 1
    ensures LastStart(j[..i]).Some? && Containers(j).starts <= 1 ==> LastStart(j) == LastStart(j[..i])
  {
    if i == |j| {
      assert j[..i] == j;
      if i > 0 && !j[i - 1].Started? { StartsGrow(j[..i - 1], i - 1); assert j[..i - 1][..i - 1] == j[..i - 1]; }
    } else {
      StartsGrow(j[..|j| - 1], i);
      assert j[..|j| - 1][..i] == j[..i];
    }
  }

  /** When at most one container was started, every contained command shared it. */
  lemma ContainedShareOne(j: seq<Effect>, i: nat, k: nat)
    requires Containers(j).good && Containers(j).starts <= 1
    requires i < |j| && IsCommand(j[i]) && j[i].box.Some?
    requires k < |j| && IsCommand(j[k]) && j[k].box.Some?
    ensures j[i].box == j[k].box
  {
    CommandsRunSetUp(j, i);
    CommandsRunSetUp(j, k);
    StartsGrow(j, i);
    StartsGrow(j, k);
  }

  /** The monitor counts no command outside exactly when every command ran in a container. */
  lemma {:induction false} OutsideMeans(j: seq<Effect>)
    ensures Containers(j).outside == 0 <==> forall i :: 0 <= i < |j| && IsCommand(j[i]) ==> j[i].box.Some?
  {
    if j != [] {
      OutsideMeans(j[..|j| - 1]);
      assert forall i :: 0 <= i < |j| - 1 ==> j[..|j| - 1][i] == j[i];
    }
  }

  /** When none ran outside, all harness and verify commands of the run ran in one and the same
      container, each of them after its setup. */
  lemma CommandsShareOneContainer(j: seq<Effect>, i: nat, k: nat)
    requires Containers(j).good && Containers(j).starts <= 1 && Containers(j).outside == 0
    requires i < |j| && IsCommand(j[i]) && k < |j| && IsCommand(j[k])
    ensures j[i].box.Some? && j[i].box == j[k].box && SetUp(j[..i], j[i].box.value)
  {
    OutsideMeans(j);
    ContainedShareOne(j, i, k);
    CommandsRunSetUp(j, i);
  }
}
