/** With a fixed set of tasks, and each worker's guard and claim taken as one step, every run
    of starts, give-ups, finishes, lease releases and decisions is finite. */
module Termination {
  import opened Tasks
  import opened QueueSpec
  import opened Deps
  import opened Worker
  import L = Lifecycle

  /** Each start carries its own clock reading and lease, and each guard the project policy as it
      stands at that moment; only the attempts limit is fixed. */
  datatype Move =
    | Start(id: Id, disabled: string -> bool, now: Time, lease: Time)
    | GiveUp(id: Id, disabled: string -> bool)
    | Finish(id: Id, ok: bool)
    | Release(now: Time)
    | Decide(id: Id, approve: bool, action: string)

  ghost function Act(max: int, t: Table, m: Move): (r: Table)
    requires WellFormed(t)
    ensures WellFormed(r)
  {
    match m
    case Start(id, disabled, now, lease) =>
      var c := Config(max, disabled, now, lease);
      if HasQueued(t, id) && Startable(c, t, t[id]) then ClaimSpec(t, id, now + lease).0 else t
    case GiveUp(id, disabled) =>
      var c := Config(max, disabled, 0, 0);
      if HasQueued(t, id) && !Startable(c, t, t[id]) then Pass(c, t, t[id]) else t
    case Finish(id, ok) => TransitionSpec(t, id, Running, if ok then Done else Failed).0
    case Release(now) => Sweep(t, now)
    case Decide(id, approve, action) => TransitionSpec(t, id, Action, L.Target(approve, action)).0
  }

  /** The moves in the fields of the rows: a claim, a failing guard, the end of a run, the sweep and
      a decision. */
  lemma ActMeans(max: int, t: Table, m: Move, id: Id)
    requires WellFormed(t) && id in t
    ensures var x, t' := t[id], Act(max, t, m);
      && id in t'
      && (m.Start? && t'[id] != x ==> m.id == id && x.state == Queued && x.attempts < max)
      && (m.Start? && t'[id] != x ==> t'[id] == x.(state := Running, leaseUntil := Some(m.now + m.lease)))
      && (m.GiveUp? && t'[id] != x ==> m.id == id && x.state == Queued && t'[id] == x.(state := Failed, leaseUntil := None))
      && (m.Finish? && !(m.id == id && x.state == Running) ==> t'[id] == x)
      && (m.Finish? && m.id == id && x.state == Running ==>
          t'[id] == x.(state := if m.ok then Done else Failed, leaseUntil := None))
      && (m.Release? && !(x.state == Running && x.leaseUntil.Some? && x.leaseUntil.value < m.now) ==> t'[id] == x)
      && (m.Release? && x.state == Running && x.leaseUntil.Some? && x.leaseUntil.value < m.now ==>
          t'[id] == x.(state := Queued, attempts := x.attempts + 1, leaseUntil := None))
      && (m.Decide? && !(m.id == id && x.state == Action) ==> t'[id] == x)
      && (m.Decide? && m.id == id && x.state == Action ==>
          t'[id] == x.(leaseUntil := None, state :=
            if !m.approve then Rejected else if m.action == "run" then Queued else Approved))
  {}

  /** Running tasks are within the attempts limit, as the guard leaves them. */
  ghost predicate WithinLimit(max: int, t: Table) {
    forall id :: id in t && t[id].state == Running ==> t[id].attempts < max
  }

  function Limit(max: int): nat { if max < 0 then 0 else max }

  function Left(max: int, x: Task): nat {
    if x.attempts < max then max - x.attempts else 0
  }

  /** How many state changes a task still has ahead of it, at most. */
  function Weight(max: int, x: Task): nat {
    match x.state
    case Action => 2 * Limit(max) + 2
    case Queued => 2 * Left(max, x) + 1
    case Running => 2 * Left(max, x)
    case _ => 0
  }

  lemma ActDrops(max: int, t: Table, m: Move, id: Id)
    requires WellFormed(t) && WithinLimit(max, t) && id in t
    ensures var t' := Act(max, t, m);
      && id in t'
      && Weight(max, t'[id]) <= Weight(max, t[id])
      && (t'[id].state != t[id].state ==> Weight(max, t'[id]) < Weight(max, t[id]))
  {}

  lemma ActKeepsLimit(max: int, t: Table, m: Move)
    requires WellFormed(t) && WithinLimit(max, t)
    ensures WithinLimit(max, Act(max, t, m)) && Act(max, t, m).Keys == t.Keys
  {}

  ghost function After(max: int, t: Table, moves: seq<Move>): (r: Table)
    requires WellFormed(t)
    ensures WellFormed(r)
  {
    if moves == [] then t else Act(max, After(max, t, moves[..|moves| - 1]), moves[|moves| - 1])
  }

  lemma {:induction false} AfterKeepsLimit(max: int, t: Table, moves: seq<Move>)
    requires WellFormed(t) && WithinLimit(max, t)
    ensures WithinLimit(max, After(max, t, moves)) && After(max, t, moves).Keys == t.Keys
  {
    if moves != [] {
      AfterKeepsLimit(max, t, moves[..|moves| - 1]);
      ActKeepsLimit(max, After(max, t, moves[..|moves| - 1]), moves[|moves| - 1]);
    }
  }

  /** Times the run changed this task's state. */
  ghost function Changes(max: int, t: Table, moves: seq<Move>, id: Id): nat
    requires WellFormed(t)
  {
    if moves == [] then 0
    else
      var before, after := After(max, t, moves[..|moves| - 1]), After(max, t, moves);
      Changes(max, t, moves[..|moves| - 1], id)
      + if id in before && id in after && before[id].state != after[id].state then 1 else 0
  }

  /** Each task changes state at most 2 * max_attempts + 2 times, in any run. */
  lemma {:induction false} ChangesAreBounded(max: int, t: Table, moves: seq<Move>, id: Id)
    requires WellFormed(t) && WithinLimit(max, t) && id in t
    ensures id in After(max, t, moves)
    ensures Changes(max, t, moves, id) + Weight(max, After(max, t, moves)[id]) <= Weight(max, t[id])
    ensures Changes(max, t, moves, id) <= 2 * Limit(max) + 2
  {
    AfterKeepsLimit(max, t, moves);
    if moves != [] {
      ChangesAreBounded(max, t, moves[..|moves| - 1], id);
      AfterKeepsLimit(max, t, moves[..|moves| - 1]);
      ActDrops(max, After(max, t, moves[..|moves| - 1]), moves[|moves| - 1], id);
    }
  }

  /** The whole queue's remaining changes. */
  ghost function Total(max: int, t: Table, ids: set<Id>): nat
    requires ids <= t.Keys
  {
    if ids == {} then 0 else var id :| id in ids; Weight(max, t[id]) + Total(max, t, ids - {id})
  }

  lemma {:induction false} TotalDrops(max: int, t: Table, t': Table, ids: set<Id>)
    requires ids <= t.Keys && ids <= t'.Keys
    requires forall id :: id in ids ==> Weight(max, t'[id]) <= Weight(max, t[id])
    ensures Total(max, t', ids) <= Total(max, t, ids)
    ensures (exists id :: id in ids && Weight(max, t'[id]) < Weight(max, t[id])) ==> Total(max, t', ids) < Total(max, t, ids)
    decreases ids
  {
    if ids != {} {
      var id :| id in ids && Total(max, t, ids) == Weight(max, t[id]) + Total(max, t, ids - {id});
      TotalWithout(max, t', ids, id);
      TotalDrops(max, t, t', ids - {id});
    }
  }

  lemma {:induction false} TotalWithout(max: int, t: Table, ids: set<Id>, id: Id)
    requires ids <= t.Keys && id in ids
    ensures Total(max, t, ids) == Weight(max, t[id]) + Total(max, t, ids - {id})
    decreases ids
  {
    var x :| x in ids && Total(max, t, ids) == Weight(max, t[x]) + Total(max, t, ids - {x});
    if x != id {
      TotalWithout(max, t, ids - {x}, id);
      TotalWithout(max, t, ids - {id}, x);
      assert ids - {x} - {id} == ids - {id} - {x};
    }
  }

  lemma {:induction false} TotalIsBounded(max: int, t: Table, ids: set<Id>, bound: nat)
    requires ids <= t.Keys
    requires forall id :: id in ids ==> Weight(max, t[id]) <= bound
    ensures Total(max, t, ids) <= |ids| * bound
    decreases ids
  {
    if ids != {} {
      var id :| id in ids && Total(max, t, ids) == Weight(max, t[id]) + Total(max, t, ids - {id});
      TotalIsBounded(max, t, ids - {id}, bound);
      assert |ids| == |ids - {id}| + 1;
      OneMore(|ids - {id}|, bound);
    }
  }

  lemma OneMore(n: nat, bound: nat)
    ensures (n + 1) * bound == n * bound + bound
  {}

  ghost predicate ChangesSomething(t: Table, t': Table) {
    exists id :: id in t && id in t' && t[id].state != t'[id].state
  }

  /** A run in which every move changes some task's state. */
  ghost predicate Effective(max: int, t: Table, moves: seq<Move>)
    requires WellFormed(t)
  {
    forall k :: 0 <= k < |moves| ==> ChangesSomething(After(max, t, moves[..k]), After(max, t, moves[..k + 1]))
  }

  lemma {:induction false} EachMoveCosts(max: int, t: Table, moves: seq<Move>)
    requires WellFormed(t) && WithinLimit(max, t) && Effective(max, t, moves)
    ensures After(max, t, moves).Keys == t.Keys
    ensures |moves| + Total(max, After(max, t, moves), t.Keys) <= Total(max, t, t.Keys)
  {
    AfterKeepsLimit(max, t, moves);
    if moves != [] {
      var last := |moves| - 1;
      var front := moves[..last];
      forall k | 0 <= k < last
        ensures ChangesSomething(After(max, t, front[..k]), After(max, t, front[..k + 1]))
      {
        assert front[..k] == moves[..k] && front[..k + 1] == moves[..k + 1];
      }
      EachMoveCosts(max, t, front);
      AfterKeepsLimit(max, t, front);
      assert moves[..last + 1] == moves;
      var before, after := After(max, t, front), After(max, t, moves);
      forall id | id in t
        ensures Weight(max, after[id]) <= Weight(max, before[id])
        ensures before[id].state != after[id].state ==> Weight(max, after[id]) < Weight(max, before[id])
      {
        ActDrops(max, before, moves[last], id);
      }
      var id :| id in before && id in after && before[id].state != after[id].state;
      TotalDrops(max, before, after, t.Keys);
    }
  }

  /** Every run is finite: no run makes more than |tasks| * (2 * max_attempts + 2) changes. */
  lemma RunsAreFinite(max: int, t: Table, moves: seq<Move>)
    requires WellFormed(t) && WithinLimit(max, t) && Effective(max, t, moves)
    ensures |moves| <= |t.Keys| * (2 * Limit(max) + 2)
  {
    EachMoveCosts(max, t, moves);
    TotalIsBounded(max, t, t.Keys, 2 * Limit(max) + 2);
  }

  predicate Terminal(s: TaskState) { s == Done || s == Failed || s == Rejected || s == Approved }

  /** Finished, still in `received`, or queued behind an unmet dependency none of which failed. */
  ghost predicate Settled(t: Table, id: Id) {
    id in t ==>
      Terminal(t[id].state) || t[id].state == Received
      || (t[id].state == Queued && StatusOf(t, DependsOn(t[id])) == Blocked)
  }

  /** An unsettled task has a move of its own. */
  ghost function MoveFor(max: int, t: Table, id: Id): Move
    requires id in t
  {
    var enabled := (repo: string) => false;
    match t[id].state
    case Queued =>
      if Startable(Config(max, enabled, 0, 0), t, t[id]) then Start(id, enabled, 0, 0) else GiveUp(id, enabled)
    case Running => Finish(id, true)
    case _ => Decide(id, false, "run")
  }

  lemma UnsettledMoves(max: int, t: Table, id: Id)
    requires WellFormed(t) && !Settled(t, id)
    ensures ChangesSomething(t, Act(max, t, MoveFor(max, t, id)))
  {
    assert Act(max, t, MoveFor(max, t, id))[id].state != t[id].state;
  }

  lemma SettledStays(max: int, t: Table, m: Move)
    requires WellFormed(t) && forall id :: Settled(t, id)
    ensures !ChangesSomething(t, Act(max, t, m))
  {
    assert m.Start? || m.GiveUp? || m.Finish? || m.Decide? ==> Settled(t, m.id);
    assert forall id :: Settled(t, id) && id in t ==> t[id].state != Running;
  }

  /** Where runs end: nothing can change exactly when every task is settled. */
  lemma QuiescentStates(max: int, t: Table)
    requires WellFormed(t)
    ensures (forall m: Move :: !ChangesSomething(t, Act(max, t, m))) <==> (forall id :: Settled(t, id))
  {
    if forall m: Move :: !ChangesSomething(t, Act(max, t, m)) {
      forall id ensures Settled(t, id) {
        if !Settled(t, id) { UnsettledMoves(max, t, id); }
      }
    }
    if forall id :: Settled(t, id) {
      forall m: Move ensures !ChangesSomething(t, Act(max, t, m)) { SettledStays(max, t, m); }
    }
  }
}
