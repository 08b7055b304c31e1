/** The queue's records (queue/models.py) and the age order both backends sort by. */
module Tasks {

  datatype Option<+T> = None | Some(value: T)

  type Id = string

  /** Instants and durations, in ticks of the injected clock. */
  type Time = int

  datatype TaskState =
    | Received | Queued | Running | Action | Done | Failed | Rejected | Approved

  datatype TaskSpec = TaskSpec(
    repoUrl: string,
    baseBranch: string,
    instructions: string,
    modelRequest: Option<string>,
    verify: Option<string>,
    dependsOn: seq<Id>)

  datatype Evidence = Evidence(
    branch: Option<string>,
    commit: Option<string>,
    prUrl: Option<string>)

  datatype Task = Task(
    id: Id,
    transportId: string,
    threadId: Option<string>,
    sender: Option<string>,
    subject: Option<string>,
    state: TaskState,
    attempts: nat,
    leaseUntil: Option<Time>,
    createdAt: Time,
    spec: Option<TaskSpec>,
    evidence: Option<Evidence>)

  function DependsOn(t: Task): seq<Id> {
    if t.spec.Some? then t.spec.value.dependsOn else []
  }

  /** Code-point order on strings, the order Python sorts ids by. */
  predicate Before(a: string, b: string) {
    b != [] && (a == [] || a[0] < b[0] || (a[0] == b[0] && Before(a[1..], b[1..])))
  }

  lemma SameStart(a: string, b: string, k: nat)
    requires 0 < k <= |a| && k <= |b| && a[..k] == b[..k]
    ensures a[0] == b[0]
  {
    assert a[..k][0] == b[..k][0];
  }

  /** The order by code points: at the first position where the strings differ `a` has the
      smaller character, or `a` ends there. */
  lemma {:induction false} BeforeMeans(a: string, b: string)
    ensures Before(a, b) <==>
      exists k :: 0 <= k < |b| && k <= |a| && a[..k] == b[..k] && (k < |a| ==> a[k] < b[k])
  {
    if a != [] && b != [] && a[0] == b[0] {
      BeforeMeans(a[1..], b[1..]);
      if k :| 0 <= k < |b| && k <= |a| && a[..k] == b[..k] && (k < |a| ==> a[k] < b[k]) {
        assert k > 0 && a[1..][..k - 1] == a[..k][1..] == b[..k][1..] == b[1..][..k - 1];
      }
      if k :| 0 <= k < |b[1..]| && k <= |a[1..]| && a[1..][..k] == b[1..][..k] && (k < |a[1..]| ==> a[1..][k] < b[1..][k]) {
        assert a[..k + 1] == [a[0]] + a[1..][..k] == b[..k + 1];
      }
    } else if b != [] {
      assert a[..0] == b[..0];
      if k :| 0 <= k < |b| && k <= |a| && a[..k] == b[..k] && (k < |a| ==> a[k] < b[k]) {
        if k > 0 { SameStart(a, b, k); }
      }
    }
  }

  lemma {:induction false} BeforeIsTotal(a: string, b: string)
    ensures !(Before(a, b) && Before(b, a))
    ensures a != b ==> Before(a, b) || Before(b, a)
    ensures !Before(a, a)
  {
    if a != [] {
      BeforeIsTotal(a[1..], a[1..]);
      if b != [] {
        BeforeIsTotal(a[1..], b[1..]);
        if a[0] == b[0] && a[1..] == b[1..] {
          assert a == [a[0]] + a[1..] == [b[0]] + b[1..] == b;
        }
      }
    }
  }

  lemma {:induction false} BeforeIsTransitive(a: string, b: string, c: string)
    requires Before(a, b) && Before(b, c)
    ensures Before(a, c)
  {
    if a != [] && a[0] == b[0] && b[0] == c[0] {
      BeforeIsTransitive(a[1..], b[1..], c[1..]);
    }
  }

  /** The sort key (created_at, id). */
  predicate Older(a: Task, b: Task) {
    a.createdAt < b.createdAt || (a.createdAt == b.createdAt && Before(a.id, b.id))
  }

  lemma OlderIsTransitive(a: Task, b: Task, c: Task)
    requires Older(a, b) && Older(b, c)
    ensures Older(a, c)
  {
    if a.createdAt == b.createdAt == c.createdAt {
      BeforeIsTransitive(a.id, b.id, c.id);
    }
  }

  lemma OlderIsTotal(a: Task, b: Task)
    ensures !(Older(a, b) && Older(b, a)) && !Older(a, a)
    ensures a.id != b.id ==> Older(a, b) || Older(b, a)
  {
    BeforeIsTotal(a.id, b.id);
    BeforeIsTotal(a.id, a.id);
  }

  ghost predicate DistinctIds(ts: set<Task>) {
    forall a, b :: a in ts && b in ts && a.id == b.id ==> a == b
  }

  ghost predicate Sorted(q: seq<Task>) {
    forall i, j :: 0 <= i < j < |q| ==> Older(q[i], q[j])
  }

  /** `q` lists exactly the tasks of `ts`, oldest first. */
  ghost predicate OldestFirst(q: seq<Task>, ts: set<Task>) {
    Sorted(q) && forall t :: t in q <==> t in ts
  }

  /** The oldest-first listing of a set is unique, whatever order it was built in. */
  lemma {:induction false} ListingIsUnique(p: seq<Task>, q: seq<Task>, ts: set<Task>)
    requires OldestFirst(p, ts) && OldestFirst(q, ts)
    ensures p == q
    decreases |p|
  {
    if p == [] {
      assert forall i :: 0 <= i < |q| ==> q[i] in q;
    } else {
      assert p[0] in ts;
      assert p[0] in q && q[0] in ts;
      assert q[0] in p;
      OlderIsTotal(p[0], q[0]);
      assert p[0] == q[0];
      RestOfListing(p, ts);
      RestOfListing(q, ts);
      ListingIsUnique(p[1..], q[1..], ts - {p[0]});
      assert p == [p[0]] + p[1..] && q == [q[0]] + q[1..];
    }
  }

  lemma RestOfListing(p: seq<Task>, ts: set<Task>)
    requires p != [] && OldestFirst(p, ts)
    ensures OldestFirst(p[1..], ts - {p[0]})
  {
    forall t ensures t in p[1..] <==> t in ts - {p[0]} {
      assert p == [p[0]] + p[1..];
      OlderIsTotal(p[0], p[0]);
      if t in p[1..] {
        var i :| 0 <= i < |p[1..]| && p[1..][i] == t;
        assert Older(p[0], p[i + 1]);
      }
    }
  }

  /** One insertion step of the sort. */
  function Insert(t: Task, q: seq<Task>): (r: seq<Task>)
    ensures multiset(r) == multiset(q) + multiset{t}
  {
    if q == [] then [t]
    else if Older(t, q[0]) then [t] + q
    else
      assert q == [q[0]] + q[1..];
      [q[0]] + Insert(t, q[1..])
  }

  lemma InsertAdds(t: Task, q: seq<Task>)
    ensures forall x :: x in Insert(t, q) <==> x == t || x in q
  {
    forall x ensures x in Insert(t, q) <==> x == t || x in q {
      assert x in Insert(t, q) <==> x in multiset(Insert(t, q));
    }
  }

  lemma {:induction false} InsertKeepsOrder(t: Task, q: seq<Task>)
    requires Sorted(q) && forall x :: x in q ==> x.id != t.id
    ensures Sorted(Insert(t, q))
  {
    if q != [] {
      OlderIsTotal(t, q[0]);
      if Older(t, q[0]) {
        forall i | 0 < i < |q| ensures Older(t, q[i]) { OlderIsTransitive(t, q[0], q[i]); }
      } else {
        InsertKeepsOrder(t, q[1..]);
        InsertAdds(t, q[1..]);
        assert forall x :: x in Insert(t, q[1..]) ==> Older(q[0], x);
      }
    }
  }

  /** The tasks of a set, oldest first. */
  ghost function Listing(ts: set<Task>): seq<Task> {
    if ts == {} then [] else var t :| t in ts; Insert(t, Listing(ts - {t}))
  }

  lemma {:induction false} ListingLists(ts: set<Task>)
    requires DistinctIds(ts)
    ensures OldestFirst(Listing(ts), ts)
  {
    if ts != {} {
      var t :| t in ts && Listing(ts) == Insert(t, Listing(ts - {t}));
      ListingLists(ts - {t});
      InsertAdds(t, Listing(ts - {t}));
      InsertKeepsOrder(t, Listing(ts - {t}));
    }
  }

  ghost predicate NoSharedId(q: seq<Task>) {
    forall i, j :: 0 <= i < j < |q| ==> q[i].id != q[j].id
  }

  /** Python's `list.sort` on the age key, as repeated insertion. */
  function Sort(q: seq<Task>): seq<Task> {
    if q == [] then [] else Insert(q[0], Sort(q[1..]))
  }

  lemma {:induction false} SortSorts(q: seq<Task>)
    requires NoSharedId(q)
    ensures Sorted(Sort(q))
    ensures forall x :: x in Sort(q) <==> x in q
  {
    if q != [] {
      SortSorts(q[1..]);
      InsertAdds(q[0], Sort(q[1..]));
      InsertKeepsOrder(q[0], Sort(q[1..]));
      assert q == [q[0]] + q[1..];
    }
  }
}
