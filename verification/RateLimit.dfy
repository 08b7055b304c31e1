/** The sliding-window rate limiter and the gate built on it (auth.py). */
module RateLimit {
  import opened Tasks

  datatype Config = Config(limit: int, window: Time)

  type Seen = map<string, seq<Time>>

  function Key(sender: Option<string>): string {
    if sender.None? || sender.value == "" then "<unknown>" else sender.value
  }

  /** The moments strictly after `cutoff`, in order. */
  function After(q: seq<Time>, cutoff: Time): seq<Time> {
    if q == [] then []
    else After(q[..|q| - 1], cutoff) + if q[|q| - 1] > cutoff then [q[|q| - 1]] else []
  }

  function Moments(s: Seen, key: string): seq<Time> { if key in s then s[key] else [] }

  function CheckSpec(c: Config, s: Seen, key: string, now: Time): (Seen, bool) {
    var recent := After(Moments(s, key), now - c.window);
    if |recent| >= c.limit then (s[key := recent], false) else (s[key := recent + [now]], true)
  }

  /** Pruning keeps exactly the moments after the cutoff, and all of them in order. */
  lemma {:induction false} AfterMeans(q: seq<Time>, cutoff: Time, x: Time)
    ensures x in After(q, cutoff) <==> x in q && x > cutoff
    ensures (forall y :: y in q ==> y > cutoff) ==> After(q, cutoff) == q
  {
    if q != [] {
      var front, last := q[..|q| - 1], q[|q| - 1];
      AfterMeans(front, cutoff, x);
      assert q == front + [last] && last in q;
      assert forall y :: y in front ==> y in q;
    }
  }

  /** A check touches only its own sender's moments: they are pruned, and the check's own is added
      exactly if fewer than `limit` were left. */
  lemma CheckMeans(c: Config, s: Seen, key: string, now: Time)
    ensures var (s', ok) := CheckSpec(c, s, key, now);
      var recent := After(if key in s then s[key] else [], now - c.window);
      && (ok <==> |recent| < c.limit)
      && key in s' && s'[key] == (if ok then recent + [now] else recent)
      && s'.Keys == s.Keys + {key} && forall k :: k in s && k != key ==> s'[k] == s[k]
  {}

  class RateLimiter {
    const c: Config
    var seen: Seen

    constructor (c: Config)
      requires c.limit > 0
      ensures this.c == c && seen == map[]
    {
      this.c, seen := c, map[];
    }

    /** False when the sender exceeded its rate. */
    method Check(sender: Option<string>, now: Time) returns (ok: bool)
      modifies this
      ensures (seen, ok) == CheckSpec(c, old(seen), Key(sender), now)
    {
      var key := Key(sender);
      var cutoff := now - c.window;
      var recent: seq<Time> := [];
      var stored := Moments(seen, key);
      for i := 0 to |stored|
        invariant recent == After(stored[..i], cutoff)
      {
        assert stored[..i + 1][..i] == stored[..i];
        if stored[i] > cutoff { recent := recent + [stored[i]]; }
      }
      assert stored[..|stored|] == stored;
      if |recent| >= c.limit {
        seen := seen[key := recent];
        return false;
      }
      recent := recent + [now];
      seen := seen[key := recent];
      return true;
    }
  }

  /** Building a limiter; null is the ValueError for a limit that is not positive. */
  method NewRateLimiter(c: Config) returns (r: RateLimiter?)
    ensures r == null <==> c.limit <= 0
    ensures r != null ==> fresh(r) && r.c == c && r.seen == map[]
  {
    if c.limit <= 0 { return null; }
    r := new RateLimiter(c);
  }

  /** Composes an inner gate's answer with the limiter: what it refuses uses no quota. */
  class RateLimitedGate {
    const limiter: RateLimiter

    constructor (limiter: RateLimiter)
      ensures this.limiter == limiter
    {
      this.limiter := limiter;
    }

    method Admit(innerAdmits: bool, sender: Option<string>, now: Time) returns (ok: bool)
      modifies limiter
      ensures !innerAdmits ==> !ok && limiter.seen == old(limiter.seen)
      ensures innerAdmits ==> (limiter.seen, ok) == CheckSpec(limiter.c, old(limiter.seen), Key(sender), now)
    {
      if !innerAdmits { return false; }
      ok := limiter.Check(sender, now);
    }
  }

  /** A history of checks: sender key and clock reading. */
  type Checks = seq<(string, Time)>

  function State(c: Config, h: Checks): Seen {
    if h == [] then map[]
    else CheckSpec(c, State(c, h[..|h| - 1]), h[|h| - 1].0, h[|h| - 1].1).0
  }

  function Admits(c: Config, h: Checks, i: nat): bool
    requires i < |h|
  {
    CheckSpec(c, State(c, h[..i]), h[i].0, h[i].1).1
  }

  /** Every moment at which `key` was ever admitted. */
  function Admissions(c: Config, h: Checks, key: string): seq<Time> {
    if h == [] then []
    else
      var last := |h| - 1;
      Admissions(c, h[..last], key)
      + if h[last].0 == key && Admits(c, h, last) then [h[last].1] else []
  }

  predicate Monotone(h: Checks) { forall i, j :: 0 <= i <= j < |h| ==> h[i].1 <= h[j].1 }

  lemma {:induction false} AfterAfter(q: seq<Time>, a: Time, b: Time)
    requires a <= b
    ensures After(After(q, a), b) == After(q, b)
  {
    if q != [] {
      AfterAfter(q[..|q| - 1], a, b);
      AfterAppend(After(q[..|q| - 1], a), q[|q| - 1], b);
    }
  }

  lemma AfterAppend(q: seq<Time>, x: Time, b: Time)
    ensures After(q + [x], b) == After(q, b) + if x > b then [x] else []
    ensures After(q + [], b) == After(q, b)
  {
    assert (q + [x])[..|q|] == q && q + [] == q;
  }

  lemma PrunedThroughCutoff(q: seq<Time>, now: Time, window: Time, cutoff: Time)
    requires now - window <= cutoff
    ensures var recent := After(q, now - window);
      && After(recent, cutoff) == After(q, cutoff)
      && After(recent + [now], cutoff) == After(q, cutoff) + if now > cutoff then [now] else []
  {
    AfterAfter(q, now - window, cutoff);
    AfterAppend(After(q, now - window), now, cutoff);
  }

  /** One check, seen through any cutoff its window does not reach behind. */
  lemma CheckThroughCutoff(c: Config, s: Seen, k: string, now: Time, key: string, cutoff: Time)
    requires now - c.window <= cutoff
    ensures var (s', ok) := CheckSpec(c, s, k, now);
      After(Moments(s', key), cutoff)
      == After(Moments(s, key), cutoff) + if k == key && ok && now > cutoff then [now] else []
  {
    PrunedThroughCutoff(Moments(s, k), now, c.window, cutoff);
  }

  lemma AdmissionsStep(c: Config, h: Checks, key: string, cutoff: Time)
    requires h != []
    ensures var last := |h| - 1; var adm := Admissions(c, h[..last], key);
      After(Admissions(c, h, key), cutoff)
      == After(adm, cutoff) + if h[last].0 == key && Admits(c, h, last) && h[last].1 > cutoff then [h[last].1] else []
  {
    AfterAppend(Admissions(c, h[..|h| - 1], key), h[|h| - 1].1, cutoff);
  }

  /** The pruned list agrees with the full history as far back as any later check can look. */
  lemma {:induction false} PrunedAgreesWithHistory(c: Config, h: Checks, key: string, cutoff: Time)
    requires Monotone(h) && (h != [] ==> h[|h| - 1].1 - c.window <= cutoff)
    ensures After(Moments(State(c, h), key), cutoff) == After(Admissions(c, h, key), cutoff)
  {
    if h != [] {
      var last := |h| - 1;
      assert last > 0 ==> h[last - 1].1 <= h[last].1;
      PrunedAgreesWithHistory(c, h[..last], key, cutoff);
      CheckThroughCutoff(c, State(c, h[..last]), h[last].0, h[last].1, key, cutoff);
      AdmissionsStep(c, h, key, cutoff);
    }
  }

  /** A check is admitted exactly when fewer than `limit` earlier admissions of that sender
      lie in its window. */
  lemma AdmittedExactlyUnderLimit(c: Config, h: Checks, i: nat)
    requires Monotone(h) && i < |h|
    ensures Admits(c, h, i) <==> |After(Admissions(c, h[..i], h[i].0), h[i].1 - c.window)| < c.limit
  {
    PrefixIsMonotone(h, i);
    PrunedAgreesWithHistory(c, h[..i], h[i].0, h[i].1 - c.window);
  }

  lemma PrefixIsMonotone(h: Checks, i: nat)
    requires Monotone(h) && i < |h|
    ensures Monotone(h[..i]) && (i > 0 ==> h[..i][i - 1].1 <= h[i].1)
  {}

  /** How many moments lie in the interval (t - window, t]. */
  function Within(q: seq<Time>, c: Config, t: Time): nat {
    if q == [] then 0
    else Within(q[..|q| - 1], c, t) + if t - c.window < q[|q| - 1] <= t then 1 else 0
  }

  lemma {:induction false} WithinIsAfter(q: seq<Time>, c: Config, t: Time, now: Time)
    requires now <= t
    ensures Within(q, c, t) <= |After(q, now - c.window)|
  {
    if q != [] { WithinIsAfter(q[..|q| - 1], c, t, now); }
  }

  lemma WithinAppend(q: seq<Time>, x: Time, c: Config, t: Time)
    ensures Within(q + [x], c, t) == Within(q, c, t) + if t - c.window < x <= t then 1 else 0
    ensures Within(q + [], c, t) == Within(q, c, t)
  {
    assert (q + [x])[..|q|] == q && q + [] == q;
  }

  /** An admitted check finds room in every window that reaches it. */
  lemma AdmittedFindsRoom(c: Config, h: Checks, i: nat, t: Time)
    requires Monotone(h) && i < |h| && Admits(c, h, i) && h[i].1 <= t
    ensures Within(Admissions(c, h[..i], h[i].0), c, t) < c.limit
  {
    AdmittedExactlyUnderLimit(c, h, i);
    WithinIsAfter(Admissions(c, h[..i], h[i].0), c, t, h[i].1);
  }

  lemma AdmissionsGrow(c: Config, h: Checks, key: string, t: Time)
    requires h != []
    ensures var last := |h| - 1;
      Within(Admissions(c, h, key), c, t) == Within(Admissions(c, h[..last], key), c, t)
        + if h[last].0 == key && Admits(c, h, last) && t - c.window < h[last].1 <= t then 1 else 0
  {
    WithinAppend(Admissions(c, h[..|h| - 1], key), h[|h| - 1].1, c, t);
  }

  /** With a clock that never runs backwards, no interval (t - window, t] holds more than
      `limit` admissions of one sender, whatever the history of checks. */
  lemma {:induction false} RateIsBounded(c: Config, h: Checks, key: string, t: Time)
    requires Monotone(h) && c.limit > 0
    ensures Within(Admissions(c, h, key), c, t) <= c.limit
  {
    if h != [] {
      var last := |h| - 1;
      PrefixIsMonotone(h, last);
      RateIsBounded(c, h[..last], key, t);
      AdmissionsGrow(c, h, key, t);
      if h[last].0 == key && Admits(c, h, last) && h[last].1 <= t {
        AdmittedFindsRoom(c, h, last, t);
      }
    }
  }

  // ---- By sender

  /** All senders without a name share one quota, under the name "<unknown>". */
  predicate Anonymous(x: Option<string>) { x.None? || x.value == "" || x.value == "<unknown>" }

  predicate SameSender(x: Option<string>, y: Option<string>) { (Anonymous(x) && Anonymous(y)) || x == y }

  lemma KeyMeans(x: Option<string>, y: Option<string>)
    ensures Key(x) == Key(y) <==> SameSender(x, y)
  {
    assert "<unknown>" != "";
  }

  /** The admitted checks of a sender with a clock reading above `low` and up to `high`. */
  function Hits(c: Config, h: Checks, key: string, low: Time, high: Time): set<int> {
    set k | 0 <= k < |h| && h[k].0 == key && Admits(c, h, k) && low < h[k].1 <= high
  }

  lemma AdmitsEarlier(c: Config, h: Checks, n: nat, k: nat)
    requires k < n <= |h|
    ensures Admits(c, h[..n], k) <==> Admits(c, h, k)
  {
    assert h[..n][..k] == h[..k];
  }

  lemma SetGrows(before: set<int>, after: set<int>, last: int, taken: bool)
    requires last !in before && forall k :: k in after <==> k in before || (taken && k == last)
    ensures |after| == |before| + if taken then 1 else 0
  {
    var grown := if taken then before + {last} else before;
    forall k ensures k in after <==> k in grown {}
    assert after == grown;
  }

  lemma HitsGrow(c: Config, h: Checks, key: string, low: Time, high: Time)
    requires h != []
    ensures var last := |h| - 1;
      |Hits(c, h, key, low, high)| == |Hits(c, h[..last], key, low, high)|
        + if h[last].0 == key && Admits(c, h, last) && low < h[last].1 <= high then 1 else 0
  {
    var last := |h| - 1;
    var before, after := Hits(c, h[..last], key, low, high), Hits(c, h, key, low, high);
    var taken := h[last].0 == key && Admits(c, h, last) && low < h[last].1 <= high;
    forall k ensures k in after <==> k in before || (taken && k == last) {
      if 0 <= k < last { AdmitsEarlier(c, h, last, k); }
    }
    SetGrows(before, after, last, taken);
  }

  /** The same number, counted along the history. */
  function Counted(c: Config, h: Checks, key: string, low: Time, high: Time): nat {
    if h == [] then 0
    else
      var last := |h| - 1;
      Counted(c, h[..last], key, low, high)
      + if h[last].0 == key && Admits(c, h, last) && low < h[last].1 <= high then 1 else 0
  }

  lemma {:induction false} CountedIsHits(c: Config, h: Checks, key: string, low: Time, high: Time)
    ensures Counted(c, h, key, low, high) == |Hits(c, h, key, low, high)|
  {
    if h == [] {
      assert Hits(c, h, key, low, high) == {};
    } else {
      CountedIsHits(c, h[..|h| - 1], key, low, high);
      HitsGrow(c, h, key, low, high);
    }
  }

  lemma {:induction false} CountedIsWithin(c: Config, h: Checks, key: string, t: Time)
    ensures Counted(c, h, key, t - c.window, t) == Within(Admissions(c, h, key), c, t)
  {
    if h != [] {
      CountedIsWithin(c, h[..|h| - 1], key, t);
      AdmissionsGrow(c, h, key, t);
    }
  }

  /** While no moment lies beyond `t`, all those above the cutoff are within the window. */
  lemma {:induction false} AfterIsCounted(c: Config, h: Checks, key: string, t: Time)
    requires forall i :: 0 <= i < |h| ==> h[i].1 <= t
    ensures |After(Admissions(c, h, key), t - c.window)| == Counted(c, h, key, t - c.window, t)
  {
    if h != [] {
      AfterIsCounted(c, h[..|h| - 1], key, t);
      AdmissionsStep(c, h, key, t - c.window);
    }
  }

  lemma EarlierTimes(h: Checks, i: nat)
    requires Monotone(h) && i < |h|
    ensures forall k :: 0 <= k < |h[..i]| ==> h[..i][k].1 <= h[i].1
  {}

  /** Over every history: a check is admitted if and only if fewer than `limit` earlier admissions
      of the same sender lie in the window before it. */
  lemma AdmittedExactlyCounted(c: Config, h: Checks, i: nat)
    requires Monotone(h) && i < |h|
    ensures Admits(c, h, i) <==> |Hits(c, h[..i], h[i].0, h[i].1 - c.window, h[i].1)| < c.limit
  {
    CountedIsHits(c, h[..i], h[i].0, h[i].1 - c.window, h[i].1);
    AdmittedByCount(c, h, i, |Hits(c, h[..i], h[i].0, h[i].1 - c.window, h[i].1)|);
  }

  lemma AdmittedByCount(c: Config, h: Checks, i: nat, n: nat)
    requires Monotone(h) && i < |h| && n == Counted(c, h[..i], h[i].0, h[i].1 - c.window, h[i].1)
    ensures Admits(c, h, i) <==> n < c.limit
  {
    EarlierTimes(h, i);
    AfterIsCounted(c, h[..i], h[i].0, h[i].1);
    AdmittedIf(c, h, i, n);
  }

  lemma AdmittedIf(c: Config, h: Checks, i: nat, n: nat)
    requires Monotone(h) && i < |h| && n == |After(Admissions(c, h[..i], h[i].0), h[i].1 - c.window)|
    ensures Admits(c, h, i) <==> n < c.limit
  {
    AdmittedExactlyUnderLimit(c, h, i);
  }

  /** Over every history, no window holds more than `limit` admissions of a sender. */
  lemma RateIsBoundedCounted(c: Config, h: Checks, key: string, t: Time)
    requires Monotone(h) && c.limit > 0
    ensures |Hits(c, h, key, t - c.window, t)| <= c.limit
  {
    RateIsBounded(c, h, key, t);
    CountedIsWithin(c, h, key, t);
    CountedIsHits(c, h, key, t - c.window, t);
  }
}
