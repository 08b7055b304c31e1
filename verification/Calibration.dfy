/** Confidence calibration over labelled decisions (decision/log.py). Confidences, edges and
    the target are exact reals. */
module Calibration {
  import opened Tasks

  datatype Answer = Answer(choice: Option<string>, confidence: Option<real>)

  /** `answer` is the answer to the question under study, if any; `truth` is the label. */
  datatype Record = Record(answer: Option<Answer>, truth: Option<string>)

  /** A labelled answer with a confidence, and whether it was right. */
  type Entry = (real, bool)

  datatype Band = Band(lower: real, upper: real, count: nat, correct: nat)

  datatype Report = Report(total: nat, labeled: nat, correct: nat, bands: seq<Band>, threshold: Option<real>)

  function EntryOf(r: Record): Option<Entry> {
    if r.answer.None? || r.truth.None? || r.answer.value.confidence.None? then None
    else Some((r.answer.value.confidence.value, r.answer.value.choice == r.truth))
  }

  function Entries(rs: seq<Record>): seq<Entry> {
    if rs == [] then []
    else
      var e := EntryOf(rs[|rs| - 1]);
      Entries(rs[..|rs| - 1]) + if e.Some? then [e.value] else []
  }

  function Answered(rs: seq<Record>): nat {
    if rs == [] then 0 else Answered(rs[..|rs| - 1]) + if rs[|rs| - 1].answer.Some? then 1 else 0
  }

  predicate Increasing(edges: seq<real>) { forall i, j :: 0 <= i < j < |edges| ==> edges[i] < edges[j] }

  /** The highest band whose edge the confidence reaches, else the first. */
  function BandOf(confidence: real, edges: seq<real>): (b: nat)
    requires edges != []
    ensures b < |edges|
  {
    if |edges| == 1 || confidence >= edges[|edges| - 1] then |edges| - 1
    else BandOf(confidence, edges[..|edges| - 1])
  }

  lemma {:induction false} BandOfIsHighestReached(confidence: real, edges: seq<real>)
    requires edges != []
    ensures var b := BandOf(confidence, edges);
      && (b == 0 || confidence >= edges[b])
      && forall j :: b < j < |edges| ==> confidence < edges[j]
  {
    if |edges| > 1 && confidence < edges[|edges| - 1] {
      BandOfIsHighestReached(confidence, edges[..|edges| - 1]);
    }
  }

  lemma BandOfIsUnique(confidence: real, edges: seq<real>, b: nat)
    requires b < |edges| && (b == 0 || confidence >= edges[b])
    requires forall j :: b < j < |edges| ==> confidence < edges[j]
    ensures b == BandOf(confidence, edges)
  {
    BandOfIsHighestReached(confidence, edges);
  }

  /** How much one entry adds: one, or one only if it was right. */
  function Worth(e: Entry, onlyRight: bool): nat { if onlyRight && !e.1 then 0 else 1 }

  /** The entries of band `b`, in order. */
  function InBand(es: seq<Entry>, edges: seq<real>, b: nat): seq<Entry>
    requires edges != []
  {
    if es == [] then []
    else InBand(es[..|es| - 1], edges, b) + if BandOf(es[|es| - 1].0, edges) == b then [es[|es| - 1]] else []
  }

  function Tally(es: seq<Entry>, onlyRight: bool): nat {
    if es == [] then 0 else Tally(es[..|es| - 1], onlyRight) + Worth(es[|es| - 1], onlyRight)
  }

  lemma {:induction false} TallyCounts(es: seq<Entry>)
    ensures Tally(es, false) == |es| && Tally(es, true) <= |es|
  {
    if es != [] { TallyCounts(es[..|es| - 1]); }
  }

  lemma TallyAppend(es: seq<Entry>, e: Entry, onlyRight: bool)
    ensures Tally(es + [e], onlyRight) == Tally(es, onlyRight) + Worth(e, onlyRight)
    ensures Tally(es + [], onlyRight) == Tally(es, onlyRight)
  {
    assert (es + [e])[..|es|] == es && es + [] == es;
  }

  /** The tally of each band. */
  function Tallies(es: seq<Entry>, edges: seq<real>, onlyRight: bool): (q: seq<nat>)
    requires edges != []
    ensures |q| == |edges| && forall b :: 0 <= b < |edges| ==> q[b] == Tally(InBand(es, edges, b), onlyRight)
  {
    seq(|edges|, b requires 0 <= b < |edges| => Tally(InBand(es, edges, b), onlyRight))
  }

  /** q[lo] + ... + q[hi - 1]. */
  function Sum(q: seq<nat>, lo: nat, hi: nat): nat
    requires lo <= hi <= |q|
    decreases hi
  {
    if lo == hi then 0 else Sum(q, lo, hi - 1) + q[hi - 1]
  }

  lemma {:induction false} SumWithOneRaised(q: seq<nat>, q': seq<nat>, b: nat, w: nat, lo: nat, hi: nat)
    requires |q| == |q'| && b < |q| && lo <= hi <= |q|
    requires forall k :: 0 <= k < |q| ==> q'[k] == q[k] + if k == b then w else 0
    ensures Sum(q', lo, hi) == Sum(q, lo, hi) + if lo <= b < hi then w else 0
    decreases hi
  {
    if lo < hi { SumWithOneRaised(q, q', b, w, lo, hi - 1); }
  }

  lemma {:induction false} SumOfZeros(q: seq<nat>, lo: nat, hi: nat)
    requires lo <= hi <= |q| && forall k :: 0 <= k < |q| ==> q[k] == 0
    ensures Sum(q, lo, hi) == 0
    decreases hi
  {
    if lo < hi { SumOfZeros(q, lo, hi - 1); }
  }

  /** Summed over the bands lo <= b < hi. */
  function SumBands(es: seq<Entry>, edges: seq<real>, lo: nat, hi: nat, onlyRight: bool): nat
    requires edges != [] && lo <= hi <= |edges|
  {
    Sum(Tallies(es, edges, onlyRight), lo, hi)
  }

  lemma BandGrows(es: seq<Entry>, edges: seq<real>, b: nat, onlyRight: bool)
    requires edges != [] && es != []
    ensures var e := es[|es| - 1];
      Tally(InBand(es, edges, b), onlyRight)
      == Tally(InBand(es[..|es| - 1], edges, b), onlyRight) + if b == BandOf(e.0, edges) then Worth(e, onlyRight) else 0
  {
    TallyAppend(InBand(es[..|es| - 1], edges, b), es[|es| - 1], onlyRight);
  }

  /** One more entry lands in exactly one band. */
  lemma SumGrows(es: seq<Entry>, edges: seq<real>, lo: nat, hi: nat, onlyRight: bool)
    requires edges != [] && lo <= hi <= |edges| && es != []
    ensures var e := es[|es| - 1];
      SumBands(es, edges, lo, hi, onlyRight)
      == SumBands(es[..|es| - 1], edges, lo, hi, onlyRight)
         + if lo <= BandOf(e.0, edges) < hi then Worth(e, onlyRight) else 0
  {
    var e := es[|es| - 1];
    var q, q' := Tallies(es[..|es| - 1], edges, onlyRight), Tallies(es, edges, onlyRight);
    var b, w := BandOf(e.0, edges), Worth(e, onlyRight);
    forall k | 0 <= k < |q| ensures q'[k] == q[k] + if k == b then w else 0 {
      BandGrows(es, edges, k, onlyRight);
    }
    SumWithOneRaised(q, q', b, w, lo, hi);
  }

  /** The entries in band `lo` and above. */
  function Pool(es: seq<Entry>, edges: seq<real>, lo: nat): seq<Entry>
    requires edges != []
  {
    if es == [] then []
    else Pool(es[..|es| - 1], edges, lo) + if BandOf(es[|es| - 1].0, edges) >= lo then [es[|es| - 1]] else []
  }

  lemma {:induction false} SumIsPool(es: seq<Entry>, edges: seq<real>, lo: nat, onlyRight: bool)
    requires edges != [] && lo <= |edges|
    ensures SumBands(es, edges, lo, |edges|, onlyRight) == Tally(Pool(es, edges, lo), onlyRight)
  {
    if es == [] {
      SumOfZeros(Tallies(es, edges, onlyRight), lo, |edges|);
    } else {
      SumIsPool(es[..|es| - 1], edges, lo, onlyRight);
      SumGrows(es, edges, lo, |edges|, onlyRight);
      TallyAppend(Pool(es[..|es| - 1], edges, lo), es[|es| - 1], onlyRight);
    }
  }

  lemma {:induction false} PoolOfAll(es: seq<Entry>, edges: seq<real>)
    requires edges != []
    ensures Pool(es, edges, 0) == es
  {
    if es != [] { PoolOfAll(es[..|es| - 1], edges); }
  }

  /** Band counts add up to `labeled`, band corrects to `correct`. */
  lemma BandsPartition(es: seq<Entry>, edges: seq<real>, onlyRight: bool)
    requires edges != []
    ensures SumBands(es, edges, 0, |edges|, onlyRight) == Tally(es, onlyRight)
  {
    SumIsPool(es, edges, 0, onlyRight);
    PoolOfAll(es, edges);
  }

  /** Above the first band, the pool at an edge is exactly the entries that reach it; the first
      band's pool also takes what lies below its edge. */
  lemma {:induction false} PoolMeans(es: seq<Entry>, edges: seq<real>, lo: nat, e: Entry)
    requires Increasing(edges) && lo < |edges|
    ensures e in Pool(es, edges, lo) <==> e in es && (lo == 0 || e.0 >= edges[lo])
  {
    if es != [] {
      var x := es[|es| - 1];
      PoolMeans(es[..|es| - 1], edges, lo, e);
      BandOfIsHighestReached(x.0, edges);
      assert es == es[..|es| - 1] + [x];
    }
  }

  /** The share of right answers reaches the target, without dividing. */
  predicate AtLeast(right: nat, n: nat, target: real) { right as real >= target * n as real }

  /** For a non-empty pool this is the code's comparison of the quotient with the target. */
  lemma RatioMeans(right: nat, n: nat, target: real)
    requires n > 0
    ensures right as real / n as real >= target <==> AtLeast(right, n, target)
  {}

  /** The pooled accuracy at an edge, from its own band upward, meets the target. */
  predicate Meets(es: seq<Entry>, edges: seq<real>, i: nat, target: real)
    requires i < |edges|
  {
    var pool := Pool(es, edges, i);
    pool != [] && AtLeast(Tally(pool, true), |pool|, target)
  }

  /** The least edge that meets the target, if any. */
  predicate Recommends(es: seq<Entry>, edges: seq<real>, target: real, r: Option<real>) {
    match r
    case None => forall i :: 0 <= i < |edges| ==> !Meets(es, edges, i, target)
    case Some(edge) =>
      exists i :: 0 <= i < |edges| && edge == edges[i] && Meets(es, edges, i, target)
                  && forall j :: 0 <= j < i ==> !Meets(es, edges, j, target)
  }

  // ---- The documented reading: every band on its own

  /** The band's own accuracy meets the target; an empty band meets any. */
  predicate BandMeets(es: seq<Entry>, edges: seq<real>, b: nat, target: real)
    requires b < |edges|
  {
    var band := InBand(es, edges, b);
    AtLeast(Tally(band, true), |band|, target)
  }

  /** The target is met "for it and every higher band", and there is something to go by. */
  predicate MeetsAsDocumented(es: seq<Entry>, edges: seq<real>, i: nat, target: real)
    requires i < |edges|
  {
    Pool(es, edges, i) != [] && forall b :: i <= b < |edges| ==> BandMeets(es, edges, b, target)
  }

  lemma SharesAdd(a: nat, b: nat, m: nat, n: nat, target: real)
    requires AtLeast(a, m, target) && AtLeast(b, n, target)
    ensures AtLeast(a + b, m + n, target)
  {
    assert target * (m + n) as real == target * m as real + target * n as real;
  }

  lemma {:induction false} SumsReachShare(right: seq<nat>, all: seq<nat>, lo: nat, hi: nat, target: real)
    requires |right| == |all| && lo <= hi <= |all|
    requires forall b :: lo <= b < hi ==> AtLeast(right[b], all[b], target)
    ensures AtLeast(Sum(right, lo, hi), Sum(all, lo, hi), target)
    decreases hi
  {
    if lo < hi {
      SumsReachShare(right, all, lo, hi - 1, target);
      SharesAdd(Sum(right, lo, hi - 1), right[hi - 1], Sum(all, lo, hi - 1), all[hi - 1], target);
    } else {
      assert Sum(all, lo, hi) == 0 && target * 0 as real == 0.0;
    }
  }

  lemma BandsReachShare(es: seq<Entry>, edges: seq<real>, lo: nat, target: real)
    requires lo < |edges| && forall b :: lo <= b < |edges| ==> BandMeets(es, edges, b, target)
    ensures AtLeast(SumBands(es, edges, lo, |edges|, true), SumBands(es, edges, lo, |edges|, false), target)
  {
    var right, all := Tallies(es, edges, true), Tallies(es, edges, false);
    forall b | lo <= b < |edges| ensures AtLeast(right[b], all[b], target) {
      TallyCounts(InBand(es, edges, b));
      assert BandMeets(es, edges, b, target);
    }
    SumsReachShare(right, all, lo, |edges|, target);
  }

  /** Meeting the target band by band is meeting it pooled. */
  lemma DocumentedIsPooled(es: seq<Entry>, edges: seq<real>, i: nat, target: real)
    requires i < |edges| && MeetsAsDocumented(es, edges, i, target)
    ensures Meets(es, edges, i, target)
  {
    var pool := Pool(es, edges, i);
    BandsReachShare(es, edges, i, target);
    SumIsPool(es, edges, i, true);
    SumIsPool(es, edges, i, false);
    TallyCounts(pool);
  }

  /** The threshold the documentation describes: the least edge that satisfies it, if any. */
  predicate RecommendsAsDocumented(es: seq<Entry>, edges: seq<real>, target: real, d: Option<real>) {
    match d
    case None => forall i :: 0 <= i < |edges| ==> !MeetsAsDocumented(es, edges, i, target)
    case Some(edge) =>
      exists i :: 0 <= i < |edges| && edge == edges[i] && MeetsAsDocumented(es, edges, i, target)
                  && forall j :: 0 <= j < i ==> !MeetsAsDocumented(es, edges, j, target)
  }

  lemma {:induction false} DocumentedFrom(es: seq<Entry>, edges: seq<real>, target: real, n: nat) returns (d: Option<real>)
    requires n <= |edges| && forall j :: 0 <= j < n ==> !MeetsAsDocumented(es, edges, j, target)
    ensures RecommendsAsDocumented(es, edges, target, d)
    decreases |edges| - n
  {
    if n == |edges| {
      d := None;
    } else if MeetsAsDocumented(es, edges, n, target) {
      d := Some(edges[n]);
    } else {
      d := DocumentedFrom(es, edges, target, n + 1);
    }
  }

  /** The two readings on every input: where the code recommends nothing, neither does the
      documentation; the code's edge is never the higher one; and the two are the same exactly
      when every band from the code's edge upward meets the target on its own. */
  lemma ReadingsCompare(es: seq<Entry>, edges: seq<real>, target: real, r: Option<real>) returns (d: Option<real>)
    requires Increasing(edges) && Recommends(es, edges, target, r)
    ensures RecommendsAsDocumented(es, edges, target, d)
    ensures d.Some? ==> r.Some? && r.value <= d.value
    ensures r.Some? ==>
      (d == r <==> exists i :: 0 <= i < |edges| && edges[i] == r.value && MeetsAsDocumented(es, edges, i, target))
  {
    d := DocumentedFrom(es, edges, target, 0);
    NotAbove(es, edges, target, r, d);
    if r.Some? {
      var i := FirstPooled(es, edges, target, r.value);
      if MeetsAsDocumented(es, edges, i, target) { FirstDocumented(es, edges, target, i, d); }
      assert forall j :: 0 <= j < |edges| && edges[j] == r.value ==> j == i;
    }
  }

  lemma FirstPooled(es: seq<Entry>, edges: seq<real>, target: real, edge: real) returns (i: nat)
    requires Recommends(es, edges, target, Some(edge))
    ensures i < |edges| && edges[i] == edge && Meets(es, edges, i, target)
    ensures forall j :: 0 <= j < i ==> !Meets(es, edges, j, target)
  {
    i :| 0 <= i < |edges| && edge == edges[i] && Meets(es, edges, i, target)
         && forall j :: 0 <= j < i ==> !Meets(es, edges, j, target);
  }

  lemma NotAbove(es: seq<Entry>, edges: seq<real>, target: real, r: Option<real>, d: Option<real>)
    requires Increasing(edges) && Recommends(es, edges, target, r) && RecommendsAsDocumented(es, edges, target, d)
    ensures d.Some? ==> r.Some? && r.value <= d.value
  {
    if d.Some? {
      var k :| 0 <= k < |edges| && d == Some(edges[k]) && MeetsAsDocumented(es, edges, k, target);
      DocumentedIsPooled(es, edges, k, target);
      if r.Some? {
        var i := FirstPooled(es, edges, target, r.value);
        assert i <= k;
      }
    }
  }

  /** An edge that satisfies the documentation and is the first to meet the target pooled is the
      documented one. */
  lemma FirstDocumented(es: seq<Entry>, edges: seq<real>, target: real, i: nat, d: Option<real>)
    requires RecommendsAsDocumented(es, edges, target, d) && i < |edges| && MeetsAsDocumented(es, edges, i, target)
    requires forall j :: 0 <= j < i ==> !Meets(es, edges, j, target)
    ensures d == Some(edges[i])
  {
    forall j | 0 <= j < i ensures !MeetsAsDocumented(es, edges, j, target) {
      if MeetsAsDocumented(es, edges, j, target) { DocumentedIsPooled(es, edges, j, target); }
    }
    var k :| 0 <= k < |edges| && d == Some(edges[k]) && MeetsAsDocumented(es, edges, k, target)
             && forall j :: 0 <= j < k ==> !MeetsAsDocumented(es, edges, j, target);
    assert k == i;
  }

  /** The code can recommend an edge where the documentation recommends none: a right answer in
      the lower band carries a wrong one in the higher. */
  lemma OnlyPoolingRecommends()
    ensures var es, edges := [(0.6, true), (0.95, false)], [0.5, 0.9];
      Recommends(es, edges, 0.5, Some(0.5)) && RecommendsAsDocumented(es, edges, 0.5, None)
  {
    var edges := [0.5, 0.9];
    assert edges[..1] == [0.5];
    assert BandOf(0.6, edges) == 0 && BandOf(0.95, edges) == 1;
    RightThenWrong((0.6, true), (0.95, false), edges);
  }

  lemma RightThenWrong(low: Entry, high: Entry, edges: seq<real>)
    requires |edges| == 2 && BandOf(low.0, edges) == 0 && BandOf(high.0, edges) == 1 && low.1 && !high.1
    ensures var es := [low, high];
      Meets(es, edges, 0, 0.5) && !BandMeets(es, edges, 1, 0.5)
  {
    TwoBands(low, high, edges);
  }

  /** The two readings differ: the pool at the lower edge meets the target although the lower
      band holds only a wrong answer; the documented edge is the higher one. */
  lemma PoolingDiffers()
    ensures var es, edges := [(0.6, false), (0.95, true)], [0.5, 0.9];
      && Recommends(es, edges, 0.5, Some(0.5))
      && !MeetsAsDocumented(es, edges, 0, 0.5) && MeetsAsDocumented(es, edges, 1, 0.5)
  {
    var edges := [0.5, 0.9];
    assert edges[..1] == [0.5];
    assert BandOf(0.6, edges) == 0 && BandOf(0.95, edges) == 1;
    WrongThenRight((0.6, false), (0.95, true), edges);
  }

  lemma WrongThenRight(low: Entry, high: Entry, edges: seq<real>)
    requires |edges| == 2 && BandOf(low.0, edges) == 0 && BandOf(high.0, edges) == 1 && !low.1 && high.1
    ensures var es := [low, high];
      && Recommends(es, edges, 0.5, Some(edges[0]))
      && !MeetsAsDocumented(es, edges, 0, 0.5) && MeetsAsDocumented(es, edges, 1, 0.5)
  {
    WrongBelow(low, high, edges);
    RightAbove(low, high, edges);
  }

  lemma WrongBelow(low: Entry, high: Entry, edges: seq<real>)
    requires |edges| == 2 && BandOf(low.0, edges) == 0 && BandOf(high.0, edges) == 1 && !low.1 && high.1
    ensures !BandMeets([low, high], edges, 0, 0.5) && Meets([low, high], edges, 0, 0.5)
  {
    TwoBands(low, high, edges);
  }

  lemma RightAbove(low: Entry, high: Entry, edges: seq<real>)
    requires |edges| == 2 && BandOf(low.0, edges) == 0 && BandOf(high.0, edges) == 1 && high.1
    ensures BandMeets([low, high], edges, 1, 0.5) && Pool([low, high], edges, 1) != []
  {
    TwoBands(low, high, edges);
  }

  lemma TwoBands(low: Entry, high: Entry, edges: seq<real>)
    requires |edges| == 2 && BandOf(low.0, edges) == 0 && BandOf(high.0, edges) == 1
    ensures var es := [low, high];
      && Pool(es, edges, 0) == es && Pool(es, edges, 1) == [high]
      && InBand(es, edges, 0) == [low] && InBand(es, edges, 1) == [high]
      && Tally(es, true) == Worth(low, true) + Worth(high, true)
      && Tally([low], true) == Worth(low, true) && Tally([high], true) == Worth(high, true)
  {
    assert [low, high][..1] == [low];
    SingleBands(low, edges, 0);
    SingleBands(high, edges, 1);
  }

  lemma SingleBands(e: Entry, edges: seq<real>, b: nat)
    requires edges != [] && BandOf(e.0, edges) == b
    ensures InBand([e], edges, b) == [e] && Tally([e], true) == Worth(e, true)
    ensures forall c: nat :: c != b ==> InBand([e], edges, c) == []
    ensures forall lo: nat :: Pool([e], edges, lo) == if lo <= b then [e] else []
  {
    var none: seq<Entry> := [];
    assert [e][..0] == none;
  }

  // ---- Counting records

  /** All labelled answers, one band's, or those pooled from a band upward. */
  datatype Which = All | OneBand(b: nat) | From(lo: nat)

  function Selected(es: seq<Entry>, edges: seq<real>, which: Which): seq<Entry>
    requires edges != []
  {
    match which case All => es case OneBand(b) => InBand(es, edges, b) case From(lo) => Pool(es, edges, lo)
  }

  /** The record has an answer with a confidence and a label; its answer is right, if that is
      asked; and its confidence belongs: to the highest band whose edge it reaches (the first
      band if it reaches none), or to a pool whose edge it reaches. */
  ghost predicate Picked(r: Record, edges: seq<real>, which: Which, onlyRight: bool) {
    && r.answer.Some? && r.truth.Some? && r.answer.value.confidence.Some?
    && (onlyRight ==> r.answer.value.choice == r.truth)
    && var x := r.answer.value.confidence.value;
       match which
       case All => true
       case OneBand(b) =>
         b < |edges| && (b == 0 || x >= edges[b]) && forall j :: b < j < |edges| ==> x < edges[j]
       case From(lo) => lo == 0 || (lo < |edges| && x >= edges[lo])
  }

  ghost function Hits(rs: seq<Record>, edges: seq<real>, which: Which, onlyRight: bool): set<int> {
    set i | 0 <= i < |rs| && Picked(rs[i], edges, which, onlyRight)
  }

  lemma SetGrows(before: set<int>, after: set<int>, last: int, taken: bool)
    requires last !in before && forall k :: k in after <==> k in before || (taken && k == last)
    ensures |after| == |before| + if taken then 1 else 0
  {
    var grown := if taken then before + {last} else before;
    forall k ensures k in after <==> k in grown {}
    assert after == grown;
  }

  lemma HitsGrow(rs: seq<Record>, edges: seq<real>, which: Which, onlyRight: bool)
    requires rs != []
    ensures var last := |rs| - 1;
      |Hits(rs, edges, which, onlyRight)| ==
      |Hits(rs[..last], edges, which, onlyRight)| + if Picked(rs[last], edges, which, onlyRight) then 1 else 0
  {
    var last := |rs| - 1;
    var before, after := Hits(rs[..last], edges, which, onlyRight), Hits(rs, edges, which, onlyRight);
    var taken := Picked(rs[last], edges, which, onlyRight);
    forall k ensures k in after <==> k in before || (taken && k == last) {
      if 0 <= k < last { assert rs[..last][k] == rs[k]; }
    }
    SetGrows(before, after, last, taken);
  }

  lemma {:induction false} AnsweredMeans(rs: seq<Record>)
    ensures Answered(rs) == |set i | 0 <= i < |rs| && rs[i].answer.Some?|
  {
    var all := set i | 0 <= i < |rs| && rs[i].answer.Some?;
    if rs == [] {
      assert all == {};
    } else {
      var last := |rs| - 1;
      AnsweredMeans(rs[..last]);
      var before := set i | 0 <= i < last && rs[..last][i].answer.Some?;
      assert all == if rs[last].answer.Some? then before + {last} else before;
    }
  }

  /** The selection takes an entry exactly when its record is picked. */
  lemma SelectedGrows(es: seq<Entry>, e: Entry, edges: seq<real>, which: Which, r: Record)
    requires edges != [] && Increasing(edges) && EntryOf(r) == Some(e) && (which.From? ==> which.lo < |edges|)
    ensures Selected(es + [e], edges, which) ==
      Selected(es, edges, which) + if Picked(r, edges, which, false) then [e] else []
    ensures Picked(r, edges, which, true) <==> Picked(r, edges, which, false) && e.1
  {
    assert (es + [e])[..|es|] == es;
    BandOfIsHighestReached(e.0, edges);
    if which.OneBand? && Picked(r, edges, which, false) { BandOfIsUnique(e.0, edges, which.b); }
  }

  /** Every tally of the report counts records by their own fields. */
  lemma {:induction false} TallyMeans(rs: seq<Record>, edges: seq<real>, which: Which, onlyRight: bool)
    requires edges != [] && Increasing(edges) && (which.From? ==> which.lo < |edges|)
    ensures Tally(Selected(Entries(rs), edges, which), onlyRight) == |Hits(rs, edges, which, onlyRight)|
  {
    if rs == [] {
      assert Hits(rs, edges, which, onlyRight) == {};
    } else {
      var front, r := rs[..|rs| - 1], rs[|rs| - 1];
      TallyMeans(front, edges, which, onlyRight);
      HitsGrow(rs, edges, which, onlyRight);
      var es := Entries(front);
      if EntryOf(r).Some? {
        SelectedGrows(es, EntryOf(r).value, edges, which, r);
        TallyAppend(Selected(es, edges, which), EntryOf(r).value, onlyRight);
      } else {
        assert es + [] == es;
      }
    }
  }

  /** The pool at an edge meets the target, counted in records. */
  ghost predicate Reaches(rs: seq<Record>, edges: seq<real>, i: nat, target: real) {
    var n, right := |Hits(rs, edges, From(i), false)|, |Hits(rs, edges, From(i), true)|;
    n > 0 && right as real / n as real >= target
  }

  lemma MeetsMeans(rs: seq<Record>, edges: seq<real>, i: nat, target: real)
    requires Increasing(edges) && i < |edges|
    ensures Meets(Entries(rs), edges, i, target) <==> Reaches(rs, edges, i, target)
  {
    var pool := Pool(Entries(rs), edges, i);
    TallyMeans(rs, edges, From(i), false);
    TallyMeans(rs, edges, From(i), true);
    TallyCounts(pool);
    if pool != [] { RatioMeans(Tally(pool, true), |pool|, target); }
  }

  /** The report in the fields of the records: totals, each band's counts, and the least edge
      whose pool reaches the target. */
  ghost predicate Reports(report: Report, rs: seq<Record>, edges: seq<real>, target: real) {
    && report.total == |set i | 0 <= i < |rs| && rs[i].answer.Some?|
    && report.labeled == |Hits(rs, edges, All, false)| && report.correct == |Hits(rs, edges, All, true)|
    && |report.bands| == |edges|
    && (forall b :: 0 <= b < |edges| ==>
      && report.bands[b].lower == edges[b]
      && report.bands[b].upper == (if b + 1 < |edges| then edges[b + 1] else 1.0)
      && report.bands[b].count == |Hits(rs, edges, OneBand(b), false)|
      && report.bands[b].correct == |Hits(rs, edges, OneBand(b), true)|)
    && (report.threshold.None? ==> forall i :: 0 <= i < |edges| ==> !Reaches(rs, edges, i, target))
    && (report.threshold.Some? ==>
      exists i :: 0 <= i < |edges| && edges[i] == report.threshold.value && Reaches(rs, edges, i, target)
                  && forall j :: 0 <= j < i ==> !Reaches(rs, edges, j, target))
  }

  /** What `CalibrateRecords` ensures, for a non-empty edge list, is such a report. */
  lemma ReportMeans(report: Report, rs: seq<Record>, edges: seq<real>, target: real)
    requires edges != [] && Increasing(edges) && |report.bands| == |edges|
    requires var es := Entries(rs);
      && report.total == Answered(rs) && report.labeled == |es| && report.correct == Tally(es, true)
      && (forall b :: 0 <= b < |edges| ==> Describes(report.bands[b], es, edges, b))
      && Recommends(es, edges, target, report.threshold)
    ensures Reports(report, rs, edges, target)
  {
    var es := Entries(rs);
    AnsweredMeans(rs);
    TallyMeans(rs, edges, All, false);
    TallyMeans(rs, edges, All, true);
    TallyCounts(es);
    forall b | 0 <= b < |edges|
      ensures report.bands[b].count == |Hits(rs, edges, OneBand(b), false)|
      ensures report.bands[b].correct == |Hits(rs, edges, OneBand(b), true)|
    {
      assert Describes(report.bands[b], es, edges, b);
      TallyMeans(rs, edges, OneBand(b), false);
      TallyMeans(rs, edges, OneBand(b), true);
      TallyCounts(InBand(es, edges, b));
    }
    forall i | 0 <= i < |edges| ensures Meets(es, edges, i, target) <==> Reaches(rs, edges, i, target) {
      MeetsMeans(rs, edges, i, target);
    }
    if report.threshold.Some? {
      var i := FirstPooled(es, edges, target, report.threshold.value);
      assert Reaches(rs, edges, i, target);
    }
  }

  predicate Bucketed(buckets: seq<seq<Entry>>, es: seq<Entry>, edges: seq<real>)
    requires edges != []
  {
    |buckets| == |edges| && forall b :: 0 <= b < |edges| ==> buckets[b] == InBand(es, edges, b)
  }

  /** `sorted(set(bands))`. */
  method SortedEdges(bands: seq<real>) returns (edges: seq<real>)
    ensures Increasing(edges) && (edges == [] <==> bands == [])
    ensures forall x :: x in edges <==> x in bands
  {
    edges := [];
    for n := 0 to |bands|
      invariant Increasing(edges) && (edges == [] <==> n == 0)
      invariant forall x :: x in edges <==> x in bands[..n]
    {
      var x := bands[n];
      assert bands[..n + 1] == bands[..n] + [x];
      var k := 0;
      while k < |edges| && edges[k] < x
        invariant k <= |edges|
        invariant forall i :: 0 <= i < k ==> edges[i] < x
      {
        k := k + 1;
      }
      if k == |edges| || edges[k] != x {
        var old_ := edges;
        edges := edges[..k] + [x] + edges[k..];
        assert forall y :: y in edges <==> y == x || y in old_ by {
          assert old_ == old_[..k] + old_[k..];
        }
      } else {
        assert x in edges;
      }
    }
    assert bands[..|bands|] == bands;
  }

  /** `_bucket_index`. */
  method BucketIndex(confidence: real, edges: seq<real>) returns (index: nat)
    requires Increasing(edges) && edges != []
    ensures index == BandOf(confidence, edges)
  {
    index := 0;
    for i := 0 to |edges|
      invariant index < |edges| && (i > 0 ==> index < i)
      invariant index == 0 || confidence >= edges[index]
      invariant forall j :: index < j < i ==> confidence < edges[j]
    {
      if confidence >= edges[i] { index := i; }
    }
    BandOfIsUnique(confidence, edges, index);
  }

  /** Sorting the labelled entries into their bands; None is the IndexError of an empty edge
      list. */
  method Collect(rs: seq<Record>, edges: seq<real>)
    returns (buckets: Option<seq<seq<Entry>>>, total: nat, labeled: nat, correct: nat)
    requires Increasing(edges)
    ensures buckets.None? <==> edges == [] && Entries(rs) != []
    ensures buckets.Some? ==> total == Answered(rs) && labeled == |Entries(rs)| && correct == Tally(Entries(rs), true)
    ensures buckets.Some? && edges != [] ==> Bucketed(buckets.value, Entries(rs), edges)
  {
    var bs: seq<seq<Entry>> := seq(|edges|, _ => []);
    total, labeled, correct := 0, 0, 0;
    for n := 0 to |rs|
      invariant edges == [] ==> Entries(rs[..n]) == []
      invariant total == Answered(rs[..n]) && labeled == |Entries(rs[..n])|
      invariant correct == Tally(Entries(rs[..n]), true)
      invariant edges != [] ==> Bucketed(bs, Entries(rs[..n]), edges)
    {
      ghost var es := Entries(rs[..n]);
      assert rs[..n + 1][..n] == rs[..n];
      if rs[n].answer.Some? { total := total + 1; }
      var e := EntryOf(rs[n]);
      if e.Some? {
        if edges == [] {
          EntriesGrow(rs, n + 1);
          return None, total, labeled, correct;
        }
        labeled := labeled + 1;
        if e.value.1 { correct := correct + 1; }
        TallyAppend(es, e.value, true);
        var b := BucketIndex(e.value.0, edges);
        BucketOne(bs, es, edges, e.value);
        bs := bs[b := bs[b] + [e.value]];
      } else {
        assert es + [] == es;
      }
    }
    assert rs[..|rs|] == rs;
    buckets := Some(bs);
  }

  lemma {:induction false} EntriesGrow(rs: seq<Record>, n: nat)
    requires n <= |rs| && Entries(rs[..n]) != []
    ensures Entries(rs) != []
  {
    if n == |rs| {
      assert rs[..n] == rs;
    } else {
      assert rs[..|rs| - 1][..n] == rs[..n];
      EntriesGrow(rs[..|rs| - 1], n);
    }
  }

  lemma BucketOne(bs: seq<seq<Entry>>, es: seq<Entry>, edges: seq<real>, e: Entry)
    requires edges != [] && Bucketed(bs, es, edges)
    ensures var b := BandOf(e.0, edges); Bucketed(bs[b := bs[b] + [e]], es + [e], edges)
  {
    assert (es + [e])[..|es|] == es;
  }

  /** The size of, and the right answers in, the buckets from `i` upward. */
  method PoolFrom(edges: seq<real>, buckets: seq<seq<Entry>>, ghost es: seq<Entry>, i: nat)
    returns (n: nat, right: nat)
    requires i < |edges| && Bucketed(buckets, es, edges)
    ensures n == |Pool(es, edges, i)| && right == Tally(Pool(es, edges, i), true)
  {
    n, right := 0, 0;
    for k := i to |edges|
      invariant n == SumBands(es, edges, i, k, false) && right == SumBands(es, edges, i, k, true)
    {
      TallyCounts(buckets[k]);
      n, right := n + |buckets[k]|, right + CountRight(buckets[k]);
    }
    SumIsPool(es, edges, i, false);
    SumIsPool(es, edges, i, true);
    TallyCounts(Pool(es, edges, i));
  }

  /** `_recommend`: the lowest edge first. */
  method Recommend(edges: seq<real>, buckets: seq<seq<Entry>>, ghost es: seq<Entry>, target: real)
    returns (r: Option<real>)
    requires edges != [] ==> Bucketed(buckets, es, edges)
    ensures Recommends(es, edges, target, r)
  {
    for i := 0 to |edges|
      invariant forall j :: 0 <= j < i ==> !Meets(es, edges, j, target)
    {
      var n, right := PoolFrom(edges, buckets, es, i);
      if n > 0 { RatioMeans(right, n, target); }
      if n > 0 && right as real / n as real >= target {
        assert Meets(es, edges, i, target);
        return Some(edges[i]);
      }
    }
    return None;
  }

  /** `sum(1 for _, ok in entries if ok)`. */
  function CountRight(es: seq<Entry>): (n: nat)
    ensures n == Tally(es, true)
  {
    if es == [] then 0 else CountRight(es[..|es| - 1]) + if es[|es| - 1].1 then 1 else 0
  }

  /** A report's band: its edge, the next edge (or 1) as upper end, and its tallies. */
  predicate Describes(band: Band, es: seq<Entry>, edges: seq<real>, i: nat)
    requires i < |edges|
  {
    && band.lower == edges[i]
    && band.upper == (if i + 1 < |edges| then edges[i + 1] else 1.0)
    && band.count == |InBand(es, edges, i)|
    && band.correct == Tally(InBand(es, edges, i), true)
  }

  method Bands(edges: seq<real>, buckets: seq<seq<Entry>>, ghost es: seq<Entry>) returns (bands: seq<Band>)
    requires edges != [] ==> Bucketed(buckets, es, edges)
    ensures |bands| == |edges|
    ensures forall i :: 0 <= i < |edges| ==> Describes(bands[i], es, edges, i)
  {
    bands := [];
    for i := 0 to |edges|
      invariant |bands| == i
      invariant forall k :: 0 <= k < i ==> Describes(bands[k], es, edges, k)
    {
      var upper := if i + 1 < |edges| then edges[i + 1] else 1.0;
      bands := bands + [Band(edges[i], upper, |buckets[i]|, CountRight(buckets[i]))];
    }
  }

  function SumCounts(bands: seq<Band>): (nat, nat) {
    if bands == [] then (0, 0)
    else
      var (n, m) := SumCounts(bands[..|bands| - 1]);
      (n + bands[|bands| - 1].count, m + bands[|bands| - 1].correct)
  }

  lemma {:induction false} CountsAreSums(bands: seq<Band>, es: seq<Entry>, edges: seq<real>)
    requires edges != [] && |bands| <= |edges|
    requires forall i :: 0 <= i < |bands| ==> Describes(bands[i], es, edges, i)
    ensures SumCounts(bands).0 == SumBands(es, edges, 0, |bands|, false)
    ensures SumCounts(bands).1 == SumBands(es, edges, 0, |bands|, true)
  {
    if bands != [] {
      var last := |bands| - 1;
      CountsAreSums(bands[..last], es, edges);
      TallyCounts(InBand(es, edges, last));
      assert Describes(bands[last], es, edges, last);
    }
  }

  /** `calibrate_records`. */
  method CalibrateRecords(rs: seq<Record>, bands: seq<real>, target: real)
    returns (report: Option<Report>, edges: seq<real>)
    ensures Increasing(edges) && forall x :: x in edges <==> x in bands
    ensures report.None? <==> bands == [] && Entries(rs) != []
    ensures report.Some? ==>
      var es := Entries(rs);
      && report.value.total == Answered(rs) && report.value.labeled == |es|
      && report.value.correct == Tally(es, true)
      && |report.value.bands| == |edges|
      && (forall i :: 0 <= i < |edges| ==> Describes(report.value.bands[i], es, edges, i))
      && (bands != [] ==> SumCounts(report.value.bands) == (report.value.labeled, report.value.correct))
      && Recommends(es, edges, target, report.value.threshold)
    ensures report.Some? && bands != [] ==> Reports(report.value, rs, edges, target)
  {
    edges := SortedEdges(bands);
    var buckets, total, labeled, correct := Collect(rs, edges);
    if buckets.None? { return None, edges; }
    ghost var es := Entries(rs);
    var bs := Bands(edges, buckets.value, es);
    var threshold := Recommend(edges, buckets.value, es, target);
    if edges != [] {
      CountsAreSums(bs, es, edges);
      BandsPartition(es, edges, false);
      BandsPartition(es, edges, true);
      TallyCounts(es);
    }
    report := Some(Report(total, labeled, correct, bs, threshold));
    if edges != [] { ReportMeans(report.value, rs, edges, target); }
  }
}
