/** The near-miss tracker: a bounded window of recent events, its histogram and
    the threshold it recommends. */
module NearMiss {
  import opened Wrappers
  import Rounding
  import opened RealSort

  datatype Event = Event(score: real, threshold: real, namespace: string, promptPreview: string, timestamp: real)
  {
    function Gap(): real { threshold - score }
  }

  datatype Histogram = Histogram(from90: nat, from92: nat, from94: nat, other: nat)
  {
    function Total(): nat { from90 + from92 + from94 + other }
  }

  /** The recommendation text, as which sentence it is and the values it names;
      means are formatted to three places. */
  datatype Advice =
    | NoneObserved
    | TooFew(count: nat, needed: int, meanScore: real)
    | Lower(count: nat, meanScore: real, threshold: real)

  datatype Report = Report(
    count: nat,
    windowSize: nat,
    meanScore: Option<real>,
    meanGap: Option<real>,
    histogram: Histogram,
    recommendedThreshold: Option<real>,
    recommendation: Advice)

  /** The last `n` elements. */
  function LastN<T>(xs: seq<T>, n: nat): (r: seq<T>)
    ensures |r| == if |xs| <= n then |xs| else n
  {
    if |xs| <= n then xs else xs[|xs| - n..]
  }

  function Scores(events: seq<Event>): (s: seq<real>)
    ensures |s| == |events| && forall i | 0 <= i < |s| :: s[i] == events[i].score
  {
    seq(|events|, i requires 0 <= i < |events| => events[i].score)
  }

  datatype Bin = From90 | From92 | From94 | Other

  function BinOf(s: real): Bin {
    if 0.90 <= s < 0.92 then From90
    else if 0.92 <= s < 0.94 then From92
    else if 0.94 <= s < 0.95 then From94
    else Other
  }

  /** How many scores fall in a bin. */
  function InBin(events: seq<Event>, b: Bin): nat {
    if events == [] then 0
    else InBin(events[..|events| - 1], b) + if BinOf(events[|events| - 1].score) == b then 1 else 0
  }

  function HistogramOf(events: seq<Event>): Histogram {
    Histogram(InBin(events, From90), InBin(events, From92), InBin(events, From94), InBin(events, Other))
  }

  /** Every event falls in exactly one bin. */
  lemma {:induction false} BinsPartition(events: seq<Event>)
    ensures HistogramOf(events).Total() == |events|
  {
    if events != [] {
      BinsPartition(events[..|events| - 1]);
    }
  }

  /** The events whose score lies in a half-open interval. */
  ghost function Falling(events: seq<Event>, lo: real, hi: real): set<int> {
    set i | 0 <= i < |events| && lo <= events[i].score && events[i].score < hi
  }

  lemma {:induction false} InBinIsCardinality(events: seq<Event>, b: Bin, lo: real, hi: real)
    requires forall x: real :: BinOf(x) == b <==> lo <= x && x < hi
    ensures InBin(events, b) == |Falling(events, lo, hi)|
  {
    if events != [] {
      var k := |events| - 1;
      InBinIsCardinality(events[..k], b, lo, hi);
      OneMoreFalls(events, lo, hi);
    }
  }

  lemma OneMoreFalls(events: seq<Event>, lo: real, hi: real)
    requires events != []
    ensures var k := |events| - 1;
            |Falling(events, lo, hi)| == |Falling(events[..k], lo, hi)| + if lo <= events[k].score && events[k].score < hi then 1 else 0
  {
    var k := |events| - 1;
    var before := Falling(events[..k], lo, hi);
    if lo <= events[k].score && events[k].score < hi {
      assert Falling(events, lo, hi) == before + {k};
    } else {
      assert Falling(events, lo, hi) == before;
    }
  }

  /** Each bin counts the events whose score lies in its interval. */
  lemma HistogramCounts(events: seq<Event>)
    ensures var h := HistogramOf(events);
            && h.from90 == |Falling(events, 0.90, 0.92)| && h.from92 == |Falling(events, 0.92, 0.94)|
            && h.from94 == |Falling(events, 0.94, 0.95)| && h.Total() == |events|
  {
    InBinIsCardinality(events, From90, 0.90, 0.92);
    InBinIsCardinality(events, From92, 0.92, 0.94);
    InBinIsCardinality(events, From94, 0.94, 0.95);
    BinsPartition(events);
  }

  function Sum(xs: seq<real>): real {
    if xs == [] then 0.0 else Sum(xs[..|xs| - 1]) + xs[|xs| - 1]
  }

  /** `fmean(xs)`. */
  function Mean(xs: seq<real>): real
    requires xs != []
  {
    Sum(xs) / |xs| as real
  }

  /** `round(fmean(xs), 4)`. */
  function RoundedMean(xs: seq<real>): real
    requires xs != []
  {
    Rounding.RoundTo4(Mean(xs))
  }

  function Gaps(events: seq<Event>): (s: seq<real>)
    ensures |s| == |events| && forall i | 0 <= i < |s| :: s[i] == events[i].threshold - events[i].score
  {
    seq(|events|, i requires 0 <= i < |events| => events[i].Gap())
  }

  /** `max(0, int(0.25 * n) - 1)`. */
  function QuartileIndex(n: nat): nat { if n / 4 >= 1 then n / 4 - 1 else 0 }

  function RecommendFrom(scores: seq<real>): real
    requires scores != []
  {
    Rounding.RoundTo3(Sort(scores)[QuartileIndex(|scores|)] - 0.005)
  }

  function Recommendation(scores: seq<real>, minSamples: int): Option<real>
    requires scores != []
  {
    if |scores| >= minSamples then Some(RecommendFrom(scores)) else None
  }

  function AdviceFor(scores: seq<real>, minSamples: int): Advice
    requires scores != []
  {
    var mean, r := Rounding.RoundTo3(Mean(scores)), Recommendation(scores, minSamples);
    if r.Some? then Lower(|scores|, mean, r.value) else TooFew(|scores|, minSamples, mean)
  }

  function ReportOf(events: seq<Event>, capacity: nat, minSamples: int): Report {
    if events == [] then Report(0, capacity, None, None, HistogramOf(events), None, NoneObserved)
    else
      var scores := Scores(events);
      Report(|events|, capacity, Some(RoundedMean(scores)), Some(RoundedMean(Gaps(events))),
             HistogramOf(events), Recommendation(scores, minSamples), AdviceFor(scores, minSamples))
  }

  class NearMissTracker {
    const capacity: nat
    const minSamples: int
    var events: seq<Event>

    predicate Valid()
      reads this
    {
      |events| <= capacity
    }

    constructor (capacity: nat := 1000, minSamples: int := 20)
      ensures Valid() && events == [] && this.capacity == capacity && this.minSamples == minSamples
    {
      this.capacity, this.minSamples := capacity, minSamples;
      events := [];
    }

    method Record(score: real, threshold: real, namespace: string, prompt: string, now: real)
      requires Valid()
      modifies this
      ensures Valid()
      ensures events == LastN(old(events) + [MakeEvent(score, threshold, namespace, prompt, now)], capacity)
      ensures capacity > 0 ==>
                && |events| == (if |old(events)| < capacity then |old(events)| + 1 else capacity)
                && events[..|events| - 1] == (if |old(events)| < capacity then old(events) else old(events)[1..])
                && var e := events[|events| - 1];
                   && e.score == score && e.threshold == threshold && e.namespace == namespace && e.timestamp == now
                   && e.promptPreview <= prompt && |e.promptPreview| == (if |prompt| < 120 then |prompt| else 120)
    {
      events := events + [MakeEvent(score, threshold, namespace, prompt, now)];
      if |events| > capacity {
        events := events[1..];
      }
    }

    method ComputeHistogram() returns (h: Histogram)
      ensures h == HistogramOf(events) && h.Total() == |events|
    {
      h := Histogram(0, 0, 0, 0);
      for i := 0 to |events|
        invariant h == HistogramOf(events[..i])
      {
        assert events[..i + 1][..i] == events[..i];
        var s := events[i].score;
        if 0.90 <= s < 0.92 {
          h := h.(from90 := h.from90 + 1);
        } else if 0.92 <= s < 0.94 {
          h := h.(from92 := h.from92 + 1);
        } else if 0.94 <= s < 0.95 {
          h := h.(from94 := h.from94 + 1);
        } else {
          h := h.(other := h.other + 1);
        }
      }
      assert events[..|events|] == events;
      BinsPartition(events);
    }

    method MakeReport() returns (r: Report)
      ensures r == ReportOf(events, capacity, minSamples) && r.histogram.Total() == |events|
    {
      var h := ComputeHistogram();
      var latest := events;
      var count := |latest|;
      if count == 0 {
        return Report(0, capacity, None, None, h, None, NoneObserved);
      }
      var scores := Scores(latest);
      var mean := Rounding.RoundTo3(Mean(scores));
      var recommended, advice := None, TooFew(count, minSamples, mean);
      if count >= minSamples {
        recommended := Some(RecommendFrom(scores));
        advice := Lower(count, mean, recommended.value);
      }
      r := Report(count, capacity, Some(RoundedMean(scores)), Some(RoundedMean(Gaps(latest))), h, recommended, advice);
    }
  }

  function MakeEvent(score: real, threshold: real, namespace: string, prompt: string, now: real): Event {
    Event(score, threshold, namespace, if |prompt| <= 120 then prompt else prompt[..120], now)
  }

  // ----- the window -----

  function RecordOne(events: seq<Event>, capacity: nat, e: Event): seq<Event> { LastN(events + [e], capacity) }

  function RecordAll(capacity: nat, recorded: seq<Event>): seq<Event> {
    if recorded == [] then []
    else RecordOne(RecordAll(capacity, recorded[..|recorded| - 1]), capacity, recorded[|recorded| - 1])
  }

  /** Dropping old events early loses none of the latest. */
  lemma LastNAgain<T>(xs: seq<T>, x: T, n: nat)
    ensures LastN(LastN(xs, n) + [x], n) == LastN(xs + [x], n)
  {
  }

  /** After any records the window is exactly the last `min(n, capacity)`. */
  lemma {:induction false} WindowIsLatest(capacity: nat, recorded: seq<Event>)
    ensures RecordAll(capacity, recorded) == LastN(recorded, capacity)
    ensures RecordAll(capacity, recorded) == if |recorded| <= capacity then recorded else recorded[|recorded| - capacity..]
  {
    if recorded != [] {
      var k := |recorded| - 1;
      WindowIsLatest(capacity, recorded[..k]);
      LastNAgain(recorded[..k], recorded[k], capacity);
      assert recorded == recorded[..k] + [recorded[k]];
    }
  }

  // ----- the recommendation -----

  function CountAbove(scores: seq<real>, r: real): nat {
    if scores == [] then 0 else (if scores[0] > r then 1 else 0) + CountAbove(scores[1..], r)
  }

  lemma {:induction false} CountAboveInsert(x: real, xs: seq<real>, r: real)
    ensures CountAbove(Insert(x, xs), r) == CountAbove(xs, r) + (if x > r then 1 else 0)
  {
    if xs != [] && x > xs[0] {
      CountAboveInsert(x, xs[1..], r);
    } else {
      assert ([x] + xs)[1..] == xs;
    }
  }

  lemma {:induction false} CountAboveSort(xs: seq<real>, r: real)
    ensures CountAbove(Sort(xs), r) == CountAbove(xs, r)
  {
    if xs != [] {
      CountAboveSort(xs[1..], r);
      CountAboveInsert(xs[0], Sort(xs[1..]), r);
    }
  }

  lemma {:induction false} CountAboveFrom(xs: seq<real>, i: nat, r: real)
    requires i <= |xs|
    ensures CountAbove(xs, r) >= CountAbove(xs[i..], r)
  {
    if i > 0 {
      CountAboveFrom(xs[1..], i - 1, r);
      assert xs[1..][i - 1..] == xs[i..];
    } else {
      assert xs[0..] == xs;
    }
  }

  lemma {:induction false} AllAbove(xs: seq<real>, r: real)
    requires forall i | 0 <= i < |xs| :: xs[i] > r
    ensures CountAbove(xs, r) == |xs|
  {
    if xs != [] {
      AllAbove(xs[1..], r);
    }
  }

  /** Strictly more than three quarters of the scores lie strictly above `r`. */
  predicate RecoversMost(scores: seq<real>, r: real) { 4 * CountAbove(scores, r) > 3 * |scores| }

  lemma RoundingStaysBelow(p25: real)
    ensures Rounding.RoundTo3(p25 - 0.005) < p25
  {
  }

  /** Strictly more than three quarters of the window's scores lie strictly
      above the recommended threshold, whatever rounding did to it. */
  lemma RecommendationRecoversMost(scores: seq<real>)
    requires scores != []
    ensures RecoversMost(scores, RecommendFrom(scores))
  {
    var sorted, i, r := Sort(scores), QuartileIndex(|scores|), RecommendFrom(scores);
    SortAscending(scores);
    RoundingStaysBelow(sorted[i]);
    AllAbove(sorted[i..], r);
    CountAboveFrom(sorted, i, r);
    CountAboveSort(scores, r);
  }

  lemma {:induction false} FewAbove(xs: seq<real>, i: nat, y: real)
    requires i < |xs| && forall j | 0 <= j <= i :: xs[j] <= y
    ensures CountAbove(xs, y) <= |xs| - i - 1
  {
    if i > 0 {
      FewAbove(xs[1..], i - 1, y);
    } else {
      AboveAtMostAll(xs[1..], y);
    }
  }

  lemma {:induction false} AboveAtMostAll(xs: seq<real>, y: real)
    ensures CountAbove(xs, y) <= |xs|
  {
    if xs != [] {
      AboveAtMostAll(xs[1..], y);
    }
  }

  /** Nor is the recommendation lower than it need be: at least a quarter of the
      scores, and at least one, lie no more than 0.0055 above it. */
  lemma RecommendationIsTight(scores: seq<real>)
    requires scores != []
    ensures var low := |scores| - CountAbove(scores, RecommendFrom(scores) + 0.0055);
            low >= 1 && low >= |scores| / 4
  {
    var i := QuartileIndex(|scores|);
    QuartileIndexIs(|scores|);
    RoundingIsClose(Sort(scores)[i]);
    SortedUpTo(scores, i, RecommendFrom(scores) + 0.0055);
  }

  lemma QuartileIndexIs(n: nat)
    requires n > 0
    ensures QuartileIndex(n) < n && QuartileIndex(n) + 1 >= n / 4
  {
  }

  lemma SortedUpTo(scores: seq<real>, i: nat, y: real)
    requires i < |scores| && Sort(scores)[i] <= y
    ensures CountAbove(scores, y) <= |scores| - i - 1
  {
    SortAscending(scores);
    FewAbove(Sort(scores), i, y);
    CountAboveSort(scores, y);
  }

  lemma RoundingIsClose(p25: real)
    ensures p25 <= Rounding.RoundTo3(p25 - 0.005) + 0.0055
  {
  }

  // ----- means -----

  lemma {:induction false} SumConcat(xs: seq<real>, ys: seq<real>)
    ensures Sum(xs + ys) == Sum(xs) + Sum(ys)
    ensures |xs| == 1 ==> Sum(xs) == xs[0]
    decreases |ys|
  {
    if |xs| == 1 {
      assert xs[..0] == [];
      assert Sum([]) == 0.0;
    }
    if ys == [] {
      assert xs + ys == xs;
    } else {
      var k := |ys| - 1;
      assert (xs + ys)[..|xs + ys| - 1] == xs + ys[..k];
      SumConcat(xs, ys[..k]);
    }
  }

  lemma {:induction false} SumBetween(xs: seq<real>, lo: real, hi: real)
    requires forall i | 0 <= i < |xs| :: lo <= xs[i] <= hi
    ensures |xs| as real * lo <= Sum(xs) <= |xs| as real * hi
  {
    if xs != [] {
      var k := |xs| - 1;
      SumBetween(xs[..k], lo, hi);
      OneMoreTime(k, lo);
      OneMoreTime(k, hi);
    }
  }

  lemma OneMoreTime(k: nat, x: real)
    ensures (k + 1) as real * x == k as real * x + x
  {
  }

  predicate Between(x: real, lo: real, hi: real) { lo <= x <= hi }

  /** The mean lies between any bounds of the values, and is reported to within
      half a ten-thousandth. */
  lemma MeanIsBetween(xs: seq<real>, lo: real, hi: real)
    requires xs != [] && forall i | 0 <= i < |xs| :: lo <= xs[i] <= hi
    ensures Between(Mean(xs), lo, hi) && Between(RoundedMean(xs) - Mean(xs), -0.00005, 0.00005)
  {
    SumBetween(xs, lo, hi);
    QuotientBetween(Sum(xs), |xs| as real, lo, hi);
    RoundingMoves(Mean(xs));
  }

  lemma RoundingMoves(x: real)
    ensures Between(Rounding.RoundTo4(x) - x, -0.00005, 0.00005)
  {
  }

  lemma QuotientBetween(x: real, n: real, lo: real, hi: real)
    requires n > 0.0 && n * lo <= x <= n * hi
    ensures Between(x / n, lo, hi)
  {
  }

  /** The report after any records: a threshold is recommended exactly when
      enough events are in the window, and then it recovers strictly more than
      three quarters of the latest ones. */
  lemma {:induction false} ReportRecoversMost(capacity: nat, minSamples: int, recorded: seq<Event>)
    ensures var window, r := LastN(recorded, capacity), ReportOf(RecordAll(capacity, recorded), capacity, minSamples);
            && r.count == |window| && r.histogram.Total() == |window|
            && (r.recommendedThreshold.Some? <==> |window| > 0 && |window| >= minSamples)
            && (r.recommendedThreshold.Some? ==> RecoversMost(Scores(window), r.recommendedThreshold.value))
            && (r.recommendation.Lower? <==> r.recommendedThreshold.Some?)
            && (r.recommendation.Lower? ==> r.recommendedThreshold == Some(r.recommendation.threshold))
            && (window != [] ==> && r.meanScore == Some(RoundedMean(Scores(window)))
                                 && r.meanGap == Some(RoundedMean(Gaps(window))))
  {
    WindowIsLatest(capacity, recorded);
    var window := LastN(recorded, capacity);
    var r := ReportOf(window, capacity, minSamples);
    BinsPartition(window);
    ReportFields(window, capacity, minSamples);
    if r.recommendedThreshold.Some? {
      RecommendationOf(window, r.recommendedThreshold.value);
    }
  }

  lemma ReportFields(window: seq<Event>, capacity: nat, minSamples: int)
    ensures var r := ReportOf(window, capacity, minSamples);
            && r.count == |window| && r.histogram == HistogramOf(window)
            && (r.recommendedThreshold.Some? <==> |window| > 0 && |window| >= minSamples)
            && (r.recommendedThreshold.Some? ==> IsRecommended(window, r.recommendedThreshold.value))
            && (r.recommendation.Lower? <==> r.recommendedThreshold.Some?)
            && (r.recommendation.Lower? ==> r.recommendedThreshold == Some(r.recommendation.threshold))
  {
  }

  ghost predicate IsRecommended(window: seq<Event>, r: real) { window != [] && r == RecommendFrom(Scores(window)) }

  lemma RecommendationOf(window: seq<Event>, r: real)
    requires IsRecommended(window, r)
    ensures RecoversMost(Scores(window), r)
  {
    RecommendationRecoversMost(Scores(window));
  }
}
