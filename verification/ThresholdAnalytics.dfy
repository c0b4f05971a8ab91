/** Sweeping candidate thresholds over labelled pairs and recommending one. */
module ThresholdAnalytics {
  import opened Similarity
  import Rounding
  import opened RealSort

  datatype TestCase = TestCase(query: string, candidate: string, expectedMatch: bool)

  datatype Confusion = Confusion(tp: nat, fp: nat, tn: nat, fn: nat)

  datatype Metrics = Metrics(
    threshold: real,
    hitRate: real,
    precision: real,
    recall: real,
    falsePositiveRate: real,
    falseNegativeRate: real,
    counts: Confusion)

  function SafeDiv(numerator: nat, denominator: nat): (r: real)
    ensures numerator <= denominator ==> 0.0 <= r <= 1.0
  {
    if denominator != 0 then Ratio(numerator, denominator) else 0.0
  }

  predicate IsRatio(r: real, n: real, d: real) { d > 0.0 && r * d == n }

  function Ratio(n: nat, d: nat): (r: real)
    requires d > 0
    ensures IsRatio(r, n as real, d as real)
    ensures n <= d ==> 0.0 <= r <= 1.0
  {
    RatioBounds(n as real, d as real);
    n as real / d as real
  }

  lemma RatioBounds(n: real, d: real)
    requires d > 0.0 && n >= 0.0
    ensures IsRatio(n / d, n, d)
    ensures n <= d ==> 0.0 <= n / d <= 1.0
  {
  }

  // ----- counting -----

  /** How many of the cases are labelled `expected` and predicted `predicted`
      at `threshold`. */
  function Cell(cases: seq<TestCase>, sims: seq<real>, threshold: real, expected: bool, predicted: bool): nat
    requires |cases| == |sims|
  {
    if cases == [] then 0
    else
      var k := |cases| - 1;
      Cell(cases[..k], sims[..k], threshold, expected, predicted)
      + if cases[k].expectedMatch == expected && (sims[k] >= threshold) == predicted then 1 else 0
  }

  function Tally(cases: seq<TestCase>, sims: seq<real>, threshold: real): Confusion
    requires |cases| == |sims|
  {
    Confusion(Cell(cases, sims, threshold, true, true), Cell(cases, sims, threshold, false, true),
              Cell(cases, sims, threshold, false, false), Cell(cases, sims, threshold, true, false))
  }

  function MetricsOf(threshold: real, c: Confusion): Metrics {
    var all := c.tp + c.fp + c.tn + c.fn;
    Metrics(threshold,
            SafeDiv(c.tp + c.fp, if all > 1 then all else 1),
            SafeDiv(c.tp, c.tp + c.fp),
            SafeDiv(c.tp, c.tp + c.fn),
            SafeDiv(c.fp, c.fp + c.tn),
            SafeDiv(c.fn, c.fn + c.tp),
            c)
  }

  method ComputeMetrics(threshold: real, cases: seq<TestCase>, sims: seq<real>) returns (m: Metrics)
    requires |cases| == |sims|
    ensures m == MetricsOf(threshold, Tally(cases, sims, threshold))
  {
    var tp, fp, tn, fn := 0, 0, 0, 0;
    for i := 0 to |cases|
      invariant Confusion(tp, fp, tn, fn) == Tally(cases[..i], sims[..i], threshold)
    {
      assert cases[..i + 1][..i] == cases[..i] && sims[..i + 1][..i] == sims[..i];
      var predicted := sims[i] >= threshold;
      if cases[i].expectedMatch && predicted {
        tp := tp + 1;
      } else if cases[i].expectedMatch && !predicted {
        fn := fn + 1;
      } else if !cases[i].expectedMatch && predicted {
        fp := fp + 1;
      } else {
        tn := tn + 1;
      }
    }
    assert cases[..|cases|] == cases && sims[..|sims|] == sims;
    m := MetricsOf(threshold, Confusion(tp, fp, tn, fn));
  }

  function SimilaritiesOf(sqrt: real -> real, embed: string -> Vector, cases: seq<TestCase>): (sims: seq<real>)
    requires forall s, t :: |embed(s)| == |embed(t)|
    ensures |sims| == |cases|
    ensures forall i | 0 <= i < |cases| :: sims[i] == CosineSimilarity(sqrt, embed(cases[i].query), embed(cases[i].candidate))
  {
    if cases == [] then []
    else
      var k := |cases| - 1;
      SimilaritiesOf(sqrt, embed, cases[..k]) + [CosineSimilarity(sqrt, embed(cases[k].query), embed(cases[k].candidate))]
  }

  method Similarities(sqrt: real -> real, embed: string -> Vector, cases: seq<TestCase>) returns (sims: seq<real>)
    requires forall s, t :: |embed(s)| == |embed(t)|
    ensures sims == SimilaritiesOf(sqrt, embed, cases)
  {
    sims := [];
    for i := 0 to |cases|
      invariant sims == SimilaritiesOf(sqrt, embed, cases[..i])
    {
      assert cases[..i + 1][..i] == cases[..i];
      sims := sims + [CosineSimilarity(sqrt, embed(cases[i].query), embed(cases[i].candidate))];
    }
    assert cases[..|cases|] == cases;
  }

  function Sweep(thresholds: seq<real>, cases: seq<TestCase>, sims: seq<real>): (ms: seq<Metrics>)
    requires |cases| == |sims|
    ensures |ms| == |thresholds|
    ensures forall i | 0 <= i < |ms| :: ms[i] == MetricsOf(Sort(thresholds)[i], Tally(cases, sims, Sort(thresholds)[i]))
  {
    var sorted := Sort(thresholds);
    seq(|sorted|, i requires 0 <= i < |sorted| => MetricsOf(sorted[i], Tally(cases, sims, sorted[i])))
  }

  datatype Report = Report(sampleSize: nat, metrics: seq<Metrics>, recommendedThreshold: real)

  method Evaluate(sqrt: real -> real, embed: string -> Vector, thresholds: seq<real>, cases: seq<TestCase>) returns (report: Report)
    requires forall s, t :: |embed(s)| == |embed(t)|
    ensures report.sampleSize == |cases|
    ensures report.metrics == Sweep(thresholds, cases, SimilaritiesOf(sqrt, embed, cases))
    ensures report.recommendedThreshold == Recommend(report.metrics)
    ensures thresholds == [] ==> report.recommendedThreshold == 0.95
    ensures thresholds != [] ==> report.recommendedThreshold in thresholds
  {
    var sims := Similarities(sqrt, embed, cases);
    var sorted := Sort(thresholds);
    var metrics := [];
    for i := 0 to |sorted|
      invariant |metrics| == i
      invariant forall j | 0 <= j < i :: metrics[j] == MetricsOf(sorted[j], Tally(cases, sims, sorted[j]))
    {
      var m := ComputeMetrics(sorted[i], cases, sims);
      metrics := metrics + [m];
    }
    assert metrics == Sweep(thresholds, cases, sims);
    if metrics != [] {
      assert metrics[Best(metrics)].threshold == sorted[Best(metrics)] && sorted[Best(metrics)] in sorted;
    }
    report := Report(|cases|, metrics, Recommend(metrics));
  }

  /** A case of a label whose similarity reaches the threshold, or does not. */
  predicate Has(c: TestCase, sim: real, threshold: real, expected: bool, predicted: bool) {
    c.expectedMatch == expected && (sim >= threshold <==> predicted)
  }

  ghost function Having(cases: seq<TestCase>, sims: seq<real>, threshold: real, expected: bool, predicted: bool): set<int>
    requires |cases| == |sims|
  {
    set i | 0 <= i < |cases| && Has(cases[i], sims[i], threshold, expected, predicted)
  }

  lemma {:induction false} CellIsCardinality(cases: seq<TestCase>, sims: seq<real>, threshold: real, expected: bool, predicted: bool)
    requires |cases| == |sims|
    ensures Cell(cases, sims, threshold, expected, predicted) == |Having(cases, sims, threshold, expected, predicted)|
  {
    if cases != [] {
      var k := |cases| - 1;
      CellIsCardinality(cases[..k], sims[..k], threshold, expected, predicted);
      OneMoreCase(cases, sims, threshold, expected, predicted);
    }
  }

  lemma OneMoreCase(cases: seq<TestCase>, sims: seq<real>, threshold: real, expected: bool, predicted: bool)
    requires |cases| == |sims| && cases != []
    ensures var k := |cases| - 1;
            |Having(cases, sims, threshold, expected, predicted)|
            == |Having(cases[..k], sims[..k], threshold, expected, predicted)|
               + if Has(cases[k], sims[k], threshold, expected, predicted) then 1 else 0
  {
    var k := |cases| - 1;
    var before, all := Having(cases[..k], sims[..k], threshold, expected, predicted), Having(cases, sims, threshold, expected, predicted);
    forall i | 0 <= i < k
      ensures i in all <==> i in before
    {
      assert cases[..k][i] == cases[i] && sims[..k][i] == sims[i];
    }
    if Has(cases[k], sims[k], threshold, expected, predicted) {
      assert all == before + {k};
    } else {
      assert all == before;
    }
  }

  /** Which count is which: labelled and reached, not labelled and reached,
      neither, labelled and missed. */
  lemma TallyIs(cases: seq<TestCase>, sims: seq<real>, threshold: real)
    requires |cases| == |sims|
    ensures var c := Tally(cases, sims, threshold);
            && c.tp == |Having(cases, sims, threshold, true, true)| && c.fp == |Having(cases, sims, threshold, false, true)|
            && c.tn == |Having(cases, sims, threshold, false, false)| && c.fn == |Having(cases, sims, threshold, true, false)|
  {
    forall expected, predicted {
      CellIsCardinality(cases, sims, threshold, expected, predicted);
    }
  }

  // ----- the sweep -----

  /** How many cases carry a label. */
  function Labelled(cases: seq<TestCase>, expected: bool): nat {
    if cases == [] then 0
    else Labelled(cases[..|cases| - 1], expected) + if cases[|cases| - 1].expectedMatch == expected then 1 else 0
  }

  lemma {:induction false} CellsPartition(cases: seq<TestCase>, sims: seq<real>, t: real, expected: bool)
    requires |cases| == |sims|
    ensures Cell(cases, sims, t, expected, true) + Cell(cases, sims, t, expected, false) == Labelled(cases, expected)
    ensures Labelled(cases, true) + Labelled(cases, false) == |cases|
  {
    if cases != [] {
      var k := |cases| - 1;
      CellsPartition(cases[..k], sims[..k], t, expected);
    }
  }

  lemma {:induction false} FewerPredicted(cases: seq<TestCase>, sims: seq<real>, t: real, u: real, expected: bool)
    requires |cases| == |sims| && t <= u
    ensures Cell(cases, sims, u, expected, true) <= Cell(cases, sims, t, expected, true)
  {
    if cases != [] {
      var k := |cases| - 1;
      FewerPredicted(cases[..k], sims[..k], t, u, expected);
    }
  }

  lemma SafeDivMonotone(a: nat, b: nat, d: nat)
    requires a <= b
    ensures SafeDiv(a, d) <= SafeDiv(b, d)
  {
    if d != 0 {
      DivideMonotone(a as real, b as real, d as real);
    }
  }

  lemma DivideMonotone(a: real, b: real, d: real)
    requires d > 0.0 && a <= b
    ensures a / d <= b / d
  {
  }

  /** Along the sorted thresholds the labelled totals stay, the four counts sum
      to the number of cases, hit rate, recall and false-positive rate never
      rise, and the false-negative rate never falls. */
  lemma {:induction false} SweepIsMonotone(thresholds: seq<real>, cases: seq<TestCase>, sims: seq<real>, i: nat, j: nat)
    requires |cases| == |sims| && i <= j < |thresholds|
    ensures var ms := Sweep(thresholds, cases, sims);
            var m, n, c, d := ms[i], ms[j], ms[i].counts, ms[j].counts;
            && m.threshold <= n.threshold
            && c.tp + c.fn == d.tp + d.fn == Labelled(cases, true)
            && c.fp + c.tn == d.fp + d.tn == Labelled(cases, false)
            && c.tp + c.fp + c.tn + c.fn == |cases|
            && d.tp <= c.tp && d.fp <= c.fp
            && n.hitRate <= m.hitRate && n.recall <= m.recall && n.falsePositiveRate <= m.falsePositiveRate
            && m.falseNegativeRate <= n.falseNegativeRate
  {
    SortAscending(thresholds);
    var t, u := Sort(thresholds)[i], Sort(thresholds)[j];
    CountsMove(cases, sims, t, u);
    RatesMove(t, Tally(cases, sims, t), u, Tally(cases, sims, u));
  }

  /** Raising the threshold moves cases from predicted to not predicted. */
  ghost predicate Moved(c: Confusion, d: Confusion) {
    && c.tp + c.fn == d.tp + d.fn && c.fp + c.tn == d.fp + d.tn
    && d.tp <= c.tp && d.fp <= c.fp
  }

  lemma CountsMove(cases: seq<TestCase>, sims: seq<real>, t: real, u: real)
    requires |cases| == |sims| && t <= u
    ensures var c := Tally(cases, sims, t);
            && Moved(c, Tally(cases, sims, u))
            && c.tp + c.fn == Labelled(cases, true) && c.fp + c.tn == Labelled(cases, false)
            && c.tp + c.fp + c.tn + c.fn == |cases|
  {
    CellsPartition(cases, sims, t, true);
    CellsPartition(cases, sims, t, false);
    CellsPartition(cases, sims, u, true);
    CellsPartition(cases, sims, u, false);
    FewerPredicted(cases, sims, t, u, true);
    FewerPredicted(cases, sims, t, u, false);
  }

  lemma {:induction false} RatesMove(t: real, c: Confusion, u: real, d: Confusion)
    requires Moved(c, d)
    ensures var m, n := MetricsOf(t, c), MetricsOf(u, d);
            && n.hitRate <= m.hitRate && n.recall <= m.recall && n.falsePositiveRate <= m.falsePositiveRate
            && m.falseNegativeRate <= n.falseNegativeRate
  {
    var all := c.tp + c.fp + c.tn + c.fn;
    assert all == d.tp + d.fp + d.tn + d.fn;
    SafeDivMonotone(d.tp + d.fp, c.tp + c.fp, if all > 1 then all else 1);
    SafeDivMonotone(d.tp, c.tp, c.tp + c.fn);
    SafeDivMonotone(d.fp, c.fp, c.fp + c.tn);
    SafeDivMonotone(c.fn, d.fn, c.fn + c.tp);
  }

  predicate UnitInterval(x: real) { 0.0 <= x <= 1.0 }

  /** Every rate lies in [0, 1]. */
  lemma RatesAreRates(threshold: real, c: Confusion)
    ensures var m := MetricsOf(threshold, c);
            && UnitInterval(m.hitRate) && UnitInterval(m.precision) && UnitInterval(m.recall)
            && UnitInterval(m.falsePositiveRate) && UnitInterval(m.falseNegativeRate)
  {
  }

  /** And what the rates are: the fraction predicted of all cases, of the
      predicted those labelled, of the labelled those predicted, of the unlabelled
      those predicted, of the labelled those missed; 0 of nothing. */
  lemma RatesExact(threshold: real, c: Confusion)
    ensures var m := MetricsOf(threshold, c);
            var all := c.tp + c.fp + c.tn + c.fn;
            && m.threshold == threshold && m.counts == c
            && (if all == 0 then m.hitRate == 0.0 else IsRatio(m.hitRate, (c.tp + c.fp) as real, all as real))
            && (if c.tp + c.fp == 0 then m.precision == 0.0 else IsRatio(m.precision, c.tp as real, (c.tp + c.fp) as real))
            && (if c.tp + c.fn == 0 then m.recall == 0.0 else IsRatio(m.recall, c.tp as real, (c.tp + c.fn) as real))
            && (if c.fp + c.tn == 0 then m.falsePositiveRate == 0.0
                else IsRatio(m.falsePositiveRate, c.fp as real, (c.fp + c.tn) as real))
            && (if c.tp + c.fn == 0 then m.falseNegativeRate == 0.0
                else IsRatio(m.falseNegativeRate, c.fn as real, (c.tp + c.fn) as real))
  {
  }

  // ----- the recommendation -----

  function Harmonic(p: real, r: real): real { if p + r == 0.0 then 0.0 else 2.0 * p * r / (p + r) }

  function F1(m: Metrics): real { Harmonic(m.precision, m.recall) }

  datatype Key = Key(f1: real, precision: real, threshold: real)

  function KeyOf(m: Metrics): Key { Key(Rounding.RoundTo4(F1(m)), m.precision, m.threshold) }

  /** Tuple comparison. */
  predicate Less(a: Key, b: Key) {
    || a.f1 < b.f1
    || (a.f1 == b.f1 && (a.precision < b.precision || (a.precision == b.precision && a.threshold < b.threshold)))
  }

  /** `max(metrics, key=...)`: the first of the largest. */
  function Best(metrics: seq<Metrics>): (k: nat)
    requires metrics != []
    ensures k < |metrics|
  {
    var n := |metrics| - 1;
    if n == 0 then 0
    else
      var k := Best(metrics[..n]);
      if Less(KeyOf(metrics[k]), KeyOf(metrics[n])) then n else k
  }

  function Recommend(metrics: seq<Metrics>): real {
    if metrics == [] then 0.95 else metrics[Best(metrics)].threshold
  }

  lemma {:induction false} BestIsMaximal(metrics: seq<Metrics>, i: nat)
    requires i < |metrics|
    ensures !Less(KeyOf(metrics[Best(metrics)]), KeyOf(metrics[i]))
  {
    var n := |metrics| - 1;
    if n > 0 {
      if i < n {
        BestIsMaximal(metrics[..n], i);
      }
    }
  }

  /** The recommended threshold is one of those swept; its F1 is within 0.0001
      of every other's; and among those of equal rounded F1 no other has higher
      precision, or the same precision and a higher threshold. */
  lemma {:induction false} RecommendationIsNearlyOptimal(thresholds: seq<real>, cases: seq<TestCase>, sims: seq<real>, i: nat)
    requires |cases| == |sims| && i < |thresholds|
    ensures var ms := Sweep(thresholds, cases, sims);
            var m, n := ms[Best(ms)], ms[i];
            && Recommend(ms) == m.threshold && m.threshold in thresholds
            && F1(m) >= F1(n) - 0.0001
            && (Rounding.RoundTo4(F1(m)) == Rounding.RoundTo4(F1(n)) ==>
                  m.precision >= n.precision && (m.precision == n.precision ==> m.threshold >= n.threshold))
  {
    var ms := Sweep(thresholds, cases, sims);
    BestIsMaximal(ms, i);
    var m, n := ms[Best(ms)], ms[i];
    assert m.threshold in Sort(thresholds);
    assert KeyOf(m).f1 >= KeyOf(n).f1;
    RoundingMargin(F1(m), F1(n));
  }

  predicate RoundAlike(m: Metrics, n: Metrics) { KeyOf(m).f1 == KeyOf(n).f1 }

  /** Chosen over `m` when the rounded F1 ties. */
  predicate Preferred(n: Metrics, m: Metrics) {
    n.precision > m.precision || (n.precision == m.precision && n.threshold > m.threshold)
  }

  ghost predicate HasTopF1(ms: seq<Metrics>, i: nat) {
    i < |ms| && forall j | 0 <= j < |ms| :: F1(ms[j]) <= F1(ms[i])
  }

  /** A row of smaller F1 that rounding hides behind `ms[i]` and the tie-break
      prefers. */
  ghost predicate Overtakes(ms: seq<Metrics>, i: nat, j: nat)
    requires i < |ms|
  {
    j < |ms| && RoundAlike(ms[j], ms[i]) && F1(ms[j]) < F1(ms[i]) && Preferred(ms[j], ms[i])
  }

  /** The recommendation has the exact maximum of F1 if and only if some row that
      has it is overtaken by none of smaller F1 but equal rounding. */
  lemma {:induction false} RecommendationIsMaximalIff(thresholds: seq<real>, cases: seq<TestCase>, sims: seq<real>)
    requires |cases| == |sims| && thresholds != []
    ensures var ms := Sweep(thresholds, cases, sims);
            HasTopF1(ms, Best(ms)) <==> exists i: nat :: HasTopF1(ms, i) && forall j: nat :: !Overtakes(ms, i, j)
  {
    var ms := Sweep(thresholds, cases, sims);
    var b := Best(ms);
    forall i: nat | i < |ms|
      ensures !Less(KeyOf(ms[b]), KeyOf(ms[i]))
    {
      BestIsMaximal(ms, i);
    }
    if HasTopF1(ms, b) {
      assert forall j: nat :: !Overtakes(ms, b, j);
    }
    forall i: nat | HasTopF1(ms, i) && forall j: nat :: !Overtakes(ms, i, j)
      ensures HasTopF1(ms, b)
    {
      NotOvertaken(thresholds, cases, sims, i);
    }
  }

  lemma {:induction false} NotOvertaken(thresholds: seq<real>, cases: seq<TestCase>, sims: seq<real>, i: nat)
    requires |cases| == |sims| && thresholds != []
    requires var ms := Sweep(thresholds, cases, sims); HasTopF1(ms, i) && !Overtakes(ms, i, Best(ms))
    ensures var ms := Sweep(thresholds, cases, sims); F1(ms[Best(ms)]) == F1(ms[i])
  {
    var ms := Sweep(thresholds, cases, sims);
    var m, n := ms[Best(ms)], ms[i];
    BestIsMaximal(ms, i);
    RoundTo4Reflects(F1(m), F1(n));
    assert KeyOf(m).f1 <= KeyOf(n).f1;
    assert m.threshold == n.threshold ==> m == n;
  }

  lemma RoundTo4Reflects(x: real, y: real)
    ensures x <= y ==> Rounding.RoundTo4(x) <= Rounding.RoundTo4(y)
  {
    if x <= y {
      Rounding.RoundMonotone(x * 10000.0, y * 10000.0);
    }
  }

  // ----- an input on which rounding costs the maximum -----

  /** `n` paraphrases found at similarity 1, then one paraphrase and one
      different question at 0.92. */
  function WitnessCases(n: nat): (cases: seq<TestCase>)
    ensures |cases| == n + 2
  {
    seq(n, _ => TestCase("what is tcp", "what is tcp", true))
    + [TestCase("what is tcp", "explain tcp", true), TestCase("what is tcp", "what is udp", false)]
  }

  function WitnessSims(n: nat): (sims: seq<real>)
    ensures |sims| == n + 2
  {
    seq(n, _ => 1.0) + [0.92, 0.92]
  }

  lemma {:induction false} AlikeCells(case_: TestCase, sim: real, n: nat, t: real, expected: bool, predicted: bool)
    ensures Cell(seq(n, _ => case_), seq(n, _ => sim), t, expected, predicted)
            == if case_.expectedMatch == expected && (sim >= t) == predicted then n else 0
  {
    if n > 0 {
      AlikeCells(case_, sim, n - 1, t, expected, predicted);
      assert seq(n, _ => case_)[..n - 1] == seq(n - 1, _ => case_);
      assert seq(n, _ => sim)[..n - 1] == seq(n - 1, _ => sim);
    }
  }

  lemma WitnessCell(n: nat, t: real, expected: bool, predicted: bool)
    requires t <= 1.0
    ensures Cell(WitnessCases(n), WitnessSims(n), t, expected, predicted) ==
            (if expected && predicted then n else 0) + (if (0.92 >= t) == predicted then 1 else 0)
  {
    var cases, sims := WitnessCases(n), WitnessSims(n);
    AlikeCells(TestCase("what is tcp", "what is tcp", true), 1.0, n, t, expected, predicted);
    assert cases[..n + 1][..n] == seq(n, _ => TestCase("what is tcp", "what is tcp", true));
    assert sims[..n + 1][..n] == seq(n, _ => 1.0);
  }

  lemma WitnessTally(n: nat)
    ensures Tally(WitnessCases(n), WitnessSims(n), 0.90) == Confusion(n + 1, 1, 0, 0)
    ensures Tally(WitnessCases(n), WitnessSims(n), 0.95) == Confusion(n, 0, 1, 1)
  {
    forall expected, predicted
      ensures Cell(WitnessCases(n), WitnessSims(n), 0.90, expected, predicted) ==
              (if expected && predicted then n else 0) + (if predicted then 1 else 0)
      ensures Cell(WitnessCases(n), WitnessSims(n), 0.95, expected, predicted) ==
              (if expected && predicted then n else 0) + (if predicted then 0 else 1)
    {
      WitnessCell(n, 0.90, expected, predicted);
      WitnessCell(n, 0.95, expected, predicted);
    }
  }

  lemma WitnessRows(m: Metrics, n: Metrics)
    requires m == MetricsOf(0.90, Confusion(100, 1, 0, 0)) && n == MetricsOf(0.95, Confusion(99, 0, 1, 1))
    ensures F1(m) > F1(n) && Best([m, n]) == 1
  {
    F1Exact(0.90, Confusion(100, 1, 0, 0));
    F1Exact(0.95, Confusion(99, 0, 1, 1));
    assert F1(m) == 200.0 / 201.0 && F1(n) == 198.0 / 199.0;
    assert Rounding.RoundTo4(F1(m)) == 0.995 && Rounding.RoundTo4(F1(n)) == 0.995;
    assert m.precision == 100.0 / 101.0 && n.precision == 1.0;
    assert [m, n][..1] == [m];
    assert Best([m]) == 0;
  }

  /** Rounding can cost the maximum: on these 101 labelled pairs 0.95 is
      recommended although 0.90 has the higher F1. */
  lemma RoundingCanMissTheMaximum()
    ensures var ms := Sweep([0.90, 0.95], WitnessCases(99), WitnessSims(99));
            Recommend(ms) == 0.95 && !HasTopF1(ms, Best(ms)) && HasTopF1(ms, 0)
  {
    var ms := Sweep([0.90, 0.95], WitnessCases(99), WitnessSims(99));
    SortPair(0.90, 0.95);
    WitnessTally(99);
    assert ms == [ms[0], ms[1]];
    WitnessRows(ms[0], ms[1]);
  }

  lemma SortPair(x: real, y: real)
    requires x <= y
    ensures Sort([x, y]) == [x, y]
  {
    assert [x, y][1..] == [y];
    assert [y][1..] == [];
    assert Sort([y]) == Insert(y, Sort([])) == [y];
  }

  lemma RoundingMargin(x: real, y: real)
    requires Rounding.RoundTo4(x) >= Rounding.RoundTo4(y)
    ensures x >= y - 0.0001
  {
  }

  /** The computed F1 is the usual one. */
  lemma F1Exact(threshold: real, c: Confusion)
    ensures F1(MetricsOf(threshold, c)) ==
            if c.tp > 0 then (2 * c.tp) as real / (2 * c.tp + c.fp + c.fn) as real else 0.0
  {
    var p, r := SafeDiv(c.tp, c.tp + c.fp), SafeDiv(c.tp, c.tp + c.fn);
    if c.tp > 0 {
      HarmonicMean(c.tp as real, (c.tp + c.fp) as real, (c.tp + c.fn) as real, p, r);
    } else {
      assert p == 0.0;
    }
  }

  lemma HarmonicMean(a: real, b: real, c: real, p: real, r: real)
    requires a > 0.0 && b >= a && c >= a && IsRatio(p, a, b) && IsRatio(r, a, c)
    ensures Harmonic(p, r) == 2.0 * a / (b + c)
  {
  }
}
