/** Adaptive per-category thresholds: a walk clamped between two bounds. */
module ThresholdEngine {
  import opened Wrappers

  datatype Category = Classification | Programming | Creative | General

  function Clamp(lo: real, hi: real, x: real): real {
    var y := if lo >= x then lo else x;
    if hi <= y then hi else y
  }

  // ----- the objects -----

  datatype Policy = Policy(base: real, minimum: real, maximum: real, step: real, current: real)
  {
    function Adjust(delta: real): Policy { this.(current := Clamp(minimum, maximum, current + delta)) }

    function Feedback(falseHit: bool): Policy { Adjust(if falseHit then step else -step) }
  }

  class CategoryPolicy {
    const base: real
    const minimum: real
    const maximum: real
    const step: real
    var current: real

    function View(): Policy
      reads this
    {
      Policy(base, minimum, maximum, step, current)
    }

    constructor (base: real, minimum: real, maximum: real, step: real := 0.005)
      ensures View() == Policy(base, minimum, maximum, step, base)
    {
      this.base, this.minimum, this.maximum, this.step := base, minimum, maximum, step;
      current := base;
    }

    method Adjust(delta: real) returns (r: real)
      modifies this
      ensures View() == old(View()).Adjust(delta) && r == current
    {
      var raised := current + delta;
      if minimum >= raised {
        raised := minimum;
      }
      if maximum <= raised {
        raised := maximum;
      }
      current := raised;
      return current;
    }
  }

  type Policies = map<Category, Policy>

  class AdaptiveThresholdEngine {
    const policies: map<Category, CategoryPolicy>

    ghost predicate Valid() {
      forall c, d | c in policies && d in policies && c != d :: policies[c] != policies[d]
    }

    function View(): Policies
      reads policies.Values
    {
      map c | c in policies :: policies[c].View()
    }

    /** The built-in policies. */
    constructor ()
      ensures Valid()
      ensures View() == map[
        Classification := Policy(0.91, 0.88, 0.95, 0.005, 0.91),
        Programming := Policy(0.95, 0.93, 0.98, 0.005, 0.95),
        Creative := Policy(0.985, 0.97, 0.995, 0.005, 0.985),
        General := Policy(0.95, 0.92, 0.98, 0.005, 0.95)]
    {
      var classification := new CategoryPolicy(0.91, 0.88, 0.95);
      var programming := new CategoryPolicy(0.95, 0.93, 0.98);
      var creative := new CategoryPolicy(0.985, 0.97, 0.995);
      var general := new CategoryPolicy(0.95, 0.92, 0.98);
      policies := map[Classification := classification, Programming := programming, Creative := creative, General := general];
    }

    /** `None` is the KeyError for a category without a policy. */
    method RecordFeedback(category: Category, falseHit: bool) returns (r: Option<real>)
      requires Valid()
      modifies policies.Values
      ensures category !in policies ==> r.None? && View() == old(View())
      ensures category in policies ==>
                && View() == old(View())[category := old(View())[category].Feedback(falseHit)]
                && r == Some(View()[category].current)
    {
      if category !in policies {
        return None;
      }
      var policy := policies[category];
      var updated := policy.Adjust(if falseHit then policy.step else -policy.step);
      return Some(updated);
    }
  }

  /** One report: a false hit raises the threshold by the step, a true one lowers
      it, and a bound stops either. */
  lemma FeedbackMoves(p: Policy, falseHit: bool)
    requires p.minimum <= p.current <= p.maximum && p.step >= 0.0
    ensures var c := p.Feedback(falseHit).current;
            && (falseHit ==> c == if p.current + p.step <= p.maximum then p.current + p.step else p.maximum)
            && (!falseHit ==> c == if p.current - p.step >= p.minimum then p.current - p.step else p.minimum)
    ensures p.Feedback(falseHit).(current := p.current) == p
  {
  }

  // ----- the clamped walk -----

  function Walk(lo: real, hi: real, x: real, deltas: seq<real>): real {
    if deltas == [] then x
    else Clamp(lo, hi, Walk(lo, hi, x, deltas[..|deltas| - 1]) + deltas[|deltas| - 1])
  }

  /** One clamp with its own bounds and shift. */
  datatype Shift = Shift(lo: real, hi: real, d: real)
  {
    function Apply(x: real): real { Clamp(lo, hi, x + d) }
  }

  /** The single map a sequence of adjustments amounts to, computed without
      knowing where the walk starts. The first adjustment clamps whatever it is
      given; no adjustment at all is the identity within the bounds. */
  function Collapse(lo: real, hi: real, deltas: seq<real>): Shift {
    if deltas == [] then Shift(lo, hi, 0.0)
    else if |deltas| == 1 then Shift(lo, hi, deltas[0])
    else
      var s := Collapse(lo, hi, deltas[..|deltas| - 1]);
      var delta := deltas[|deltas| - 1];
      Shift(Clamp(lo, hi, s.lo + delta), Clamp(lo, hi, s.hi + delta), s.d + delta)
  }

  /** Any feedback acts on every starting value as that one clamp. */
  lemma {:induction false} WalkCollapses(lo: real, hi: real, x: real, deltas: seq<real>)
    requires deltas != [] || lo <= x <= hi
    ensures Walk(lo, hi, x, deltas) == Collapse(lo, hi, deltas).Apply(x)
    ensures lo <= hi ==> var s := Collapse(lo, hi, deltas); lo <= s.lo <= s.hi <= hi
  {
    if |deltas| == 1 {
      assert deltas[..0] == [];
    } else if deltas != [] {
      WalkCollapses(lo, hi, x, deltas[..|deltas| - 1]);
    }
  }

  /** Two starting values never move apart nor change order, and from the first
      report on, or from a base within bounds, the threshold stays in them. */
  lemma {:induction false} WalkIsTame(lo: real, hi: real, x: real, y: real, deltas: seq<real>)
    requires x <= y
    ensures Walk(lo, hi, x, deltas) <= Walk(lo, hi, y, deltas)
    ensures Walk(lo, hi, y, deltas) - Walk(lo, hi, x, deltas) <= y - x
    ensures lo <= hi && (deltas != [] || (lo <= x && y <= hi)) ==>
              lo <= Walk(lo, hi, x, deltas) && Walk(lo, hi, y, deltas) <= hi
  {
    if deltas != [] {
      WalkCollapses(lo, hi, x, deltas);
      WalkCollapses(lo, hi, y, deltas);
    }
  }

  /** Exactly when the bounds hold: from the first report on, whatever the base,
      and before it only if the base lies within them. */
  lemma {:induction false} BoundedIff(lo: real, hi: real, base: real, deltas: seq<real>)
    requires lo <= hi
    ensures lo <= Walk(lo, hi, base, deltas) <= hi <==> deltas != [] || lo <= base <= hi
  {
  }

  lemma {:induction false} WalkConcat(lo: real, hi: real, x: real, xs: seq<real>, ys: seq<real>)
    ensures Walk(lo, hi, x, xs + ys) == Walk(lo, hi, Walk(lo, hi, x, xs), ys)
  {
    if ys == [] {
      assert xs + ys == xs;
    } else {
      var k := |ys| - 1;
      assert (xs + ys)[..|xs + ys| - 1] == xs + ys[..k];
      WalkConcat(lo, hi, x, xs, ys[..k]);
    }
  }

  function Repeat(d: real, n: nat): (r: seq<real>)
    ensures |r| == n
  {
    seq(n, i => d)
  }

  function Total(n: nat, d: real): real { if n == 0 then 0.0 else Total(n - 1, d) + d }

  lemma {:induction false} TotalIsProduct(n: nat, d: real)
    ensures Total(n, d) == n as real * d
    ensures d >= 0.0 ==> Total(n, d) >= 0.0
  {
    if n > 0 {
      TotalIsProduct(n - 1, d);
      OneMore(n - 1, d);
    }
  }

  lemma OneMore(n: nat, d: real)
    ensures (n + 1) as real * d == n as real * d + d
  {
  }

  lemma {:induction false} RepeatedUp(lo: real, hi: real, x: real, d: real, n: nat)
    requires lo <= x <= hi && d >= 0.0
    ensures Total(n, d) >= 0.0 && Walk(lo, hi, x, Repeat(d, n)) == Clamp(lo, hi, x + Total(n, d))
  {
    if n > 0 {
      RepeatedUp(lo, hi, x, d, n - 1);
      assert Repeat(d, n)[..n - 1] == Repeat(d, n - 1);
    }
  }

  lemma {:induction false} RepeatedDown(lo: real, hi: real, x: real, d: real, n: nat)
    requires lo <= x <= hi && d >= 0.0
    ensures Total(n, d) >= 0.0 && Walk(lo, hi, x, Repeat(-d, n)) == Clamp(lo, hi, x - Total(n, d))
  {
    if n > 0 {
      RepeatedDown(lo, hi, x, d, n - 1);
      assert Repeat(-d, n)[..n - 1] == Repeat(-d, n - 1);
    }
  }

  /** After any history, enough reports in one direction reach the bound; a base
      outside the bounds needs one report of history to come within them. */
  lemma {:induction false} EnoughReportsReachTheBound(lo: real, hi: real, base: real, history: seq<real>, step: real, n: nat)
    requires lo <= hi && (history != [] || lo <= base <= hi)
    requires step >= 0.0 && n as real * step >= hi - lo
    ensures Walk(lo, hi, base, history + Repeat(step, n)) == hi
    ensures Walk(lo, hi, base, history + Repeat(-step, n)) == lo
  {
    var x := Walk(lo, hi, base, history);
    BoundedIff(lo, hi, base, history);
    WalkConcat(lo, hi, base, history, Repeat(step, n));
    WalkConcat(lo, hi, base, history, Repeat(-step, n));
    TotalIsProduct(n, step);
    RepeatedUp(lo, hi, x, step, n);
    RepeatedDown(lo, hi, x, step, n);
  }

  // ----- feedback on a table of policies -----

  datatype Report = Report(category: Category, falseHit: bool)

  function AfterReports(p: Policies, reports: seq<Report>): Policies {
    if reports == [] then p
    else
      var q := AfterReports(p, reports[..|reports| - 1]);
      var r := reports[|reports| - 1];
      if r.category in q then q[r.category := q[r.category].Feedback(r.falseHit)] else q
  }

  function DeltasOf(c: Category, step: real, reports: seq<Report>): seq<real> {
    if reports == [] then []
    else
      var r := reports[|reports| - 1];
      DeltasOf(c, step, reports[..|reports| - 1])
      + if r.category == c then [if r.falseHit then step else -step] else []
  }

  /** In any stream of feedback each category walks on its own reports alone,
      between its own bounds. */
  lemma {:induction false} CategoriesWalkAlone(p: Policies, c: Category, reports: seq<Report>)
    requires c in p
    ensures var q := AfterReports(p, reports);
            && c in q
            && q[c] == p[c].(current := Walk(p[c].minimum, p[c].maximum, p[c].current, DeltasOf(c, p[c].step, reports)))
  {
    if reports != [] {
      var k := |reports| - 1;
      CategoriesWalkAlone(p, c, reports[..k]);
      var ds := DeltasOf(c, p[c].step, reports[..k]);
      if reports[k].category == c {
        var d := if reports[k].falseHit then p[c].step else -p[c].step;
        assert (ds + [d])[..|ds|] == ds;
      } else {
        assert ds + [] == ds;
      }
    }
  }
}
