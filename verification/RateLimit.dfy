/** The per-client token bucket and the lazily filled bucket table. Times and
    token counts are real numbers. */
module RateLimit {
  import opened Wrappers

  function Min(x: real, y: real): real { if x <= y then x else y }

  // ----- one bucket -----

  datatype Bucket = Bucket(tokens: real, updated: real)

  function Full(rate: int, created: real): Bucket { Bucket(rate as real, created) }

  /** The tokens a bucket earns in `dt` seconds. */
  function Gain(rate: int, dt: real): real { dt * rate as real }

  function Refilled(rate: int, b: Bucket, now: real): real {
    Min(rate as real, b.tokens + Gain(rate, now - b.updated))
  }

  function Take(rate: int, b: Bucket, now: real): (Bucket, bool) {
    var tokens := Refilled(rate, b, now);
    if tokens >= 1.0 then (Bucket(tokens - 1.0, now), true) else (Bucket(tokens, now), false)
  }

  /** The decision in figures: with what it held and one token in `1 / rate`
      seconds, up to the capacity, does the bucket hold a whole token, which an
      accepted request takes? */
  lemma TakeInFigures(rate: int, b: Bucket, now: real)
    ensures var earned := b.tokens + (now - b.updated) * rate as real;
            var (b', ok) := Take(rate, b, now);
            && (ok <==> rate >= 1 && earned >= 1.0)
            && b'.updated == now
            && b'.tokens == (if earned <= rate as real then earned else rate as real) - (if ok then 1.0 else 0.0)
  {
    assert Gain(rate, now - b.updated) == (now - b.updated) * rate as real;
  }

  class TokenBucket {
    const rate: int
    var tokens: real
    var updated: real

    function View(): Bucket
      reads this
    {
      Bucket(tokens, updated)
    }

    constructor (rate: int, now: real)
      ensures this.rate == rate && View() == Full(rate, now)
    {
      this.rate := rate;
      tokens := rate as real;
      updated := now;
    }

    method Allow(now: real) returns (ok: bool)
      modifies this
      ensures (View(), ok) == Take(rate, old(View()), now)
      ensures var earned := old(tokens) + (now - old(updated)) * rate as real;
              && (ok <==> rate >= 1 && earned >= 1.0)
              && updated == now
              && tokens == (if earned <= rate as real then earned else rate as real) - (if ok then 1.0 else 0.0)
    {
      TakeInFigures(rate, View(), now);
      tokens := Min(rate as real, tokens + Gain(rate, now - updated));
      updated := now;
      if tokens >= 1.0 {
        tokens := tokens - 1.0;
        return true;
      }
      return false;
    }
  }

  // ----- traces of one bucket -----

  ghost predicate Sorted(times: seq<real>) { forall i, j | 0 <= i < j < |times| :: times[i] <= times[j] }

  function Decisions(rate: int, b: Bucket, times: seq<real>): (ds: seq<bool>)
    ensures |ds| == |times|
    decreases |times|
  {
    if times == [] then []
    else
      var (b', ok) := Take(rate, b, times[0]);
      [ok] + Decisions(rate, b', times[1..])
  }

  function Count(ds: seq<bool>): nat {
    if ds == [] then 0 else (if ds[0] then 1 else 0) + Count(ds[1..])
  }

  /** Any other way to run the same bucket: it may turn down a request it has a
      token for, but never accepts one without a token. */
  ghost predicate Legal(rate: int, b: Bucket, times: seq<real>, choice: seq<bool>)
    requires |choice| == |times|
    decreases |times|
  {
    times != [] ==>
      var tokens := Refilled(rate, b, times[0]);
      && (choice[0] ==> tokens >= 1.0)
      && Legal(rate, Bucket(if choice[0] then tokens - 1.0 else tokens, times[0]), times[1..], choice[1..])
  }

  lemma CountConcat(xs: seq<bool>, ys: seq<bool>)
    ensures Count(xs + ys) == Count(xs) + Count(ys)
  {
    if xs == [] {
      assert xs + ys == ys;
    } else {
      assert (xs + ys)[1..] == xs[1..] + ys;
    }
  }

  /** The other run's tokens exceed ours by at most our lead in acceptances. */
  lemma {:induction false} GreedyKeepsLead(rate: int, own: Bucket, other: Bucket, lead: nat, times: seq<real>, choice: seq<bool>, k: nat)
    requires |choice| == |times| && k <= |times|
    requires own.updated == other.updated && other.tokens <= own.tokens + lead as real
    requires Legal(rate, other, times, choice)
    ensures Count(choice[..k]) <= lead + Count(Decisions(rate, own, times)[..k])
    decreases k
  {
    if k > 0 {
      var now := times[0];
      var (own', ok) := Take(rate, own, now);
      var t := Refilled(rate, other, now);
      var other' := Bucket(if choice[0] then t - 1.0 else t, now);
      var lead' := lead + (if ok then 1 else 0) - (if choice[0] then 1 else 0);
      RefillKeepsLead(rate, own, other, lead as real, now);
      assert lead' >= 0 && other'.tokens <= own'.tokens + lead' as real;
      GreedyKeepsLead(rate, own', other', lead', times[1..], choice[1..], k - 1);
      var ds := Decisions(rate, own, times);
      assert ds[..k] == [ok] + Decisions(rate, own', times[1..])[..k - 1];
      assert choice[..k] == [choice[0]] + choice[1..][..k - 1];
      CountConcat([ok], Decisions(rate, own', times[1..])[..k - 1]);
      CountConcat([choice[0]], choice[1..][..k - 1]);
    }
  }

  lemma RefillKeepsLead(rate: int, own: Bucket, other: Bucket, lead: real, now: real)
    requires own.updated == other.updated && other.tokens <= own.tokens + lead && lead >= 0.0
    ensures Refilled(rate, other, now) <= Refilled(rate, own, now) + lead
  {
  }

  /** Accepting whenever a token is there is optimal: at every prefix of every
      arrival trace, no legal way to run the same bucket has accepted more. */
  lemma {:induction false} GreedyIsOptimal(rate: int, b: Bucket, times: seq<real>, choice: seq<bool>, k: nat)
    requires |choice| == |times| && k <= |times| && Legal(rate, b, times, choice)
    ensures Count(choice[..k]) <= Count(Decisions(rate, b, times)[..k])
  {
    GreedyKeepsLead(rate, b, b, 0, times, choice, k);
  }

  /** And it is itself a legal run. */
  lemma {:induction false} GreedyIsLegal(rate: int, b: Bucket, times: seq<real>)
    ensures Legal(rate, b, times, Decisions(rate, b, times))
    decreases |times|
  {
    if times != [] {
      var (b', ok) := Take(rate, b, times[0]);
      GreedyIsLegal(rate, b', times[1..]);
      assert Decisions(rate, b, times)[1..] == Decisions(rate, b', times[1..]);
    }
  }

  // ----- the window bound -----

  function After(rate: int, b: Bucket, times: seq<real>): Bucket
    decreases |times|
  {
    if times == [] then b else After(rate, Take(rate, b, times[0]).0, times[1..])
  }

  lemma {:induction false} DecisionsFrom(rate: int, b: Bucket, times: seq<real>, i: nat)
    requires i <= |times|
    ensures Decisions(rate, b, times)[i..] == Decisions(rate, After(rate, b, times[..i]), times[i..])
    decreases i
  {
    if i > 0 {
      var b' := Take(rate, b, times[0]).0;
      DecisionsFrom(rate, b', times[1..], i - 1);
      assert times[..i][1..] == times[1..][..i - 1];
      assert times[i..] == times[1..][i - 1..];
      assert Decisions(rate, b, times)[i..] == Decisions(rate, b', times[1..])[i - 1..];
    } else {
      assert times[..0] == [] && times[0..] == times;
    }
  }

  lemma {:induction false} AfterWithinCapacity(rate: int, b: Bucket, times: seq<real>)
    requires b.tokens <= rate as real
    ensures After(rate, b, times).tokens <= rate as real
    decreases |times|
  {
    if times != [] {
      AfterWithinCapacity(rate, Take(rate, b, times[0]).0, times[1..]);
    }
  }

  lemma GainNonnegative(rate: int, dt: real)
    requires rate >= 0 && dt >= 0.0
    ensures Gain(rate, dt) >= 0.0
  {
  }

  lemma GainAdds(rate: int, x: real, y: real)
    ensures Gain(rate, x + y) == Gain(rate, x) + Gain(rate, y)
  {
  }

  /** All times lie in `[since, until]`, in order. */
  ghost predicate Within(times: seq<real>, since: real, until: real) {
    && since <= until && Sorted(times)
    && forall i | 0 <= i < |times| :: since <= times[i] <= until
  }

  lemma WithinTail(times: seq<real>, since: real, until: real)
    requires Within(times, since, until) && times != []
    ensures since <= times[0] <= until && Within(times[1..], times[0], until)
  {
  }

  lemma TakeStep(rate: nat, b: Bucket, now: real, until: real)
    requires b.tokens >= 0.0 && b.updated <= now <= until
    ensures var (b', ok) := Take(rate, b, now);
            && b'.tokens >= 0.0 && b'.updated == now
            && (if ok then 1.0 else 0.0) + b'.tokens + Gain(rate, until - now) <= b.tokens + Gain(rate, until - b.updated)
  {
    GainNonnegative(rate, now - b.updated);
    GainAdds(rate, until - now, now - b.updated);
    assert (until - now) + (now - b.updated) == until - b.updated;
  }

  /** What a bucket can accept up to `until`: the tokens it holds and those it
      will earn. */
  lemma {:induction false} AcceptedWithinBudget(rate: nat, b: Bucket, times: seq<real>, until: real)
    requires b.tokens >= 0.0 && Within(times, b.updated, until)
    ensures Count(Decisions(rate, b, times)) as real <= b.tokens + Gain(rate, until - b.updated)
    decreases |times|
  {
    if times == [] {
      GainNonnegative(rate, until - b.updated);
    } else {
      WithinTail(times, b.updated, until);
      TakeStep(rate, b, times[0], until);
      var (b', ok) := Take(rate, b, times[0]);
      AcceptedWithinBudget(rate, b', times[1..], until);
      CountHead(rate, b, times);
    }
  }

  lemma CountHead(rate: int, b: Bucket, times: seq<real>)
    requires times != []
    ensures var (b', ok) := Take(rate, b, times[0]);
            Count(Decisions(rate, b, times)) == (if ok then 1 else 0) + Count(Decisions(rate, b', times[1..]))
  {
  }

  lemma {:induction false} LowRateDenies(rate: int, b: Bucket, times: seq<real>)
    requires rate < 1 && b.tokens <= rate as real
    ensures forall i | 0 <= i < |times| :: !Decisions(rate, b, times)[i]
    ensures Count(Decisions(rate, b, times)) == 0
    decreases |times|
  {
    if times != [] {
      LowRateDenies(rate, Take(rate, b, times[0]).0, times[1..]);
    }
  }

  /** In every window `[s, t]` of every run, a client gets at most
      `rate + rate * (t - s)` acceptances, none at all for a rate below one. */
  lemma {:induction false} WindowBound(rate: int, created: real, times: seq<real>, i: nat, j: nat, s: real, t: real)
    requires Sorted(times) && i <= j <= |times| && s <= t
    requires forall m | i <= m < j :: s <= times[m] <= t
    ensures var accepted := Count(Decisions(rate, Full(rate, created), times)[i..j]);
            if rate < 1 then accepted == 0
            else accepted as real <= rate as real * (1.0 + (t - s))
  {
    WindowBudget(rate, t - s);
    var b := After(rate, Full(rate, created), times[..i]);
    var window := times[i..j];
    AfterWithinCapacity(rate, Full(rate, created), times[..i]);
    WindowDecisions(rate, Full(rate, created), times, i, j);
    SliceWithin(times, i, j, s, t);
    if rate < 1 {
      LowRateDenies(rate, b, window);
    } else {
      BurstBound(rate, b, window, s, t);
    }
  }

  /** A full bucket and what it earns. */
  lemma WindowBudget(rate: int, dt: real)
    ensures rate as real + Gain(rate, dt) == rate as real * (1.0 + dt)
  {
  }

  lemma SliceWithin(times: seq<real>, i: nat, j: nat, s: real, t: real)
    requires Sorted(times) && i <= j <= |times| && s <= t
    requires forall m | i <= m < j :: s <= times[m] <= t
    ensures Within(times[i..j], s, t)
  {
  }

  lemma WindowDecisions(rate: int, b: Bucket, times: seq<real>, i: nat, j: nat)
    requires i <= j <= |times|
    ensures Decisions(rate, b, times)[i..j] == Decisions(rate, After(rate, b, times[..i]), times[i..j])
  {
    DecisionsFrom(rate, b, times, i);
    DecisionsPrefix(rate, After(rate, b, times[..i]), times[i..], j - i);
    assert Decisions(rate, b, times)[i..j] == Decisions(rate, b, times)[i..][..j - i];
    assert times[i..][..j - i] == times[i..j];
  }

  lemma {:induction false} DecisionsPrefix(rate: int, b: Bucket, times: seq<real>, k: nat)
    requires k <= |times|
    ensures Decisions(rate, b, times)[..k] == Decisions(rate, b, times[..k])
    decreases k
  {
    if k > 0 {
      var (b', ok) := Take(rate, b, times[0]);
      DecisionsPrefix(rate, b', times[1..], k - 1);
      assert times[..k][1..] == times[1..][..k - 1];
      assert Decisions(rate, b, times)[..k] == [ok] + Decisions(rate, b', times[1..])[..k - 1];
    }
  }

  /** A window starts with at most a full bucket. */
  lemma BurstBound(rate: nat, b: Bucket, window: seq<real>, s: real, t: real)
    requires rate >= 1 && Within(window, s, t)
    ensures Count(Decisions(rate, b, window)) as real <= rate as real + Gain(rate, t - s)
  {
    GainNonnegative(rate, t - s);
    if window != [] {
      var now := window[0];
      var full := Bucket(rate as real, now);
      FullAcceptsMore(rate, b, window);
      AcceptedWithinBudget(rate, full, window, t);
      GainAdds(rate, t - now, now - s);
      GainNonnegative(rate, now - s);
      assert (t - now) + (now - s) == t - s;
    }
  }

  lemma FullAcceptsMore(rate: nat, b: Bucket, times: seq<real>)
    requires times != []
    ensures Count(Decisions(rate, b, times)) <= Count(Decisions(rate, Bucket(rate as real, times[0]), times))
  {
    var now := times[0];
    var level := Bucket(Refilled(rate, b, now), now);
    assert Gain(rate, 0.0) == 0.0;
    assert Take(rate, level, now) == Take(rate, b, now);
    CountHead(rate, b, times);
    CountHead(rate, level, times);
    MoreTokensAcceptMore(rate, level, Bucket(rate as real, now), times);
  }

  lemma MoreTokensAcceptMore(rate: int, less: Bucket, more: Bucket, times: seq<real>)
    requires less.updated == more.updated && less.tokens <= more.tokens
    ensures Count(Decisions(rate, less, times)) <= Count(Decisions(rate, more, times))
  {
    GreedyIsLegal(rate, less, times);
    var k := |times|;
    GreedyKeepsLead(rate, more, less, 0, times, Decisions(rate, less, times), k);
    assert Decisions(rate, less, times)[..k] == Decisions(rate, less, times);
    assert Decisions(rate, more, times)[..k] == Decisions(rate, more, times);
  }

  // ----- what is owed to a client -----

  lemma {:induction false} TokensAccept(rate: nat, b: Bucket, times: seq<real>, m: nat, i: nat)
    requires SortedFrom(times, b.updated) && m <= rate && m as real <= b.tokens && i < m && i < |times|
    ensures Decisions(rate, b, times)[i]
    decreases i
  {
    SortedTail(times, b.updated);
    GainNonnegative(rate, times[0] - b.updated);
    if i > 0 {
      var b' := Take(rate, b, times[0]).0;
      TokensAccept(rate, b', times[1..], m - 1, i - 1);
    }
  }

  /** A burst as long as the rate is accepted: the first `rate` attempts on a
      full bucket, however close together. */
  lemma {:induction false} BurstIsAccepted(rate: nat, created: real, times: seq<real>, i: nat)
    requires SortedFrom(times, created) && i < rate && i < |times|
    ensures Decisions(rate, Full(rate, created), times)[i]
  {
    TokensAccept(rate, Full(rate, created), times, rate, i);
  }

  // ----- denied attempts leave no trace -----

  lemma DecisionsHead(rate: int, b: Bucket, now: real, times: seq<real>)
    ensures Decisions(rate, b, [now] + times) == [Take(rate, b, now).1] + Decisions(rate, Take(rate, b, now).0, times)
  {
  }

  /** Two buckets that refill alike from `now` on. */
  ghost predicate SameFuture(rate: int, a: Bucket, b: Bucket, now: real) {
    forall t | t >= now :: Refilled(rate, a, t) == Refilled(rate, b, t)
  }

  lemma RefillTwice(rate: int, b: Bucket, now: real, t: real)
    requires b.updated <= now <= t && b.tokens <= rate as real
    ensures Refilled(rate, Bucket(Refilled(rate, b, now), now), t) == Refilled(rate, b, t)
  {
    GainAdds(rate, now - b.updated, t - now);
    assert (now - b.updated) + (t - now) == t - b.updated;
    if rate >= 0 {
      GainNonnegative(rate, t - now);
    } else {
      GainNonnegative(-rate, now - b.updated);
      assert Gain(-rate, now - b.updated) == -Gain(rate, now - b.updated);
    }
  }

  function Keep<T>(xs: seq<T>, mask: seq<bool>): seq<T>
    requires |xs| == |mask|
  {
    if xs == [] then [] else (if mask[0] then [xs[0]] else []) + Keep(xs[1..], mask[1..])
  }

  ghost predicate KeepsAccepted(ds: seq<bool>, mask: seq<bool>) {
    |ds| == |mask| && forall i | 0 <= i < |ds| :: ds[i] ==> mask[i]
  }

  lemma KeepsAcceptedTail(ds: seq<bool>, mask: seq<bool>)
    requires KeepsAccepted(ds, mask) && ds != []
    ensures (ds[0] ==> mask[0]) && KeepsAccepted(ds[1..], mask[1..])
  {
  }

  ghost predicate SortedFrom(times: seq<real>, since: real) {
    Sorted(times) && forall i | 0 <= i < |times| :: since <= times[i]
  }

  lemma SortedTail(times: seq<real>, since: real)
    requires SortedFrom(times, since) && times != []
    ensures since <= times[0] && SortedFrom(times[1..], times[0])
  {
  }

  lemma {:induction false} DeniedLeaveNoTraceFrom(rate: int, a: Bucket, b: Bucket, times: seq<real>, mask: seq<bool>, now: real)
    requires |mask| == |times| && SortedFrom(times, now)
    requires b.updated <= now && a.tokens <= rate as real && b.tokens <= rate as real
    requires SameFuture(rate, a, b, now)
    requires KeepsAccepted(Decisions(rate, a, times), mask)
    ensures Decisions(rate, b, Keep(times, mask)) == Keep(Decisions(rate, a, times), mask)
    decreases |times|
  {
    if times != [] {
      var t := times[0];
      var (a', ok) := Take(rate, a, t);
      SortedTail(times, now);
      KeepsAcceptedTail(Decisions(rate, a, times), mask);
      assert Decisions(rate, a, times)[1..] == Decisions(rate, a', times[1..]);
      if mask[0] {
        SameTake(rate, a, b, now, t);
        DeniedLeaveNoTraceFrom(rate, a', a', times[1..], mask[1..], t);
        KeptAttempt(rate, a, b, times, mask);
      } else {
        DenialKeepsFuture(rate, a, b, now, t);
        DeniedLeaveNoTraceFrom(rate, a', b, times[1..], mask[1..], t);
        DroppedAttempt(rate, a, times, mask);
      }
    }
  }

  lemma KeptAttempt(rate: int, a: Bucket, b: Bucket, times: seq<real>, mask: seq<bool>)
    requires |mask| == |times| && times != [] && mask[0] && Take(rate, a, times[0]) == Take(rate, b, times[0])
    ensures var a' := Take(rate, a, times[0]).0;
            && Decisions(rate, b, Keep(times, mask))
               == [Take(rate, a, times[0]).1] + Decisions(rate, a', Keep(times[1..], mask[1..]))
            && Keep(Decisions(rate, a, times), mask)
               == [Take(rate, a, times[0]).1] + Keep(Decisions(rate, a', times[1..]), mask[1..])
  {
  }

  lemma DroppedAttempt(rate: int, a: Bucket, times: seq<real>, mask: seq<bool>)
    requires |mask| == |times| && times != [] && !mask[0]
    ensures Keep(times, mask) == Keep(times[1..], mask[1..])
    ensures Keep(Decisions(rate, a, times), mask) == Keep(Decisions(rate, Take(rate, a, times[0]).0, times[1..]), mask[1..])
  {
    assert Decisions(rate, a, times)[1..] == Decisions(rate, Take(rate, a, times[0]).0, times[1..]);
    assert [] + Keep(times[1..], mask[1..]) == Keep(times[1..], mask[1..]);
  }

  lemma SameTake(rate: int, a: Bucket, b: Bucket, since: real, now: real)
    requires SameFuture(rate, a, b, since) && since <= now
    ensures Take(rate, a, now) == Take(rate, b, now)
  {
  }

  lemma DenialKeepsFuture(rate: int, a: Bucket, b: Bucket, since: real, now: real)
    requires SameFuture(rate, a, b, since) && since <= now && b.updated <= now && b.tokens <= rate as real
    requires !Take(rate, a, now).1
    ensures SameFuture(rate, Take(rate, a, now).0, b, now)
  {
    assert Refilled(rate, a, now) == Refilled(rate, b, now);
    forall u | u >= now
      ensures Refilled(rate, Take(rate, a, now).0, u) == Refilled(rate, b, u)
    {
      RefillTwice(rate, b, now, u);
    }
  }

  /** Deleting any of the denied attempts changes no other decision. */
  lemma {:induction false} DeniedLeaveNoTrace(rate: int, created: real, times: seq<real>, mask: seq<bool>)
    requires |mask| == |times| && SortedFrom(times, created)
    requires KeepsAccepted(Decisions(rate, Full(rate, created), times), mask)
    ensures Decisions(rate, Full(rate, created), Keep(times, mask))
            == Keep(Decisions(rate, Full(rate, created), times), mask)
  {
    DeniedLeaveNoTraceFrom(rate, Full(rate, created), Full(rate, created), times, mask, created);
  }

  // ----- the table of buckets -----

  /** What the middleware looks at in an HTTP request. */
  datatype Http = Http(path: string, tenant: Option<string>, host: Option<string>)

  function ClientKey(h: Http): string {
    if h.tenant.Some? && h.tenant.value != "" then "tenant:" + h.tenant.value
    else "ip:" + Address(h)
  }

  function Address(h: Http): string { if h.host.Some? then h.host.value else "unknown" }

  predicate Named(h: Http) { h.tenant.Some? && h.tenant.value != "" }

  /** Two requests come from one client exactly when they name the same tenant,
      or neither names one and they come from the same address; a missing address
      is the address "unknown". */
  lemma ClientKeyIff(g: Http, h: Http)
    ensures ClientKey(g) == ClientKey(h) <==>
              if Named(g) || Named(h) then g.tenant == h.tenant
              else || g.host == h.host
                   || (g.host.None? && h.host == Some("unknown"))
                   || (h.host.None? && g.host == Some("unknown"))
  {
    var k, l := ClientKey(g), ClientKey(h);
    assert "tenant:"[0] != "ip:"[0];
    assert Named(g) ==> k[0] == 't' && k[7..] == g.tenant.value;
    assert Named(h) ==> l[0] == 't' && l[7..] == h.tenant.value;
    assert !Named(g) ==> k[0] == 'i' && k[3..] == Address(g);
    assert !Named(h) ==> l[0] == 'i' && l[3..] == Address(h);
  }

  /** One request: the clock is read once if a bucket must be made, and once
      more to refill it. */
  datatype Arrival = Arrival(http: Http, created: real, now: real)

  type Table = map<string, Bucket>

  function Admit(rate: int, exempt: set<string>, m: Table, a: Arrival): (Table, bool) {
    if a.http.path in exempt then (m, true)
    else
      var key := ClientKey(a.http);
      var b := if key in m then m[key] else Full(rate, a.created);
      var (b', ok) := Take(rate, b, a.now);
      (m[key := b'], ok)
  }

  function DispatchAll(rate: int, exempt: set<string>, m: Table, arrivals: seq<Arrival>): (ds: seq<bool>)
    ensures |ds| == |arrivals|
    decreases |arrivals|
  {
    if arrivals == [] then []
    else
      var (m', ok) := Admit(rate, exempt, m, arrivals[0]);
      [ok] + DispatchAll(rate, exempt, m', arrivals[1..])
  }

  predicate Counted(exempt: set<string>, key: string, a: Arrival) {
    a.http.path !in exempt && ClientKey(a.http) == key
  }

  function Mask(exempt: set<string>, key: string, arrivals: seq<Arrival>): (m: seq<bool>)
    ensures |m| == |arrivals|
  {
    seq(|arrivals|, i requires 0 <= i < |arrivals| => Counted(exempt, key, arrivals[i]))
  }

  function Times(arrivals: seq<Arrival>): (ts: seq<real>)
    ensures |ts| == |arrivals|
  {
    seq(|arrivals|, i requires 0 <= i < |arrivals| => arrivals[i].now)
  }

  ghost predicate ClockForward(since: real, arrivals: seq<Arrival>) {
    && (forall i | 0 <= i < |arrivals| :: since <= arrivals[i].created <= arrivals[i].now)
    && (forall i, j | 0 <= i < j < |arrivals| :: arrivals[i].now <= arrivals[j].created)
  }

  /** A solo bucket stands for the client's place in the table: the bucket that
      is there, or a full one made earlier. */
  ghost predicate StandsFor(rate: int, solo: Bucket, m: Table, key: string, since: real) {
    if key in m then m[key] == solo else solo.tokens == rate as real && solo.updated <= since
  }

  lemma LazyCreation(rate: int, solo: Bucket, created: real, now: real)
    requires rate >= 1 && solo.tokens == rate as real && solo.updated <= created <= now
    ensures Take(rate, Full(rate, created), now) == Take(rate, solo, now)
  {
    GainNonnegative(rate, now - created);
    GainNonnegative(rate, now - solo.updated);
  }

  lemma ClockTail(since: real, arrivals: seq<Arrival>)
    requires ClockForward(since, arrivals) && arrivals != []
    ensures since <= arrivals[0].created <= arrivals[0].now && ClockForward(arrivals[0].now, arrivals[1..])
  {
  }

  /** One arrival keeps the solo bucket in the client's place. */
  lemma AdmitKeepsStandIn(rate: int, exempt: set<string>, m: Table, key: string, solo: Bucket, since: real, a: Arrival)
    requires rate >= 1 && since <= a.created <= a.now && StandsFor(rate, solo, m, key, since)
    ensures var (m', ok) := Admit(rate, exempt, m, a);
            if Counted(exempt, key, a)
            then ok == Take(rate, solo, a.now).1 && StandsFor(rate, Take(rate, solo, a.now).0, m', key, a.now)
            else StandsFor(rate, solo, m', key, a.now)
  {
    if Counted(exempt, key, a) && key !in m {
      LazyCreation(rate, solo, a.created, a.now);
    }
  }

  lemma {:induction false} JoinHead(rate: int, exempt: set<string>, m: Table, key: string, solo: Bucket, arrivals: seq<Arrival>)
    requires arrivals != []
    requires var a, rest := arrivals[0], arrivals[1..];
             var (m', ok) := Admit(rate, exempt, m, a);
             var mine := Counted(exempt, key, a);
             && (mine ==> ok == Take(rate, solo, a.now).1)
             && Keep(DispatchAll(rate, exempt, m', rest), Mask(exempt, key, rest))
                == Decisions(rate, if mine then Take(rate, solo, a.now).0 else solo, Keep(Times(rest), Mask(exempt, key, rest)))
    ensures Keep(DispatchAll(rate, exempt, m, arrivals), Mask(exempt, key, arrivals))
            == Decisions(rate, solo, Keep(Times(arrivals), Mask(exempt, key, arrivals)))
  {
    TraceHead(rate, exempt, m, key, arrivals);
    var kept := Keep(Times(arrivals[1..]), Mask(exempt, key, arrivals[1..]));
    DecisionsHead(rate, solo, arrivals[0].now, kept);
    assert [] + kept == kept;
  }

  lemma {:induction false} IndependenceFrom(rate: int, exempt: set<string>, m: Table, key: string, solo: Bucket, since: real, arrivals: seq<Arrival>)
    requires rate >= 1 && ClockForward(since, arrivals) && StandsFor(rate, solo, m, key, since)
    ensures Keep(DispatchAll(rate, exempt, m, arrivals), Mask(exempt, key, arrivals))
            == Decisions(rate, solo, Keep(Times(arrivals), Mask(exempt, key, arrivals)))
    decreases |arrivals|
  {
    if arrivals != [] {
      var a, rest := arrivals[0], arrivals[1..];
      var m' := Admit(rate, exempt, m, a).0;
      var mine := Counted(exempt, key, a);
      var solo' := if mine then Take(rate, solo, a.now).0 else solo;
      ClockTail(since, arrivals);
      AdmitKeepsStandIn(rate, exempt, m, key, solo, since, a);
      IndependenceFrom(rate, exempt, m', key, solo', a.now, rest);
      JoinHead(rate, exempt, m, key, solo, arrivals);
    }
  }

  /** One client's view of a trace, an arrival at a time. */
  lemma {:induction false} TraceHead(rate: int, exempt: set<string>, m: Table, key: string, arrivals: seq<Arrival>)
    requires arrivals != []
    ensures var a, rest := arrivals[0], arrivals[1..];
            var (m', ok) := Admit(rate, exempt, m, a);
            var mask := Mask(exempt, key, rest);
            var mine := Counted(exempt, key, a);
            && Keep(Times(arrivals), Mask(exempt, key, arrivals)) == (if mine then [a.now] else []) + Keep(Times(rest), mask)
            && Keep(DispatchAll(rate, exempt, m, arrivals), Mask(exempt, key, arrivals))
               == (if mine then [ok] else []) + Keep(DispatchAll(rate, exempt, m', rest), mask)
  {
    var rest := arrivals[1..];
    var m' := Admit(rate, exempt, m, arrivals[0]).0;
    assert Mask(exempt, key, arrivals)[1..] == Mask(exempt, key, rest);
    assert Times(arrivals)[1..] == Times(rest);
    assert DispatchAll(rate, exempt, m, arrivals)[1..] == DispatchAll(rate, exempt, m', rest);
  }

  lemma {:induction false} LowRateDeniesAll(rate: int, exempt: set<string>, m: Table, arrivals: seq<Arrival>)
    requires rate < 1 && forall k | k in m :: m[k].tokens <= rate as real
    ensures forall i | 0 <= i < |arrivals| :: DispatchAll(rate, exempt, m, arrivals)[i] <==> arrivals[i].http.path in exempt
    decreases |arrivals|
  {
    if arrivals != [] {
      LowRateDeniesAll(rate, exempt, Admit(rate, exempt, m, arrivals[0]).0, arrivals[1..]);
    }
  }

  lemma AllFalse(xs: seq<bool>, ys: seq<bool>)
    requires |xs| == |ys| && (forall i | 0 <= i < |xs| :: !xs[i]) && (forall i | 0 <= i < |ys| :: !ys[i])
    ensures xs == ys
  {
  }

  lemma {:induction false} KeptAreFalse(xs: seq<bool>, mask: seq<bool>)
    requires |xs| == |mask| && forall i | 0 <= i < |xs| :: mask[i] ==> !xs[i]
    ensures |Keep(xs, mask)| == Count(mask) && forall a | 0 <= a < |Keep(xs, mask)| :: !Keep(xs, mask)[a]
  {
    if xs != [] {
      KeptAreFalse(xs[1..], mask[1..]);
    }
  }

  lemma {:induction false} KeptCount<T>(xs: seq<T>, mask: seq<bool>)
    requires |xs| == |mask|
    ensures |Keep(xs, mask)| == Count(mask)
  {
    if xs != [] {
      KeptCount(xs[1..], mask[1..]);
    }
  }

  /** In every interleaved trace each client is decided as by a bucket of its
      own that saw only its requests, and that had stood full since any earlier
      moment. */
  lemma {:induction false} ClientsAreIndependent(rate: int, exempt: set<string>, key: string, since: real, arrivals: seq<Arrival>)
    requires ClockForward(since, arrivals)
    ensures var mask := Mask(exempt, key, arrivals);
            Keep(DispatchAll(rate, exempt, map[], arrivals), mask)
            == Decisions(rate, Full(rate, since), Keep(Times(arrivals), mask))
  {
    var mask := Mask(exempt, key, arrivals);
    if rate >= 1 {
      IndependenceFrom(rate, exempt, map[], key, Full(rate, since), since, arrivals);
    } else {
      var ds := DispatchAll(rate, exempt, map[], arrivals);
      LowRateDeniesAll(rate, exempt, map[], arrivals);
      LowRateDenies(rate, Full(rate, since), Keep(Times(arrivals), mask));
      KeptAreFalse(ds, mask);
      KeptCount(Times(arrivals), mask);
      AllFalse(Keep(ds, mask), Decisions(rate, Full(rate, since), Keep(Times(arrivals), mask)));
    }
  }

  // ----- the window bound, client by client -----

  lemma KeepHead<T>(x: T, xs: seq<T>, kept: bool, mask: seq<bool>)
    requires |xs| == |mask|
    ensures Keep([x] + xs, [kept] + mask) == (if kept then [x] else []) + Keep(xs, mask)
  {
    assert ([x] + xs)[1..] == xs && ([kept] + mask)[1..] == mask;
  }

  lemma {:induction false} KeepConcat<T>(xs: seq<T>, ys: seq<T>, mask: seq<bool>, nask: seq<bool>)
    requires |xs| == |mask| && |ys| == |nask|
    ensures Keep(xs + ys, mask + nask) == Keep(xs, mask) + Keep(ys, nask)
    decreases |xs|
  {
    if xs == [] {
      assert xs + ys == ys && mask + nask == nask;
    } else {
      var x, rest, kept, tail := xs[0], xs[1..], mask[0], mask[1..];
      assert xs + ys == [x] + (rest + ys) && mask + nask == [kept] + (tail + nask);
      assert xs == [x] + rest && mask == [kept] + tail;
      KeepConcat(rest, ys, tail, nask);
      KeepHead(x, rest + ys, kept, tail + nask);
      KeepHead(x, rest, kept, tail);
    }
  }

  /** What is kept of a slice is a slice of what is kept. */
  lemma {:induction false} KeepSlice<T>(xs: seq<T>, mask: seq<bool>, i: nat, j: nat)
    requires |xs| == |mask| && i <= j <= |xs|
    ensures var a, n := Count(mask[..i]), Count(mask[i..j]);
            a + n <= |Keep(xs, mask)| && Keep(xs[i..j], mask[i..j]) == Keep(xs, mask)[a..a + n]
  {
    KeepConcat(xs[..i], xs[i..j], mask[..i], mask[i..j]);
    KeepConcat(xs[..i] + xs[i..j], xs[j..], mask[..i] + mask[i..j], mask[j..]);
    assert xs[..i] + xs[i..j] + xs[j..] == xs && mask[..i] + mask[i..j] + mask[j..] == mask;
    KeptCount(xs[..i], mask[..i]);
    KeptCount(xs[i..j], mask[i..j]);
  }

  lemma {:induction false} KeptOccur<T>(xs: seq<T>, mask: seq<bool>)
    requires |xs| == |mask|
    ensures forall a | 0 <= a < |Keep(xs, mask)| :: Keep(xs, mask)[a] in xs
  {
    if xs != [] {
      KeptOccur(xs[1..], mask[1..]);
    }
  }

  lemma {:induction false} KeptSorted(times: seq<real>, mask: seq<bool>)
    requires |times| == |mask| && Sorted(times)
    ensures Sorted(Keep(times, mask))
  {
    if times != [] {
      KeptSorted(times[1..], mask[1..]);
      KeptOccur(times[1..], mask[1..]);
    }
  }

  lemma {:induction false} KeptWithin(times: seq<real>, mask: seq<bool>, i: nat, j: nat, s: real, t: real)
    requires |times| == |mask| && i <= j <= |times|
    requires forall m | i <= m < j :: s <= times[m] <= t
    ensures var own, a, n := Keep(times, mask), Count(mask[..i]), Count(mask[i..j]);
            a + n <= |own| && forall m | a <= m < a + n :: s <= own[m] <= t
  {
    KeepSlice(times, mask, i, j);
    KeptOccur(times[i..j], mask[i..j]);
    var own, a, n := Keep(times, mask), Count(mask[..i]), Count(mask[i..j]);
    var kept := Keep(times[i..j], mask[i..j]);
    forall m | a <= m < a + n
      ensures s <= own[m] <= t
    {
      assert own[m] == kept[m - a];
      var p :| 0 <= p < j - i && times[i..j][p] == kept[m - a];
      assert times[i + p] == own[m];
    }
  }

  /** The window bound for some of the attempts of a trace, decided as by a
      bucket of their own. */
  lemma {:induction false} KeptWindowBound(rate: int, created: real, times: seq<real>, ds: seq<bool>, mask: seq<bool>,
                                           i: nat, j: nat, s: real, t: real)
    requires |times| == |mask| == |ds| && Sorted(times) && i <= j <= |times| && s <= t
    requires Keep(ds, mask) == Decisions(rate, Full(rate, created), Keep(times, mask))
    requires forall m | i <= m < j :: s <= times[m] <= t
    ensures var accepted := Count(Keep(ds[i..j], mask[i..j]));
            if rate < 1 then accepted == 0 else accepted as real <= rate as real * (1.0 + (t - s))
  {
    var a, n := Count(mask[..i]), Count(mask[i..j]);
    KeepSlice(ds, mask, i, j);
    KeptSorted(times, mask);
    KeptWithin(times, mask, i, j, s, t);
    WindowBound(rate, created, Keep(times, mask), a, a + n, s, t);
  }

  /** How many of the arrivals `i` to `j` of a client were accepted. */
  function Accepted(rate: int, exempt: set<string>, key: string, arrivals: seq<Arrival>, i: nat, j: nat): nat
    requires i <= j <= |arrivals|
  {
    Count(Keep(DispatchAll(rate, exempt, map[], arrivals)[i..j], Mask(exempt, key, arrivals)[i..j]))
  }

  /** In every window `[s, t]` of every interleaved trace, each client gets at
      most `rate + rate * (t - s)` acceptances, whatever the others do, and none
      for a rate below one. */
  lemma {:induction false} ClientWindowBound(rate: int, exempt: set<string>, key: string, since: real, arrivals: seq<Arrival>,
                                             i: nat, j: nat, s: real, t: real)
    requires ClockForward(since, arrivals) && i <= j <= |arrivals| && s <= t
    requires forall m | i <= m < j :: s <= arrivals[m].now <= t
    ensures var accepted := Accepted(rate, exempt, key, arrivals, i, j);
            if rate < 1 then accepted == 0 else accepted as real <= rate as real * (1.0 + (t - s))
  {
    ClientsAreIndependent(rate, exempt, key, since, arrivals);
    KeptWindowBound(rate, since, Times(arrivals), DispatchAll(rate, exempt, map[], arrivals), Mask(exempt, key, arrivals), i, j, s, t);
  }

  // ----- denied arrivals leave no trace in the table -----

  /** Keeping by one mask and then by what is left of another, in either order. */
  lemma {:induction false} KeepSwap<T>(xs: seq<T>, mask: seq<bool>, nask: seq<bool>)
    requires |xs| == |mask| == |nask|
    ensures |Keep(xs, mask)| == |Keep(nask, mask)| && |Keep(xs, nask)| == |Keep(mask, nask)|
    ensures Keep(Keep(xs, mask), Keep(nask, mask)) == Keep(Keep(xs, nask), Keep(mask, nask))
  {
    KeptCount(xs, mask);
    KeptCount(nask, mask);
    KeptCount(xs, nask);
    KeptCount(mask, nask);
    if xs != [] {
      KeepSwap(xs[1..], mask[1..], nask[1..]);
      SwapHead(xs[0], xs[1..], mask[0], mask[1..], nask[0], nask[1..]);
      assert [xs[0]] + xs[1..] == xs && [mask[0]] + mask[1..] == mask && [nask[0]] + nask[1..] == nask;
    }
  }

  lemma SwapHead<T>(x: T, xs: seq<T>, m: bool, mask: seq<bool>, n: bool, nask: seq<bool>)
    requires |xs| == |mask| == |nask|
    requires |Keep(xs, mask)| == |Keep(nask, mask)| && |Keep(xs, nask)| == |Keep(mask, nask)|
    requires Keep(Keep(xs, mask), Keep(nask, mask)) == Keep(Keep(xs, nask), Keep(mask, nask))
    ensures |Keep([x] + xs, [m] + mask)| == |Keep([n] + nask, [m] + mask)|
    ensures |Keep([x] + xs, [n] + nask)| == |Keep([m] + mask, [n] + nask)|
    ensures Keep(Keep([x] + xs, [m] + mask), Keep([n] + nask, [m] + mask))
            == Keep(Keep([x] + xs, [n] + nask), Keep([m] + mask, [n] + nask))
  {
    KeepHead(x, xs, m, mask);
    KeepHead(n, nask, m, mask);
    KeepHead(x, xs, n, nask);
    KeepHead(m, mask, n, nask);
    KeepHead(x, Keep(xs, mask), n, Keep(nask, mask));
    KeepHead(x, Keep(xs, nask), m, Keep(mask, nask));
    NoHead(Keep(xs, mask));
    NoHead(Keep(xs, nask));
    NoHead(Keep(nask, mask));
    NoHead(Keep(mask, nask));
    NoHead(Keep(Keep(xs, mask), Keep(nask, mask)));
  }

  lemma NoHead<T>(xs: seq<T>)
    ensures [] + xs == xs
  {
  }

  /** The kept arrivals, seen by a client and by the clock. */
  lemma {:induction false} KeptArrivals(exempt: set<string>, key: string, arrivals: seq<Arrival>, mask: seq<bool>)
    requires |arrivals| == |mask|
    ensures Times(Keep(arrivals, mask)) == Keep(Times(arrivals), mask)
    ensures Mask(exempt, key, Keep(arrivals, mask)) == Keep(Mask(exempt, key, arrivals), mask)
  {
    if arrivals != [] {
      var a, rest := arrivals[0], arrivals[1..];
      KeptArrivals(exempt, key, rest, mask[1..]);
      assert Times(arrivals)[1..] == Times(rest) && Mask(exempt, key, arrivals)[1..] == Mask(exempt, key, rest);
      assert mask[0] ==> Times([a] + Keep(rest, mask[1..])) == [a.now] + Times(Keep(rest, mask[1..]));
      assert mask[0] ==> Mask(exempt, key, [a] + Keep(rest, mask[1..])) == [Counted(exempt, key, a)] + Mask(exempt, key, Keep(rest, mask[1..]));
    }
  }

  lemma ClockHead(since: real, a: Arrival, rest: seq<Arrival>)
    requires since <= a.created <= a.now && ClockForward(a.now, rest)
    ensures ClockForward(since, [a] + rest) && ClockForward(since, rest)
  {
  }

  lemma {:induction false} KeptClock(since: real, arrivals: seq<Arrival>, mask: seq<bool>)
    requires |arrivals| == |mask| && ClockForward(since, arrivals)
    ensures ClockForward(since, Keep(arrivals, mask))
    decreases |arrivals|
  {
    if arrivals != [] {
      ClockTail(since, arrivals);
      KeptClock(arrivals[0].now, arrivals[1..], mask[1..]);
      ClockHead(since, arrivals[0], Keep(arrivals[1..], mask[1..]));
      NoHead(Keep(arrivals[1..], mask[1..]));
    }
  }

  lemma {:induction false} KeptAccepted(ds: seq<bool>, mask: seq<bool>, own: seq<bool>)
    requires KeepsAccepted(ds, mask) && |own| == |ds|
    ensures KeepsAccepted(Keep(ds, own), Keep(mask, own))
  {
    KeptCount(ds, own);
    KeptCount(mask, own);
    if ds != [] {
      KeepsAcceptedTail(ds, mask);
      KeptAccepted(ds[1..], mask[1..], own[1..]);
    }
  }

  /** What a client sees of the shortened trace is what it saw of the whole one. */
  lemma {:induction false} ClientSeesNoTrace(rate: int, exempt: set<string>, key: string, since: real, arrivals: seq<Arrival>, mask: seq<bool>)
    requires |mask| == |arrivals| && ClockForward(since, arrivals)
    requires KeepsAccepted(DispatchAll(rate, exempt, map[], arrivals), mask)
    ensures var kept := Keep(arrivals, mask);
            var ds := Keep(DispatchAll(rate, exempt, map[], arrivals), mask);
            |ds| == |kept| && Keep(DispatchAll(rate, exempt, map[], kept), Mask(exempt, key, kept)) == Keep(ds, Mask(exempt, key, kept))
  {
    var ds, own, times := DispatchAll(rate, exempt, map[], arrivals), Mask(exempt, key, arrivals), Times(arrivals);
    KeptCount(arrivals, mask);
    KeptCount(ds, mask);
    KeptCount(times, own);
    KeptCount(mask, own);
    KeptArrivals(exempt, key, arrivals, mask);
    KeptClock(since, arrivals, mask);
    ClientsAreIndependent(rate, exempt, key, since, arrivals);
    ClientsAreIndependent(rate, exempt, key, since, Keep(arrivals, mask));
    KeptAccepted(ds, mask, own);
    KeptFrom(times, own, since);
    DeniedLeaveNoTrace(rate, since, Keep(times, own), Keep(mask, own));
    KeepSwap(times, own, mask);
    KeepSwap(ds, own, mask);
  }

  lemma {:induction false} KeptFrom(times: seq<real>, mask: seq<bool>, since: real)
    requires |times| == |mask| && SortedFrom(times, since)
    ensures SortedFrom(Keep(times, mask), since)
  {
    KeptSorted(times, mask);
    KeptOccur(times, mask);
  }

  /** Where an element ends up among those kept. */
  lemma {:induction false} KeptAt<T>(xs: seq<T>, mask: seq<bool>, i: nat)
    requires |xs| == |mask| && i < |xs| && mask[i]
    ensures Count(mask[..i]) < |Keep(xs, mask)| && Keep(xs, mask)[Count(mask[..i])] == xs[i]
  {
    if i > 0 {
      KeptAt(xs[1..], mask[1..], i - 1);
      assert mask[..i][1..] == mask[1..][..i - 1];
    }
  }

  lemma {:induction false} ExemptPass(rate: int, exempt: set<string>, m: Table, arrivals: seq<Arrival>, i: nat)
    requires i < |arrivals| && arrivals[i].http.path in exempt
    ensures DispatchAll(rate, exempt, m, arrivals)[i]
    decreases i
  {
    if i > 0 {
      ExemptPass(rate, exempt, Admit(rate, exempt, m, arrivals[0]).0, arrivals[1..], i - 1);
    }
  }

  lemma {:induction false} KeptExempt(ds: seq<bool>, exempt: set<string>, arrivals: seq<Arrival>, mask: seq<bool>)
    requires |ds| == |arrivals| == |mask|
    requires forall j | 0 <= j < |ds| :: arrivals[j].http.path in exempt ==> ds[j]
    ensures |Keep(ds, mask)| == |Keep(arrivals, mask)|
    ensures forall i | 0 <= i < |Keep(ds, mask)| :: Keep(arrivals, mask)[i].http.path in exempt ==> Keep(ds, mask)[i]
  {
    if ds != [] {
      KeptExempt(ds[1..], exempt, arrivals[1..], mask[1..]);
    }
  }

  lemma {:induction false} SameDecision(rate: int, exempt: set<string>, since: real, arrivals: seq<Arrival>, mask: seq<bool>, i: nat)
    requires |mask| == |arrivals| && ClockForward(since, arrivals) && i < |Keep(arrivals, mask)|
    requires KeepsAccepted(DispatchAll(rate, exempt, map[], arrivals), mask)
    ensures var ds := Keep(DispatchAll(rate, exempt, map[], arrivals), mask);
            i < |ds| && DispatchAll(rate, exempt, map[], Keep(arrivals, mask))[i] == ds[i]
  {
    var kept, all := Keep(arrivals, mask), DispatchAll(rate, exempt, map[], arrivals);
    forall j | 0 <= j < |all| && arrivals[j].http.path in exempt
      ensures all[j]
    {
      ExemptPass(rate, exempt, map[], arrivals, j);
    }
    KeptExempt(all, exempt, arrivals, mask);
    if kept[i].http.path in exempt {
      ExemptPass(rate, exempt, map[], kept, i);
    } else {
      var key := ClientKey(kept[i].http);
      ClientSeesNoTrace(rate, exempt, key, since, arrivals, mask);
      KeptAt(DispatchAll(rate, exempt, map[], kept), Mask(exempt, key, kept), i);
      KeptAt(Keep(all, mask), Mask(exempt, key, kept), i);
    }
  }

  /** Deleting any of the denied arrivals from an interleaved trace changes no
      other decision, of any client. */
  lemma {:induction false} DeniedArrivalsLeaveNoTrace(rate: int, exempt: set<string>, since: real, arrivals: seq<Arrival>, mask: seq<bool>)
    requires |mask| == |arrivals| && ClockForward(since, arrivals)
    requires KeepsAccepted(DispatchAll(rate, exempt, map[], arrivals), mask)
    ensures DispatchAll(rate, exempt, map[], Keep(arrivals, mask)) == Keep(DispatchAll(rate, exempt, map[], arrivals), mask)
  {
    var kept := Keep(arrivals, mask);
    var before, after := Keep(DispatchAll(rate, exempt, map[], arrivals), mask), DispatchAll(rate, exempt, map[], kept);
    KeptCount(arrivals, mask);
    KeptCount(DispatchAll(rate, exempt, map[], arrivals), mask);
    forall i | 0 <= i < |kept|
      ensures after[i] == before[i]
    {
      SameDecision(rate, exempt, since, arrivals, mask, i);
    }
  }

  /** Every client's first `rate` requests are let through, whatever the others
      do and however close together they come. */
  lemma {:induction false} ClientBurstIsAccepted(rate: nat, exempt: set<string>, key: string, since: real, arrivals: seq<Arrival>, i: nat)
    requires ClockForward(since, arrivals)
    requires var own := Keep(DispatchAll(rate, exempt, map[], arrivals), Mask(exempt, key, arrivals)); i < rate && i < |own|
    ensures Keep(DispatchAll(rate, exempt, map[], arrivals), Mask(exempt, key, arrivals))[i]
  {
    var mask, times := Mask(exempt, key, arrivals), Times(arrivals);
    ClientsAreIndependent(rate, exempt, key, since, arrivals);
    KeptFrom(times, mask, since);
    BurstIsAccepted(rate, since, Keep(times, mask), i);
  }

  // ----- the middleware object -----

  class RateLimiter {
    const rate: int
    const exempt: set<string>
    var buckets: map<string, TokenBucket>

    ghost predicate Valid()
      reads this, buckets.Values
    {
      && (forall k | k in buckets :: buckets[k].rate == rate)
      && (forall j, k | j in buckets && k in buckets && j != k :: buckets[j] != buckets[k])
    }

    ghost function View(): Table
      reads this, buckets.Values
    {
      map k | k in buckets :: buckets[k].View()
    }

    constructor (rate: int, exempt: set<string>)
      ensures Valid() && View() == map[] && this.rate == rate && this.exempt == exempt
    {
      this.rate := rate;
      this.exempt := exempt;
      buckets := map[];
    }

    method Dispatch(a: Arrival) returns (allowed: bool)
      requires Valid()
      modifies this, buckets.Values
      ensures Valid()
      ensures (View(), allowed) == Admit(rate, exempt, old(View()), a)
    {
      if a.http.path in exempt {
        return true;
      }
      var bucket := BucketFor(ClientKey(a.http), a.created);
      ghost var before := View();
      assert before[ClientKey(a.http)] == bucket.View();
      allowed := bucket.Allow(a.now);
      assert View() == before[ClientKey(a.http) := bucket.View()];
      assert View() == old(View())[ClientKey(a.http) := bucket.View()];
    }

    /** The client's bucket, made full on its first request. */
    method BucketFor(key: string, created: real) returns (bucket: TokenBucket)
      requires Valid()
      modifies this
      ensures Valid() && key in buckets && buckets[key] == bucket
      ensures bucket in old(buckets.Values) || fresh(bucket)
      ensures View() == if key in old(buckets) then old(View()) else old(View())[key := Full(rate, created)]
    {
      if key !in buckets {
        var made := new TokenBucket(rate, created);
        buckets := buckets[key := made];
      }
      bucket := buckets[key];
    }
  }
}
