/** Liveness of the cache: what was stored is served again, and replayed byte
    for byte. */
module RepeatHit {
  import opened Wrappers
  import opened Chat
  import opened Similarity
  import opened Store
  import opened Proxy
  import opened ProxySafety
  import Sse
  import NearMiss
  import Render

  /** The action that removes a given entry. */
  predicate Evicts(a: Action, e: Entry) {
    match a
    case Delete(f) => !f.Empty() && f.Matches(e)
    case ClearAll => true
    case _ => false
  }

  /** Entries are embeddings of prompts, so all have the same dimension. */
  ghost predicate StoreFits(env: Env, store: Entries) {
    forall id | id in store :: store[id].embedding == env.embed(store[id].prompt)
  }

  lemma {:induction false} RunFits(env: Env, states: seq<State>, acts: seq<Action>, i: nat)
    requires Run(env, states, acts) && i < |states|
    ensures StoreFits(env, states[i].store)
  {
    if i > 0 {
      RunFits(env, states, acts, i - 1);
      assert StepsAt(env, states, acts, i - 1);
      StepFits(env, states[i - 1], acts[i - 1], states[i]);
    }
  }

  lemma StepFits(env: Env, s: State, a: Action, t: State)
    requires StoreFits(env, s.store) && Steps(env, s, a, t)
    ensures StoreFits(env, t.store)
  {
  }

  /** So the exact search is always defined: every lookup can be served. */
  lemma SearchIsDefined(env: Env, states: seq<State>, acts: seq<Action>, i: nat, call: Call)
    requires ValidEnv(env) && Run(env, states, acts) && i < |states|
    ensures Fits(env, states[i], call)
  {
    RunFits(env, states, acts, i);
    var live := Live(states[i].store, NamespaceFor(env, call), states[i].now);
    forall id | id in live
      ensures |live[id].embedding| == |QueryOf(env, call)|
    {
      assert states[i].store[id].embedding == env.embed(states[i].store[id].prompt);
    }
  }

  lemma {:induction false} BestExists(sqrt: real -> real, live: Entries, q: Vector) returns (best: Option<string>)
    requires SameDimension(live, q)
    ensures IsBest(sqrt, live, q, best)
    decreases |live|
  {
    if live == map[] {
      best := None;
    } else {
      var id :| id in live;
      var rest := live - {id};
      assert rest.Keys == live.Keys - {id};
      best := BestExists(sqrt, rest, q);
      if best.None? || Score(sqrt, q, live[id]) > Score(sqrt, q, live[best.value]) {
        best := Some(id);
      }
      assert forall k | k in live :: k == id || k in rest;
    }
  }

  /** In every run a new request can always be looked up. */
  lemma LookupNeverBlocks(env: Env, states: seq<State>, acts: seq<Action>, i: nat, rid: nat, call: Call, threshold: Option<real>)
    requires ValidEnv(env) && Run(env, states, acts) && i < |states| && rid !in states[i].reqs
    ensures exists best :: Enabled(env, states[i], Arrive(rid, call, threshold, best))
  {
    SearchIsDefined(env, states, acts, i, call);
    var best := BestExists(env.sqrt, Live(states[i].store, NamespaceFor(env, call), states[i].now), QueryOf(env, call));
    assert Enabled(env, states[i], Arrive(rid, call, threshold, best));
  }

  ghost predicate Holds(store: Entries, e: Entry) { e.id in store && SameEntry(store[e.id], e) }

  lemma StepHolds(env: Env, s: State, a: Action, t: State, e: Entry)
    requires Steps(env, s, a, t) && Holds(s.store, e) && !Evicts(a, e)
    ensures Holds(t.store, e) && t.now >= s.now
  {
  }

  lemma {:induction false} RunHolds(env: Env, states: seq<State>, acts: seq<Action>, e: Entry, i: nat, j: nat)
    requires Run(env, states, acts) && i <= j < |states| && Holds(states[i].store, e)
    requires forall k | i <= k < j :: !Evicts(acts[k], e)
    ensures Holds(states[j].store, e) && states[j].now >= states[i].now
    decreases j - i
  {
    if i < j {
      RunHolds(env, states, acts, e, i, j - 1);
      assert StepsAt(env, states, acts, j - 1);
      StepHolds(env, states[j - 1], acts[j - 1], states[j], e);
    }
  }

  /** An entry is at score 1 to its own prompt, so no threshold up to 1 misses
      it while it lives. */
  lemma LiveEntryHits(env: Env, s: State, e: Entry, call: Call, threshold: Option<real>, best: Option<string>)
    requires ValidEnv(env) && StoreFits(env, s.store) && Holds(s.store, e)
    requires IsLive(e, NamespaceFor(env, call), s.now) && e.prompt == PromptOf(call)
    requires MayBeBest(env, s, call, best) && Effective(env, threshold) <= 1.0
    ensures IsHit(env, s, call, threshold, best) && best.value in s.store
  {
    var live, q := Live(s.store, NamespaceFor(env, call), s.now), QueryOf(env, call);
    assert e.id in live;
    assert live[e.id].embedding == q;
    CosineSelf(env.sqrt, q);
    assert Score(env.sqrt, q, live[e.id]) == 1.0;
  }

  /** What a commit leaves in the store. */
  lemma CommitStores(env: Env, states: seq<State>, acts: seq<Action>, i: nat)
    requires Run(env, states, acts) && i < |acts| && acts[i].Commit?
    ensures acts[i].rid in states[i].reqs && acts[i].id in states[i + 1].store && states[i + 1].now == states[i].now
    ensures var e, first := states[i + 1].store[acts[i].id], states[i].reqs[acts[i].rid].call;
            && Holds(states[i + 1].store, e) && e.namespace == NamespaceFor(env, first) && e.prompt == PromptOf(first)
            && e.createdAt == states[i].now && e.ttlSeconds > 0
  {
    RunKeeps(env, states, acts, i);
    assert StepsAt(env, states, acts, i);
    assert ReqOk(env, states[i].reqs[acts[i].rid]);
  }

  /** While it is held and live, an entry answers its own prompt. */
  lemma HeldIsServed(env: Env, states: seq<State>, acts: seq<Action>, e: Entry, j: nat)
    requires ValidEnv(env) && Run(env, states, acts) && j < |acts| && acts[j].Arrive?
    requires Holds(states[j].store, e) && IsLive(e, NamespaceFor(env, acts[j].call), states[j].now)
    requires e.prompt == PromptOf(acts[j].call) && Effective(env, acts[j].threshold) <= 1.0
    ensures acts[j].rid in states[j + 1].reqs && states[j + 1].reqs[acts[j].rid].phase.Serving?
  {
    assert StepsAt(env, states, acts, j);
    RunFits(env, states, acts, j);
    LiveEntryHits(env, states[j], e, acts[j].call, acts[j].threshold, acts[j].best);
  }

  /** In every run: once a commit stored an entry, a later request of the same
      namespace and prompt is served from the cache, with no upstream call, at
      any time up to and including the entry's TTL, for every threshold up to 1,
      whatever other requests did in between, as long as no invalidation matched
      the entry. */
  lemma RepeatIsAHit(env: Env, states: seq<State>, acts: seq<Action>, i: nat, j: nat)
    requires ValidEnv(env) && Run(env, states, acts) && i < j < |acts|
    requires acts[i].Commit? && acts[j].Arrive?
    requires acts[i].rid in states[i].reqs && acts[i].id in states[i + 1].store
    requires var first := states[i].reqs[acts[i].rid].call;
             && NamespaceFor(env, acts[j].call) == NamespaceFor(env, first)
             && PromptOf(acts[j].call) == PromptOf(first)
    requires var e := states[i + 1].store[acts[i].id];
             && (forall k | i < k < j :: !Evicts(acts[k], e))
             && states[j].now - states[i].now <= e.ttlSeconds as real
    requires Demanded(env, acts[j].threshold, 1.0)
    ensures acts[j].rid in states[j + 1].reqs && states[j + 1].reqs[acts[j].rid].phase.Serving?
  {
    CommitStores(env, states, acts, i);
    var e := states[i + 1].store[acts[i].id];
    RunHolds(env, states, acts, e, i + 1, j);
    HeldIsServed(env, states, acts, e, j);
  }

  /** The same request of the same tenant is such a repeat. */
  lemma IdenticalRequestIsAHit(env: Env, states: seq<State>, acts: seq<Action>, i: nat, j: nat)
    requires ValidEnv(env) && Run(env, states, acts) && i < j < |acts|
    requires acts[i].Commit? && acts[j].Arrive?
    requires acts[i].rid in states[i].reqs && acts[i].id in states[i + 1].store
    requires var first := states[i].reqs[acts[i].rid].call;
             acts[j].call.request == first.request && acts[j].call.tenant == first.tenant
    requires var e := states[i + 1].store[acts[i].id];
             && (forall k | i < k < j :: !Evicts(acts[k], e))
             && states[j].now - states[i].now <= e.ttlSeconds as real
    requires Demanded(env, acts[j].threshold, 1.0)
    ensures acts[j].rid in states[j + 1].reqs && states[j + 1].reqs[acts[j].rid].phase.Serving?
  {
    RepeatIsAHit(env, states, acts, i, j);
  }

  /** A score reaches what a request demands: its own threshold, or the default
      one when it has none. */
  predicate Demanded(env: Env, threshold: Option<real>, score: real) {
    (threshold.Some? ==> score >= threshold.value) && (threshold.None? ==> score >= env.defaultThreshold)
  }

  function SimilarityTo(env: Env, call: Call, e: Entry): real
    requires |e.embedding| == |env.embed(call.request.LatestUserPrompt())|
  {
    CosineSimilarity(env.sqrt, env.embed(call.request.LatestUserPrompt()), e.embedding)
  }

  /** And a miss is never avoidable: when a request is not served, every unexpired
      entry of its namespace is less similar than it demands. */
  lemma MissIsJustified(env: Env, states: seq<State>, acts: seq<Action>, k: nat)
    requires Run(env, states, acts) && k < |acts| && acts[k].Arrive?
    requires acts[k].rid in states[k + 1].reqs && !states[k + 1].reqs[acts[k].rid].phase.Serving?
    ensures var s, call := states[k], acts[k].call;
            forall id | id in s.store && Fresh(s.store[id], NamespaceFor(env, call), s.now) ::
              && |s.store[id].embedding| == |env.embed(call.request.LatestUserPrompt())|
              && !Demanded(env, acts[k].threshold, SimilarityTo(env, call, s.store[id]))
  {
    var s, call := states[k], acts[k].call;
    assert StepsAt(env, states, acts, k);
    var live := Live(s.store, NamespaceFor(env, call), s.now);
    LiveIsFresh(s.store, NamespaceFor(env, call), s.now);
    forall id | id in s.store && Fresh(s.store[id], NamespaceFor(env, call), s.now)
      ensures |s.store[id].embedding| == |QueryOf(env, call)|
      ensures Score(env.sqrt, QueryOf(env, call), s.store[id]) < Effective(env, acts[k].threshold)
    {
      assert id in live && live[id] == s.store[id];
      assert acts[k].best.Some? && live[acts[k].best.value] == s.store[acts[k].best.value];
    }
  }

  /** An unexpired entry of the namespace less similar than demanded by no more
      than the near-miss window. */
  ghost predicate NearlyHits(env: Env, s: State, call: Call, threshold: Option<real>, id: string) {
    && id in s.store && Fresh(s.store[id], NamespaceFor(env, call), s.now)
    && |s.store[id].embedding| == |env.embed(call.request.LatestUserPrompt())|
    && Demanded(env, threshold, SimilarityTo(env, call, s.store[id]) + env.nearMissWindow)
  }

  /** A near miss is recorded exactly when a request is not served and an entry
      comes within the window of what it demands; what is recorded is the highest
      similarity, the threshold, the namespace, the start of the prompt and the
      time. */
  lemma NearMissIff(env: Env, states: seq<State>, acts: seq<Action>, k: nat)
    requires Run(env, states, acts) && k < |acts| && acts[k].Arrive? && acts[k].rid in states[k + 1].reqs
    ensures var s, t, call := states[k], states[k + 1], acts[k].call;
            var near := !t.reqs[acts[k].rid].phase.Serving? && exists id :: NearlyHits(env, s, call, acts[k].threshold, id);
            if near then exists m :: t.misses == NearMiss.RecordOne(s.misses, env.trackerCapacity, m) && Records(env, s, call, acts[k].threshold, m)
            else t.misses == s.misses
  {
    var s, t, call := states[k], states[k + 1], acts[k].call;
    assert StepsAt(env, states, acts, k);
    LiveIsFresh(s.store, NamespaceFor(env, call), s.now);
    if IsHit(env, s, call, acts[k].threshold, acts[k].best) {
      assert t.misses == s.misses;
    } else {
      MissRecords(env, s, acts[k], t);
    }
  }

  ghost predicate Records(env: Env, s: State, call: Call, threshold: Option<real>, m: NearMiss.Event) {
    && m.threshold == (if threshold.Some? then threshold.value else env.defaultThreshold)
    && (exists id :: NearlyHits(env, s, call, threshold, id) && m.score == SimilarityTo(env, call, s.store[id]))
    && (forall id | NearlyHits(env, s, call, threshold, id) :: SimilarityTo(env, call, s.store[id]) <= m.score)
    && m.namespace == NamespaceFor(env, call) && m.timestamp == s.now
    && m.promptPreview <= call.request.LatestUserPrompt()
  }

  lemma MissRecords(env: Env, s: State, a: Action, t: State)
    requires Steps(env, s, a, t) && a.Arrive? && !IsHit(env, s, a.call, a.threshold, a.best)
    ensures if exists id :: NearlyHits(env, s, a.call, a.threshold, id)
            then exists m :: t.misses == NearMiss.RecordOne(s.misses, env.trackerCapacity, m) && Records(env, s, a.call, a.threshold, m)
            else t.misses == s.misses
  {
    var live, thr := Live(s.store, NamespaceFor(env, a.call), s.now), Effective(env, a.threshold);
    LiveIsFresh(s.store, NamespaceFor(env, a.call), s.now);
    if id :| NearlyHits(env, s, a.call, a.threshold, id) {
      assert id in live && live[id] == s.store[id];
      assert a.best.Some? && live[a.best.value] == s.store[a.best.value];
      assert NearlyHits(env, s, a.call, a.threshold, a.best.value);
      var m := NearMiss.MakeEvent(ScoreOf(env, s, a.call, a.best), thr, NamespaceFor(env, a.call), PromptOf(a.call), s.now);
      assert IsNearMiss(env, s, a.call, a.threshold, a.best);
      assert Records(env, s, a.call, a.threshold, m);
    } else if a.best.Some? {
      assert live[a.best.value] == s.store[a.best.value];
      assert !NearlyHits(env, s, a.call, a.threshold, a.best.value);
    }
  }

  /** The steps by which a request calls upstream, hears from it, or stores what
      it got. */
  predicate GoesUpstream(a: Action, rid: nat) {
    (a.Chunk? || a.UpstreamEnd? || a.UpstreamFail? || a.Reply? || a.EmbedFail? || a.Commit?) && a.rid == rid
  }

  ghost predicate StillServed(s: State, rid: nat, q: InFlight) { q.phase.Serving? && rid in s.reqs && s.reqs[rid] == q }

  lemma ServedStays(env: Env, s: State, a: Action, t: State, rid: nat, q: InFlight)
    requires StillServed(s, rid, q) && Steps(env, s, a, t)
    ensures StillServed(t, rid, q) && !GoesUpstream(a, rid)
  {
  }

  lemma {:induction false} RunStaysServed(env: Env, states: seq<State>, acts: seq<Action>, rid: nat, q: InFlight, j: nat, k: nat)
    requires Run(env, states, acts) && j <= k < |states| && StillServed(states[j], rid, q)
    ensures StillServed(states[k], rid, q)
    decreases k
  {
    if j < k {
      RunStaysServed(env, states, acts, rid, q, j, k - 1);
      assert StepsAt(env, states, acts, k - 1);
      ServedStays(env, states[k - 1], acts[k - 1], states[k], rid, q);
    }
  }

  /** A request served from the cache stays served: in the rest of every run it
      takes no upstream step, and keeps the entry it was answered with. */
  lemma ServedNeverGoesUpstream(env: Env, states: seq<State>, acts: seq<Action>, rid: nat, j: nat, k: nat)
    requires Run(env, states, acts) && j <= k < |acts|
    requires rid in states[j].reqs && states[j].reqs[rid].phase.Serving?
    ensures rid in states[k + 1].reqs && states[k + 1].reqs[rid] == states[j].reqs[rid]
    ensures !GoesUpstream(acts[k], rid)
  {
    RunStaysServed(env, states, acts, rid, states[j].reqs[rid], j, k);
    assert StepsAt(env, states, acts, k);
    ServedStays(env, states[k], acts[k], states[k + 1], rid, states[j].reqs[rid]);
  }

  // ----- replay -----

  /** The upstream bytes of a stream were `r` rendered, with an id, a creation
      time, the requested model and a finish reason. */
  ghost predicate Streamed(q: InFlight, r: Response) {
    && q.call.stream
    && Render.ResponseToSse(r).Ok? && Sse.Concat(q.received) == Sse.Concat(Render.ResponseToSse(r).value)
    && r.id != "" && r.created != 0 && r.model == q.call.request.model
    && (r.choices == [] || TextOr(r.choices[0].finishReason, "") != "")
  }

  /** Replaying the stored response gives the bytes and the text of `r`, which
      are the bytes the client of `q` got. */
  ghost predicate Replays(q: InFlight, stored: Response, r: Response) {
    && Render.ResponseToSse(stored).Ok?
    && Render.ResponseToSse(stored) == Render.ResponseToSse(r)
    && Sse.Concat(Render.ResponseToSse(stored).value) == Sse.Concat(q.yielded)
    && stored.FirstText() == r.FirstText()
  }

  /** A cached stream is stored as a response that replays byte for byte. */
  lemma StreamReplaysIdentically(env: Env, states: seq<State>, acts: seq<Action>, k: nat, i: nat, r: Response)
    requires ValidEnv(env) && Run(env, states, acts) && k < |states|
    requires i < |states[k].log| && states[k].log[i].Stored?
    requires states[k].log[i].rid in states[k].reqs && Streamed(states[k].reqs[states[k].log[i].rid], r)
    ensures Replays(states[k].reqs[states[k].log[i].rid], states[k].log[i].entry.response, r)
  {
    NeverCachePartial(env, states, acts, k, i);
    var q, e := states[k].reqs[states[k].log[i].rid], states[k].log[i].entry;
    var seed :| Sse.BuildResponse(Sse.PushAll(Sse.EMPTY, q.received).value.core, q.call.request.model, env.asInt, seed) == Ok(e.response);
    Render.RenderAssembleRoundTrip(r, q.received, q.call.request.model, env.asInt, seed);
    Render.ReplayIsIdentical(r, q.call.request.model, seed);
  }

  /** In every run, whoever is answered from an entry that a stream stored gets
      the bytes that the client of that stream got, however both were cut into
      chunks: for the origin of the entry and whatever response was streamed. */
  lemma HitReplaysFirstStream(env: Env, states: seq<State>, acts: seq<Action>, k: nat, i: nat, r: Response)
    requires ValidEnv(env) && Run(env, states, acts) && k < |acts| && acts[k].Arrive?
    requires acts[k].rid in states[k + 1].reqs && states[k + 1].reqs[acts[k].rid].phase.Serving?
    requires OriginAt(states[k].log, i, states[k + 1].reqs[acts[k].rid].phase.entry)
    requires states[k].log[i].rid in states[k].reqs && Streamed(states[k].reqs[states[k].log[i].rid], r)
    ensures Replays(states[k].reqs[states[k].log[i].rid], states[k + 1].reqs[acts[k].rid].phase.entry.response, r)
  {
    StreamReplaysIdentically(env, states, acts, k, i, r);
    assert SameEntry(states[k].log[i].entry, states[k + 1].reqs[acts[k].rid].phase.entry);
  }
}
