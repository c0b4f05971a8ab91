/** What every run of the proxy keeps: only whole generations are cached, every
    entry in the store has an unrevoked origin, and a HIT serves the right one. */
module ProxySafety {
  import opened Wrappers
  import opened Utf8
  import opened Chat
  import opened Similarity
  import opened Store
  import opened Proxy
  import Namespace
  import NearMiss
  import Sse

  // ----- the invariant, request by request -----

  /** `response` is the pure assembly of exactly the bytes received, all of
      them were forwarded, and they hold a terminated `data: [DONE]` event. */
  ghost predicate WholeStream(env: Env, r: InFlight, response: Response) {
    && r.yielded == r.received
    && Sse.ContainsDone(Sse.Concat(r.received))
    && Sse.PushAll(Sse.EMPTY, r.received).Ok?
    && exists seed :: Sse.BuildResponse(Sse.PushAll(Sse.EMPTY, r.received).value.core, r.call.request.model, env.asInt, seed) == Ok(response)
  }

  ghost predicate Whole(env: Env, r: InFlight, response: Response) {
    if r.call.stream then WholeStream(env, r, response) else r.reply == Some(response)
  }

  /** A stream that has pushed all it received. */
  ghost predicate Pushed(r: InFlight, a: Sse.Assembler) {
    r.call.stream && Sse.PushAll(Sse.EMPTY, r.received) == Ok(a)
  }

  ghost predicate ReqOk(env: Env, r: InFlight) {
    && r.yielded <= r.received
    && match r.phase
       case Awaiting(a) => Pushed(r, a) && r.yielded == r.received
       case Yielding(a, chunk) => Pushed(r, a) && r.received == r.yielded + [chunk]
       case Waiting => !r.call.stream
       case Storing(response, ttl, tags) =>
         Whole(env, r, response) && ttl > 0 && ResolvePolicy(env, r.call.request, response) == (ttl, tags)
       case _ => true
  }

  /** The entry a finished request stored. */
  ghost predicate StoredOk(env: Env, r: InFlight, e: Entry) {
    && r.phase == Finished
    && e.ttlSeconds > 0
    && ResolvePolicy(env, r.call.request, e.response) == (e.ttlSeconds, e.tags)
    && e == MakeEntry(env, r.call, e.response, e.ttlSeconds, e.tags, e.id, e.createdAt)
    && Whole(env, r, e.response)
  }

  ghost predicate EventOk(env: Env, reqs: map<nat, InFlight>, now: real, ev: Event) {
    && (ev.Stored? ==> ev.rid in reqs && StoredOk(env, reqs[ev.rid], ev.entry) && ev.entry.createdAt <= now)
    && (ev.Served? ==> ev.rid in reqs && reqs[ev.rid].phase.Serving? && reqs[ev.rid].phase.entry.id == ev.id)
  }

  /** Equal up to the hit counter, the one field that changes. */
  predicate SameEntry(d: Entry, e: Entry) { d.(hitCount := 0) == e.(hitCount := 0) }

  /** The events that remove an entry. */
  predicate Revokes(ev: Event, e: Entry) {
    match ev
    case Stored(_, _) => false
    case Served(_, _) => false
    case Invalidated(f) => !f.Empty() && f.Matches(e)
    case Cleared => true
  }

  /** How often an entry was served after `log[i]`. */
  function ServedSince(log: seq<Event>, i: nat, id: string): nat {
    if |log| <= i + 1 then 0
    else
      var k := |log| - 1;
      ServedSince(log[..k], i, id) + if log[k].Served? && log[k].id == id then 1 else 0
  }

  /** `log[i]` stored the entry, nothing since revoked it, and its counter tells
      how often it was served since. */
  ghost predicate OriginAt(log: seq<Event>, i: nat, e: Entry) {
    && i < |log| && log[i].Stored? && SameEntry(log[i].entry, e)
    && e.hitCount == ServedSince(log, i, e.id)
    && forall j | i < j < |log| :: !Revokes(log[j], e)
  }

  ghost predicate HasOrigin(log: seq<Event>, e: Entry) { exists i: nat :: OriginAt(log, i, e) }

  ghost predicate NearMissOk(env: Env, m: NearMiss.Event) { 0.0 < m.Gap() <= env.nearMissWindow }

  ghost predicate ReqsOk(env: Env, reqs: map<nat, InFlight>) {
    forall rid | rid in reqs :: ReqOk(env, reqs[rid])
  }

  ghost predicate LogOk(env: Env, reqs: map<nat, InFlight>, now: real, log: seq<Event>) {
    forall i | 0 <= i < |log| :: EventOk(env, reqs, now, log[i])
  }

  ghost predicate OneWriteEach(log: seq<Event>) {
    forall i, j | 0 <= i < j < |log| && log[i].Stored? && log[j].Stored? :: log[i].rid != log[j].rid
  }

  ghost predicate StoreOk(store: Entries, log: seq<Event>) {
    forall id | id in store :: store[id].id == id && HasOrigin(log, store[id])
  }

  ghost predicate MissesOk(env: Env, misses: seq<NearMiss.Event>) {
    |misses| <= env.trackerCapacity && forall i | 0 <= i < |misses| :: NearMissOk(env, misses[i])
  }

  ghost predicate Inv(env: Env, s: State) {
    && ReqsOk(env, s.reqs)
    && LogOk(env, s.reqs, s.now, s.log)
    && OneWriteEach(s.log)
    && StoreOk(s.store, s.log)
    && MissesOk(env, s.misses)
  }

  // ----- small facts -----

  lemma {:induction false} PushAllSnoc(a: Sse.Assembler, chunks: seq<Bytes>, chunk: Bytes)
    ensures Sse.PushAll(a, chunks + [chunk]) ==
            var r := Sse.PushAll(a, chunks);
            if r.Raise? then r else Sse.Push(r.value, chunk)
    decreases |chunks|
  {
    if chunks == [] {
      assert [chunk][1..] == [];
      assert chunks + [chunk] == [chunk];
      var r := Sse.Push(a, chunk);
      assert r.Ok? ==> Sse.PushAll(r.value, []) == r;
    } else {
      assert (chunks + [chunk])[1..] == chunks[1..] + [chunk];
      var r := Sse.Push(a, chunks[0]);
      if r.Ok? {
        PushAllSnoc(r.value, chunks[1..], chunk);
      }
    }
  }

  /** An event that neither revokes an entry nor serves it. */
  predicate Spares(ev: Event, e: Entry) { !Revokes(ev, e) && !(ev.Served? && ev.id == e.id) }

  lemma OriginSurvives(log: seq<Event>, e: Entry, ev: Event)
    requires HasOrigin(log, e) && Spares(ev, e)
    ensures HasOrigin(log + [ev], e)
  {
    var i: nat :| OriginAt(log, i, e);
    assert (log + [ev])[..|log|] == log;
    assert OriginAt(log + [ev], i, e);
  }

  lemma OriginServed(log: seq<Event>, e: Entry, rid: nat)
    requires HasOrigin(log, e)
    ensures HasOrigin(log + [Served(rid, e.id)], e.(hitCount := e.hitCount + 1))
  {
    var i: nat :| OriginAt(log, i, e);
    var d, grown := e.(hitCount := e.hitCount + 1), log + [Served(rid, e.id)];
    assert grown[..|log|] == log;
    assert forall ev :: Revokes(ev, d) == Revokes(ev, e);
    assert OriginAt(grown, i, d);
  }

  /** The phases that the log speaks about. */
  predicate Settled(p: Phase) { p.Finished? || p.Serving? }

  /** Moving a request that has stored nothing leaves the log as good as it was. */
  lemma LogIgnores(env: Env, reqs: map<nat, InFlight>, now: real, log: seq<Event>, rid: nat, r: InFlight)
    requires LogOk(env, reqs, now, log) && (rid in reqs ==> !Settled(reqs[rid].phase))
    ensures LogOk(env, reqs[rid := r], now, log)
    ensures forall i | 0 <= i < |log| && log[i].Stored? :: log[i].rid != rid
  {
    forall i | 0 <= i < |log|
      ensures EventOk(env, reqs[rid := r], now, log[i])
      ensures log[i].Stored? ==> log[i].rid != rid
    {
      assert EventOk(env, reqs, now, log[i]);
    }
  }

  /** A step that touches one request, and none that has stored anything. */
  lemma OneRequestMoves(env: Env, s: State, rid: nat, r: InFlight)
    requires Inv(env, s) && ReqOk(env, r)
    requires rid in s.reqs ==> !Settled(s.reqs[rid].phase)
    ensures Inv(env, s.(reqs := s.reqs[rid := r]))
  {
    LogIgnores(env, s.reqs, s.now, s.log, rid, r);
  }

  // ----- every step keeps it -----

  lemma ArriveKeeps(env: Env, s: State, rid: nat, call: Call, threshold: Option<real>, best: Option<string>, t: State)
    requires Inv(env, s) && rid !in s.reqs
    requires t == DoArrive(env, s, rid, call, threshold, best)
    ensures Inv(env, t)
  {
    if IsHit(env, s, call, threshold, best) && best.value in s.store {
      var r := InFlight(call, Serving(s.store[best.value]), [], [], None);
      OneRequestMoves(env, s, rid, r);
      HitKeeps(env, s.(reqs := s.reqs[rid := r]), rid, best.value);
    } else {
      var r := InFlight(call, if call.stream then Awaiting(Sse.EMPTY) else Waiting, [], [], None);
      assert Sse.PushAll(Sse.EMPTY, []) == Ok(Sse.EMPTY);
      OneRequestMoves(env, s, rid, r);
      if IsNearMiss(env, s, call, threshold, best) {
        var miss := NearMiss.MakeEvent(ScoreOf(env, s, call, best), Effective(env, threshold), NamespaceFor(env, call), PromptOf(call), s.now);
        assert NearMissOk(env, miss);
        RecordKeeps(env, s.(reqs := s.reqs[rid := r]), miss);
      }
    }
  }

  lemma HitKeeps(env: Env, s: State, rid: nat, id: string)
    requires Inv(env, s) && id in s.store
    requires rid in s.reqs && s.reqs[rid].phase == Serving(s.store[id])
    ensures Inv(env, s.(store := Hit(s.store, id), log := s.log + [Served(rid, id)]))
  {
    LogGrows(env, s.reqs, s.now, s.log, Served(rid, id));
    StoreServed(s.store, s.log, rid, id);
  }

  lemma StoreServed(store: Entries, log: seq<Event>, rid: nat, id: string)
    requires StoreOk(store, log) && id in store
    ensures StoreOk(Hit(store, id), log + [Served(rid, id)])
  {
    var after := log + [Served(rid, id)];
    OriginServed(log, store[id], rid);
    forall k | k in store && k != id
      ensures HasOrigin(after, store[k])
    {
      OriginSurvives(log, store[k], Served(rid, id));
    }
  }

  lemma RecordKeeps(env: Env, s: State, miss: NearMiss.Event)
    requires Inv(env, s) && NearMissOk(env, miss)
    ensures Inv(env, s.(misses := NearMiss.RecordOne(s.misses, env.trackerCapacity, miss)))
  {
    var misses := NearMiss.RecordOne(s.misses, env.trackerCapacity, miss);
    forall i | 0 <= i < |misses|
      ensures NearMissOk(env, misses[i])
    {
      assert misses[i] in s.misses + [miss];
    }
    assert MissesOk(env, misses);
  }

  lemma ChunkKeeps(env: Env, s: State, rid: nat, bytes: Bytes, t: State)
    requires Inv(env, s) && rid in s.reqs && s.reqs[rid].phase.Awaiting?
    requires t == DoChunk(s, rid, bytes)
    ensures Inv(env, t)
  {
    var r := s.reqs[rid];
    assert ReqOk(env, r);
    PushAllSnoc(Sse.EMPTY, r.received, bytes);
    var pushed := Sse.Push(r.phase.assembler, bytes);
    var phase := if pushed.Raise? then Failed else Yielding(pushed.value, bytes);
    OneRequestMoves(env, s, rid, r.(phase := phase, received := r.received + [bytes]));
  }

  lemma TakeKeeps(env: Env, s: State, rid: nat, t: State)
    requires Inv(env, s) && rid in s.reqs && s.reqs[rid].phase.Yielding?
    requires t == DoTake(s, rid)
    ensures Inv(env, t)
  {
    var r := s.reqs[rid];
    assert ReqOk(env, r);
    OneRequestMoves(env, s, rid, r.(phase := Awaiting(r.phase.assembler), yielded := r.yielded + [r.phase.chunk]));
  }

  lemma EndKeeps(env: Env, s: State, rid: nat, seed: Sse.Seed, t: State)
    requires Inv(env, s) && rid in s.reqs && s.reqs[rid].phase.Awaiting?
    requires t == WithPhase(s, rid, EndPhase(env, s.reqs[rid], seed))
    ensures Inv(env, t)
  {
    var r := s.reqs[rid];
    assert ReqOk(env, r);
    var a, p := r.phase.assembler, EndPhase(env, r, seed);
    if p.Storing? {
      Sse.CompletedIffDone(r.received);
      assert Sse.BuildResponse(a.core, r.call.request.model, env.asInt, seed) == Ok(p.response);
      assert WholeStream(env, r.(phase := p), p.response);
    }
    OneRequestMoves(env, s, rid, r.(phase := p));
  }

  lemma CommitKeeps(env: Env, s: State, rid: nat, id: string, t: State)
    requires Inv(env, s) && rid in s.reqs && s.reqs[rid].phase.Storing?
    requires t == DoCommit(env, s, rid, id)
    ensures Inv(env, t)
  {
    var r := s.reqs[rid];
    var done, e := t.reqs[rid], t.store[id];
    assert ReqOk(env, r);
    StoresWhole(env, r, done, id, s.now);
    LogIgnores(env, s.reqs, s.now, s.log, rid, done);
    LogGrows(env, t.reqs, s.now, s.log, Stored(rid, e));
    StoreGrows(s.store, s.log, rid, e);
  }

  lemma StoresWhole(env: Env, r: InFlight, done: InFlight, id: string, now: real)
    requires ReqOk(env, r) && r.phase.Storing? && done == r.(phase := Finished)
    ensures ReqOk(env, done)
    ensures StoredOk(env, done, MakeEntry(env, r.call, r.phase.response, r.phase.ttl, r.phase.tags, id, now))
  {
    WholeIgnoresPhase(env, r, done, r.phase.response);
  }

  lemma WholeIgnoresPhase(env: Env, r: InFlight, q: InFlight, response: Response)
    requires Whole(env, r, response) && q == r.(phase := q.phase)
    ensures Whole(env, q, response)
  {
  }

  lemma LogGrows(env: Env, reqs: map<nat, InFlight>, now: real, log: seq<Event>, ev: Event)
    requires LogOk(env, reqs, now, log) && EventOk(env, reqs, now, ev) && OneWriteEach(log)
    requires ev.Stored? ==> forall i | 0 <= i < |log| && log[i].Stored? :: log[i].rid != ev.rid
    ensures LogOk(env, reqs, now, log + [ev]) && OneWriteEach(log + [ev])
  {
  }

  lemma StoreGrows(store: Entries, log: seq<Event>, rid: nat, e: Entry)
    requires StoreOk(store, log) && e.hitCount == 0
    ensures StoreOk(store[e.id := e], log + [Stored(rid, e)])
  {
    var grown := log + [Stored(rid, e)];
    assert OriginAt(grown, |log|, e);
    forall id | id in store
      ensures HasOrigin(grown, store[id])
    {
      OriginSurvives(log, store[id], Stored(rid, e));
    }
  }

  lemma RemovalKeeps(env: Env, s: State, t: State, ev: Event)
    requires Inv(env, s) && !ev.Stored? && !ev.Served?
    requires t == s.(store := t.store, log := s.log + [ev])
    requires forall id | id in t.store :: id in s.store && t.store[id] == s.store[id] && !Revokes(ev, s.store[id])
    ensures Inv(env, t)
  {
    LogGrows(env, s.reqs, s.now, s.log, ev);
    forall id | id in t.store
      ensures HasOrigin(t.log, t.store[id])
    {
      OriginSurvives(s.log, s.store[id], ev);
    }
  }

  lemma TickKeeps(env: Env, s: State, dt: real, t: State)
    requires Inv(env, s) && dt >= 0.0
    requires t == s.(now := s.now + dt)
    ensures Inv(env, t)
  {
    forall i | 0 <= i < |s.log|
      ensures EventOk(env, s.reqs, s.now + dt, s.log[i])
    {
      assert EventOk(env, s.reqs, s.now, s.log[i]);
    }
  }

  lemma StepKeeps(env: Env, s: State, a: Action, t: State)
    requires Inv(env, s) && Steps(env, s, a, t)
    ensures Inv(env, t)
  {
    match a
    case Arrive(_, _, _, _) => ArrivalKeeps(env, s, a, t);
    case Chunk(_, _) => StreamStepKeeps(env, s, a, t);
    case Take(_) => StreamStepKeeps(env, s, a, t);
    case UpstreamEnd(_, _) => StreamStepKeeps(env, s, a, t);
    case UpstreamFail(_) => StoppingKeeps(env, s, a, t);
    case EmbedFail(_) => StoppingKeeps(env, s, a, t);
    case Close(_) => StoppingKeeps(env, s, a, t);
    case Reply(_, _) => WriteStepKeeps(env, s, a, t);
    case Commit(_, _) => WriteStepKeeps(env, s, a, t);
    case Tick(dt) => TickKeeps(env, s, dt, t);
    case _ => InvalidationKeeps(env, s, a, t);
  }

  lemma ArrivalKeeps(env: Env, s: State, a: Action, t: State)
    requires Inv(env, s) && Steps(env, s, a, t) && a.Arrive?
    ensures Inv(env, t)
  {
    ArriveKeeps(env, s, a.rid, a.call, a.threshold, a.best, t);
  }

  lemma StreamStepKeeps(env: Env, s: State, a: Action, t: State)
    requires Inv(env, s) && Steps(env, s, a, t) && (a.Chunk? || a.Take? || a.UpstreamEnd?)
    ensures Inv(env, t)
  {
    match a
    case Chunk(rid, bytes) => ChunkKeeps(env, s, rid, bytes, t);
    case Take(rid) => TakeKeeps(env, s, rid, t);
    case UpstreamEnd(rid, seed) => EndKeeps(env, s, rid, seed, t);
  }

  lemma StoppingKeeps(env: Env, s: State, a: Action, t: State)
    requires Inv(env, s) && Steps(env, s, a, t) && (a.UpstreamFail? || a.EmbedFail? || a.Close?)
    ensures Inv(env, t)
  {
    StopKeeps(env, s, a.rid, if a.Close? then Closed else Failed, t);
  }

  lemma WriteStepKeeps(env: Env, s: State, a: Action, t: State)
    requires Inv(env, s) && Steps(env, s, a, t) && (a.Reply? || a.Commit?)
    ensures Inv(env, t)
  {
    match a
    case Reply(rid, response) => ReplyKeeps(env, s, rid, response, t);
    case Commit(rid, id) => CommitKeeps(env, s, rid, id, t);
  }

  lemma InvalidationKeeps(env: Env, s: State, a: Action, t: State)
    requires Inv(env, s) && Steps(env, s, a, t) && (a.Delete? || a.ClearAll?)
    ensures Inv(env, t)
  {
    match a
    case Delete(f) => RemovalKeeps(env, s, t, Invalidated(f));
    case ClearAll => RemovalKeeps(env, s, t, Cleared);
  }

  lemma StopKeeps(env: Env, s: State, rid: nat, p: Phase, t: State)
    requires Inv(env, s) && rid in s.reqs && InProgress(s.reqs[rid].phase) && (p == Failed || p == Closed)
    requires t == WithPhase(s, rid, p)
    ensures Inv(env, t)
  {
    assert ReqOk(env, s.reqs[rid]);
    OneRequestMoves(env, s, rid, s.reqs[rid].(phase := p));
  }

  lemma ReplyKeeps(env: Env, s: State, rid: nat, response: Response, t: State)
    requires Inv(env, s) && rid in s.reqs && s.reqs[rid].phase.Waiting?
    requires t == DoReply(env, s, rid, response)
    ensures Inv(env, t)
  {
    var r := s.reqs[rid];
    assert ReqOk(env, r);
    OneRequestMoves(env, s, rid, r.(phase := AfterResponse(env, r.call.request, response), reply := Some(response)));
  }

  lemma {:induction false} RunKeeps(env: Env, states: seq<State>, acts: seq<Action>, i: nat)
    requires Run(env, states, acts) && i < |states|
    ensures Inv(env, states[i])
  {
    if i > 0 {
      RunKeeps(env, states, acts, i - 1);
      assert StepsAt(env, states, acts, i - 1);
      StepKeeps(env, states[i - 1], acts[i - 1], states[i]);
    }
  }

  // ----- the hit counter -----

  /** In every run an entry's counter is exactly the number of requests it has
      answered since the event that stored it. */
  lemma HitsAreConserved(env: Env, states: seq<State>, acts: seq<Action>, k: nat, id: string)
    requires Run(env, states, acts) && k < |states| && id in states[k].store
    ensures exists i: nat :: OriginAt(states[k].log, i, states[k].store[id])
                             && states[k].log[i].entry.id == id
                             && states[k].store[id].hitCount == ServedSince(states[k].log, i, id)
  {
    RunKeeps(env, states, acts, k);
    var i: nat :| OriginAt(states[k].log, i, states[k].store[id]);
  }

  // ----- never cache a partial -----

  /** In every run, whatever the streams, failures, client closes and
      invalidations in between: each write belongs to a request that finished
      and to no other write; its TTL is positive; for a stream, every byte
      received was forwarded, the bytes hold a terminated DONE event, and the
      entry holds the pure assembly of exactly those bytes. */
  lemma NeverCachePartial(env: Env, states: seq<State>, acts: seq<Action>, k: nat, i: nat)
    requires Run(env, states, acts) && k < |states|
    requires i < |states[k].log| && states[k].log[i].Stored?
    ensures var s := states[k];
            var Stored(rid, e) := s.log[i];
            && rid in s.reqs && s.reqs[rid].phase == Finished
            && (forall j | 0 <= j < |s.log| && s.log[j].Stored? && s.log[j].rid == rid :: j == i)
            && e.ttlSeconds > 0
            && (s.reqs[rid].call.stream ==> WholeStream(env, s.reqs[rid], e.response))
            && (!s.reqs[rid].call.stream ==> s.reqs[rid].reply == Some(e.response))
  {
    RunKeeps(env, states, acts, k);
    assert EventOk(env, states[k].reqs, states[k].now, states[k].log[i]);
  }

  /** Every entry belongs to the request that stored it: its keys for lookup and
      invalidation, prompt, token counts, lifetime and tags are those of that
      request, its response and the policy. */
  lemma EntryIsOfItsRequest(env: Env, states: seq<State>, acts: seq<Action>, k: nat, i: nat)
    requires Run(env, states, acts) && k < |states|
    requires i < |states[k].log| && states[k].log[i].Stored?
    ensures var s := states[k];
            var Stored(rid, e) := s.log[i];
            && rid in s.reqs
            && var call := s.reqs[rid].call;
               var r := call.request;
               && e.model == r.model && e.provider == env.resolveProvider(r) && e.temperature == r.temperature && e.maxTokens == r.maxTokens
               && e.systemPromptHash == Namespace.HashSystemPrompt(env.sha, r.SystemPrompt())
               && e.namespace == Namespace.NamespaceOf(env.sha, Namespace.Signature(r.model, e.provider, r.SystemPrompt(), r.temperature, r.maxTokens, call.tenant))
               && e.prompt == r.LatestUserPrompt() && e.embedding == env.embed(e.prompt)
               && e.promptTokens == e.response.usage.promptTokens && e.completionTokens == e.response.usage.completionTokens
               && e.hitCount == 0 && e.metadata == map[] && e.createdAt <= s.now && e.ttlSeconds > 0
               && (env.ttlPolicy.Some? ==> env.ttlPolicy.value(r, e.response) == (e.ttlSeconds, e.tags))
               && (env.ttlPolicy.None? ==> e.ttlSeconds == env.defaultTtl)
               && (env.ttlPolicy.None? ==> e.tags == if r.cacheTags.Some? then r.cacheTags.value else [])
  {
    RunKeeps(env, states, acts, k);
    assert EventOk(env, states[k].reqs, states[k].now, states[k].log[i]);
  }

  /** What the client of a miss stream got is always a prefix of what the proxy
      received, in every run. */
  lemma YieldedIsPrefix(env: Env, states: seq<State>, acts: seq<Action>, k: nat, rid: nat)
    requires Run(env, states, acts) && k < |states| && rid in states[k].reqs
    ensures states[k].reqs[rid].yielded <= states[k].reqs[rid].received
  {
    RunKeeps(env, states, acts, k);
    assert ReqOk(env, states[k].reqs[rid]);
  }

  /** Every near miss the proxy reports lies below its threshold, by no more
      than the window. */
  lemma NearMissGaps(env: Env, states: seq<State>, acts: seq<Action>, k: nat, i: nat)
    requires Run(env, states, acts) && k < |states| && i < |states[k].misses|
    ensures 0.0 < states[k].misses[i].threshold - states[k].misses[i].score <= env.nearMissWindow
  {
    RunKeeps(env, states, acts, k);
    assert NearMissOk(env, states[k].misses[i]);
  }

  // ----- hit soundness -----

  /** The digests of the run's requests tell `call` from each of them. */
  ghost predicate NoCollisions(env: Env, s: State, call: Call) {
    forall rid | rid in s.reqs ::
      Namespace.NoCollision(env.sha, 20, Namespace.Raw(env.sha, SignatureOf(env, call)),
                            Namespace.Raw(env.sha, SignatureOf(env, s.reqs[rid].call)))
  }

  /** In every run, when a request is answered from the cache: the entry was
      stored by an earlier request that agrees on all six namespace dimensions;
      no invalidation since matched it; it is within its positive TTL; its cosine
      similarity to the prompt reaches the threshold asked for or else the default
      one, and no unexpired entry of the namespace is more similar. */
  lemma HitIsSound(env: Env, states: seq<State>, acts: seq<Action>, k: nat)
    requires ValidEnv(env) && Run(env, states, acts) && k < |acts| && acts[k].Arrive?
    requires acts[k].rid in states[k + 1].reqs && states[k + 1].reqs[acts[k].rid].phase.Serving?
    requires NoCollisions(env, states[k], acts[k].call)
    ensures var s, call := states[k], acts[k].call;
            var e := states[k + 1].reqs[acts[k].rid].phase.entry;
            && e.id in s.store && s.store[e.id] == e
            && (exists i: nat :: OriginAt(s.log, i, e) && OriginAgrees(env, s, i, e, call))
            && e.ttlSeconds > 0 && s.now <= e.createdAt + e.ttlSeconds as real
            && var q := env.embed(call.request.LatestUserPrompt());
               && |e.embedding| == |q|
               && (acts[k].threshold.Some? ==> CosineSimilarity(env.sqrt, q, e.embedding) >= acts[k].threshold.value)
               && (acts[k].threshold.None? ==> CosineSimilarity(env.sqrt, q, e.embedding) >= env.defaultThreshold)
               && forall id | id in s.store && Fresh(s.store[id], e.namespace, s.now) ::
                    && |s.store[id].embedding| == |q|
                    && CosineSimilarity(env.sqrt, q, s.store[id].embedding) <= CosineSimilarity(env.sqrt, q, e.embedding)
  {
    RunKeeps(env, states, acts, k);
    assert StepsAt(env, states, acts, k);
    var Arrive(_, call, threshold, best) := acts[k];
    HitServesBest(env, states[k], call, threshold, best);
    var e := states[k].store[best.value];
    var i: nat :| OriginAt(states[k].log, i, e);
    OriginAgreement(env, states[k], i, e, call);
    LivesUntil(e, states[k].now);
    forall id | id in states[k].store && Fresh(states[k].store[id], e.namespace, states[k].now)
      ensures IsLive(states[k].store[id], NamespaceFor(env, call), states[k].now)
    {
      LivesUntil(states[k].store[id], states[k].now);
    }
  }

  /** What the lookup of one state serves. */
  lemma HitServesBest(env: Env, s: State, call: Call, threshold: Option<real>, best: Option<string>)
    requires MayBeBest(env, s, call, best) && IsHit(env, s, call, threshold, best) && StoreOk(s.store, s.log)
    ensures best.value in s.store
    ensures var e, q := s.store[best.value], QueryOf(env, call);
            && e.id == best.value && HasOrigin(s.log, e)
            && IsLive(e, NamespaceFor(env, call), s.now)
            && |e.embedding| == |q| && Score(env.sqrt, q, e) >= Effective(env, threshold)
            && forall id | id in s.store && IsLive(s.store[id], NamespaceFor(env, call), s.now) ::
                 |s.store[id].embedding| == |q| && Score(env.sqrt, q, s.store[id]) <= Score(env.sqrt, q, e)
  {
    var live := Live(s.store, NamespaceFor(env, call), s.now);
    assert best.value in live;
    forall id | id in s.store && IsLive(s.store[id], NamespaceFor(env, call), s.now)
      ensures |s.store[id].embedding| == |QueryOf(env, call)|
      ensures Score(env.sqrt, QueryOf(env, call), s.store[id]) <= Score(env.sqrt, QueryOf(env, call), s.store[best.value])
    {
      assert id in live && live[id] == s.store[id];
    }
  }

  /** Agreement on everything that scopes an entry: tenant, provider, model, the
      hash of the system prompt, max_tokens, and the temperature to a tenth. */
  predicate SameDemands(env: Env, a: Call, b: Call) {
    && a.tenant == b.tenant
    && env.resolveProvider(a.request) == env.resolveProvider(b.request)
    && a.request.model == b.request.model
    && Namespace.HashSystemPrompt(env.sha, a.request.SystemPrompt()) == Namespace.HashSystemPrompt(env.sha, b.request.SystemPrompt())
    && a.request.maxTokens == b.request.maxTokens
    && -0.1 <= a.request.temperature - b.request.temperature <= 0.1
  }

  /** The request behind `log[i]` agrees with `call` on the six dimensions, and
      the entry holds its prompt and its whole response. */
  ghost predicate OriginAgrees(env: Env, s: State, i: nat, e: Entry, call: Call) {
    && i < |s.log| && s.log[i].Stored? && s.log[i].rid in s.reqs
    && s.log[i].entry.createdAt <= s.now
    && var first := s.reqs[s.log[i].rid];
       && SameDemands(env, first.call, call)
       && e.prompt == first.call.request.LatestUserPrompt() && e.embedding == env.embed(e.prompt)
       && Whole(env, first, e.response)
  }

  lemma OriginAgreement(env: Env, s: State, i: nat, e: Entry, call: Call)
    requires ValidEnv(env) && Inv(env, s) && OriginAt(s.log, i, e) && e.namespace == NamespaceFor(env, call)
    requires NoCollisions(env, s, call)
    ensures OriginAgrees(env, s, i, e, call)
  {
    var ev := s.log[i];
    assert EventOk(env, s.reqs, s.now, ev);
    var first := s.reqs[ev.rid].call;
    assert ev.entry.namespace == NamespaceFor(env, first);
    Namespace.NamespaceScopes(env.sha, SignatureOf(env, call), SignatureOf(env, first));
    Namespace.SharedBucketIsClose(first.request.temperature, call.request.temperature);
  }
}
