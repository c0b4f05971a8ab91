/** `SemanticCache` and the sequential bodies of `ProxyService`, as objects over
    the in-memory store, tied to the functions the step system is made of. */
module SemanticCache {
  import opened Wrappers
  import opened Utf8
  import opened Chat
  import opened Similarity
  import opened Store
  import opened Proxy
  import opened MissStream
  import Namespace
  import ProxySafety
  import Sse
  import StreamAssembler

  /** What one request sees of the shared state. */
  function Seen(entries: Entries, now: real): State { State(now, entries, map[], [], []) }

  datatype CacheLookup = CacheLookup(hit: bool, score: real, match_: Option<Scored>, nearMiss: bool)

  /** The outcome the step system gives to the same lookup, for a best entry the
      exact search may return. */
  ghost predicate LookupAgrees(env: Env, before: Entries, now: real, call: Call, threshold: Option<real>, best: Option<string>,
                               r: CacheLookup, after: Entries)
  {
    var s := Seen(before, now);
    && MayBeBest(env, s, call, best)
    && r.hit == IsHit(env, s, call, threshold, best)
    && r.score == ScoreOf(env, s, call, best)
    && r.nearMiss == IsNearMiss(env, s, call, threshold, best)
    && (best.None? <==> r.match_.None?)
    && (best.Some? ==> best.value in before && r.match_.value.entry == before[best.value])
    && after == (if r.hit && best.Some? then Hit(before, best.value) else before)
  }

  /** What the fields of a lookup mean: the score is the cosine similarity of
      prompt and match, 0 without a match; a hit reaches the threshold asked for,
      or else the default one, and a near miss fails it by no more than the
      window. */
  ghost predicate InFigures(env: Env, call: Call, threshold: Option<real>, r: CacheLookup) {
    var thr := if threshold.Some? then threshold.value else env.defaultThreshold;
    var q := env.embed(call.request.LatestUserPrompt());
    && (r.match_.Some? ==> && |r.match_.value.entry.embedding| == |q|
                           && r.score == CosineSimilarity(env.sqrt, q, r.match_.value.entry.embedding))
    && (r.match_.None? ==> r.score == 0.0)
    && (r.hit <==> r.match_.Some? && r.score >= thr)
    && (r.nearMiss <==> r.match_.Some? && r.score < thr && r.score >= thr - env.nearMissWindow)
  }

  class SemanticCache {
    const env: Env
    const store: InMemoryVectorStore
    const topK: int

    constructor (env: Env, store: InMemoryVectorStore, topK: int := 5)
      ensures this.env == env && this.store == store && this.topK == topK
    {
      this.env, this.store, this.topK := env, store, topK;
    }

    /** `None` is an exception of the embedding service or the ValueError a
        search may raise. Without a vector of any coordinate to compare with,
        nothing matches. */
    method Lookup(call: Call, threshold: Option<real>, embeds: bool, now: real) returns (r: Option<CacheLookup>)
      requires ValidEnv(env) && store.Valid()
      modifies store
      ensures store.Valid()
      ensures r.None? <==> !embeds || Raises(Live(old(store.entries), NamespaceFor(env, call), now), QueryOf(env, call), topK)
      ensures r.Some? && Fits(env, Seen(old(store.entries), now), call) ==>
                exists best :: LookupAgrees(env, old(store.entries), now, call, threshold, best, r.value, store.entries)
      ensures r.Some? && !Fits(env, Seen(old(store.entries), now), call) ==> r.value == CacheLookup(false, 0.0, None, false)
      ensures r.None? || !r.value.hit ==> store.entries == old(store.entries)
      ensures r.Some? ==> InFigures(env, call, threshold, r.value)
    {
      var effective := if threshold.Some? then threshold.value else env.defaultThreshold;
      if !embeds {
        return None;
      }
      var q := env.embed(PromptOf(call));
      var found := store.Search(env.sqrt, NamespaceFor(env, call), q, topK, now);
      if found.None? {
        return None;
      }
      var matches := found.value;
      if matches == [] {
        NothingMatches(env, store.entries, now, call, threshold, topK, matches);
        return Some(CacheLookup(false, 0.0, None, false));
      }
      ghost var before := store.entries;
      BestOfMatches(env, before, now, call, topK, matches);
      MatchInFigures(env, before, now, call, threshold, matches[0]);
      ghost var best := Some(matches[0].entry.id);
      var score := matches[0].score;
      if score >= effective {
        store.IncrementHit(matches[0].entry.id);
        r := Some(CacheLookup(true, score, Some(matches[0]), false));
      } else {
        r := Some(CacheLookup(false, score, Some(matches[0]), effective - env.nearMissWindow <= score < effective));
      }
      assert LookupAgrees(env, before, now, call, threshold, best, r.value, store.entries);
    }

    /** `None` is an exception of the embedding service, before anything is
        stored. */
    method StoreResponse(sig: Namespace.Signature, prompt: string, response: Response, x: Extras, embeds: bool, id: string, now: real)
      returns (entry: Option<Entry>)
      requires store.Valid()
      modifies store
      ensures store.Valid()
      ensures entry == if embeds then Some(EntryFor(env, sig, prompt, response, x, id, now)) else None
      ensures embeds ==>
                var e := entry.value;
                && e.id == id && e.createdAt == now && e.ttlSeconds == x.ttl && e.hitCount == 0
                && e.prompt == prompt && e.embedding == env.embed(prompt) && e.response == response
                && e.namespace == Namespace.NamespaceOf(env.sha, sig)
                && e.model == sig.model && e.provider == sig.provider
                && e.systemPromptHash == Namespace.HashSystemPrompt(env.sha, sig.systemPrompt)
                && e.temperature == sig.temperature && e.maxTokens == sig.maxTokens
                && e.promptTokens == x.promptTokens && e.completionTokens == x.completionTokens
                && e.tags == (if x.tags.Some? then x.tags.value else [])
                && e.metadata == (if x.metadata.Some? then x.metadata.value else map[])
      ensures store.entries == if embeds then old(store.entries)[id := entry.value] else old(store.entries)
    {
      if !embeds {
        return None;
      }
      var e := EntryFor(env, sig, prompt, response, x, id, now);
      store.Upsert(e);
      entry := Some(e);
    }
  }

  /** What a lookup gets from its search. */
  ghost predicate Matched(env: Env, entries: Entries, now: real, call: Call, topK: int, matches: seq<Scored>) {
    Finds(env.sqrt, Live(entries, NamespaceFor(env, call), now), QueryOf(env, call), topK, Some(matches))
  }

  /** The first match of a search is one the step system may choose. */
  lemma BestOfMatches(env: Env, entries: Entries, now: real, call: Call, topK: int, matches: seq<Scored>)
    requires ValidEnv(env) && Matched(env, entries, now, call, topK, matches) && matches != []
    ensures var best := Some(matches[0].entry.id);
            && MayBeBest(env, Seen(entries, now), call, best)
            && best.value in entries && entries[best.value] == matches[0].entry
            && ScoreOf(env, Seen(entries, now), call, best) == matches[0].score
  {
    var live, q := Live(entries, NamespaceFor(env, call), now), QueryOf(env, call);
    FirstIsBest(env.sqrt, live, q, |matches|, matches);
    assert IsTrueResult(env.sqrt, live, q, matches[0]);
  }

  lemma MatchInFigures(env: Env, entries: Entries, now: real, call: Call, threshold: Option<real>, first: Scored)
    requires first.entry.id in entries && entries[first.entry.id] == first.entry
    requires MayBeBest(env, Seen(entries, now), call, Some(first.entry.id))
    requires ScoreOf(env, Seen(entries, now), call, Some(first.entry.id)) == first.score
    ensures var thr := Effective(env, threshold);
            InFigures(env, call, threshold, CacheLookup(first.score >= thr, first.score, Some(first),
                                                        thr - env.nearMissWindow <= first.score < thr))
  {
    assert first.entry.id in Live(entries, NamespaceFor(env, call), now);
  }

  /** A search that fits and finds nothing had nothing live to find, whatever
      `topK` is. */
  lemma NothingMatches(env: Env, entries: Entries, now: real, call: Call, threshold: Option<real>, topK: int, matches: seq<Scored>)
    requires ValidEnv(env) && Matched(env, entries, now, call, topK, matches) && matches == []
    ensures Fits(env, Seen(entries, now), call) ==>
              LookupAgrees(env, entries, now, call, threshold, None, CacheLookup(false, 0.0, None, false), entries)
  {
    var live, q := Live(entries, NamespaceFor(env, call), now), QueryOf(env, call);
    assert Nonzero(q) && |q| != 0;
    assert SameDimension(live, q) ==> |live| == 0;
  }

  // ----- the proxy's bodies, run to their end -----

  class ProxyService {
    const cache: SemanticCache

    constructor (cache: SemanticCache)
      ensures this.cache == cache
    {
      this.cache := cache;
    }

    /** `miss_body`: forward each chunk as it is assembled, then cache the whole. */
    method MissBody(call: Call, upstream: seq<Bytes>, ending: Ending, client: Client, seed: Sse.Seed, id: string, now: real)
      returns (yielded: seq<Bytes>, outcome: Outcome)
      requires cache.store.Valid()
      modifies cache.store
      ensures cache.store.Valid()
      ensures outcome == MissOutcome(cache.env, call, upstream, ending, client, seed, id, now)
      ensures yielded == Forwarded(Sse.EMPTY, upstream, client)
      ensures cache.store.entries ==
              if outcome.Cached? then old(cache.store.entries)[id := outcome.entry] else old(cache.store.entries)
    {
      yielded := [];
      var assembler := new StreamAssembler.StreamAssembler(call.request.model);
      for i := 0 to |upstream|
        invariant yielded == upstream[..i]
        invariant Sse.PushAll(Sse.EMPTY, upstream[..i]) == Ok(Sse.Assembler(assembler.View(), assembler.buffer))
        invariant client.LeavesOffered? || client.LeavesAwaiting? ==> client.k >= i
        invariant cache.store.entries == old(cache.store.entries) && cache.store.Valid()
      {
        if client == LeavesAwaiting(i) {
          AssembledAll(Sse.EMPTY, upstream[..i]);
          return yielded, Abandoned;
        }
        assert upstream[..i + 1] == upstream[..i] + [upstream[i]];
        ProxySafety.PushAllSnoc(Sse.EMPTY, upstream[..i], upstream[i]);
        var raised := assembler.Push(upstream[i]);
        if raised.Some? {
          StopsAt(upstream, client, i);
          return yielded, Broken;
        }
        if client == LeavesOffered(i) {
          AssembledAll(Sse.EMPTY, upstream[..i + 1]);
          return yielded, Abandoned;
        }
        yielded := yielded + [upstream[i]];
      }
      assert upstream[..|upstream|] == upstream;
      AssembledAll(Sse.EMPTY, upstream);
      if client == LeavesAwaiting(|upstream|) {
        return yielded, Abandoned;
      }
      if ending.Raised? {
        return yielded, Broken;
      }
      outcome := Finish(call, assembler, ending.embeds, client, seed, id, now);
    }

    /** What follows the loop once the stream ended by itself. */
    method Finish(call: Call, assembler: StreamAssembler.StreamAssembler, embeds: bool, client: Client, seed: Sse.Seed, id: string, now: real)
      returns (outcome: Outcome)
      requires cache.store.Valid() && assembler.model == call.request.model
      modifies cache.store
      ensures cache.store.Valid()
      ensures outcome == FinalOutcome(cache.env, call, old(assembler.View()), embeds, client, seed, id, now)
      ensures cache.store.entries ==
              if outcome.Cached? then old(cache.store.entries)[id := outcome.entry] else old(cache.store.entries)
    {
      if !assembler.completed {
        return Unfinished;
      }
      var response := assembler.BuildResponse(cache.env.asInt, seed);
      if response.Raise? {
        return Broken;
      }
      var (ttl, tags) := ResolvePolicy(cache.env, call.request, response.value);
      if ttl > 0 {
        if client.LeavesStoring? {
          return Abandoned;
        }
        var entry := StoreFor(call, response.value, ttl, tags, embeds, id, now);
        return if entry.Some? then Cached(entry.value) else Broken;
      }
      return NotCacheable;
    }

    /** The call of `store_response` that both bodies make. */
    method StoreFor(call: Call, response: Response, ttl: int, tags: seq<string>, embeds: bool, id: string, now: real)
      returns (entry: Option<Entry>)
      requires cache.store.Valid()
      modifies cache.store
      ensures cache.store.Valid()
      ensures entry == if embeds then Some(MakeEntry(cache.env, call, response, ttl, tags, id, now)) else None
      ensures cache.store.entries == if embeds then old(cache.store.entries)[id := entry.value] else old(cache.store.entries)
    {
      entry := cache.StoreResponse(SignatureOf(cache.env, call), PromptOf(call), response, ExtrasOf(response, ttl, tags), embeds, id, now);
    }

    /** `complete` on a miss, once the upstream has answered. */
    method CompleteMiss(call: Call, response: Response, embeds: bool, id: string, now: real) returns (outcome: Outcome)
      requires cache.store.Valid()
      modifies cache.store
      ensures cache.store.Valid()
      ensures var (ttl, tags) := ResolvePolicy(cache.env, call.request, response);
              outcome == if ttl <= 0 then NotCacheable
                         else if embeds then Cached(MakeEntry(cache.env, call, response, ttl, tags, id, now))
                         else Broken
      ensures cache.store.entries ==
              if outcome.Cached? then old(cache.store.entries)[id := outcome.entry] else old(cache.store.entries)
    {
      var (ttl, tags) := ResolvePolicy(cache.env, call.request, response);
      if ttl > 0 {
        var entry := StoreFor(call, response, ttl, tags, embeds, id, now);
        return if entry.Some? then Cached(entry.value) else Broken;
      }
      return NotCacheable;
    }
  }

  /** Where the loop stops at a chunk the assembler raises on, the closed form
      stops too. */
  lemma StopsAt(upstream: seq<Bytes>, client: Client, i: nat)
    requires i < |upstream| && Sse.PushAll(Sse.EMPTY, upstream[..i]).Ok?
    requires Sse.Push(Sse.PushAll(Sse.EMPTY, upstream[..i]).value, upstream[i]).Raise?
    requires (client.LeavesOffered? ==> client.k >= i) && (client.LeavesAwaiting? ==> client.k > i)
    ensures Sse.PushAll(Sse.EMPTY, Heard(upstream, client)).Raise?
    ensures Forwarded(Sse.EMPTY, upstream, client) == upstream[..i]
  {
    var heard := Heard(upstream, client);
    assert i < |heard| && heard[..i] == upstream[..i] && heard[i] == upstream[i];
    AssembledUntil(Sse.EMPTY, heard, i);
  }
}
