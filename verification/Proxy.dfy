/** The proxy as a step system: many requests in flight over one store, each
    step being what happens between two suspension points of the event loop.
    Scores, thresholds and times are real numbers. */
module Proxy {
  import opened Wrappers
  import opened Utf8
  import opened Json
  import opened Chat
  import opened Similarity
  import opened Store
  import Namespace
  import NearMiss
  import Sse

  /** The collaborators and settings a proxy is built from. */
  datatype Env = Env(
    sha: Namespace.Sha,
    sqrt: real -> real,
    embed: string -> Vector,
    resolveProvider: Request -> string,
    ttlPolicy: Option<(Request, Response) -> (int, seq<string>)>,
    defaultTtl: int,
    asInt: Sse.IntField,
    defaultThreshold: real,
    nearMissWindow: real,
    trackerCapacity: nat)

  /** SHA-256 prints hexadecimal, the square root is one, pydantic reads
      integers, and embedding is a function to non-zero vectors of one
      dimension. */
  ghost predicate ValidEnv(env: Env) {
    && Namespace.HexDigest(env.sha)
    && IsSqrt(env.sqrt)
    && Sse.ReadsIntegers(env.asInt)
    && (forall s, t :: |env.embed(s)| == |env.embed(t)|)
    && (forall s :: Nonzero(env.embed(s)))
  }

  datatype Call = Call(request: Request, tenant: string, stream: bool)

  function SignatureOf(env: Env, call: Call): Namespace.Signature {
    var r := call.request;
    Namespace.Signature(r.model, env.resolveProvider(r), r.SystemPrompt(), r.temperature, r.maxTokens, call.tenant)
  }

  function NamespaceFor(env: Env, call: Call): string { Namespace.NamespaceOf(env.sha, SignatureOf(env, call)) }

  function PromptOf(call: Call): string { call.request.LatestUserPrompt() }

  function QueryOf(env: Env, call: Call): Vector { env.embed(PromptOf(call)) }

  function ResolvePolicy(env: Env, request: Request, response: Response): (int, seq<string>) {
    if env.ttlPolicy.Some? then env.ttlPolicy.value(request, response)
    else (env.defaultTtl, if request.cacheTags.Some? then request.cacheTags.value else [])
  }

  /** The keyword arguments of `store_response`. */
  datatype Extras = Extras(ttl: int, tags: Option<seq<string>>, metadata: Option<map<string, Json>>,
                           promptTokens: int, completionTokens: int)

  function EntryFor(env: Env, sig: Namespace.Signature, prompt: string, response: Response, x: Extras, id: string, now: real): Entry {
    Entry(id, Namespace.NamespaceOf(env.sha, sig), prompt, env.embed(prompt), response,
          sig.model, sig.provider, Namespace.HashSystemPrompt(env.sha, sig.systemPrompt),
          sig.temperature, sig.maxTokens, now, x.ttl, 0, x.promptTokens, x.completionTokens,
          if x.tags.Some? then x.tags.value else [], if x.metadata.Some? then x.metadata.value else map[])
  }

  /** What the proxy passes to `store_response`. */
  function ExtrasOf(response: Response, ttl: int, tags: seq<string>): Extras {
    Extras(ttl, Some(tags), None, response.usage.promptTokens, response.usage.completionTokens)
  }

  /** The entry a call stores. */
  function MakeEntry(env: Env, call: Call, response: Response, ttl: int, tags: seq<string>, id: string, now: real): Entry {
    EntryFor(env, SignatureOf(env, call), PromptOf(call), response, ExtrasOf(response, ttl, tags), id, now)
  }

  // ----- requests in flight -----

  datatype Phase =
    | Serving(entry: Entry)                                          // a HIT: the body comes from this entry
    | Awaiting(assembler: Sse.Assembler)                             // a miss stream between two upstream chunks
    | Yielding(assembler: Sse.Assembler, chunk: Bytes)               // a chunk was pushed and is offered to the client
    | Waiting                                                        // a buffered miss before the upstream reply
    | Storing(response: Response, ttl: int, tags: seq<string>)       // embedding the prompt before the upsert
    | Finished
    | Incomplete
    | Failed
    | Closed

  /** `received` and `yielded` record the chunks of a miss stream, `reply` the
      upstream answer of a buffered one. */
  datatype InFlight = InFlight(call: Call, phase: Phase, received: seq<Bytes>, yielded: seq<Bytes>, reply: Option<Response>)

  /** What happened to the store, in order. */
  datatype Event =
    | Stored(rid: nat, entry: Entry)
    | Served(rid: nat, id: string)
    | Invalidated(filter: Filter)
    | Cleared

  datatype State = State(
    now: real,
    store: Entries,
    reqs: map<nat, InFlight>,
    log: seq<Event>,
    misses: seq<NearMiss.Event>)

  datatype Action =
    | Arrive(rid: nat, call: Call, threshold: Option<real>, best: Option<string>)
    | Chunk(rid: nat, bytes: Bytes)
    | Take(rid: nat)
    | UpstreamEnd(rid: nat, seed: Sse.Seed)
    | UpstreamFail(rid: nat)
    | EmbedFail(rid: nat)
    | Reply(rid: nat, response: Response)
    | Commit(rid: nat, id: string)
    | Close(rid: nat)
    | Delete(filter: Filter)
    | ClearAll
    | Tick(dt: real)

  // ----- lookup -----

  function Effective(env: Env, threshold: Option<real>): real {
    if threshold.Some? then threshold.value else env.defaultThreshold
  }

  ghost predicate Fits(env: Env, s: State, call: Call) {
    SameDimension(Live(s.store, NamespaceFor(env, call), s.now), QueryOf(env, call))
  }

  /** Any entry the exact search may put first. */
  ghost predicate MayBeBest(env: Env, s: State, call: Call, best: Option<string>) {
    Fits(env, s, call) && IsBest(env.sqrt, Live(s.store, NamespaceFor(env, call), s.now), QueryOf(env, call), best)
  }

  function ScoreOf(env: Env, s: State, call: Call, best: Option<string>): real {
    if best.Some? && best.value in s.store && |s.store[best.value].embedding| == |QueryOf(env, call)|
    then Score(env.sqrt, QueryOf(env, call), s.store[best.value]) else 0.0
  }

  predicate IsHit(env: Env, s: State, call: Call, threshold: Option<real>, best: Option<string>) {
    best.Some? && ScoreOf(env, s, call, best) >= Effective(env, threshold)
  }

  predicate IsNearMiss(env: Env, s: State, call: Call, threshold: Option<real>, best: Option<string>) {
    var t := Effective(env, threshold);
    best.Some? && t - env.nearMissWindow <= ScoreOf(env, s, call, best) < t
  }

  // ----- steps -----

  ghost predicate Enabled(env: Env, s: State, a: Action) {
    match a
    case Arrive(rid, call, _, best) => rid !in s.reqs && MayBeBest(env, s, call, best)
    case Chunk(rid, _) => rid in s.reqs && s.reqs[rid].phase.Awaiting?
    case Take(rid) => rid in s.reqs && s.reqs[rid].phase.Yielding?
    case UpstreamEnd(rid, _) => rid in s.reqs && s.reqs[rid].phase.Awaiting?
    case UpstreamFail(rid) => rid in s.reqs && (s.reqs[rid].phase.Awaiting? || s.reqs[rid].phase.Waiting?)
    case EmbedFail(rid) => rid in s.reqs && s.reqs[rid].phase.Storing?
    case Reply(rid, _) => rid in s.reqs && s.reqs[rid].phase.Waiting?
    case Commit(rid, id) => rid in s.reqs && s.reqs[rid].phase.Storing? && id !in s.store
    case Close(rid) => rid in s.reqs && InProgress(s.reqs[rid].phase)
    case Delete(_) => true
    case ClearAll => true
    case Tick(dt) => dt >= 0.0
  }

  predicate InProgress(p: Phase) { p.Awaiting? || p.Yielding? || p.Waiting? || p.Storing? }

  function WithPhase(s: State, rid: nat, p: Phase): State
    requires rid in s.reqs
  {
    s.(reqs := s.reqs[rid := s.reqs[rid].(phase := p)])
  }

  function DoArrive(env: Env, s: State, rid: nat, call: Call, threshold: Option<real>, best: Option<string>): State {
    if IsHit(env, s, call, threshold, best) && best.value in s.store then
      s.(store := Hit(s.store, best.value),
         reqs := s.reqs[rid := InFlight(call, Serving(s.store[best.value]), [], [], None)],
         log := s.log + [Served(rid, best.value)])
    else
      var phase := if call.stream then Awaiting(Sse.EMPTY) else Waiting;
      var miss := NearMiss.MakeEvent(ScoreOf(env, s, call, best), Effective(env, threshold), NamespaceFor(env, call), PromptOf(call), s.now);
      s.(reqs := s.reqs[rid := InFlight(call, phase, [], [], None)],
         misses := if IsNearMiss(env, s, call, threshold, best)
                   then NearMiss.RecordOne(s.misses, env.trackerCapacity, miss) else s.misses)
  }

  /** Push, then offer the chunk to the client; an exception from the assembler
      ends the stream before the chunk is forwarded. */
  function DoChunk(s: State, rid: nat, bytes: Bytes): State
    requires rid in s.reqs && s.reqs[rid].phase.Awaiting?
  {
    var r := s.reqs[rid];
    var pushed := Sse.Push(r.phase.assembler, bytes);
    var phase := if pushed.Raise? then Failed else Yielding(pushed.value, bytes);
    s.(reqs := s.reqs[rid := r.(phase := phase, received := r.received + [bytes])])
  }

  function DoTake(s: State, rid: nat): State
    requires rid in s.reqs && s.reqs[rid].phase.Yielding?
  {
    var r := s.reqs[rid];
    s.(reqs := s.reqs[rid := r.(phase := Awaiting(r.phase.assembler), yielded := r.yielded + [r.phase.chunk])])
  }

  function AfterResponse(env: Env, request: Request, response: Response): Phase {
    var (ttl, tags) := ResolvePolicy(env, request, response);
    if ttl > 0 then Storing(response, ttl, tags) else Finished
  }

  function EndPhase(env: Env, r: InFlight, seed: Sse.Seed): Phase
    requires r.phase.Awaiting?
  {
    var core := r.phase.assembler.core;
    if !core.completed then Incomplete
    else
      var response := Sse.BuildResponse(core, r.call.request.model, env.asInt, seed);
      if response.Raise? then Failed else AfterResponse(env, r.call.request, response.value)
  }

  function DoReply(env: Env, s: State, rid: nat, response: Response): State
    requires rid in s.reqs
  {
    var r := s.reqs[rid];
    s.(reqs := s.reqs[rid := r.(phase := AfterResponse(env, r.call.request, response), reply := Some(response))])
  }

  function DoCommit(env: Env, s: State, rid: nat, id: string): State
    requires rid in s.reqs && s.reqs[rid].phase.Storing?
  {
    var r := s.reqs[rid];
    var e := MakeEntry(env, r.call, r.phase.response, r.phase.ttl, r.phase.tags, id, s.now);
    s.(store := s.store[id := e], reqs := s.reqs[rid := r.(phase := Finished)], log := s.log + [Stored(rid, e)])
  }

  ghost function Next(env: Env, s: State, a: Action): State
    requires Enabled(env, s, a)
  {
    match a
    case Arrive(rid, call, threshold, best) => DoArrive(env, s, rid, call, threshold, best)
    case Chunk(rid, bytes) => DoChunk(s, rid, bytes)
    case Take(rid) => DoTake(s, rid)
    case UpstreamEnd(rid, seed) => WithPhase(s, rid, EndPhase(env, s.reqs[rid], seed))
    case UpstreamFail(rid) => WithPhase(s, rid, Failed)
    case EmbedFail(rid) => WithPhase(s, rid, Failed)
    case Reply(rid, response) => DoReply(env, s, rid, response)
    case Commit(rid, id) => DoCommit(env, s, rid, id)
    case Close(rid) => WithPhase(s, rid, Closed)
    case Delete(f) => s.(store := Deleted(s.store, f), log := s.log + [Invalidated(f)])
    case ClearAll => s.(store := map[], log := s.log + [Cleared])
    case Tick(dt) => s.(now := s.now + dt)
  }

  // ----- runs -----

  ghost predicate Initial(s: State) { s.store == map[] && s.reqs == map[] && s.log == [] && s.misses == [] }

  ghost predicate Run(env: Env, states: seq<State>, acts: seq<Action>) {
    && |states| == |acts| + 1
    && Initial(states[0])
    && forall i: nat | i < |acts| :: StepsAt(env, states, acts, i)
  }

  /** `states[i]` goes to `states[i + 1]` by `acts[i]`. */
  ghost predicate StepsAt(env: Env, states: seq<State>, acts: seq<Action>, i: nat)
    requires |states| == |acts| + 1 && i < |acts|
  {
    Steps(env, states[i], acts[i], states[i + 1])
  }

  ghost predicate Steps(env: Env, s: State, a: Action, t: State) { Enabled(env, s, a) && t == Next(env, s, a) }
}
