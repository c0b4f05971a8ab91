/** A miss stream as one closed form: what its client gets and what becomes of
    it, from the upstream chunks, how the provider ends and when the client
    leaves. The step system and the body of `ProxyService` both agree with it. */
module MissStream {
  import opened Wrappers
  import opened Utf8
  import opened Store
  import opened Proxy
  import opened ProxySafety
  import opened Json
  import Render
  import Sse

  /** How a provider stream ends: by itself, after which embedding the prompt
      of the response may still raise, or by an exception. */
  datatype Ending = Exhausted(embeds: bool) | Raised

  datatype Outcome = Cached(entry: Entry) | NotCacheable | Unfinished | Broken | Abandoned

  /** When the client goes away: while chunk `k` is offered to it, while the
      proxy waits for chunk `k` or, past the last, for the end of the stream, or
      while the finished response is being stored. */
  datatype Client = Stays | LeavesOffered(k: nat) | LeavesAwaiting(k: nat) | LeavesStoring
  {
    /** The client as seen one chunk later. */
    function Later(): Client {
      match this
      case LeavesOffered(k) => if k > 0 then LeavesOffered(k - 1) else Stays
      case LeavesAwaiting(k) => if k > 0 then LeavesAwaiting(k - 1) else Stays
      case _ => this
    }
  }

  predicate Leaves(client: Client, n: nat) {
    (client.LeavesOffered? && client.k < n) || (client.LeavesAwaiting? && client.k <= n)
  }

  /** The chunks the proxy receives before it notices that the client left. */
  function Heard(upstream: seq<Bytes>, client: Client): seq<Bytes> {
    if !Leaves(client, |upstream|) then upstream
    else if client.LeavesOffered? then upstream[..client.k + 1] else upstream[..client.k]
  }

  /** The chunks before the first that the assembler raises on. */
  function Assembled(a: Sse.Assembler, chunks: seq<Bytes>): (r: seq<Bytes>)
    ensures r <= chunks
    decreases |chunks|
  {
    if chunks == [] then []
    else
      var pushed := Sse.Push(a, chunks[0]);
      if pushed.Raise? then [] else [chunks[0]] + Assembled(pushed.value, chunks[1..])
  }

  /** What the client gets: all that was assembled, without the chunk it was
      offered when it left. */
  function Forwarded(a: Sse.Assembler, upstream: seq<Bytes>, client: Client): seq<Bytes> {
    var got := Assembled(a, Heard(upstream, client));
    if client.LeavesOffered? && |got| == client.k + 1 then got[..client.k] else got
  }

  /** What follows a stream that ended by itself. */
  function FinalOutcome(env: Env, call: Call, core: Sse.Core, embeds: bool, client: Client, seed: Sse.Seed, id: string, now: real): Outcome {
    if !core.completed then Unfinished
    else
      var response := Sse.BuildResponse(core, call.request.model, env.asInt, seed);
      if response.Raise? then Broken
      else
        var (ttl, tags) := ResolvePolicy(env, call.request, response.value);
        if ttl <= 0 then NotCacheable
        else if client.LeavesStoring? then Abandoned
        else if !embeds then Broken
        else Cached(MakeEntry(env, call, response.value, ttl, tags, id, now))
  }

  function OutcomeFrom(env: Env, call: Call, a: Sse.Assembler, upstream: seq<Bytes>, ending: Ending, client: Client,
                       seed: Sse.Seed, id: string, now: real): Outcome
  {
    var assembled := Sse.PushAll(a, Heard(upstream, client));
    if assembled.Raise? then Broken
    else if Leaves(client, |upstream|) then Abandoned
    else if ending.Raised? then Broken
    else FinalOutcome(env, call, assembled.value.core, ending.embeds, client, seed, id, now)
  }

  /** What becomes of a miss stream. */
  function MissOutcome(env: Env, call: Call, upstream: seq<Bytes>, ending: Ending, client: Client,
                       seed: Sse.Seed, id: string, now: real): Outcome
  {
    OutcomeFrom(env, call, Sse.EMPTY, upstream, ending, client, seed, id, now)
  }

  /** A miss stream is cached exactly when the provider ended by itself, the
      client stayed until it was stored, the bytes parse, hold a terminated DONE
      event and assemble into a response, the policy gives a positive TTL and
      embedding the prompt succeeds. */
  lemma {:induction false} CachedIffWhole(env: Env, call: Call, upstream: seq<Bytes>, ending: Ending, client: Client, seed: Sse.Seed, id: string, now: real)
    ensures MissOutcome(env, call, upstream, ending, client, seed, id, now).Cached?
            <==> && ending == Exhausted(true)
                 && !Leaves(client, |upstream|) && !client.LeavesStoring?
                 && Sse.PushAll(Sse.EMPTY, upstream).Ok?
                 && Sse.ContainsDone(Sse.Concat(upstream))
                 && var response := Sse.BuildResponse(Sse.PushAll(Sse.EMPTY, upstream).value.core, call.request.model, env.asInt, seed);
                    response.Ok? && ResolvePolicy(env, call.request, response.value).0 > 0
  {
    Sse.CompletedIffDone(upstream);
  }

  // ----- where assembling stops -----

  lemma {:induction false} AssembledAll(a: Sse.Assembler, chunks: seq<Bytes>)
    requires Sse.PushAll(a, chunks).Ok?
    ensures Assembled(a, chunks) == chunks
    decreases |chunks|
  {
    if chunks != [] {
      AssembledAll(Sse.Push(a, chunks[0]).value, chunks[1..]);
    }
  }

  lemma OnePush(a: Sse.Assembler, chunks: seq<Bytes>)
    requires chunks != [] && Sse.Push(a, chunks[0]).Ok?
    ensures var a' := Sse.Push(a, chunks[0]).value;
            && Sse.PushAll(a, chunks) == Sse.PushAll(a', chunks[1..])
            && Assembled(a, chunks) == [chunks[0]] + Assembled(a', chunks[1..])
  {
  }

  /** Once a push raised, no longer stream assembles. */
  lemma {:induction false} AssembledUntil(a: Sse.Assembler, chunks: seq<Bytes>, i: nat)
    requires i < |chunks| && Sse.PushAll(a, chunks[..i]).Ok?
    requires Sse.Push(Sse.PushAll(a, chunks[..i]).value, chunks[i]).Raise?
    ensures Sse.PushAll(a, chunks).Raise? && Assembled(a, chunks) == chunks[..i]
    decreases i
  {
    if i > 0 {
      OnePush(a, chunks);
      OnePush(a, chunks[..i]);
      assert chunks[..i][1..] == chunks[1..][..i - 1];
      AssembledUntil(Sse.Push(a, chunks[0]).value, chunks[1..], i - 1);
      assert chunks[..i] == [chunks[0]] + chunks[1..][..i - 1];
    }
  }

  /** Everything the upstream sent reaches the client unchanged exactly when the
      assembler raises on no chunk and the client stays to the last one. */
  lemma {:induction false} ForwardedUnchangedIff(upstream: seq<Bytes>, client: Client)
    ensures Forwarded(Sse.EMPTY, upstream, client) == upstream
            <==> && Sse.PushAll(Sse.EMPTY, upstream).Ok?
                 && !(client.LeavesOffered? && client.k < |upstream|)
                 && !(client.LeavesAwaiting? && client.k < |upstream|)
  {
    AssembledIff(Sse.EMPTY, upstream);
    if client.LeavesAwaiting? && client.k == |upstream| {
      assert Heard(upstream, client) == upstream;
    }
  }

  /** An event whose choices are null. */
  const NULL_CHOICES := Obj(Member("choices", Null, NoMembers))

  /** So the upstream bytes are not always forwarded unchanged: the chunk
      `data: {"choices":null}` and a blank line, a patient client gets nothing. */
  lemma {:induction false} RaisingChunkIsWithheld()
    ensures Forwarded(Sse.EMPTY, [Render.SseChunk(NULL_CHOICES)], Stays) == []
  {
    var chunk := Render.SseChunk(NULL_CHOICES);
    assert Get(NULL_CHOICES.members, "choices") == Some(Null);
    assert Sse.Merge(Sse.START, NULL_CHOICES).Raise?;
    Render.DrainChunk(Sse.START, NULL_CHOICES, []);
    assert chunk + [] == chunk && [] + chunk == chunk;
    assert Sse.Push(Sse.EMPTY, chunk).Raise?;
  }

  lemma {:induction false} AssembledIff(a: Sse.Assembler, chunks: seq<Bytes>)
    ensures Assembled(a, chunks) == chunks <==> Sse.PushAll(a, chunks).Ok?
    decreases |chunks|
  {
    if chunks != [] {
      var pushed := Sse.Push(a, chunks[0]);
      if pushed.Ok? {
        AssembledIff(pushed.value, chunks[1..]);
        assert Assembled(a, chunks)[1..] == Assembled(pushed.value, chunks[1..]);
        assert chunks == [chunks[0]] + chunks[1..];
      }
    }
  }

  // ----- every interleaving ends a stream this way -----

  /** The phase in which an outcome leaves the request. */
  function EndOf(o: Outcome): Phase {
    match o
    case Cached(_) => Finished
    case NotCacheable => Finished
    case Unfinished => Incomplete
    case Broken => Failed
    case Abandoned => Closed
  }

  /** How a stream went, as the closed form takes it. */
  datatype Circumstances = Circumstances(ending: Ending, client: Client, seed: Sse.Seed, id: string, now: real)
  {
    function Outcome(env: Env, call: Call, upstream: seq<Bytes>): Outcome {
      MissOutcome(env, call, upstream, ending, client, seed, id, now)
    }

    function From(env: Env, call: Call, a: Sse.Assembler, upstream: seq<Bytes>): Outcome {
      OutcomeFrom(env, call, a, upstream, ending, client, seed, id, now)
    }
  }

  const UNEVENTFUL := Circumstances(Exhausted(true), Stays, Sse.Seed("", 0), "", 0.0)

  /** When a client leaves that closes in this phase. */
  function LeavingIn(r: InFlight): Client {
    match r.phase
    case Awaiting(_) => LeavesAwaiting(|r.yielded|)
    case Yielding(_, _) => LeavesOffered(|r.yielded|)
    case _ => LeavesStoring
  }

  /** The steps that can end a request. */
  predicate EndsRequest(a: Action, rid: nat) {
    (a.Chunk? || a.UpstreamEnd? || a.UpstreamFail? || a.EmbedFail? || a.Commit? || a.Close?) && a.rid == rid
  }

  /** What a step tells about the circumstances of one request. */
  function Noted(c: Circumstances, s: State, a: Action, rid: nat): Circumstances {
    if rid !in s.reqs || !EndsRequest(a, rid) then c
    else
      match a
      case UpstreamEnd(_, seed) => c.(seed := seed)
      case UpstreamFail(_) => c.(ending := Raised)
      case EmbedFail(_) => c.(ending := Exhausted(false))
      case Commit(_, id) => c.(id := id, now := s.now)
      case Close(_) => c.(client := LeavingIn(s.reqs[rid]))
      case _ => c
  }

  /** The circumstances of a request, as the first `k` steps of a run tell them. */
  function CircumstancesOf(states: seq<State>, acts: seq<Action>, k: nat, rid: nat): Circumstances
    requires k <= |acts| && |states| == |acts| + 1
  {
    if k == 0 then UNEVENTFUL
    else Noted(CircumstancesOf(states, acts, k - 1, rid), states[k - 1], acts[k - 1], rid)
  }

  /** The request ended as the closed form says for the chunks it received: its
      phase, what its client got, and what it stored, which is nothing or the
      one entry of the outcome. */
  ghost predicate EndsAs(env: Env, log: seq<Event>, rid: nat, q: InFlight, c: Circumstances) {
    var o := c.Outcome(env, q.call, q.received);
    && q.phase == EndOf(o)
    && q.yielded == Forwarded(Sse.EMPTY, q.received, c.client)
    && forall e :: Stored(rid, e) in log <==> o == Cached(e)
  }

  ghost predicate Ended(q: InFlight) { q.call.stream && !q.phase.Serving? && !InProgress(q.phase) }

  /** A stream that has a response to store has told the seed it was built with. */
  ghost predicate ReadyToStore(env: Env, r: InFlight, c: Circumstances)
    requires r.phase.Storing?
  {
    c == UNEVENTFUL.(seed := c.seed) && c.Outcome(env, r.call, r.received) == Cached(EntryOf(env, r, c.id, c.now))
  }

  /** What a request about to store is going to store. */
  function EntryOf(env: Env, r: InFlight, id: string, now: real): Entry
    requires r.phase.Storing?
  {
    MakeEntry(env, r.call, r.phase.response, r.phase.ttl, r.phase.tags, id, now)
  }

  /** What the steps so far told fits the request they led to. */
  ghost predicate Fitting(env: Env, s: State, rid: nat, c: Circumstances) {
    if rid !in s.reqs then c == UNEVENTFUL
    else s.reqs[rid].call.stream ==> FitsStream(env, s.log, rid, s.reqs[rid], c)
  }

  ghost predicate FitsStream(env: Env, log: seq<Event>, rid: nat, r: InFlight, c: Circumstances) {
    && (r.phase.Awaiting? || r.phase.Yielding? ==> c == UNEVENTFUL)
    && (r.phase.Storing? ==> ReadyToStore(env, r, c))
    && (Ended(r) ==> EndsAs(env, log, rid, r, c))
  }

  /** The request's part of `EndsAs`, for an end that stores nothing. */
  ghost predicate EndsQuietly(env: Env, q: InFlight, c: Circumstances) {
    var o := c.Outcome(env, q.call, q.received);
    !o.Cached? && q.phase == EndOf(o) && q.yielded == Forwarded(Sse.EMPTY, q.received, c.client)
  }

  lemma Quietly(env: Env, q: InFlight, c: Circumstances, o: Outcome)
    requires c.Outcome(env, q.call, q.received) == o && !o.Cached? && q.phase == EndOf(o)
    requires q.yielded == Forwarded(Sse.EMPTY, q.received, c.client)
    ensures EndsQuietly(env, q, c)
  {
  }

  lemma AwaitingGot(env: Env, r: InFlight)
    requires ReqOk(env, r) && r.phase.Awaiting?
    ensures Sse.PushAll(Sse.EMPTY, r.received) == Ok(r.phase.assembler)
    ensures r.yielded == r.received == Assembled(Sse.EMPTY, r.received)
  {
    AssembledAll(Sse.EMPTY, r.received);
  }

  /** A chunk the assembler raises on ends the stream before it is offered. */
  lemma ChunkEnds(env: Env, r: InFlight, bytes: Bytes, q: InFlight)
    requires ReqOk(env, r) && r.phase.Awaiting? && Sse.Push(r.phase.assembler, bytes).Raise?
    requires q == r.(phase := Failed, received := r.received + [bytes])
    ensures EndsQuietly(env, q, UNEVENTFUL)
  {
    AwaitingGot(env, r);
    assert q.received[..|r.received|] == r.received;
    AssembledUntil(Sse.EMPTY, q.received, |r.received|);
    Quietly(env, q, UNEVENTFUL, Broken);
  }

  lemma UpstreamEnds(env: Env, r: InFlight, seed: Sse.Seed, q: InFlight)
    requires ReqOk(env, r) && r.phase.Awaiting? && q == r.(phase := EndPhase(env, r, seed))
    ensures var c := UNEVENTFUL.(seed := seed);
            if q.phase.Storing? then ReadyToStore(env, q, c) else EndsQuietly(env, q, c)
  {
    AwaitingGot(env, r);
  }

  lemma UpstreamFails(env: Env, r: InFlight, q: InFlight)
    requires ReqOk(env, r) && r.phase.Awaiting? && q == r.(phase := Failed)
    ensures EndsQuietly(env, q, UNEVENTFUL.(ending := Raised))
  {
    AwaitingGot(env, r);
  }

  lemma CloseEnds(env: Env, r: InFlight, q: InFlight)
    requires ReqOk(env, r) && (r.phase.Awaiting? || r.phase.Yielding?) && q == r.(phase := Closed)
    ensures EndsQuietly(env, q, UNEVENTFUL.(client := LeavingIn(r)))
  {
    AssembledAll(Sse.EMPTY, r.received);
    assert r.received[..|r.received|] == r.received;
    Quietly(env, q, UNEVENTFUL.(client := LeavingIn(r)), Abandoned);
  }

  /** What becomes of a response ready to be stored. */
  lemma StoringEnds(env: Env, r: InFlight, c: Circumstances, id: string, now: real)
    requires r.phase.Storing? && ReadyToStore(env, r, c)
    ensures c.(client := LeavesStoring).Outcome(env, r.call, r.received) == Abandoned
    ensures c.(ending := Exhausted(false)).Outcome(env, r.call, r.received) == Broken
    ensures c.(id := id, now := now).Outcome(env, r.call, r.received) == Cached(EntryOf(env, r, id, now))
  {
  }

  lemma StoringForwarded(env: Env, r: InFlight)
    requires ReqOk(env, r) && r.call.stream && r.phase.Storing?
    ensures r.yielded == Forwarded(Sse.EMPTY, r.received, Stays) == Forwarded(Sse.EMPTY, r.received, LeavesStoring)
  {
    AssembledAll(Sse.EMPTY, r.received);
  }

  lemma NothingStoredYet(env: Env, s: State, rid: nat)
    requires Inv(env, s) && rid in s.reqs && !s.reqs[rid].phase.Finished?
    ensures forall e :: Stored(rid, e) !in s.log
  {
    forall i | 0 <= i < |s.log| && s.log[i].Stored?
      ensures s.log[i].rid != rid
    {
      assert EventOk(env, s.reqs, s.now, s.log[i]);
    }
  }

  /** Steps of others, and steps after the end, neither move the request nor
      store for it. */
  lemma Untouched(env: Env, s: State, a: Action, t: State, rid: nat)
    requires Steps(env, s, a, t) && rid in s.reqs && !(a.Take? && a.rid == rid) && !(a.Reply? && a.rid == rid)
    requires !EndsRequest(a, rid) || !InProgress(s.reqs[rid].phase)
    ensures rid in t.reqs && t.reqs[rid] == s.reqs[rid] && !EndsRequest(a, rid)
    ensures forall e :: Stored(rid, e) in t.log <==> Stored(rid, e) in s.log
  {
  }

  lemma EmbedFails(env: Env, r: InFlight, c: Circumstances)
    requires r.phase.Storing? && ReadyToStore(env, r, c) && r.yielded == Forwarded(Sse.EMPTY, r.received, Stays)
    ensures EndsQuietly(env, r.(phase := Failed), c.(ending := Exhausted(false)))
  {
    StoringEnds(env, r, c, "", 0.0);
    StopsStoring(env, r, c.(ending := Exhausted(false)), Broken);
  }

  lemma CloseStoring(env: Env, r: InFlight, c: Circumstances)
    requires r.phase.Storing? && ReadyToStore(env, r, c) && r.yielded == Forwarded(Sse.EMPTY, r.received, LeavesStoring)
    ensures EndsQuietly(env, r.(phase := Closed), c.(client := LeavesStoring))
  {
    StoringEnds(env, r, c, "", 0.0);
    StopsStoring(env, r, c.(client := LeavesStoring), Abandoned);
  }

  lemma StopsStoring(env: Env, r: InFlight, d: Circumstances, o: Outcome)
    requires d.Outcome(env, r.call, r.received) == o && !o.Cached?
    requires r.yielded == Forwarded(Sse.EMPTY, r.received, d.client)
    ensures EndsQuietly(env, r.(phase := EndOf(o)), d)
  {
  }

  /** A step that ends a stream without storing it. */
  lemma QuietStep(env: Env, s: State, a: Action, t: State, rid: nat, c: Circumstances)
    requires Steps(env, s, a, t) && EndsRequest(a, rid) && !a.Commit?
    requires rid in s.reqs && ReqOk(env, s.reqs[rid]) && s.reqs[rid].call.stream && Fitting(env, s, rid, c)
    requires rid in t.reqs && Ended(t.reqs[rid])
    ensures EndsQuietly(env, t.reqs[rid], Noted(c, s, a, rid))
  {
    var r, q := s.reqs[rid], t.reqs[rid];
    if r.phase.Storing? {
      StoringForwarded(env, r);
      if a.EmbedFail? { EmbedFails(env, r, c); } else { CloseStoring(env, r, c); }
    } else {
      match a
      case Chunk(_, bytes) => ChunkEnds(env, r, bytes, q);
      case UpstreamEnd(_, seed) => UpstreamEnds(env, r, seed, q);
      case UpstreamFail(_) => UpstreamFails(env, r, q);
      case Close(_) => CloseEnds(env, r, q);
    }
  }

  lemma CommitStep(env: Env, s: State, t: State, rid: nat, id: string, c: Circumstances)
    requires Inv(env, s) && rid in s.reqs && s.reqs[rid].phase.Storing? && s.reqs[rid].call.stream
    requires t == DoCommit(env, s, rid, id) && ReadyToStore(env, s.reqs[rid], c)
    ensures EndsAs(env, t.log, rid, t.reqs[rid], c.(id := id, now := s.now))
  {
    assert ReqOk(env, s.reqs[rid]);
    NothingStoredYet(env, s, rid);
    StoringForwarded(env, s.reqs[rid]);
    StoringEnds(env, s.reqs[rid], c, id, s.now);
  }

  /** A step that may end the request, taken while it is in progress. */
  lemma OwnStepFits(env: Env, s: State, a: Action, t: State, rid: nat, c: Circumstances)
    requires Inv(env, s) && Steps(env, s, a, t) && Fitting(env, s, rid, c)
    requires EndsRequest(a, rid) && rid in s.reqs && s.reqs[rid].call.stream
    ensures Fitting(env, t, rid, Noted(c, s, a, rid))
  {
    assert ReqOk(env, s.reqs[rid]);
    if a.Commit? {
      CommitStep(env, s, t, rid, a.id, c);
    } else if Ended(t.reqs[rid]) {
      NothingStoredYet(env, s, rid);
      QuietStep(env, s, a, t, rid, c);
      assert t.log == s.log;
    } else if a.UpstreamEnd? {
      UpstreamEnds(env, s.reqs[rid], a.seed, t.reqs[rid]);
    }
  }

  lemma Newcomer(env: Env, s: State, a: Action, t: State, rid: nat)
    requires Steps(env, s, a, t) && rid !in s.reqs && rid in t.reqs
    ensures var r := t.reqs[rid]; r.phase.Serving? || r.phase == if r.call.stream then Awaiting(Sse.EMPTY) else Waiting
  {
  }

  lemma NewcomerFits(env: Env, t: State, rid: nat)
    requires rid in t.reqs ==> var r := t.reqs[rid];
                               r.phase.Serving? || r.phase == if r.call.stream then Awaiting(Sse.EMPTY) else Waiting
    ensures Fitting(env, t, rid, UNEVENTFUL)
  {
  }

  lemma TakeFits(env: Env, s: State, t: State, rid: nat, c: Circumstances)
    requires rid in s.reqs && s.reqs[rid].phase.Yielding? && t == DoTake(s, rid) && Fitting(env, s, rid, c)
    ensures Fitting(env, t, rid, c)
  {
  }

  lemma CallStays(env: Env, s: State, a: Action, t: State, rid: nat)
    requires Steps(env, s, a, t) && rid in s.reqs
    ensures rid in t.reqs && t.reqs[rid].call == s.reqs[rid].call
  {
  }

  lemma StreamFits(env: Env, s: State, a: Action, t: State, rid: nat, c: Circumstances)
    requires Inv(env, s) && Steps(env, s, a, t) && rid in s.reqs && s.reqs[rid].call.stream && Fitting(env, s, rid, c)
    ensures Fitting(env, t, rid, Noted(c, s, a, rid))
  {
    if EndsRequest(a, rid) {
      OwnStepFits(env, s, a, t, rid, c);
    } else if a == Take(rid) {
      TakeFits(env, s, t, rid, c);
    } else {
      assert ReqOk(env, s.reqs[rid]);
      Untouched(env, s, a, t, rid);
    }
  }

  lemma StepKeepsFitting(env: Env, s: State, a: Action, t: State, rid: nat, c: Circumstances)
    requires Inv(env, s) && Steps(env, s, a, t) && Fitting(env, s, rid, c)
    ensures Fitting(env, t, rid, Noted(c, s, a, rid))
  {
    if rid !in s.reqs {
      if rid in t.reqs {
        Newcomer(env, s, a, t, rid);
      }
      NewcomerFits(env, t, rid);
    } else if s.reqs[rid].call.stream {
      StreamFits(env, s, a, t, rid, c);
    } else {
      CallStays(env, s, a, t, rid);
    }
  }

  lemma {:induction false} RunKeepsFitting(env: Env, states: seq<State>, acts: seq<Action>, k: nat, rid: nat)
    requires Run(env, states, acts) && k < |states|
    ensures Fitting(env, states[k], rid, CircumstancesOf(states, acts, k, rid))
  {
    if k > 0 {
      RunKeepsFitting(env, states, acts, k - 1, rid);
      RunKeeps(env, states, acts, k - 1);
      assert StepsAt(env, states, acts, k - 1);
      StepKeepsFitting(env, states[k - 1], acts[k - 1], states[k], rid, CircumstancesOf(states, acts, k - 1, rid));
    }
  }

  /** In every run, however its steps interleave with those of other requests,
      a miss stream that came to an end did so as the closed form says for the
      chunks it received, and for the ending, the moment its client left, and
      the seed, id and time that its own steps had. */
  lemma StreamsEndAsMissOutcome(env: Env, states: seq<State>, acts: seq<Action>, k: nat, rid: nat)
    requires Run(env, states, acts) && k < |states| && rid in states[k].reqs && Ended(states[k].reqs[rid])
    ensures EndsAs(env, states[k].log, rid, states[k].reqs[rid], CircumstancesOf(states, acts, k, rid))
  {
    RunKeepsFitting(env, states, acts, k, rid);
  }
  // ----- and every way to end is a run -----

  /** `acts` are steps of one request and lead from `s` to `t`. */
  ghost predicate Plays(env: Env, s: State, rid: nat, acts: seq<Action>, t: State)
    decreases |acts|
  {
    if acts == [] then s == t
    else OwnStep(acts[0], rid) && Enabled(env, s, acts[0]) && Plays(env, Next(env, s, acts[0]), rid, acts[1..], t)
  }

  predicate OwnStep(a: Action, rid: nat) { (a.Take? && a.rid == rid) || EndsRequest(a, rid) }

  lemma PlaysFirst(env: Env, s: State, rid: nat, a: Action, acts: seq<Action>, t: State)
    requires OwnStep(a, rid) && Enabled(env, s, a) && Plays(env, Next(env, s, a), rid, acts, t)
    ensures Plays(env, s, rid, [a] + acts, t)
  {
    assert ([a] + acts)[1..] == acts;
  }

  /** `t` is `s` after the request got `chunks` more and ended in this outcome,
      all else being as it was. */
  ghost predicate EndState(s: State, rid: nat, chunks: seq<Bytes>, o: Outcome, t: State)
    requires rid in s.reqs
  {
    && rid in t.reqs && t.reqs[rid].phase == EndOf(o) && t.reqs[rid].yielded == s.reqs[rid].yielded + chunks
    && t == s.(reqs := s.reqs[rid := t.reqs[rid]],
               store := if o.Cached? then s.store[o.entry.id := o.entry] else s.store,
               log := if o.Cached? then s.log + [Stored(rid, o.entry)] else s.log)
  }

  lemma NoMoreChunks(env: Env, call: Call, a: Sse.Assembler, c: Circumstances)
    requires !Leaves(c.client, 0)
    ensures Forwarded(a, [], c.client) == []
    ensures c.From(env, call, a, []) ==
            if c.ending.Raised? then Broken
            else FinalOutcome(env, call, a.core, c.ending.embeds, c.client, c.seed, c.id, c.now)
  {
    assert Sse.PushAll(a, []) == Ok(a);
  }

  /** What follows the last chunk. */
  lemma EndHappens(env: Env, s: State, rid: nat, c: Circumstances) returns (acts: seq<Action>, t: State)
    requires rid in s.reqs && s.reqs[rid].phase.Awaiting? && c.id !in s.store && c.now == s.now
    requires !Leaves(c.client, 0)
    ensures Plays(env, s, rid, acts, t)
    ensures EndState(s, rid, [], c.From(env, s.reqs[rid].call, s.reqs[rid].phase.assembler, []), t)
  {
    var r := s.reqs[rid];
    NoMoreChunks(env, r.call, r.phase.assembler, c);
    var a := if c.ending.Raised? then UpstreamFail(rid) else UpstreamEnd(rid, c.seed);
    var s' := Next(env, s, a);
    if s'.reqs[rid].phase.Storing? {
      acts, t := StoreHappens(env, s', rid, c);
    } else {
      acts, t := [], s';
    }
    PlaysFirst(env, s, rid, a, acts, t);
    acts := [a] + acts;
  }

  lemma StoreHappens(env: Env, s: State, rid: nat, c: Circumstances) returns (acts: seq<Action>, t: State)
    requires rid in s.reqs && s.reqs[rid].phase.Storing? && c.id !in s.store && c.now == s.now && c.ending.Exhausted?
    ensures Plays(env, s, rid, acts, t)
    ensures var r := s.reqs[rid];
            EndState(s, rid, [], if c.client.LeavesStoring? then Abandoned
                                 else if !c.ending.embeds then Broken
                                 else Cached(EntryOf(env, r, c.id, c.now)), t)
  {
    var a := if c.client.LeavesStoring? then Close(rid) else if !c.ending.embeds then EmbedFail(rid) else Commit(rid, c.id);
    t := Next(env, s, a);
    PlaysFirst(env, s, rid, a, [], t);
    acts := [a] + [];
  }

  /** The closed form, a chunk at a time. */
  lemma {:induction false} OneChunkLater(env: Env, call: Call, a: Sse.Assembler, upstream: seq<Bytes>, c: Circumstances)
    requires upstream != [] && Sse.Push(a, upstream[0]).Ok?
    requires c.client != LeavesAwaiting(0) && c.client != LeavesOffered(0)
    ensures var a', rest, later := Sse.Push(a, upstream[0]).value, upstream[1..], c.client.Later();
            && c.From(env, call, a, upstream) == c.(client := later).From(env, call, a', rest)
            && Forwarded(a, upstream, c.client) == [upstream[0]] + Forwarded(a', rest, later)
  {
    var rest, later := upstream[1..], c.client.Later();
    var heard := Heard(upstream, c.client);
    assert heard[0] == upstream[0] && heard[1..] == Heard(rest, later);
  }

  lemma {:induction false} ChunkRaises(env: Env, call: Call, a: Sse.Assembler, upstream: seq<Bytes>, c: Circumstances)
    requires upstream != [] && Sse.Push(a, upstream[0]).Raise? && c.client != LeavesAwaiting(0)
    ensures c.From(env, call, a, upstream) == Broken && Forwarded(a, upstream, c.client) == []
  {
    assert Heard(upstream, c.client)[0] == upstream[0];
  }

  lemma {:induction false} LeavesAtOnce(env: Env, call: Call, a: Sse.Assembler, upstream: seq<Bytes>, c: Circumstances)
    requires c.client == LeavesAwaiting(0)
             || (c.client == LeavesOffered(0) && upstream != [] && Sse.Push(a, upstream[0]).Ok?)
    ensures c.From(env, call, a, upstream) == Abandoned && Forwarded(a, upstream, c.client) == []
  {
    if c.client.LeavesOffered? {
      var a' := Sse.Push(a, upstream[0]).value;
      assert Heard(upstream, c.client)[0] == upstream[0] && Heard(upstream, c.client)[1..] == [];
      assert Sse.PushAll(a', []) == Ok(a') && Assembled(a', []) == [];
    }
  }

  lemma CloseHappens(env: Env, s: State, rid: nat, t: State)
    requires rid in s.reqs && InProgress(s.reqs[rid].phase) && t == Next(env, s, Close(rid))
    ensures Plays(env, s, rid, [Close(rid)], t) && EndState(s, rid, [], Abandoned, t)
  {
    PlaysFirst(env, s, rid, Close(rid), [], t);
    assert [Close(rid)] + [] == [Close(rid)];
  }

  /** Steps of the request that end as the closed form says. */
  ghost predicate Happens(env: Env, s: State, rid: nat, upstream: seq<Bytes>, c: Circumstances, acts: seq<Action>, t: State)
    requires rid in s.reqs && s.reqs[rid].phase.Awaiting?
  {
    var r := s.reqs[rid];
    && Plays(env, s, rid, acts, t)
    && EndState(s, rid, Forwarded(r.phase.assembler, upstream, c.client), c.From(env, r.call, r.phase.assembler, upstream), t)
  }

  lemma RaiseHappens(env: Env, s: State, rid: nat, upstream: seq<Bytes>, c: Circumstances) returns (acts: seq<Action>, t: State)
    requires rid in s.reqs && s.reqs[rid].phase.Awaiting? && upstream != [] && c.client != LeavesAwaiting(0)
    requires Sse.Push(s.reqs[rid].phase.assembler, upstream[0]).Raise?
    ensures Happens(env, s, rid, upstream, c, acts, t)
  {
    ChunkRaises(env, s.reqs[rid].call, s.reqs[rid].phase.assembler, upstream, c);
    t := DoChunk(s, rid, upstream[0]);
    PlaysFirst(env, s, rid, Chunk(rid, upstream[0]), [], t);
    acts := [Chunk(rid, upstream[0])] + [];
  }

  lemma OfferHappens(env: Env, s: State, rid: nat, upstream: seq<Bytes>, c: Circumstances) returns (acts: seq<Action>, t: State)
    requires rid in s.reqs && s.reqs[rid].phase.Awaiting? && upstream != [] && c.client == LeavesOffered(0)
    requires Sse.Push(s.reqs[rid].phase.assembler, upstream[0]).Ok?
    ensures Happens(env, s, rid, upstream, c, acts, t)
  {
    LeavesAtOnce(env, s.reqs[rid].call, s.reqs[rid].phase.assembler, upstream, c);
    var s' := DoChunk(s, rid, upstream[0]);
    t := WithPhase(s', rid, Closed);
    CloseHappens(env, s', rid, t);
    PlaysFirst(env, s, rid, Chunk(rid, upstream[0]), [Close(rid)], t);
    acts := [Chunk(rid, upstream[0])] + [Close(rid)];
  }

  /** The state after one more chunk was taken. */
  function AfterChunk(s: State, rid: nat, chunk: Bytes): State
    requires rid in s.reqs && s.reqs[rid].phase.Awaiting? && Sse.Push(s.reqs[rid].phase.assembler, chunk).Ok?
  {
    DoTake(DoChunk(s, rid, chunk), rid)
  }

  lemma TakeHappens(env: Env, s: State, rid: nat, chunk: Bytes, acts: seq<Action>, t: State)
    requires rid in s.reqs && s.reqs[rid].phase.Awaiting? && Sse.Push(s.reqs[rid].phase.assembler, chunk).Ok?
    requires Plays(env, AfterChunk(s, rid, chunk), rid, acts, t)
    ensures Plays(env, s, rid, [Chunk(rid, chunk)] + ([Take(rid)] + acts), t)
  {
    PlaysFirst(env, DoChunk(s, rid, chunk), rid, Take(rid), acts, t);
    PlaysFirst(env, s, rid, Chunk(rid, chunk), [Take(rid)] + acts, t);
  }

  lemma TakenThen(s: State, rid: nat, chunk: Bytes, chunks: seq<Bytes>, o: Outcome, t: State)
    requires rid in s.reqs && s.reqs[rid].phase.Awaiting? && Sse.Push(s.reqs[rid].phase.assembler, chunk).Ok?
    requires EndState(AfterChunk(s, rid, chunk), rid, chunks, o, t)
    ensures EndState(s, rid, [chunk] + chunks, o, t)
  {
    assert AfterChunk(s, rid, chunk).reqs[rid := t.reqs[rid]] == s.reqs[rid := t.reqs[rid]];
  }

  /** Whatever the upstream sends, however it ends and whenever the client
      leaves, the steps of the request alone can lead to the end the closed form
      gives. */
  lemma {:induction false} MissOutcomeHappens(env: Env, s: State, rid: nat, upstream: seq<Bytes>, c: Circumstances)
    returns (acts: seq<Action>, t: State)
    requires rid in s.reqs && s.reqs[rid].phase.Awaiting? && c.id !in s.store && c.now == s.now
    ensures Happens(env, s, rid, upstream, c, acts, t)
    decreases |upstream|
  {
    var call, a := s.reqs[rid].call, s.reqs[rid].phase.assembler;
    if c.client == LeavesAwaiting(0) {
      LeavesAtOnce(env, call, a, upstream, c);
      acts, t := [Close(rid)], WithPhase(s, rid, Closed);
      CloseHappens(env, s, rid, t);
    } else if upstream == [] {
      acts, t := EndHappens(env, s, rid, c);
    } else if Sse.Push(a, upstream[0]).Raise? {
      acts, t := RaiseHappens(env, s, rid, upstream, c);
    } else if c.client == LeavesOffered(0) {
      acts, t := OfferHappens(env, s, rid, upstream, c);
    } else {
      OneChunkLater(env, call, a, upstream, c);
      var rest, later := upstream[1..], c.(client := c.client.Later());
      acts, t := MissOutcomeHappens(env, AfterChunk(s, rid, upstream[0]), rid, rest, later);
      TakeHappens(env, s, rid, upstream[0], acts, t);
      TakenThen(s, rid, upstream[0], Forwarded(Sse.Push(a, upstream[0]).value, rest, later.client), c.From(env, call, a, upstream), t);
      acts := [Chunk(rid, upstream[0])] + ([Take(rid)] + acts);
    }
  }
}
