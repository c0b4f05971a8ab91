# Verified model of the semantic caching proxy

A Dafny 4.11 model of an OpenAI-compatible proxy that answers repeated prompts
from a semantic cache. It follows one request through the system: it is keyed
(`Namespace`), looked up by exact nearest-neighbour search (`Similarity`,
`TopK`, `Store`), streamed through an incremental server-sent-event assembler
(`Json*`, `Utf8`, `Sse`, `StreamAssembler`, `Assembly`, `Render`), and cached only when it
was whole (`Proxy`, `ProxySafety`, `MissStream`, `RepeatHit`, `SemanticCache`). Around it are
the rate limiter (`RateLimit`) and the threshold tools (`ThresholdEngine`,
`ThresholdAnalytics`, `NearMiss`), and the tag escaping of the Redis store
(`EscapeTag`).

How it is modelled:

- Bytes are numbers below 256, a Python `str` is a sequence of Unicode scalar
  values, and JSON is read and written by a reader and printer of the whole
  grammar (RFC 8259 over RFC 3629), so that what the assembler makes of
  arbitrary upstream bytes is defined, exceptions included. Numbers with a
  fraction or exponent are kept as their text ("Left out" says what that loses).
- Exceptions are `Raise` results or `None`.
- Scores, thresholds, rates and times are real numbers; the only rounding
  modelled is the one the code asks for with `round`.
- The proxy is a step system. A step is what runs between two suspension points
  of the event loop, steps of different requests interleave freely, and the
  theorems speak of every state of every run. The objects the source mutates
  (`StreamAssembler`, `InMemoryVectorStore`, `SemanticCache`, `ProxyService`,
  `TokenBucket`, `RateLimiter`, `CategoryPolicy`, `AdaptiveThresholdEngine`,
  `NearMissTracker`) are classes proved against the functions those theorems
  are about.
- Outside collaborators are parameters, and what is assumed of them is written
  in `ValidEnv`: the hash prints 64 hexadecimal digits, the square root is one
  on the non-negative reals, pydantic reads integer fields, and embedding is a
  function to non-zero vectors of one dimension. A call of the embedding service
  may raise: while storing that is the step `EmbedFail`; during a lookup it ends
  the request before it changes anything, so it is no step. TTL policy,
  threshold policy and model routing are arbitrary functions. Fresh identifiers do not collide
  with live keys (the `Commit` step). Freedom from hash collisions is a
  hypothesis about the digests of the two signatures compared, never about all
  strings.
- numpy's `argpartition` and `argsort` are known only by what they promise, so
  ties may be broken in any way.

Where code and documentation differ, the model follows the code:

- `_recommend` is documented as maximizing F1. It compares F1 rounded to four
  places, so it can return a threshold of smaller F1
  (`RoundingCanMissTheMaximum`, exactly as `RecommendationIsMaximalIff` says);
  it is within 0.0001 of the maximum.
- Upstream bytes are documented as forwarded unchanged. A chunk on which the
  assembler raises ends the stream before it is forwarded
  (`RaisingChunkIsWithheld`, exactly as `ForwardedUnchangedIff` says).
- `cosine_similarity_matrix` is documented as scoring every row. Rows without
  columns are not scored.
- `top_k_indices` is documented as returning the `k` highest. For `k == 0` it
  returns all indices, and for negative `k` it drops `-k` of them or raises.
- "Movement is bounded" in the threshold engine holds from the first report on;
  a base outside its bounds stays there until then (`BoundedIff`).

## Model

| member | source | states |
|---|---|---|
| Chat.SystemPromptIsFirst | app/models/chat.py:40-44 | the system prompt is the content of the first system message |
| Chat.PromptIsNewestQuestion | app/models/chat.py:46-55 | the cache key text is the newest non-empty user turn |
| Chat.PromptOfNoQuestion | app/models/chat.py:56-57 | without one it is the join of all contents |
| Chat.JoinOneMore | app/models/chat.py:56-57 | joining: each further message adds a newline and its content |
| Chat.FirstTextIs | app/models/chat.py:90-93 | the text of a response is the content of its first choice |
| Utf8.DecodeEncode | app/proxy/streaming.py:30-31 | every character's UTF-8 form, whatever follows it, is read back as that character |
| Utf8.EncodeDecode | app/proxy/streaming.py:89 | only the encoding of a character is read as it: no overlong form |
| Json.PrintControlFree | app/proxy/streaming.py:30-31 | a dumped payload holds no byte below 0x20, so neither newline nor event separator |
| Json.TruthyIs | app/proxy/streaming.py:98-105 | what Python takes for false, value by value |
| Json.GetIsLast | app/proxy/streaming.py:95-105 | of several members of one key the last is looked up |
| Json.PlainText | app/proxy/streaming.py:30-31 | printable text is dumped between double quotes as it stands |
| Json.PrintedWords | app/proxy/streaming.py:30-31 | null, true, false and empty brackets are spelled as in RFC 8259 |
| Json.PrintedList | app/proxy/streaming.py:30-31 | a list is dumped between brackets with commas |
| Json.PrintedMember | app/proxy/streaming.py:30-31 | a member is dumped as key, colon, value between braces |
| Json.PrintedNegative | app/proxy/streaming.py:30-31 | a negative number is dumped as a minus sign and its magnitude |
| Json.PrintedDigit | app/proxy/streaming.py:30-31 | each digit of a dumped number is the decimal digit of its place |
| Json.PrintedEscapes | app/proxy/streaming.py:30-31 | quotes, backslashes and control characters are dumped as their short escapes |
| Json.PrintedControl | app/proxy/streaming.py:30-31 | the other control characters are dumped as four hexadecimal digits |
| JsonRoundTrip.ParsePrint | app/proxy/streaming.py:30-31 | a dumped value is read back exactly, whatever text follows it that does not continue a number |
| JsonRoundTrip.LoadsPrint | app/proxy/streaming.py:89 | `loads(dumps(v)) == v` for values free of floats and of integers wider than 64 bits |
| JsonSyntax.ParseSpread | app/proxy/streaming.py:89 | white space of any kind between tokens changes nothing that is read |
| JsonSyntax.LoadsSpread | app/proxy/streaming.py:89 | a payload spaced out between and around its tokens loads as its value |
| JsonSyntax.LoadsNothingElse | app/proxy/streaming.py:89-91 | text after the value is refused |
| JsonSyntax.ParseEscaped | app/proxy/streaming.py:89 | every character may be written as the escape of its UTF-16 form, surrogate pairs included |
| JsonSyntax.LoneSurrogate | app/proxy/streaming.py:89-91 | half a surrogate pair is refused |
| JsonSyntax.EscapeLetters | app/proxy/streaming.py:89 | the two-character escapes and hexadecimal digits of either case |
| JsonSyntax.FloatKept | app/proxy/streaming.py:89 | a number with a fraction, and an exponent or none, is kept as its text |
| JsonSyntax.LeadingZeroRefused | app/proxy/streaming.py:89-91 | a number with a leading zero is refused |
| JsonSyntax.SignRefused | app/proxy/streaming.py:89-91 | so is a sign alone |
| JsonSyntax.DigitsMissing | app/proxy/streaming.py:89-91 | so are a dot or an exponent without digits |
| JsonSyntax.ControlRefused | app/proxy/streaming.py:89-91 | so is a control character in a string |
| Sse.ChunkBoundariesDoNotMatter | app/proxy/streaming.py:58-78 | two ways of cutting the same bytes leave the assembler in the same state or raise the same exception |
| Sse.PushAllIsOneShot | app/proxy/streaming.py:74-93 | the state after any chunks is the fold over the events of the whole text, with the leftover in the buffer |
| Sse.EventsPartition | app/proxy/streaming.py:74-78 | cutting into events loses no byte |
| Sse.EventsBreakFree | app/proxy/streaming.py:76-77 | no event and no leftover buffer holds a blank line |
| Sse.CompletedIffDone | app/proxy/streaming.py:80-87 | the assembler is completed exactly when the bytes hold a terminated `data: [DONE]` event |
| Sse.LinesJoin | app/proxy/streaming.py:80-81 | splitting an event into lines loses only the line feeds between them |
| Sse.PaddedPayload | app/proxy/streaming.py:81-85 | a data line may be indented, end in a carriage return and pad its payload |
| StreamAssembler.StreamAssembler.Push | app/proxy/streaming.py:74-78 | the loop over the buffer consumes what the one-shot definition says, or raises its exception, with the fields and buffer the raising event leaves |
| StreamAssembler.StreamAssembler.ConsumeEvent | app/proxy/streaming.py:80-93 | only data lines count, DONE completes, undecodable payloads are skipped, others are merged; the lines before one that raises have had their effect |
| StreamAssembler.StreamAssembler.Merge | app/proxy/streaming.py:95-105 | absent keys keep the old id and creation time, falsy usage, content and finish reasons are ignored, ill-typed data raises after what was merged before it |
| Sse.BuildsIff | app/proxy/streaming.py:107-129 | exactly when a response can be built from the accumulated fields, and that it carries the model and the joined text |
| Sse.BuiltFields | app/proxy/streaming.py:107-129 | what a built response holds: joined text, id, creation time and finish reason or their defaults, the three counts under their names, or the estimate |
| Assembly.MergeIff | app/proxy/streaming.py:95-105 | for any JSON value: when it can be merged, what the merge does to each field, and which exception anything else raises |
| Assembly.AssemblesAnyStream | app/proxy/streaming.py:74-105 | any stream of events, cut anywhere and ended by DONE, leaves all contents in order and the last id, creation time, counting finish reason and counting usage |
| Assembly.BuildsAnyStream | app/proxy/streaming.py:74-129 | the response such a stream builds, token counts included, whatever the order of keys, extra keys and duplicate keys |
| Render.MergeChunk | app/proxy/streaming.py:34-54 | what each rendered chunk does to an assembler in any state |
| Render.RenderAssembleRoundTrip | app/proxy/streaming.py:34-129 | render, cut anywhere, assemble: completed, empty buffer, text kept for all strings, id and creation time unless empty, missing finish reason becomes "stop" |
| Render.RenderedEvents | app/proxy/streaming.py:34-54 | a response is rendered as exactly four events: role, text of the first choice, finish reason, DONE |
| Render.ChunkMembers | app/proxy/streaming.py:37-52 | the members of each chunk and of its choice, in order |
| Render.ReplayIsIdentical | app/proxy/streaming.py:34-54 | re-rendering the rebuilt response gives the same bytes if and only if id and creation time were kept, the models agree and a finish reason was present |
| Namespace.NamespaceScopes | app/cache/namespace.py:41-60 | equal namespaces if and only if tenant, provider, model, system-prompt hash, temperature bucket and max_tokens agree, for arbitrary strings |
| Namespace.SplitThree | app/cache/namespace.py:49-60 | joining with two different separators fixes the three fields although they may contain both |
| Namespace.BucketStringInjective | app/cache/namespace.py:48 | different temperature buckets print differently, signs included |
| Namespace.MaxTokensStringInjective | app/cache/namespace.py:55 | different limits print differently, and no number prints as "default" |
| Namespace.SystemHashIdentifiesPrompt | app/cache/namespace.py:18-23 | system-prompt hashes agree exactly for prompts equal after stripping; the sentinel is no hash |
| Namespace.SharedBucketIsClose | app/cache/namespace.py:41-48 | temperatures in one bucket are at most 0.1 apart |
| Namespace.BucketIsNearest | app/cache/namespace.py:48 | the bucket is the nearest tenth, with the sign of the temperature |
| Namespace.PrintedExamples | app/cache/namespace.py:48-55 | how temperatures and limits print, ties and negative zero included |
| Namespace.NormalizeTrims | app/cache/namespace.py:20 | a prompt is normalized by taking white space off both ends and nothing else |
| Namespace.SpaceIsListed | app/cache/namespace.py:20 | the white space of `str.strip`, listed |
| Namespace.SystemHashIs | app/cache/namespace.py:20-23 | the sentinel exactly for blank prompts, else the first 16 digits of the digest of the stripped text |
| Namespace.NamespaceReads | app/cache/namespace.py:49-60 | tenant, provider and model in clear, then 20 hexadecimal digits |
| Similarity.CauchySchwarz | app/cache/similarity.py:14-21 | the squared dot product is at most the product of the squared norms |
| Similarity.DotUnit | app/cache/similarity.py:21 | the dot product with a coordinate vector reads that coordinate |
| Similarity.DotPlus | app/cache/similarity.py:21 | it is additive |
| Similarity.DotScale | app/cache/similarity.py:21 | it is homogeneous |
| Similarity.CosineEquation | app/cache/similarity.py:14-21 | the dot product is the similarity times the two lengths, each the non-negative root of the vector's own dot product |
| Similarity.NormalizedIsDot | app/cache/similarity.py:1-7 | for normalized vectors the similarity is the dot product |
| Similarity.CosineOpposite | app/cache/similarity.py:14-21 | it changes sign with an argument, and is -1 between a vector and its opposite |
| Similarity.CosineScaled | app/cache/similarity.py:14-21 | only the direction of a vector counts |
| Similarity.CosineBounded | app/cache/similarity.py:14-21 | cosine similarity lies in [-1, 1] |
| Similarity.CosineSelf | app/cache/similarity.py:14-21 | it is 1 on a non-zero vector with itself and 0 on the zero vector |
| Similarity.Denominators | app/cache/similarity.py:28-31 | the denominators after their zero cells were overwritten |
| Similarity.CosineSimilarityMatrix | app/cache/similarity.py:24-32 | every row of the matrix form is the pairwise form, zero query and zero rows included; an empty matrix scores nothing; rows that do not fit the query raise |
| TopK.SelectIsTop | app/cache/similarity.py:41-42 | partition, slice, sort and reverse give distinct indices, best first, none beaten by one left out, for every tie-breaking |
| TopK.TopKIndices | app/cache/similarity.py:35-42 | the best min(k, n) indices for positive k, all for zero, n + k or an exception for negative k |
| Store.InMemoryVectorStore.Upsert | app/cache/memory_store.py:27-28 | the dict gains or replaces exactly this key |
| Store.InMemoryVectorStore.LiveEntries | app/cache/memory_store.py:30-39 | exactly the entries of the namespace with a positive TTL and a creation time no further back than it, in insertion order |
| Store.LiveListIsLive | app/cache/memory_store.py:30-39 | the live list holds each live entry exactly once |
| Store.InMemoryVectorStore.Search | app/cache/memory_store.py:41-53 | the true top-k of exactly those entries, with their cosine similarities, best first, min(k, n) of them; or numpy's exception for vectors of different dimensions, vectors that do not fit the query, or a negative top_k past the end |
| Store.ResultCounts | app/cache/memory_store.py:41-53 | min(k, n) results for positive k, all for zero, n + k or an exception for negative k |
| Store.FirstIsBest | app/cache/semantic_cache.py:85-86 | the first match is an argmax over the live entries |
| Store.InMemoryVectorStore.IncrementHit | app/cache/memory_store.py:58-61 | one more hit on a present entry, nothing otherwise |
| Store.InMemoryVectorStore.Delete | app/cache/memory_store.py:63-83 | an entry stays, unchanged, exactly when no field is given or it differs in a given one; the number of the others is returned |
| Store.DeletedTogether | app/cache/memory_store.py:73-78 | fields given together remove exactly what each of them alone would |
| Store.InMemoryVectorStore.Clear | app/cache/memory_store.py:85-88 | everything goes and is counted |
| Store.ExpiryIsFinal | app/models/cache.py:46-52 | what has expired stays expired |
| Store.LivesUntil | app/models/cache.py:46-52 | an entry lives up to and including its creation time plus its TTL, and not at all without a positive TTL |
| LazyExpiry.LazyExpiryIsInvisible | app/cache/memory_store.py:27-88 | purging expired entries, any at any moments, changes no search of any run |
| SemanticCache.SemanticCache.Lookup | app/cache/semantic_cache.py:70-114 | for any top_k: hit, score, near miss, match and hit count are those of a best live entry against the effective threshold, unless the embedding or the search raises |
| SemanticCache.SemanticCache.StoreResponse | app/cache/semantic_cache.py:116-153 | the store gains exactly the entry of these arguments, tags, metadata and token counts included, or nothing when embedding the prompt raises |
| SemanticCache.ProxyService.MissBody | app/proxy/service.py:219-242 | the loop yields and stores exactly what the closed form says, for every upstream, ending and moment the client leaves |
| MissStream.CachedIffWhole | app/proxy/service.py:219-242 | a miss stream is cached if and only if the provider ended by itself, the client stayed until it was stored, the bytes parse, hold DONE and assemble, the TTL is positive, and embedding the prompt succeeds |
| MissStream.ForwardedUnchangedIff | app/proxy/streaming.py:7-10 | the client gets all upstream bytes unchanged if and only if the assembler raises on no chunk and the client stays to the last one |
| MissStream.RaisingChunkIsWithheld | app/proxy/service.py:219-227 | a chunk with null choices is not forwarded to a client that stays |
| MissStream.StreamsEndAsMissOutcome | app/proxy/service.py:219-242 | in every interleaved run a miss stream that ended has the phase, the forwarded chunks and the writes that the closed form gives for the chunks it received and for what its own steps tell: how the provider ended, when the client left, which seed, id and time were drawn |
| MissStream.MissOutcomeHappens | app/proxy/service.py:219-242 | for every upstream, ending and moment the client leaves, the steps of the request alone reach the end the closed form gives, and change nothing else |
| SemanticCache.ProxyService.CompleteMiss | app/proxy/service.py:160-181 | a buffered reply is stored exactly when the policy gives a positive TTL and embedding the prompt succeeds |
| ProxySafety.RunKeeps | app/proxy/service.py:132-242 | the invariant of requests, store, log and near misses holds in every state of every run |
| ProxySafety.NeverCachePartial | app/proxy/service.py:219-242 | under every interleaving each write has its own finished request, a positive TTL, and for a stream the pure assembly of exactly the bytes received and forwarded, which hold DONE |
| ProxySafety.EntryIsOfItsRequest | app/cache/semantic_cache.py:129-145 | in every run each entry's lookup and invalidation keys, prompt, embedding, token counts, TTL and tags are those of the request that stored it, its response and the policy |
| ProxySafety.YieldedIsPrefix | app/proxy/service.py:222-224 | what the client got is always a prefix of what was received |
| ProxySafety.HitIsSound | app/proxy/service.py:140-158 | a served entry was stored by a request of the same tenant, provider, model, system-prompt hash and max_tokens and a temperature within a tenth, was not invalidated since, is within its TTL, and its cosine similarity reaches the threshold and is the maximum |
| ProxySafety.HitsAreConserved | app/cache/memory_store.py:58-61 | an entry's hit count is the number of requests it answered since the event that stored it |
| ProxySafety.NearMissGaps | app/proxy/service.py:111-118 | every recorded near miss lies below its threshold by no more than the window |
| RepeatHit.RepeatIsAHit | app/proxy/service.py:132-174 | once stored, the same namespace and prompt are served up to and including age = TTL, whatever ran between, for every threshold up to 1 |
| RepeatHit.IdenticalRequestIsAHit | app/proxy/service.py:132-174 | so the same request of the same tenant is served from the cache |
| RepeatHit.MissIsJustified | app/cache/semantic_cache.py:88-97 | a request is not served only when every entry of its namespace within its TTL is less similar to its prompt than the threshold asked for, or else the default one |
| RepeatHit.NearMissIff | app/cache/semantic_cache.py:94-97 | a near miss is recorded exactly when a request is not served and an entry comes within the window of its threshold, with the highest similarity and the threshold it missed |
| RepeatHit.ServedNeverGoesUpstream | app/proxy/service.py:146-158 | in the rest of every run a request answered from the cache takes no upstream step and keeps the entry it was answered with |
| RepeatHit.LookupNeverBlocks | app/cache/semantic_cache.py:82-86 | in every state of every run a new request can be looked up |
| RepeatHit.StreamReplaysIdentically | app/proxy/service.py:209-242 | a rendered stream, received in any chunks and cached, is stored as a response that renders to the bytes its client got |
| RepeatHit.HitReplaysFirstStream | app/proxy/service.py:146-158 | whoever is answered from that entry in any run gets the bytes the first client got |
| RateLimit.TokenBucket.Allow | app/core/middleware.py:68-75 | refill by elapsed time times rate up to the capacity, accept exactly when a whole token is there, and take it |
| RateLimit.GreedyIsOptimal | app/core/middleware.py:68-75 | at every prefix of every trace no legal run of the same bucket has accepted more |
| RateLimit.GreedyIsLegal | app/core/middleware.py:68-75 | the bucket's own decisions are a legal run |
| RateLimit.WindowBound | app/core/middleware.py:62-75 | in every window at most rate * (1 + length) acceptances, none for a rate below one |
| RateLimit.BurstIsAccepted | app/core/middleware.py:62-75 | a full bucket accepts its first `rate` attempts, however close together |
| RateLimit.DeniedLeaveNoTrace | app/core/middleware.py:68-75 | deleting any denied attempts changes no other decision |
| RateLimit.ClientsAreIndependent | app/core/middleware.py:99-115 | in every interleaved trace each client is decided as by a bucket of its own that had stood full since any earlier moment |
| RateLimit.DeniedArrivalsLeaveNoTrace | app/core/middleware.py:99-115 | deleting any denied arrivals from an interleaved trace changes no other decision of any client |
| RateLimit.ClientWindowBound | app/core/middleware.py:62-115 | in every window of every interleaved trace each client gets at most rate * (1 + length) acceptances, whatever the others do |
| RateLimit.ClientBurstIsAccepted | app/core/middleware.py:99-115 | and its first `rate` requests are let through |
| RateLimit.ClientKeyIff | app/core/middleware.py:92-97 | requests share a bucket exactly when they name the same tenant, or neither names one and the addresses agree |
| RateLimit.RateLimiter.Dispatch | app/core/middleware.py:99-115 | exempt paths touch nothing, any other request moves its own client's bucket only |
| ThresholdEngine.CategoryPolicy.Adjust | app/policies/threshold_engine.py:46-48 | the new threshold is the shifted one clamped, and is returned |
| ThresholdEngine.FeedbackMoves | app/policies/threshold_engine.py:46-48 | a false hit raises the threshold by the step, a true one lowers it, and a bound stops either |
| ThresholdEngine.AdaptiveThresholdEngine.RecordFeedback | app/policies/threshold_engine.py:92-100 | one category moves by its own step, the others stay |
| ThresholdEngine.WalkCollapses | app/policies/threshold_engine.py:43-48 | any feedback acts on every starting threshold, in bounds or not, as one clamp computed from the feedback alone |
| ThresholdEngine.WalkIsTame | app/policies/threshold_engine.py:43-48 | two starting values keep their order and never move apart, and from the first report on the threshold stays in bounds |
| ThresholdEngine.BoundedIff | app/policies/threshold_engine.py:46-48 | the bounds hold if and only if a report was made or the base lies within them |
| ThresholdEngine.EnoughReportsReachTheBound | app/policies/threshold_engine.py:92-100 | after any history n reports in one direction with n * step at least the width reach the bound, from any base once one report was made |
| ThresholdEngine.CategoriesWalkAlone | app/policies/threshold_engine.py:92-100 | in any stream of feedback each category walks on its own reports alone |
| ThresholdAnalytics.ComputeMetrics | app/analytics/threshold.py:73-99 | the loop's counters are the four counts, and the rates their quotients |
| ThresholdAnalytics.TallyIs | app/analytics/threshold.py:75-84 | the four counts are the numbers of cases with each label whose similarity reaches the threshold or does not |
| ThresholdAnalytics.Similarities | app/analytics/threshold.py:65-71 | one cosine per labelled pair, in order |
| ThresholdAnalytics.Evaluate | app/analytics/threshold.py:101-109 | sample size, one row per sorted threshold over the similarities of the embedded pairs, and the recommendation over them, 0.95 without thresholds |
| ThresholdAnalytics.SweepIsMonotone | app/analytics/threshold.py:73-103 | labelled totals stay, counts sum to the cases, hit rate, recall and false-positive rate never rise, the false-negative rate never falls |
| ThresholdAnalytics.RatesAreRates | app/analytics/threshold.py:87-99 | every rate lies in [0, 1] |
| ThresholdAnalytics.RatesExact | app/analytics/threshold.py:87-99 | which fraction each rate is, and 0 of nothing |
| ThresholdAnalytics.F1Exact | app/analytics/threshold.py:125-128 | F1 is 2tp/(2tp+fp+fn), and 0 without true positives |
| ThresholdAnalytics.RecommendationIsNearlyOptimal | app/analytics/threshold.py:116-130 | a swept threshold with F1 within 0.0001 of the best, then maximal precision, then maximal threshold |
| ThresholdAnalytics.RecommendationIsMaximalIff | app/analytics/threshold.py:116-130 | the recommendation has the exact maximum of F1 if and only if a row that has it is overtaken by none of smaller F1 that rounds alike |
| ThresholdAnalytics.RoundingCanMissTheMaximum | app/analytics/threshold.py:116-130 | 101 labelled pairs on which sweeping 0.90 and 0.95 recommends the smaller F1 |
| NearMiss.NearMissTracker.Record | app/analytics/near_miss.py:52-61 | the window gains the event, with at most 120 characters of its prompt, and drops the oldest past capacity |
| NearMiss.WindowIsLatest | app/analytics/near_miss.py:45-61 | after any records the window is exactly the last min(n, capacity) |
| NearMiss.NearMissTracker.ComputeHistogram | app/analytics/near_miss.py:63-75 | each bin counts its scores and the bins sum to the window |
| NearMiss.HistogramCounts | app/analytics/near_miss.py:63-75 | each bin counts the events whose score lies in its half-open interval |
| NearMiss.NearMissTracker.MakeReport | app/analytics/near_miss.py:77-116 | the report of the current window, with the values its text names |
| NearMiss.RecommendationRecoversMost | app/analytics/near_miss.py:90-96 | strictly more than three quarters of the scores lie strictly above the recommended threshold, despite rounding |
| NearMiss.RecommendationIsTight | app/analytics/near_miss.py:90-96 | nor is it lower than need be: at least a quarter of the scores, and at least one, lie no more than 0.0055 above it |
| NearMiss.MeanIsBetween | app/analytics/near_miss.py:86-88 | a mean lies between any bounds of its values and is reported to four places |
| NearMiss.ReportRecoversMost | app/analytics/near_miss.py:77-116 | after any records a threshold is recommended, in the field and in the text, exactly when enough events are kept, and it recovers most of them |
| EscapeTag.EscapeTag | app/cache/store.py:209-214 | eight successive replacements equal one escaping pass |
| EscapeTag.ReplacementsArePass | app/cache/store.py:212-213 | successive replacements of any distinct characters without the backslash equal one pass over them |
| EscapeTag.OrderIsIrrelevant | app/cache/store.py:212-213 | two orders of the same distinct characters without the backslash give the same text |
| EscapeTag.AnyOrderEscapes | app/cache/store.py:209-214 | every order of the eight special characters escapes a tag alike |
| EscapeTag.UnescapeInverts | app/cache/store.py:209-214 | dropping the character before each special one inverts the escaping |
| EscapeTag.EscapeInjective | app/cache/store.py:209-214 | different tags stay different |
| EscapeTag.SpecialsListed | app/cache/store.py:212 | the eight special characters |
| EscapeTag.SpecialsAreGuarded | app/cache/store.py:209-214 | each special character of an escaped tag stands behind a backslash |

## Left out

- HTTP wiring, headers, logging, correlation ids, configuration, metrics and dashboards: plumbing.
- Provider clients, retries and the OpenAI embedding client: the upstream is any sequence of chunks ending by itself, by an exception or by the client leaving.
- The Redis store except `_escape_tag`: a foreign engine with approximate search and its own key expiry.
- Keyword and pattern classification of prompts for TTL and threshold category, and model-prefix routing: arbitrary functions here.
- Floating-point rounding, except the rounding of F1, of the recommended threshold, of report means and of the temperature bucket.
- orjson's nesting limit, and the value of JSON numbers with a fraction or exponent, or wider than 64 bits: such a number is kept as its text. So overflow is not seen (`1e400` is read here, orjson refuses it) nor underflow (`1e-400` is non-zero here and falsy in Python).
- pydantic's reading of non-integers as integers: an arbitrary function that agrees on integers. Extra response fields and message roles are not kept.
- Lone surrogates in strings, which orjson refuses to write.
- Suspension while the lookup embeds the prompt: search and hit count happen in one step, as the in-memory store runs them.
- The stored `object` field of a response, and the English of reports.
- A proxy configured with a negative `top_k`, whose lookups may raise: `SemanticCache.Lookup` covers it, the step system does not.
- Shadow validation, Anthropic translation, benchmarks and load tests.
- Event separators other than a blank line of two newlines, and request dimensions outside the namespace (top_p, stop, n, earlier turns): the code does not handle them and nothing is claimed.
