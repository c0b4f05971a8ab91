/** Cache entries, their lifetime, and the in-memory vector store. */
module Store {
  import opened Wrappers
  import opened Json
  import opened Chat
  import opened Similarity
  import TopK

  datatype Entry = Entry(
    id: string,
    namespace: string,
    prompt: string,
    embedding: Vector,
    response: Response,
    model: string,
    provider: string,
    systemPromptHash: string,
    temperature: real,
    maxTokens: Option<int>,
    createdAt: real,
    ttlSeconds: int,
    hitCount: nat,
    promptTokens: int,
    completionTokens: int,
    tags: seq<string>,
    metadata: map<string, Json>)
  {
    function AgeSeconds(now: real): real { now - createdAt }

    predicate IsExpired(now: real) { ttlSeconds <= 0 || AgeSeconds(now) > ttlSeconds as real }
  }

  /** Exactly how long an entry lives: up to and including its creation time plus
      its TTL, and not at all without a positive TTL. */
  lemma LivesUntil(e: Entry, now: real)
    ensures !e.IsExpired(now) <==> e.ttlSeconds > 0 && now <= e.createdAt + e.ttlSeconds as real
  {
  }

  /** Age only grows: what has expired stays expired. */
  lemma ExpiryIsFinal(e: Entry, now: real, later: real)
    requires now <= later && e.IsExpired(now)
    ensures e.IsExpired(later)
  {
  }

  // ----- the store as a value -----

  type Entries = map<string, Entry>

  ghost predicate WellKeyed(m: Entries) { forall id | id in m :: m[id].id == id }

  datatype Filter = Filter(model: Option<string>, systemPromptHash: Option<string>, tag: Option<string>)
  {
    predicate Empty() { model.None? && systemPromptHash.None? && tag.None? }

    predicate Matches(e: Entry) {
      && (model.Some? ==> e.model == model.value)
      && (systemPromptHash.Some? ==> e.systemPromptHash == systemPromptHash.value)
      && (tag.Some? ==> tag.value in e.tags)
    }
  }

  function Deleted(m: Entries, f: Filter): Entries {
    if f.Empty() then m else map id | id in m && !f.Matches(m[id]) :: m[id]
  }

  /** What survives a deletion: everything when no field is given, else exactly
      the entries that differ from the filter in some given field, unchanged. */
  lemma SurvivesIff(m: Entries, f: Filter, id: string)
    ensures id in Deleted(m, f) <==>
              && id in m
              && (|| (f.model.None? && f.systemPromptHash.None? && f.tag.None?)
                  || (f.model.Some? && m[id].model != f.model.value)
                  || (f.systemPromptHash.Some? && m[id].systemPromptHash != f.systemPromptHash.value)
                  || (f.tag.Some? && f.tag.value !in m[id].tags))
    ensures id in Deleted(m, f) ==> Deleted(m, f)[id] == m[id]
  {
  }

  /** Fields given together remove exactly what each of them alone would. */
  lemma DeletedTogether(m: Entries, model: string, hash: string, tag: string, id: string)
    requires id in m
    ensures var byModel := id !in Deleted(m, Filter(Some(model), None, None));
            var byHash := id !in Deleted(m, Filter(None, Some(hash), None));
            var byTag := id !in Deleted(m, Filter(None, None, Some(tag)));
            && (id !in Deleted(m, Filter(Some(model), Some(hash), None)) <==> byModel && byHash)
            && (id !in Deleted(m, Filter(Some(model), None, Some(tag))) <==> byModel && byTag)
            && (id !in Deleted(m, Filter(None, Some(hash), Some(tag))) <==> byHash && byTag)
            && (id !in Deleted(m, Filter(Some(model), Some(hash), Some(tag))) <==> byModel && byHash && byTag)
  {
  }

  function Hit(m: Entries, id: string): Entries {
    if id in m then m[id := m[id].(hitCount := m[id].hitCount + 1)] else m
  }

  predicate IsLive(e: Entry, namespace: string, now: real) { e.namespace == namespace && !e.IsExpired(now) }

  /** What a search may see. */
  function Live(m: Entries, namespace: string, now: real): Entries {
    map id | id in m && IsLive(m[id], namespace, now) :: m[id]
  }

  /** `IsLive` in plain terms. */
  ghost predicate Fresh(e: Entry, namespace: string, now: real) {
    e.namespace == namespace && e.ttlSeconds > 0 && now <= e.createdAt + e.ttlSeconds as real
  }

  lemma LiveIsFresh(m: Entries, namespace: string, now: real)
    ensures forall id :: id in Live(m, namespace, now) <==> id in m && Fresh(m[id], namespace, now)
    ensures forall id | id in Live(m, namespace, now) :: Live(m, namespace, now)[id] == m[id]
  {
    forall id | id in m
      ensures IsLive(m[id], namespace, now) <==> Fresh(m[id], namespace, now)
    {
      LivesUntil(m[id], now);
    }
  }

  ghost predicate SameDimension(m: Entries, q: Vector) {
    forall id | id in m :: |m[id].embedding| == |q|
  }

  function Score(sqrt: real -> real, q: Vector, e: Entry): real
    requires |e.embedding| == |q|
  {
    CosineSimilarity(sqrt, q, e.embedding)
  }

  datatype Scored = Scored(entry: Entry, score: real)

  /** `results` are the `n` best of the live entries: entries of the store under
      distinct ids with their true scores, best first, none beaten by a live
      entry left out. */
  ghost predicate IsRanking(sqrt: real -> real, live: Entries, q: Vector, n: nat, results: seq<Scored>)
    requires SameDimension(live, q)
  {
    && |results| == n
    && (forall a | 0 <= a < n :: IsTrueResult(sqrt, live, q, results[a]))
    && (forall a, b | 0 <= a < b < n :: results[a].entry.id != results[b].entry.id && results[a].score >= results[b].score)
    && (forall id, a | id in live && 0 <= a < n && (forall b | 0 <= b < n :: results[b].entry.id != id) ::
          Score(sqrt, q, live[id]) <= results[a].score)
  }

  ghost predicate IsTrueResult(sqrt: real -> real, live: Entries, q: Vector, r: Scored)
    requires SameDimension(live, q)
  {
    r.entry.id in live && live[r.entry.id] == r.entry && r.score == Score(sqrt, q, r.entry)
  }

  /** An entry no live entry beats, when there is one. */
  ghost predicate IsBest(sqrt: real -> real, live: Entries, q: Vector, best: Option<string>)
    requires SameDimension(live, q)
  {
    && (best.None? <==> live == map[])
    && (best.Some? ==> best.value in live
                       && forall id | id in live :: Score(sqrt, q, live[id]) <= Score(sqrt, q, live[best.value]))
  }

  /** The first of a non-empty ranking is best. */
  lemma FirstIsBest(sqrt: real -> real, live: Entries, q: Vector, n: nat, results: seq<Scored>)
    requires SameDimension(live, q) && IsRanking(sqrt, live, q, n, results) && n > 0
    ensures IsBest(sqrt, live, q, Some(results[0].entry.id))
  {
  }

  // ----- the live list -----

  /** The live entries in the dict's insertion order. */
  function LiveList(order: seq<string>, m: Entries, namespace: string, now: real): seq<Entry>
    requires forall i | 0 <= i < |order| :: order[i] in m
  {
    if order == [] then []
    else
      var k := |order| - 1;
      var e := m[order[k]];
      LiveList(order[..k], m, namespace, now) + if IsLive(e, namespace, now) then [e] else []
  }

  ghost predicate Distinct(order: seq<string>) {
    forall i, j | 0 <= i < j < |order| :: order[i] != order[j]
  }

  /** The live entries among the ids of `order`, each once. */
  ghost predicate LiveAmong(l: seq<Entry>, order: seq<string>, m: Entries, namespace: string, now: real) {
    && (forall a | 0 <= a < |l| :: l[a].id in order && l[a].id in m && m[l[a].id] == l[a] && IsLive(l[a], namespace, now))
    && (forall a, b | 0 <= a < b < |l| :: l[a].id != l[b].id)
    && (forall id | id in order && id in m && IsLive(m[id], namespace, now) :: m[id] in l)
  }

  lemma OneMoreId(l: seq<Entry>, order: seq<string>, id: string, m: Entries, namespace: string, now: real)
    requires LiveAmong(l, order, m, namespace, now) && id !in order && id in m && m[id].id == id
    ensures LiveAmong(l + if IsLive(m[id], namespace, now) then [m[id]] else [], order + [id], m, namespace, now)
  {
    var grown := l + if IsLive(m[id], namespace, now) then [m[id]] else [];
    forall x | x in order + [id] && x in m && IsLive(m[x], namespace, now)
      ensures m[x] in grown
    {
      if x != id {
        assert x in order && m[x] in l;
      }
    }
  }

  lemma {:induction false} LiveListMembers(order: seq<string>, m: Entries, namespace: string, now: real)
    requires (forall i | 0 <= i < |order| :: order[i] in m) && WellKeyed(m) && Distinct(order)
    ensures LiveAmong(LiveList(order, m, namespace, now), order, m, namespace, now)
  {
    if order != [] {
      var k := |order| - 1;
      LiveListMembers(order[..k], m, namespace, now);
      assert order[k] !in order[..k];
      OneMoreId(LiveList(order[..k], m, namespace, now), order[..k], order[k], m, namespace, now);
      assert order == order[..k] + [order[k]];
    }
  }

  /** A list of exactly the live entries, each once. */
  ghost predicate Lists(list: seq<Entry>, live: Entries) { |list| == |live| && Covers(list, live) }

  ghost predicate Covers(list: seq<Entry>, live: Entries) {
    && (forall a | 0 <= a < |list| :: list[a].id in live && live[list[a].id] == list[a])
    && (forall a, b | 0 <= a < b < |list| :: list[a].id != list[b].id)
    && (forall id | id in live :: live[id] in list && live[id].id == id)
  }

  function Embeddings(live: seq<Entry>): (v: seq<Vector>)
    ensures |v| == |live| && forall a | 0 <= a < |v| :: v[a] == live[a].embedding
  {
    seq(|live|, i requires 0 <= i < |live| => live[i].embedding)
  }

  function ScoredAt(live: seq<Entry>, scores: seq<real>, ix: seq<nat>): (r: seq<Scored>)
    requires |scores| == |live| && TopK.InRange(ix, |live|)
    ensures |r| == |ix| && forall a | 0 <= a < |ix| :: r[a] == Scored(live[ix[a]], scores[ix[a]])
  {
    seq(|ix|, a requires 0 <= a < |ix| => Scored(live[ix[a]], scores[ix[a]]))
  }

  /** Top indices into the live list rank the live entries. */
  lemma TopIsRanking(sqrt: real -> real, live: Entries, list: seq<Entry>, q: Vector, scores: seq<real>, n: nat, ix: seq<nat>)
    requires SameDimension(live, q)
    requires Lists(list, live)
    requires |scores| == |list| && forall a | 0 <= a < |list| :: scores[a] == Score(sqrt, q, list[a])
    requires TopK.IsTop(scores, n, ix)
    ensures IsRanking(sqrt, live, q, n, ScoredAt(list, scores, ix))
  {
    var r := ScoredAt(list, scores, ix);
    forall a | 0 <= a < n
      ensures IsTrueResult(sqrt, live, q, r[a])
    {
      assert r[a] == Scored(list[ix[a]], scores[ix[a]]);
    }
    forall id, a | id in live && 0 <= a < n && (forall b | 0 <= b < n :: r[b].entry.id != id)
      ensures Score(sqrt, q, live[id]) <= r[a].score
    {
      var i: nat :| i < |list| && list[i] == live[id];
      forall b | 0 <= b < n
        ensures ix[b] != i
      {
        assert r[b].entry == list[ix[b]];
      }
    }
  }

  // ----- the object -----

  /** `InMemoryVectorStore`. A Python dict is a map that remembers the order in
      which its keys were first inserted. */
  class InMemoryVectorStore {
    var entries: Entries
    var order: seq<string>

    ghost predicate Valid()
      reads this
    {
      && WellKeyed(entries) && Distinct(order)
      && forall id :: id in order <==> id in entries
    }

    constructor ()
      ensures Valid() && entries == map[]
    {
      entries := map[];
      order := [];
    }

    method Upsert(e: Entry)
      requires Valid()
      modifies this
      ensures Valid() && entries == old(entries)[e.id := e]
    {
      if e.id !in entries {
        order := order + [e.id];
      }
      entries := entries[e.id := e];
    }

    method LiveEntries(namespace: string, now: real) returns (live: seq<Entry>)
      requires Valid()
      ensures forall i | 0 <= i < |order| :: order[i] in entries
      ensures live == LiveList(order, entries, namespace, now)
      ensures forall e <- live :: e.id in entries && entries[e.id] == e
      ensures forall e <- live :: e.namespace == namespace && e.ttlSeconds > 0 && now <= e.createdAt + e.ttlSeconds as real
      ensures forall id | id in entries && entries[id].namespace == namespace && entries[id].ttlSeconds > 0
                          && now <= entries[id].createdAt + entries[id].ttlSeconds as real :: entries[id] in live
    {
      live := [];
      for i := 0 to |order|
        invariant live == LiveList(order[..i], entries, namespace, now)
      {
        var entry := entries[order[i]];
        assert order[..i + 1][..i] == order[..i];
        if entry.namespace != namespace {
          continue;
        }
        if entry.IsExpired(now) {
          continue;
        }
        live := live + [entry];
      }
      assert order[..|order|] == order;
      LiveListMembers(order, entries, namespace, now);
      LiveIsFresh(entries, namespace, now);
    }

    /** The top `topK` of the live entries; `None` is the ValueError of numpy.
        Vectors of no coordinate match nothing. */
    method Search(sqrt: real -> real, namespace: string, q: Vector, topK: int, now: real) returns (r: Option<seq<Scored>>)
      requires Valid() && IsSqrt(sqrt)
      ensures Finds(sqrt, Live(entries, namespace, now), q, topK, r)
      ensures r.Some? && r.value != [] ==> RanksFresh(sqrt, entries, namespace, q, now, r.value)
      ensures r.Some? && topK > 0 && q != [] && SameDimension(Live(entries, namespace, now), q) ==>
                var n := |Live(entries, namespace, now)|; |r.value| == if topK < n then topK else n
    {
      var live := LiveEntries(namespace, now);
      LiveListIsLive(order, entries, namespace, now);
      if live == [] {
        return Some([]);
      }
      r := Rank(sqrt, live, Live(entries, namespace, now), q, topK);
      if r.Some? && r.value != [] {
        FindsFresh(sqrt, entries, namespace, q, topK, now, r.value);
      }
    }

    method Get(id: string) returns (r: Option<Entry>)
      ensures r == if id in entries then Some(entries[id]) else None
    {
      r := if id in entries then Some(entries[id]) else None;
    }

    method IncrementHit(id: string)
      requires Valid()
      modifies this`entries
      ensures Valid() && entries == Hit(old(entries), id)
    {
      if id in entries {
        entries := entries[id := entries[id].(hitCount := entries[id].hitCount + 1)];
      }
    }

    method Delete(f: Filter) returns (removed: nat)
      requires Valid()
      modifies this
      ensures Valid() && entries == Deleted(old(entries), f)
      ensures removed == |old(entries)| - |entries|
      ensures forall id :: id in entries <==>
                && id in old(entries)
                && (|| (f.model.None? && f.systemPromptHash.None? && f.tag.None?)
                    || (f.model.Some? && old(entries)[id].model != f.model.value)
                    || (f.systemPromptHash.Some? && old(entries)[id].systemPromptHash != f.systemPromptHash.value)
                    || (f.tag.Some? && f.tag.value !in old(entries)[id].tags))
      ensures forall id | id in entries :: entries[id] == old(entries)[id]
    {
      DeletedPlainly(entries, f);
      if f.Empty() {
        return 0;
      }
      var doomed := Matching(f);
      RemoveAllDeletes(entries, doomed, f);
      PopAll(doomed);
      removed := |doomed|;
    }

    method PopAll(ids: seq<string>)
      requires Valid()
      modifies this
      ensures Valid() && entries == RemoveAll(old(entries), ids)
    {
      for j := 0 to |ids|
        invariant Valid() && entries == RemoveAll(old(entries), ids[..j])
      {
        assert ids[..j + 1][..j] == ids[..j];
        Pop(ids[j]);
      }
      assert ids[..|ids|] == ids;
    }

    method Matching(f: Filter) returns (ids: seq<string>)
      requires Valid()
      ensures Distinct(ids) && forall id :: id in ids <==> id in entries && f.Matches(entries[id])
    {
      ids := [];
      for i := 0 to |order|
        invariant forall id :: id in ids <==> id in order[..i] && f.Matches(entries[id])
        invariant Distinct(ids)
      {
        assert order[i] !in order[..i];
        if f.Matches(entries[order[i]]) {
          ids := ids + [order[i]];
        }
      }
      assert order[..|order|] == order;
    }

    method Pop(id: string)
      requires Valid()
      modifies this
      ensures Valid() && entries == old(entries) - {id}
    {
      order := Without(order, id);
      entries := entries - {id};
    }

    method Clear() returns (count: nat)
      requires Valid()
      modifies this
      ensures Valid() && entries == map[] && count == |old(entries)|
    {
      count := |entries|;
      entries := map[];
      order := [];
    }
  }

  function Without(order: seq<string>, id: string): (r: seq<string>)
    ensures forall x :: x in r <==> x in order && x != id
    ensures Distinct(order) ==> Distinct(r)
  {
    if order == [] then []
    else
      var rest := Without(order[1..], id);
      assert Distinct(order) ==> Distinct(order[1..]) && order[0] !in order[1..];
      if order[0] == id then rest else [order[0]] + rest
  }

  function RemoveAll(m: Entries, ids: seq<string>): Entries {
    if ids == [] then m else RemoveAll(m, ids[..|ids| - 1]) - {ids[|ids| - 1]}
  }

  lemma {:induction false} RemoveAllKeys(m: Entries, ids: seq<string>)
    ensures forall id :: id in RemoveAll(m, ids) <==> id in m && id !in ids
    ensures forall id | id in RemoveAll(m, ids) :: RemoveAll(m, ids)[id] == m[id]
  {
    if ids != [] {
      var k := |ids| - 1;
      RemoveAllKeys(m, ids[..k]);
      assert forall id :: id in ids <==> id in ids[..k] || id == ids[k];
    }
  }

  lemma {:induction false} RemoveAllCount(m: Entries, ids: seq<string>)
    requires Distinct(ids) && forall i | 0 <= i < |ids| :: ids[i] in m
    ensures |RemoveAll(m, ids)| == |m| - |ids|
  {
    if ids != [] {
      var k := |ids| - 1;
      RemoveAllCount(m, ids[..k]);
      RemoveAllKeys(m, ids[..k]);
      assert ids[k] !in ids[..k];
      var less := RemoveAll(m, ids[..k]);
      assert (less - {ids[k]}).Keys == less.Keys - {ids[k]};
    }
  }

  lemma RemoveAllDeletes(m: Entries, ids: seq<string>, f: Filter)
    requires Distinct(ids) && !f.Empty() && forall id :: id in ids <==> id in m && f.Matches(m[id])
    ensures RemoveAll(m, ids) == Deleted(m, f) && |Deleted(m, f)| == |m| - |ids|
  {
    RemoveAllKeys(m, ids);
    assert RemoveAll(m, ids) == Deleted(m, f);
    assert forall i | 0 <= i < |ids| :: ids[i] in ids;
    RemoveAllCount(m, ids);
  }

  /** How many results a search of `n` live entries returns. */
  function ResultCount(topK: int, dimension: nat, n: nat): Option<nat> {
    if n == 0 || dimension == 0 then Some(0)
    else
      var start := TopK.Start(topK, n);
      if start.None? then None else Some(n - start.value)
  }

  /** `min(k, n)` results for a positive `k`, all of them for zero, `n + k` for a
      negative `k`, which raises when nothing would be left. */
  lemma ResultCounts(topK: int, dimension: nat, n: nat)
    requires dimension > 0 && n > 0
    ensures topK > 0 ==> ResultCount(topK, dimension, n) == Some(if topK < n then topK else n)
    ensures topK == 0 ==> ResultCount(topK, dimension, n) == Some(n)
    ensures topK < 0 ==> ResultCount(topK, dimension, n) == if n + topK > 0 then Some(n + topK) else None
  {
  }

  /** Whether a search of the live entries raises: their vectors differ in
      dimension, or do not fit the query, or `topK` points past the end. */
  ghost predicate Raises(live: Entries, q: Vector, topK: int) {
    if SameDimension(live, q) then ResultCount(topK, |q|, |live|).None? else !Blank(live)
  }

  /** Entries whose vectors have no coordinate. */
  ghost predicate Blank(live: Entries) { forall id | id in live :: live[id].embedding == [] }

  /** What a search of the live entries answers. */
  ghost predicate Finds(sqrt: real -> real, live: Entries, q: Vector, topK: int, r: Option<seq<Scored>>) {
    && (r.None? <==> Raises(live, q, topK))
    && (r.Some? && SameDimension(live, q) ==> IsRanking(sqrt, live, q, ResultCount(topK, |q|, |live|).value, r.value))
    && (r.Some? && !SameDimension(live, q) ==> r.value == [])
  }

  /** The numpy half of a search: the scores of the listed entries and the best
      of them. */
  method Rank(sqrt: real -> real, list: seq<Entry>, ghost live: Entries, q: Vector, topK: int) returns (r: Option<seq<Scored>>)
    requires IsSqrt(sqrt) && Lists(list, live) && list != []
    ensures Finds(sqrt, live, q, topK, r)
  {
    var matrix := Embeddings(list);
    if !Rectangular(matrix) {
      MisfitRaises(list, live, q, topK);
      return None;
    }
    var scores := CosineSimilarityMatrix(sqrt, q, matrix);
    if scores.None? {
      MisfitRaises(list, live, q, topK);
      return None;
    }
    if scores.value == [] {
      BlankFindsNothing(sqrt, list, live, q, topK);
      return Some([]);
    }
    RowsFit(list, live, q);
    r := RankScores(sqrt, list, live, q, scores.value, topK);
  }

  /** The best of the scored entries. */
  method RankScores(sqrt: real -> real, list: seq<Entry>, ghost live: Entries, q: Vector, scores: seq<real>, topK: int)
    returns (r: Option<seq<Scored>>)
    requires Lists(list, live) && list != [] && q != [] && SameDimension(live, q)
    requires |scores| == |list| && forall a | 0 <= a < |list| :: scores[a] == Score(sqrt, q, list[a])
    ensures Finds(sqrt, live, q, topK, r)
  {
    var ix := TopK.TopKIndices(scores, topK);
    if ix.None? {
      return None;
    }
    TopIsRanking(sqrt, live, list, q, scores, |ix.value|, ix.value);
    r := Some(ScoredAt(list, scores, ix.value));
  }

  lemma DeletedPlainly(m: Entries, f: Filter)
    ensures forall id :: id in Deleted(m, f) <==>
              && id in m
              && (|| (f.model.None? && f.systemPromptHash.None? && f.tag.None?)
                  || (f.model.Some? && m[id].model != f.model.value)
                  || (f.systemPromptHash.Some? && m[id].systemPromptHash != f.systemPromptHash.value)
                  || (f.tag.Some? && f.tag.value !in m[id].tags))
    ensures forall id | id in Deleted(m, f) :: Deleted(m, f)[id] == m[id]
  {
    forall id: string {
      SurvivesIff(m, f, id);
    }
  }

  /** Results in plain terms: unexpired entries of the namespace with their
      cosine similarities to the query, best first, and no unexpired entry left
      out is more similar than one of them. */
  ghost predicate RanksFresh(sqrt: real -> real, m: Entries, namespace: string, q: Vector, now: real, results: seq<Scored>) {
    && (forall r <- results ::
          && r.entry.id in m && m[r.entry.id] == r.entry && |r.entry.embedding| == |q|
          && r.entry.namespace == namespace && r.entry.ttlSeconds > 0 && now <= r.entry.createdAt + r.entry.ttlSeconds as real
          && r.score == CosineSimilarity(sqrt, q, r.entry.embedding))
    && (forall a, b | 0 <= a < b < |results| :: results[a].entry.id != results[b].entry.id && results[a].score >= results[b].score)
    && (forall id | id in m && Fresh(m[id], namespace, now) ::
          && |m[id].embedding| == |q|
          && (|| (exists r <- results :: r.entry == m[id])
              || (forall r <- results :: CosineSimilarity(sqrt, q, m[id].embedding) <= r.score)))
  }

  lemma FindsFresh(sqrt: real -> real, m: Entries, namespace: string, q: Vector, topK: int, now: real, results: seq<Scored>)
    requires Finds(sqrt, Live(m, namespace, now), q, topK, Some(results)) && results != [] && WellKeyed(m)
    ensures RanksFresh(sqrt, m, namespace, q, now, results)
  {
    LiveIsFresh(m, namespace, now);
    var live := Live(m, namespace, now);
    assert SameDimension(live, q);
    forall r | r in results
      ensures IsTrueResult(sqrt, live, q, r) && Fresh(r.entry, namespace, now)
    {
      var a :| 0 <= a < |results| && results[a] == r;
    }
    forall id | id in m && Fresh(m[id], namespace, now)
      ensures |m[id].embedding| == |q|
      ensures || (exists r <- results :: r.entry == m[id])
              || (forall r <- results :: CosineSimilarity(sqrt, q, m[id].embedding) <= r.score)
    {
      LeftOutOrFound(sqrt, live, q, id, results);
    }
  }

  lemma LeftOutOrFound(sqrt: real -> real, live: Entries, q: Vector, id: string, results: seq<Scored>)
    requires SameDimension(live, q) && IsRanking(sqrt, live, q, |results|, results) && id in live
    ensures || (exists r <- results :: r.entry == live[id])
            || (forall r <- results :: CosineSimilarity(sqrt, q, live[id].embedding) <= r.score)
  {
    if b :| 0 <= b < |results| && results[b].entry.id == id {
      assert IsTrueResult(sqrt, live, q, results[b]);
      assert results[b] in results;
    } else {
      forall r | r in results
        ensures CosineSimilarity(sqrt, q, live[id].embedding) <= r.score
      {
        var a :| 0 <= a < |results| && results[a] == r;
        assert Score(sqrt, q, live[id]) <= results[a].score;
      }
    }
  }

  /** What numpy refuses does not fit the query. */
  lemma MisfitRaises(list: seq<Entry>, live: Entries, q: Vector, topK: int)
    requires Lists(list, live) && list != []
    requires var m := Embeddings(list); !Rectangular(m) || (!SizeZero(m) && |m[0]| != |q|)
    ensures Raises(live, q, topK)
  {
    var m := Embeddings(list);
    assert live[list[0].id] == list[0];
    if !Rectangular(m) {
      var i :| 0 <= i < |m| && |m[i]| != |m[0]|;
      assert live[list[i].id] == list[i];
    }
  }

  lemma RowsFit(list: seq<Entry>, live: Entries, q: Vector)
    requires Lists(list, live) && forall a | 0 <= a < |list| :: |list[a].embedding| == |q|
    ensures SameDimension(live, q)
  {
    forall id | id in live
      ensures |live[id].embedding| == |q|
    {
      assert live[id] in list;
    }
  }

  lemma BlankFindsNothing(sqrt: real -> real, list: seq<Entry>, live: Entries, q: Vector, topK: int)
    requires Lists(list, live) && list != [] && Rectangular(Embeddings(list)) && Embeddings(list)[0] == []
    ensures Finds(sqrt, live, q, topK, Some([]))
  {
    assert live[list[0].id] == list[0];
    forall id | id in live
      ensures live[id].embedding == []
    {
      assert live[id] in list;
      var a :| 0 <= a < |list| && list[a] == live[id];
      assert |Embeddings(list)[a]| == 0;
    }
  }

  /** The live list holds each live entry once. */
  lemma LiveListIsLive(order: seq<string>, m: Entries, namespace: string, now: real)
    requires (forall id :: id in order <==> id in m) && WellKeyed(m) && Distinct(order)
    ensures Lists(LiveList(order, m, namespace, now), Live(m, namespace, now))
  {
    LiveListMembers(order, m, namespace, now);
    var list, live := LiveList(order, m, namespace, now), Live(m, namespace, now);
    forall id | id in live
      ensures live[id] in list
    {
      assert live[id] == m[id];
    }
    CoversOnce(list, live);
  }

  lemma CoversOnce(list: seq<Entry>, live: Entries)
    requires Covers(list, live)
    ensures |list| == |live|
  {
    var ids := seq(|list|, a requires 0 <= a < |list| => list[a].id);
    forall id | id in live
      ensures id in ids
    {
      var a :| 0 <= a < |list| && list[a] == live[id];
      assert ids[a] == id;
    }
    CardinalityOfDistinct(ids, live.Keys);
    assert |live| == |live.Keys|;
  }

  lemma {:induction false} CardinalityOfDistinct(xs: seq<string>, s: set<string>)
    requires Distinct(xs) && forall x :: x in xs <==> x in s
    ensures |xs| == |s|
  {
    if xs == [] {
      assert s == {};
    } else {
      var k := |xs| - 1;
      assert xs == xs[..k] + [xs[k]];
      assert xs[k] !in xs[..k];
      CardinalityOfDistinct(xs[..k], s - {xs[k]});
    }
  }
}
