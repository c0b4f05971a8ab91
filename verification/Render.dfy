/** `response_to_sse`, the printer that replays a cached response, and its
    round trip with the assembler. */
module Render {
  import opened Wrappers
  import opened Utf8
  import opened Json
  import opened JsonParser
  import opened JsonRoundTrip
  import opened Chat
  import Sse

  const SPACE: Byte := 0x20
  const DATA_PREFIX: Bytes := Sse.DATA + [SPACE]

  /** The finish reason of the last chunk. */
  function FinishJson(r: Response): Json {
    if r.choices == [] then Str("stop")
    else if r.choices[0].finishReason.None? then Null
    else Str(r.choices[0].finishReason.value)
  }

  function ChoiceJson(delta: Members, finish: Json): Json {
    Obj(Member("index", Int(0), Member("delta", Obj(delta), Member("finish_reason", finish, NoMembers))))
  }

  function ChunkJson(r: Response, delta: Members, finish: Json): Json {
    Obj(Member("id", Str(r.id),
        Member("object", Str("chat.completion.chunk"),
        Member("created", Int(r.created),
        Member("model", Str(r.model),
        Member("choices", Arr(Item(ChoiceJson(delta, finish), NoItems)), NoMembers))))))
  }

  function Role(r: Response): Json { ChunkJson(r, Member("role", Str("assistant"), NoMembers), Null) }

  function Content(r: Response): Json { ChunkJson(r, Member("content", Str(r.FirstText()), NoMembers), Null) }

  function Final(r: Response): Json { ChunkJson(r, NoMembers, FinishJson(r)) }

  function Event(payload: Bytes): Bytes { DATA_PREFIX + payload }

  function SseChunk(data: Json): Bytes { Event(Print(data)) + Sse.BREAK }

  /** orjson refuses a creation time wider than 64 bits. */
  function ResponseToSse(r: Response): Result<seq<Bytes>> {
    if !Fits64(r.created) then Raise(JsonEncodeError)
    else Ok([SseChunk(Role(r)), SseChunk(Content(r)), SseChunk(Final(r)), Event(Sse.DONE) + Sse.BREAK])
  }

  // ----- one rendered event, read back -----

  lemma {:induction false} LinesOfOne(s: Bytes)
    requires Sse.NL !in s
    ensures Sse.Lines(s) == [s]
  {
    if s != [] {
      LinesOfOne(s[1..]);
      assert [s[0]] + s[1..] == s;
    }
  }

  lemma StripNothing(s: Bytes)
    requires s != [] && !Sse.IsSpace(s[0]) && !Sse.IsSpace(s[|s| - 1])
    ensures Sse.Strip(s) == s && Sse.Strip([SPACE] + s) == s
  {
  }

  lemma PayloadOfEvent(p: Bytes)
    requires p != [] && !Sse.IsSpace(p[0]) && !Sse.IsSpace(p[|p| - 1])
    ensures Sse.Payload(Event(p)) == Some(p)
  {
    var e := Event(p);
    assert e == Sse.DATA + ([SPACE] + p);
    assert e[0] == 0x64 && e[|e| - 1] == p[|p| - 1];
    StripNothing(e);
    assert e[..|Sse.DATA|] == Sse.DATA && e[|Sse.DATA|..] == [SPACE] + p;
    StripNothing(p);
  }

  lemma ConsumeEvent(c: Sse.Core, p: Bytes)
    requires p != [] && ControlFree(p) && p[0] != SPACE && p[|p| - 1] != SPACE
    ensures Sse.Consume(c, Event(p)) ==
            if p == Sse.DONE then Ok(c.(completed := true))
            else if Loads(p).None? then Ok(c) else Sse.Merge(c, Loads(p).value)
  {
    var e := Event(p);
    assert Sse.NL !in e;
    LinesOfOne(e);
    assert p[0] in p && p[|p| - 1] in p;
    PayloadOfEvent(p);
    var r := Sse.ConsumeLine(c, e);
    assert Sse.ConsumeLines(c, [e]) == r by {
      assert r.Ok? ==> Sse.ConsumeLines(r.value, [e][1..]) == r;
    }
  }

  lemma BreakAfter(e: Bytes, rest: Bytes)
    requires e != [] && ControlFree(e)
    ensures Sse.FindBreak(e + Sse.BREAK + rest) == Some(|e|)
    ensures (e + Sse.BREAK + rest)[..|e|] == e
    ensures (e + Sse.BREAK + rest)[|e| + 2..] == rest
  {
    var s := e + Sse.BREAK + rest;
    assert s[|e|] == Sse.NL && s[|e| + 1] == Sse.NL;
    forall j | 0 <= j < |e|
      ensures !Sse.BreakAt(s, j)
    {
      assert s[j] == e[j] && e[j] in e;
    }
    Sse.FirstBreak(s, |e|);
  }

  lemma DrainEvent(c: Sse.Core, p: Bytes, rest: Bytes)
    requires p != [] && ControlFree(p) && p[0] != SPACE && p[|p| - 1] != SPACE
    ensures Sse.Drain(c, Event(p) + Sse.BREAK + rest) ==
            var r := Sse.Consume(c, Event(p));
            if r.Raise? then Raise(r.error) else Sse.Drain(r.value, rest)
  {
    assert ControlFree(Event(p));
    BreakAfter(Event(p), rest);
  }

  lemma ObjEnds(m: Members)
    ensures var p := Print(Obj(m)); p[0] == OPEN_OBJ && p[|p| - 1] == CLOSE_OBJ && |p| >= 2
  {
  }

  lemma DrainChunk(c: Sse.Core, v: Json, rest: Bytes)
    requires v.Obj? && Plain(v)
    ensures Sse.Drain(c, SseChunk(v) + rest) ==
            var r := Sse.Merge(c, v);
            if r.Raise? then Raise(r.error) else Sse.Drain(r.value, rest)
  {
    var p := Print(v);
    ObjEnds(v.members);
    PrintControlFree(v);
    LoadsPrint(v);
    ConsumeEvent(c, p);
    DrainEvent(c, p, rest);
  }

  lemma DrainDone(c: Sse.Core, rest: Bytes)
    ensures Sse.Drain(c, Event(Sse.DONE) + Sse.BREAK + rest) == Sse.Drain(c.(completed := true), rest)
  {
    ConsumeEvent(c, Sse.DONE);
    DrainEvent(c, Sse.DONE, rest);
  }

  lemma ChunkPlain(r: Response, delta: Members, finish: Json)
    requires Fits64(r.created) && PlainMembers(delta) && Plain(finish)
    ensures Plain(ChunkJson(r, delta, finish))
  {
    var choice := ChoiceJson(delta, finish);
    assert Plain(Obj(delta));
    assert PlainMembers(Member("finish_reason", finish, NoMembers));
    assert PlainMembers(Member("delta", Obj(delta), Member("finish_reason", finish, NoMembers)));
    assert Plain(choice);
    var choices := Member("choices", Arr(Item(choice, NoItems)), NoMembers);
    var model := Member("model", Str(r.model), choices);
    var created := Member("created", Int(r.created), model);
    assert Plain(Arr(Item(choice, NoItems)));
    assert PlainMembers(choices);
    assert PlainMembers(model);
    assert PlainMembers(created);
    assert PlainMembers(Member("object", Str("chat.completion.chunk"), created));
  }

  lemma GetHead(k: string, v: Json, rest: Members)
    requires Get(rest, k).None?
    ensures Get(Member(k, v, rest), k) == Some(v)
  {
  }

  lemma GetSkip(k: string, v: Json, rest: Members, key: string)
    requires k != key
    ensures Get(Member(k, v, rest), key) == Get(rest, key)
  {
  }

  /** Keys of equal length differ in a letter. */
  lemma KeysDiffer()
    ensures "created" != "choices" && "usage" != "model" && "usage" != "delta" && "index" != "delta"
  {
  }

  lemma ChunkGet(r: Response, delta: Members, finish: Json)
    ensures var m := ChunkJson(r, delta, finish).members;
            && Get(m, "id") == Some(Str(r.id))
            && Get(m, "created") == Some(Int(r.created))
            && Get(m, "choices") == Some(Arr(Item(ChoiceJson(delta, finish), NoItems)))
            && Get(m, "usage") == None
  {
    KeysDiffer();
    var items := Arr(Item(ChoiceJson(delta, finish), NoItems));
    var choices := Member("choices", items, NoMembers);
    var model := Member("model", Str(r.model), choices);
    var created := Member("created", Int(r.created), model);
    var kind := Member("object", Str("chat.completion.chunk"), created);
    assert Get(NoMembers, "id").None?;
    forall key | key in ["id", "created", "usage"]
      ensures Get(model, key) == None
    {
      GetSkip("choices", items, NoMembers, key);
      GetSkip("model", Str(r.model), choices, key);
    }
    GetSkip("created", Int(r.created), model, "id");
    GetSkip("created", Int(r.created), model, "usage");
    GetSkip("created", Int(r.created), model, "choices");
    GetHead("created", Int(r.created), model);
    GetSkip("model", Str(r.model), choices, "choices");
    GetHead("choices", items, NoMembers);
    forall key
      ensures key != "object" ==> Get(kind, key) == Get(created, key)
      ensures key != "object" && key != "id" ==> Get(Member("id", Str(r.id), kind), key) == Get(created, key)
    {
    }
    GetHead("id", Str(r.id), kind);
  }

  lemma ChoiceGet(delta: Members, finish: Json)
    ensures var m := ChoiceJson(delta, finish).members;
            Get(m, "delta") == Some(Obj(delta)) && Get(m, "finish_reason") == Some(finish)
  {
    KeysDiffer();
    var fin := Member("finish_reason", finish, NoMembers);
    var del := Member("delta", Obj(delta), fin);
    GetSkip("finish_reason", finish, NoMembers, "delta");
    GetHead("finish_reason", finish, NoMembers);
    GetHead("delta", Obj(delta), fin);
    GetSkip("delta", Obj(delta), fin, "finish_reason");
    GetSkip("index", Int(0), del, "delta");
    GetSkip("index", Int(0), del, "finish_reason");
  }

  /** A chunk has exactly these members, and its one choice these, in order. */
  lemma ChunkMembers(r: Response, delta: Members, finish: Json)
    ensures Pairs(ChunkJson(r, delta, finish).members) ==
            [("id", Str(r.id)), ("object", Str("chat.completion.chunk")), ("created", Int(r.created)), ("model", Str(r.model)),
             ("choices", Arr(Item(ChoiceJson(delta, finish), NoItems)))]
    ensures Pairs(ChoiceJson(delta, finish).members) == [("index", Int(0)), ("delta", Obj(delta)), ("finish_reason", finish)]
  {
    var choices := Member("choices", Arr(Item(ChoiceJson(delta, finish), NoItems)), NoMembers);
    var model := Member("model", Str(r.model), choices);
    var created := Member("created", Int(r.created), model);
    assert Pairs(choices) == [(choices.key, choices.value)];
    assert Pairs(model) == [(model.key, model.value)] + Pairs(choices);
    assert Pairs(created) == [(created.key, created.value)] + Pairs(model);
    var fin := Member("finish_reason", finish, NoMembers);
    assert Pairs(fin) == [("finish_reason", finish)];
    assert Pairs(Member("delta", Obj(delta), fin)) == [("delta", Obj(delta))] + Pairs(fin);
  }

  /** A response is rendered as four events `data: ...` and a blank line: the
      role, the text of the first choice, the finish reason of the first choice or
      "stop" without one, and `[DONE]`. */
  lemma RenderedEvents(r: Response)
    requires ResponseToSse(r).Ok?
    ensures var chunks := ResponseToSse(r).value;
            var text := if r.choices != [] && r.choices[0].content.Some? then r.choices[0].content.value else "";
            var finish := if r.choices == [] then Str("stop")
                          else if r.choices[0].finishReason.Some? then Str(r.choices[0].finishReason.value) else Null;
            && |chunks| == 4
            && IsEvent(chunks[0], Print(ChunkJson(r, Member("role", Str("assistant"), NoMembers), Null)))
            && IsEvent(chunks[1], Print(ChunkJson(r, Member("content", Str(text), NoMembers), Null)))
            && IsEvent(chunks[2], Print(ChunkJson(r, NoMembers, finish)))
            && IsEvent(chunks[3], ['[' as int, 'D' as int, 'O' as int, 'N' as int, 'E' as int, ']' as int])
  {
    EventIs(Print(Role(r)));
    EventIs(Print(Content(r)));
    EventIs(Print(Final(r)));
    EventIs(Sse.DONE);
  }

  lemma EventIs(p: Bytes)
    ensures IsEvent(Event(p) + Sse.BREAK, p)
  {
  }

  predicate IsEvent(chunk: Bytes, payload: Bytes) {
    && |chunk| == |payload| + 8
    && Spells(chunk[..6], "data: ") && chunk[6..|chunk| - 2] == payload && Spells(chunk[|chunk| - 2..], "\n\n")
  }

  /** What merging one rendered chunk does to the assembler. */
  lemma MergeChunk(c: Sse.Core, r: Response, delta: Members, finish: Json)
    ensures Sse.Merge(c, ChunkJson(r, delta, finish)) ==
            var content := GetOr(delta, "content", Null);
            Ok(c.(id := Str(r.id), created := Int(r.created),
                  parts := if Truthy(content) then c.parts + [content] else c.parts,
                  finishReason := if Truthy(finish) then finish else c.finishReason))
  {
    ChunkGet(r, delta, finish);
    ChoiceGet(delta, finish);
    var data := ChunkJson(r, delta, finish);
    var choice := ChoiceJson(delta, finish);
    var c1 := Sse.MergeFields(c, data.members);
    assert Sse.MergeChoices(c1, Item(choice, NoItems)) == Sse.MergeChoice(c1, choice);
  }

  // ----- the round trip -----

  /** The assembler's state after a rendered stream. */
  function Assembled(r: Response): Sse.Core {
    Sse.Core(if r.FirstText() == "" then [] else [Str(r.FirstText())],
             if Truthy(FinishJson(r)) then FinishJson(r) else Null,
             Str(r.id), Int(r.created), Null, true)
  }

  const ROLE_DELTA := Member("role", Str("assistant"), NoMembers)

  function AfterRole(r: Response): Sse.Core { Sse.START.(id := Str(r.id), created := Int(r.created)) }

  function AfterContent(r: Response): Sse.Core {
    AfterRole(r).(parts := if r.FirstText() == "" then [] else [Str(r.FirstText())])
  }

  lemma DrainRole(r: Response, rest: Bytes)
    requires Fits64(r.created)
    ensures Sse.Drain(Sse.START, SseChunk(Role(r)) + rest) == Sse.Drain(AfterRole(r), rest)
  {
    ChunkPlain(r, ROLE_DELTA, Null);
    MergeChunk(Sse.START, r, ROLE_DELTA, Null);
    GetSkip("role", Str("assistant"), NoMembers, "content");
    DrainChunk(Sse.START, Role(r), rest);
  }

  lemma DrainContent(r: Response, rest: Bytes)
    requires Fits64(r.created)
    ensures Sse.Drain(AfterRole(r), SseChunk(Content(r)) + rest) == Sse.Drain(AfterContent(r), rest)
  {
    var delta := Member("content", Str(r.FirstText()), NoMembers);
    ChunkPlain(r, delta, Null);
    MergeChunk(AfterRole(r), r, delta, Null);
    GetHead("content", Str(r.FirstText()), NoMembers);
    assert [] + [Str(r.FirstText())] == [Str(r.FirstText())];
    assert Sse.Merge(AfterRole(r), Content(r)) == Ok(AfterContent(r));
    DrainChunk(AfterRole(r), Content(r), rest);
  }

  lemma DrainFinal(r: Response, rest: Bytes)
    requires Fits64(r.created)
    ensures Sse.Drain(AfterContent(r), SseChunk(Final(r)) + rest)
            == Sse.Drain(Assembled(r).(completed := false), rest)
  {
    ChunkPlain(r, NoMembers, FinishJson(r));
    MergeChunk(AfterContent(r), r, NoMembers, FinishJson(r));
    DrainChunk(AfterContent(r), Final(r), rest);
  }

  lemma DrainRendered(r: Response)
    requires Fits64(r.created)
    ensures Sse.Drain(Sse.START, Sse.Concat(ResponseToSse(r).value)) == Ok((Assembled(r), []))
  {
    var done := Event(Sse.DONE) + Sse.BREAK;
    ConcatFour(SseChunk(Role(r)), SseChunk(Content(r)), SseChunk(Final(r)), done);
    DrainRole(r, SseChunk(Content(r)) + (SseChunk(Final(r)) + (done + [])));
    DrainContent(r, SseChunk(Final(r)) + (done + []));
    DrainFinal(r, done + []);
    DrainDone(Assembled(r).(completed := false), []);
  }

  lemma ConcatFour(a: Bytes, b: Bytes, c: Bytes, d: Bytes)
    ensures Sse.Concat([a, b, c, d]) == a + (b + (c + (d + [])))
  {
    assert [a, b, c, d][1..] == [b, c, d];
    assert [b, c, d][1..] == [c, d];
    assert [c, d][1..] == [d];
    assert [d][1..] == [];
    assert Sse.Concat([d]) == d + [];
    assert Sse.Concat([c, d]) == c + Sse.Concat([d]);
    assert Sse.Concat([b, c, d]) == b + Sse.Concat([c, d]);
  }

  /** The text kept as the finish reason: absent, null and empty become "stop". */
  function FinishText(r: Response): string {
    if Truthy(FinishJson(r)) then FinishJson(r).s else "stop"
  }

  function EstimatedUsage(text: string): Usage {
    var n := if |text| / 4 > 1 then |text| / 4 else 1;
    Usage(0, n, n)
  }

  /** The response rebuilt from a rendered one. */
  function Rebuilt(r: Response, model: string, seed: Sse.Seed): Response {
    Response(if r.id == "" then seed.id else r.id,
             if r.created == 0 then seed.now else r.created,
             model,
             [Choice(Some(r.FirstText()), Some(FinishText(r)))],
             EstimatedUsage(r.FirstText()))
  }

  /** Render a response, cut the bytes anywhere, assemble: the assembler ends
      completed with an empty buffer, and what it builds keeps the text of every
      response, its id and creation time unless empty, and its finish reason
      with "stop" for a missing one. */
  lemma RenderAssembleRoundTrip(r: Response, chunks: seq<Bytes>, model: string, asInt: Sse.IntField, seed: Sse.Seed)
    requires Sse.ReadsIntegers(asInt)
    requires ResponseToSse(r).Ok? && Sse.Concat(chunks) == Sse.Concat(ResponseToSse(r).value)
    ensures var a := Sse.PushAll(Sse.EMPTY, chunks);
            && a.Ok? && a.value.core.completed && a.value.buffer == []
            && Sse.BuildResponse(a.value.core, model, asInt, seed) == Ok(Rebuilt(r, model, seed))
  {
    Sse.PushAllIsDrain(Sse.EMPTY, chunks);
    assert [] + Sse.Concat(chunks) == Sse.Concat(chunks);
    DrainRendered(r);
    BuildAssembled(r, model, asInt, seed);
  }

  lemma BuildAssembled(r: Response, model: string, asInt: Sse.IntField, seed: Sse.Seed)
    requires Sse.ReadsIntegers(asInt)
    ensures Sse.BuildResponse(Assembled(r), model, asInt, seed) == Ok(Rebuilt(r, model, seed))
  {
    var text := r.FirstText();
    assert [Str(text)][1..] == [];
    assert Sse.JoinParts([]) == Ok("");
    assert Sse.JoinParts([Str(text)]) == Ok(text + "");
    assert text + "" == text;
    assert Sse.JoinParts(Assembled(r).parts) == Ok(text);
  }

  // ----- replaying a cached stream -----

  lemma SseChunkInjective(v: Json, w: Json)
    requires Plain(v) && Plain(w) && SseChunk(v) == SseChunk(w)
    ensures v == w
  {
    assert forall u :: SseChunk(u)[|DATA_PREFIX|..|SseChunk(u)| - 2] == Print(u);
    PrintInjective(v, w);
  }

  lemma FinalDetermines(r: Response, q: Response)
    requires Fits64(r.created) && Fits64(q.created) && SseChunk(Final(r)) == SseChunk(Final(q))
    ensures r.id == q.id && r.created == q.created && r.model == q.model && FinishJson(r) == FinishJson(q)
  {
    ChunkPlain(r, NoMembers, FinishJson(r));
    ChunkPlain(q, NoMembers, FinishJson(q));
    SseChunkInjective(Final(r), Final(q));
  }

  /** Exactly when replaying the rebuilt response gives back the original
      bytes: the id and creation time were not replaced, the model names agree
      and a finish reason was present. */
  lemma ReplayIsIdentical(r: Response, model: string, seed: Sse.Seed)
    requires ResponseToSse(r).Ok?
    ensures ResponseToSse(Rebuilt(r, model, seed)) == ResponseToSse(r)
            <==> && (r.id != "" || seed.id == "")
                 && (r.created != 0 || seed.now == 0)
                 && model == r.model
                 && (r.choices == [] || TextOr(r.choices[0].finishReason, "") != "")
  {
    var q := Rebuilt(r, model, seed);
    assert q.FirstText() == r.FirstText();
    assert FinishJson(q) == Str(FinishText(r));
    if ResponseToSse(q) == ResponseToSse(r) {
      assert ResponseToSse(q).value[2] == ResponseToSse(r).value[2];
      FinalDetermines(r, q);
    }
  }
}
