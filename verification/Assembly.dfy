/** What any well-formed upstream stream assembles to, field by field: the
    contents in order, and of every other field the last value that counts. */
module Assembly {
  import opened Wrappers
  import opened Utf8
  import opened Json
  import opened Chat
  import Render
  import Sse

  // ----- what one event holds -----

  function ItemList(items: Items): seq<Json> {
    match items
    case NoItems => []
    case Item(v, tail) => [v] + ItemList(tail)
  }

  /** A choice whose delta is an object or absent. */
  predicate ChoiceOk(v: Json) {
    v.Obj? && (Get(v.members, "delta").None? || Get(v.members, "delta").value.Obj?)
  }

  predicate AllOk(choices: seq<Json>) { forall choice <- choices :: ChoiceOk(choice) }

  /** A list of such choices, or something empty to iterate over. */
  predicate ChoicesOk(v: Json) {
    match v
    case Arr(items) => AllOk(ItemList(items))
    case Str(s) => s == ""
    case Obj(m) => m.NoMembers?
    case _ => false
  }

  predicate EventOk(v: Json) {
    v.Obj? && (Get(v.members, "choices").None? || ChoicesOk(Get(v.members, "choices").value))
  }

  function Choices(v: Json): seq<Json>
    requires EventOk(v)
  {
    var choices := Get(v.members, "choices");
    if choices.Some? && choices.value.Arr? then ItemList(choices.value.items) else []
  }

  /** A value under a key, when it is there and counts. */
  function Counting(v: Json, key: string): seq<Json> {
    if v.Obj? && Get(v.members, key).Some? && Truthy(Get(v.members, key).value) then [Get(v.members, key).value] else []
  }

  function Present(v: Json, key: string): seq<Json> {
    if v.Obj? && Get(v.members, key).Some? then [Get(v.members, key).value] else []
  }

  function Delta(choice: Json): Json
    requires ChoiceOk(choice)
  {
    if Get(choice.members, "delta").Some? then Get(choice.members, "delta").value else Obj(NoMembers)
  }

  function ContentsOf(choices: seq<Json>): seq<Json>
    requires AllOk(choices)
  {
    if choices == [] then []
    else
      AllOkCons(choices[0], choices[1..]);
      assert choices == [choices[0]] + choices[1..];
      Counting(Delta(choices[0]), "content") + ContentsOf(choices[1..])
  }

  function FinishesOf(choices: seq<Json>): seq<Json> {
    if choices == [] then []
    else Counting(choices[0], "finish_reason") + FinishesOf(choices[1..])
  }

  function LastOr(xs: seq<Json>, default: Json): Json { if xs == [] then default else xs[|xs| - 1] }

  // ----- merging one event -----

  lemma AllOkCons(choice: Json, choices: seq<Json>)
    ensures AllOk([choice] + choices) <==> ChoiceOk(choice) && AllOk(choices)
  {
    assert ([choice] + choices)[0] == choice;
    assert forall i | 0 <= i < |choices| :: choices[i] == ([choice] + choices)[i + 1];
  }

  lemma ContentsCons(choice: Json, choices: seq<Json>)
    requires ChoiceOk(choice) && AllOk(choices)
    ensures AllOk([choice] + choices)
    ensures ContentsOf([choice] + choices) == Counting(Delta(choice), "content") + ContentsOf(choices)
    ensures FinishesOf([choice] + choices) == Counting(choice, "finish_reason") + FinishesOf(choices)
  {
    AllOkCons(choice, choices);
    assert ([choice] + choices)[1..] == choices;
  }

  lemma LastOrSplit(xs: seq<Json>, ys: seq<Json>, default: Json)
    ensures LastOr(xs + ys, default) == LastOr(ys, LastOr(xs, default))
  {
  }

  /** The state after one choice. */
  function AfterChoice(c: Sse.Core, choice: Json): Sse.Core
    requires ChoiceOk(choice)
  {
    c.(parts := c.parts + Counting(Delta(choice), "content"), finishReason := LastOr(Counting(choice, "finish_reason"), c.finishReason))
  }

  /** The state after a list of them. */
  function AfterChoices(c: Sse.Core, choices: seq<Json>): Sse.Core
    requires AllOk(choices)
  {
    c.(parts := c.parts + ContentsOf(choices), finishReason := LastOr(FinishesOf(choices), c.finishReason))
  }

  lemma MergeOneChoice(c: Sse.Core, choice: Json)
    ensures Sse.MergeChoice(c, choice) == if ChoiceOk(choice) then Ok(AfterChoice(c, choice)) else Raise(AttributeError)
  {
    assert c.parts + [] == c.parts;
  }

  lemma AfterCons(c: Sse.Core, choice: Json, choices: seq<Json>)
    requires ChoiceOk(choice) && AllOk(choices)
    ensures AllOk([choice] + choices)
    ensures AfterChoices(c, [choice] + choices) == AfterChoices(AfterChoice(c, choice), choices)
  {
    ContentsCons(choice, choices);
    LastOrSplit(Counting(choice, "finish_reason"), FinishesOf(choices), c.finishReason);
    ThreeParts(c.parts, Counting(Delta(choice), "content"), ContentsOf(choices));
  }

  lemma ThreeParts(xs: seq<Json>, ys: seq<Json>, zs: seq<Json>)
    ensures xs + ys + zs == xs + (ys + zs)
  {
  }

  lemma {:induction false} MergeList(c: Sse.Core, items: Items)
    ensures var choices := ItemList(items);
            Sse.MergeChoices(c, items) == if AllOk(choices) then Ok(AfterChoices(c, choices)) else Raise(AttributeError)
    decreases items
  {
    match items
    case NoItems =>
      assert c.parts + [] == c.parts;
    case Item(choice, tail) =>
      MergeOneChoice(c, choice);
      AllOkCons(choice, ItemList(tail));
      if ChoiceOk(choice) {
        MergeList(AfterChoice(c, choice), tail);
        if AllOk(ItemList(tail)) {
          AfterCons(c, choice, ItemList(tail));
        }
      }
  }

  /** The state after one event: contents appended, a present id and creation
      time and a counting usage and finish reason taken over, the rest kept. */
  function After(c: Sse.Core, v: Json): Sse.Core
    requires EventOk(v)
  {
    Sse.Core(c.parts + ContentsOf(Choices(v)),
             LastOr(FinishesOf(Choices(v)), c.finishReason),
             LastOr(Present(v, "id"), c.id),
             LastOr(Present(v, "created"), c.created),
             LastOr(Counting(v, "usage"), c.usage),
             c.completed)
  }

  /** Exactly when an event can be merged, what its merge does, and which
      exception anything else raises: a `TypeError` for choices nothing can
      iterate over, an `AttributeError` for whatever lacks `get`. */
  lemma MergeIff(c: Sse.Core, v: Json)
    ensures Sse.Merge(c, v) ==
            if EventOk(v) then Ok(After(c, v))
            else if v.Obj? && var x := Get(v.members, "choices").value; x.Null? || x.Bool? || x.Int? || x.Float?
            then Raise(TypeError)
            else Raise(AttributeError)
  {
    if v.Obj? {
      var fields, choices := Sse.MergeFields(c, v.members), Get(v.members, "choices");
      assert c.parts + [] == c.parts;
      if choices.None? || ChoicesOk(choices.value) {
        if choices.Some? && choices.value.Arr? {
          MergeList(fields, choices.value.items);
        }
      } else if choices.value.Arr? {
        MergeList(fields, choices.value.items);
      } else if choices.value.Str? {
        MergeList(fields, Item(Str(choices.value.s[..1]), NoItems));
        assert Str(choices.value.s[..1]) in ItemList(Item(Str(choices.value.s[..1]), NoItems));
      } else if choices.value.Obj? {
        MergeList(fields, Item(Str(choices.value.members.key), NoItems));
        assert Str(choices.value.members.key) in ItemList(Item(Str(choices.value.members.key), NoItems));
      }
    }
  }

  // ----- a whole stream -----

  predicate Streamable(v: Json) { v.Obj? && Plain(v) && EventOk(v) }

  /** What all events hold of one kind, in order. */
  function Collect(f: Json -> seq<Json>, events: seq<Json>): seq<Json> {
    if events == [] then [] else f(events[0]) + Collect(f, events[1..])
  }

  function Contents(v: Json): seq<Json> { if EventOk(v) then ContentsOf(Choices(v)) else [] }

  function Finishes(v: Json): seq<Json> { if EventOk(v) then FinishesOf(Choices(v)) else [] }

  function Ids(v: Json): seq<Json> { Present(v, "id") }

  function Creations(v: Json): seq<Json> { Present(v, "created") }

  function Usages(v: Json): seq<Json> { Counting(v, "usage") }

  /** The state after a stream of events. */
  function AfterAll(c: Sse.Core, events: seq<Json>): Sse.Core {
    Sse.Core(c.parts + Collect(Contents, events),
             LastOr(Collect(Finishes, events), c.finishReason),
             LastOr(Collect(Ids, events), c.id),
             LastOr(Collect(Creations, events), c.created),
             LastOr(Collect(Usages, events), c.usage),
             c.completed)
  }

  lemma AfterFirst(c: Sse.Core, events: seq<Json>)
    requires events != [] && EventOk(events[0])
    ensures AfterAll(c, events) == AfterAll(After(c, events[0]), events[1..])
  {
    var v, rest := events[0], events[1..];
    ThreeParts(c.parts, Contents(v), Collect(Contents, rest));
    LastOrSplit(Finishes(v), Collect(Finishes, rest), c.finishReason);
    LastOrSplit(Ids(v), Collect(Ids, rest), c.id);
    LastOrSplit(Creations(v), Collect(Creations, rest), c.created);
    LastOrSplit(Usages(v), Collect(Usages, rest), c.usage);
  }

  /** The bytes of a stream of events. */
  function Wire(events: seq<Json>): Bytes {
    if events == [] then [] else Render.SseChunk(events[0]) + Wire(events[1..])
  }

  lemma {:induction false} DrainWire(c: Sse.Core, events: seq<Json>, rest: Bytes)
    requires forall v <- events :: Streamable(v)
    ensures Sse.Drain(c, Wire(events) + rest) == Sse.Drain(AfterAll(c, events), rest)
    decreases |events|
  {
    if events == [] {
      assert Wire(events) + rest == rest;
      assert c.parts + [] == c.parts;
    } else {
      var v := events[0];
      assert v in events;
      assert Wire(events) + rest == Render.SseChunk(v) + (Wire(events[1..]) + rest);
      Render.DrainChunk(c, v, Wire(events[1..]) + rest);
      MergeIff(c, v);
      DrainWire(After(c, v), events[1..], rest);
      AfterFirst(c, events);
    }
  }

  /** Any stream of events, cut anywhere and ended by DONE, is assembled into all
      its contents in order and the last id, creation time, counting finish
      reason and counting usage of its events. */
  lemma {:induction false} AssemblesAnyStream(events: seq<Json>, chunks: seq<Bytes>)
    requires forall v <- events :: Streamable(v)
    requires Sse.Concat(chunks) == Wire(events) + (Render.Event(Sse.DONE) + Sse.BREAK)
    ensures Sse.PushAll(Sse.EMPTY, chunks) == Ok(Sse.Assembler(AfterAll(Sse.START, events).(completed := true), []))
  {
    Sse.PushAllIsDrain(Sse.EMPTY, chunks);
    assert [] + Sse.Concat(chunks) == Sse.Concat(chunks);
    DrainToDone(Sse.START, events);
  }

  lemma DrainToDone(c: Sse.Core, events: seq<Json>)
    requires forall v <- events :: Streamable(v)
    ensures Sse.Drain(c, Wire(events) + (Render.Event(Sse.DONE) + Sse.BREAK)) == Ok((AfterAll(c, events).(completed := true), []))
  {
    var done := Render.Event(Sse.DONE) + Sse.BREAK;
    DrainWire(c, events, done);
    DrainDoneOnly(AfterAll(c, events));
  }

  lemma DrainDoneOnly(c: Sse.Core)
    ensures Sse.Drain(c, Render.Event(Sse.DONE) + Sse.BREAK) == Ok((c.(completed := true), []))
  {
    Render.DrainDone(c, []);
    assert Render.Event(Sse.DONE) + Sse.BREAK + [] == Render.Event(Sse.DONE) + Sse.BREAK;
  }

  /** The last of a list of texts or integers, unless it is empty or zero. */
  function LastText(xs: seq<Json>, default: string): string {
    if xs != [] && xs[|xs| - 1].Str? && xs[|xs| - 1].s != "" then xs[|xs| - 1].s else default
  }

  function LastInt(xs: seq<Json>, default: int): int {
    if xs != [] && xs[|xs| - 1].Int? && xs[|xs| - 1].i != 0 then xs[|xs| - 1].i else default
  }

  function CountUnder(usage: Json, key: string): int {
    if usage.Obj? && Get(usage.members, key).Some? && Get(usage.members, key).value.Int? then Get(usage.members, key).value.i else 0
  }

  predicate CountOk(usage: Json, key: string) {
    usage.Obj? && (Get(usage.members, key).None? || Get(usage.members, key).value.Int?)
  }

  /** Contents are texts; so are the last id and finish reason; the last creation
      time is an integer, and so are the counts of the last usage. */
  ghost predicate Typed(events: seq<Json>) {
    && Sse.AllStrings(Collect(Contents, events))
    && LastOr(Collect(Finishes, events), Str("")).Str? && LastOr(Collect(Ids, events), Str("")).Str?
    && LastOr(Collect(Creations, events), Int(0)).Int?
    && var usage := LastOr(Collect(Usages, events), Obj(NoMembers));
       CountOk(usage, "prompt_tokens") && CountOk(usage, "completion_tokens") && CountOk(usage, "total_tokens")
  }

  lemma {:induction false} FinishesOfCount(choices: seq<Json>)
    ensures forall x <- FinishesOf(choices) :: Truthy(x)
  {
    if choices != [] {
      FinishesOfCount(choices[1..]);
    }
  }

  lemma {:induction false} FinishesCount(events: seq<Json>)
    ensures forall x <- Collect(Finishes, events) :: Truthy(x)
  {
    if events != [] {
      FinishesCount(events[1..]);
      if EventOk(events[0]) {
        FinishesOfCount(Choices(events[0]));
      }
    }
  }

  lemma {:induction false} UsagesCount(events: seq<Json>)
    ensures forall x <- Collect(Usages, events) :: Truthy(x)
  {
    if events != [] {
      UsagesCount(events[1..]);
    }
  }

  /** The response such a stream builds, when its fields have the types of the
      interface: the text is the contents in order; finish reason, id and creation
      time are the last ones named; the counts are those the last usage that
      counts reports under their names, 0 where it reports none. */
  ghost function Expected(events: seq<Json>, model: string, seed: Sse.Seed): Response
    requires Typed(events)
  {
    var text := Sse.TextOf(Collect(Contents, events));
    var usages := Collect(Usages, events);
    var usage := LastOr(usages, Null);
    Response(LastText(Collect(Ids, events), seed.id), LastInt(Collect(Creations, events), seed.now), model,
             [Choice(Some(text), Some(LastText(Collect(Finishes, events), "stop")))],
             if usages == [] then Render.EstimatedUsage(text)
             else Usage(CountUnder(usage, "prompt_tokens"), CountUnder(usage, "completion_tokens"), CountUnder(usage, "total_tokens")))
  }

  lemma {:induction false} BuildsAnyStream(events: seq<Json>, chunks: seq<Bytes>, model: string, asInt: Sse.IntField, seed: Sse.Seed)
    requires Sse.ReadsIntegers(asInt) && (forall v <- events :: Streamable(v)) && Typed(events)
    requires Sse.Concat(chunks) == Wire(events) + (Render.Event(Sse.DONE) + Sse.BREAK)
    ensures var a := Sse.PushAll(Sse.EMPTY, chunks);
            a.Ok? && Sse.BuildResponse(a.value.core, model, asInt, seed) == Ok(Expected(events, model, seed))
  {
    AssemblesAnyStream(events, chunks);
    FinishesCount(events);
    UsagesCount(events);
    BuildsExpected(events, AfterAll(Sse.START, events).(completed := true), model, asInt, seed);
  }

  lemma BuildsExpected(events: seq<Json>, core: Sse.Core, model: string, asInt: Sse.IntField, seed: Sse.Seed)
    requires Sse.ReadsIntegers(asInt) && Typed(events) && core == AfterAll(Sse.START, events).(completed := true)
    requires forall x <- Collect(Finishes, events) :: Truthy(x)
    requires forall x <- Collect(Usages, events) :: Truthy(x)
    ensures Sse.BuildResponse(core, model, asInt, seed) == Ok(Expected(events, model, seed))
  {
    assert core.parts == Collect(Contents, events);
    Sse.JoinPartsText(core.parts);
    TextFieldIs(Collect(Finishes, events), "stop");
    TextFieldIs(Collect(Ids, events), seed.id);
    IntFieldIs(Collect(Creations, events), seed.now, asInt);
    UsageIs(Collect(Usages, events), Sse.TextOf(core.parts), asInt);
  }

  lemma TextFieldIs(xs: seq<Json>, default: string)
    requires LastOr(xs, Str("")).Str?
    ensures Sse.StrField(LastOr(xs, Null), default) == Ok(LastText(xs, default))
  {
  }

  lemma IntFieldIs(xs: seq<Json>, default: int, asInt: Sse.IntField)
    requires Sse.ReadsIntegers(asInt) && LastOr(xs, Int(0)).Int?
    ensures Sse.IntFieldOr(LastOr(xs, Null), default, asInt) == Ok(LastInt(xs, default))
  {
  }

  lemma UsageIs(xs: seq<Json>, text: string, asInt: Sse.IntField)
    requires Sse.ReadsIntegers(asInt) && forall x <- xs :: Truthy(x)
    requires var usage := LastOr(xs, Obj(NoMembers));
             CountOk(usage, "prompt_tokens") && CountOk(usage, "completion_tokens") && CountOk(usage, "total_tokens")
    ensures var usage := LastOr(xs, Null);
            Sse.UsageOf(usage, text, asInt) ==
            Ok(if xs == [] then Render.EstimatedUsage(text)
               else Usage(CountUnder(usage, "prompt_tokens"), CountUnder(usage, "completion_tokens"), CountUnder(usage, "total_tokens")))
  {
    if xs != [] {
      var usage := xs[|xs| - 1];
      CountIs(usage, "prompt_tokens", asInt);
      CountIs(usage, "completion_tokens", asInt);
      CountIs(usage, "total_tokens", asInt);
    }
  }

  lemma CountIs(usage: Json, key: string, asInt: Sse.IntField)
    requires Sse.ReadsIntegers(asInt) && CountOk(usage, key)
    ensures Sse.UsageField(usage.members, key, asInt) == Ok(CountUnder(usage, key))
  {
  }
}
