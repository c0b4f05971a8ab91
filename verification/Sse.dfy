/** The incremental assembler of `app/proxy/streaming.py`: a buffered parser of
    server-sent events that rebuilds a chat completion from its deltas.
    Events end at a blank line and only `data:` lines count, a subset of the
    event stream format of the WHATWG HTML Living Standard, section 9.2. */
module Sse {
  import opened Wrappers
  import opened Utf8
  import opened Json
  import JsonParser
  import opened Chat

  const NL: Byte := 0x0A
  const BREAK: Bytes := [NL, NL]
  const DATA: Bytes := [0x64, 0x61, 0x74, 0x61, 0x3A]
  const DONE: Bytes := [0x5B, 0x44, 0x4F, 0x4E, 0x45, 0x5D]

  // ----- what has been accumulated -----

  /** Everything the assembler keeps besides its buffer. Fields taken from
      decoded JSON stay untyped, as they do in the source. */
  datatype Core = Core(
    parts: seq<Json>,
    finishReason: Json,
    id: Json,
    created: Json,
    usage: Json,
    completed: bool)

  const START := Core([], Null, Null, Null, Null, false)

  function MergeChoice(c: Core, choice: Json): Result<Core> {
    if !choice.Obj? then Raise(AttributeError)
    else
      var delta := GetOr(choice.members, "delta", Obj(NoMembers));
      if !delta.Obj? then Raise(AttributeError)
      else
        var content := GetOr(delta.members, "content", Null);
        var finish := GetOr(choice.members, "finish_reason", Null);
        var c1 := if Truthy(content) then c.(parts := c.parts + [content]) else c;
        Ok(if Truthy(finish) then c1.(finishReason := finish) else c1)
  }

  function MergeChoices(c: Core, items: Items): Result<Core>
    decreases items
  {
    match items
    case NoItems => Ok(c)
    case Item(choice, tail) =>
      var r := MergeChoice(c, choice);
      if r.Raise? then r else MergeChoices(r.value, tail)
  }

  /** What iterating over `data.get("choices", [])` yields: strings and dicts
      iterate too, over characters and keys. */
  function Iterate(v: Json): Result<Items> {
    match v
    case Arr(items) => Ok(items)
    case Str(s) => if s == "" then Ok(NoItems) else Ok(Item(Str(s[..1]), NoItems))
    case Obj(m) => if m.NoMembers? then Ok(NoItems) else Ok(Item(Str(m.key), NoItems))
    case _ => Raise(TypeError)
  }

  function MergeFields(c: Core, m: Members): Core {
    var usage := GetOr(m, "usage", Null);
    c.(id := GetOr(m, "id", c.id),
       created := GetOr(m, "created", c.created),
       usage := if Truthy(usage) then usage else c.usage)
  }

  function Merge(c: Core, data: Json): Result<Core> {
    if !data.Obj? then Raise(AttributeError)
    else
      var items := Iterate(GetOr(data.members, "choices", Arr(NoItems)));
      if items.Raise? then Raise(items.error)
      else MergeChoices(MergeFields(c, data.members), items.value)
  }

  /** The fields a merge leaves behind, also when an exception escapes. */
  function Merged(c: Core, data: Json): Core {
    if !data.Obj? then c
    else
      var fields, items := MergeFields(c, data.members), Iterate(GetOr(data.members, "choices", Arr(NoItems)));
      if items.Raise? then fields else MergedChoices(fields, items.value)
  }

  function MergedChoices(c: Core, items: Items): Core
    decreases items
  {
    if items.NoItems? then c
    else
      var r := MergeChoice(c, items.head);
      if r.Raise? then c else MergedChoices(r.value, items.tail)
  }

  // ----- lines and events -----

  /** The bytes `bytes.strip()` removes. */
  predicate IsSpace(b: Byte) { 0x09 <= b <= 0x0D || b == 0x20 }

  function StripLeft(s: Bytes): (r: Bytes)
    ensures r != [] ==> !IsSpace(r[0])
  {
    if s != [] && IsSpace(s[0]) then StripLeft(s[1..]) else s
  }

  function StripRight(s: Bytes): (r: Bytes)
    ensures r <= s
    ensures r != [] ==> !IsSpace(r[|r| - 1])
  {
    if s != [] && IsSpace(s[|s| - 1]) then StripRight(s[..|s| - 1]) else s
  }

  function Strip(s: Bytes): Bytes { StripRight(StripLeft(s)) }

  /** The payload of a `data:` line. */
  function Payload(line: Bytes): Option<Bytes> {
    var l := Strip(line);
    if JsonParser.StartsWith(l, DATA) then Some(Strip(l[|DATA|..])) else None
  }

  predicate IsDone(line: Bytes) { Payload(line) == Some(DONE) }

  function ConsumeLine(c: Core, line: Bytes): Result<Core> {
    var payload := Payload(line);
    if payload.None? then Ok(c)
    else if payload.value == DONE then Ok(c.(completed := true))
    else
      var data := JsonParser.Loads(payload.value);
      if data.None? then Ok(c) else Merge(c, data.value)
  }

  /** `s.split(b"\n")`. */
  function Lines(s: Bytes): (ls: seq<Bytes>)
    ensures ls != []
  {
    if s == [] then [[]]
    else
      var rest := Lines(s[1..]);
      if s[0] == NL then [[]] + rest else [[s[0]] + rest[0]] + rest[1..]
  }

  function ConsumeLines(c: Core, lines: seq<Bytes>): Result<Core>
    decreases |lines|
  {
    if lines == [] then Ok(c)
    else
      var r := ConsumeLine(c, lines[0]);
      if r.Raise? then r else ConsumeLines(r.value, lines[1..])
  }

  function Consume(c: Core, event: Bytes): Result<Core> { ConsumeLines(c, Lines(event)) }

  /** The fields an event leaves behind, also when an exception escapes. */
  function Consumed(c: Core, event: Bytes): Core { ConsumedLines(c, Lines(event)) }

  function ConsumedLines(c: Core, lines: seq<Bytes>): Core
    decreases |lines|
  {
    if lines == [] then c
    else
      var r := ConsumeLine(c, lines[0]);
      if r.Raise? then Merged(c, JsonParser.Loads(Payload(lines[0]).value).value)
      else ConsumedLines(r.value, lines[1..])
  }

  predicate BreakAt(s: Bytes, i: int) { 0 <= i && i + 2 <= |s| && s[i] == NL && s[i + 1] == NL }

  /** Where the first blank line starts. */
  function FindBreak(s: Bytes): (r: Option<nat>)
    ensures r.Some? ==> BreakAt(s, r.value)
  {
    if |s| < 2 then None
    else if BreakAt(s, 0) then Some(0)
    else
      var r := FindBreak(s[1..]);
      if r.Some? then Some(r.value + 1) else None
  }

  lemma {:induction false} FindBreakIsFirst(s: Bytes)
    ensures var r := FindBreak(s);
            forall j | BreakAt(s, j) :: r.Some? && r.value <= j
  {
    if |s| >= 2 && !BreakAt(s, 0) {
      FindBreakIsFirst(s[1..]);
      forall j | BreakAt(s, j)
        ensures FindBreak(s).Some? && FindBreak(s).value <= j
      {
        assert BreakAt(s[1..], j - 1);
      }
    }
  }

  lemma FirstBreak(s: Bytes, i: nat)
    requires BreakAt(s, i) && forall j | 0 <= j < i :: !BreakAt(s, j)
    ensures FindBreak(s) == Some(i)
  {
    FindBreakIsFirst(s);
  }

  /** The `while b"\n\n" in buffer` loop: consume every complete event and keep
      what is left. */
  function Drain(c: Core, buffer: Bytes): Result<(Core, Bytes)>
    decreases |buffer|
  {
    var i := FindBreak(buffer);
    if i.None? then Ok((c, buffer))
    else
      var r := Consume(c, buffer[..i.value]);
      if r.Raise? then Raise(r.error) else Drain(r.value, buffer[i.value + 2..])
  }

  /** The fields and the buffer the loop leaves behind, also when an exception
      escapes: the event that raised is out of the buffer by then. */
  function Drained(c: Core, buffer: Bytes): Assembler
    decreases |buffer|
  {
    var i := FindBreak(buffer);
    if i.None? then Assembler(c, buffer)
    else
      var event, rest := buffer[..i.value], buffer[i.value + 2..];
      var r := Consume(c, event);
      if r.Raise? then Assembler(Consumed(c, event), rest) else Drained(r.value, rest)
  }

  // ----- chunks -----

  datatype Assembler = Assembler(core: Core, buffer: Bytes)

  const EMPTY := Assembler(START, [])

  function Push(a: Assembler, chunk: Bytes): Result<Assembler> {
    var r := Drain(a.core, a.buffer + chunk);
    if r.Raise? then Raise(r.error) else Ok(Assembler(r.value.0, r.value.1))
  }

  function PushAll(a: Assembler, chunks: seq<Bytes>): Result<Assembler>
    decreases |chunks|
  {
    if chunks == [] then Ok(a)
    else
      var r := Push(a, chunks[0]);
      if r.Raise? then r else PushAll(r.value, chunks[1..])
  }

  function Concat(chunks: seq<Bytes>): Bytes {
    if chunks == [] then [] else chunks[0] + Concat(chunks[1..])
  }

  lemma BreakSurvives(a: Bytes, b: Bytes)
    requires FindBreak(a).Some?
    ensures FindBreak(a + b) == FindBreak(a)
  {
    var i := FindBreak(a).value;
    FindBreakIsFirst(a);
    forall j | 0 <= j < i
      ensures !BreakAt(a + b, j)
    {
      assert BreakAt(a + b, j) ==> BreakAt(a, j);
    }
    FirstBreak(a + b, i);
  }

  lemma SliceConcat(a: Bytes, b: Bytes, k: nat)
    requires k + 2 <= |a|
    ensures (a + b)[..k] == a[..k] && (a + b)[k + 2..] == a[k + 2..] + b
  {
  }

  lemma {:induction false} DrainConcat(c: Core, a: Bytes, b: Bytes)
    ensures Drain(c, a + b) ==
            var r := Drain(c, a);
            if r.Raise? then r else Drain(r.value.0, r.value.1 + b)
    decreases |a|
  {
    var i := FindBreak(a);
    if i.Some? {
      var k := i.value;
      BreakSurvives(a, b);
      SliceConcat(a, b, k);
      var r := Consume(c, a[..k]);
      if r.Ok? {
        DrainConcat(r.value, a[k + 2..], b);
      }
    }
  }

  /** Pushing chunks one by one is draining their concatenation at once. */
  lemma {:induction false} PushAllIsDrain(a: Assembler, chunks: seq<Bytes>)
    requires FindBreak(a.buffer).None?
    ensures PushAll(a, chunks) ==
            var r := Drain(a.core, a.buffer + Concat(chunks));
            if r.Raise? then Raise(r.error) else Ok(Assembler(r.value.0, r.value.1))
    decreases |chunks|
  {
    if chunks == [] {
      assert a.buffer + Concat(chunks) == a.buffer;
    } else {
      assert a.buffer + Concat(chunks) == (a.buffer + chunks[0]) + Concat(chunks[1..]);
      DrainConcat(a.core, a.buffer + chunks[0], Concat(chunks[1..]));
      var r := Push(a, chunks[0]);
      if r.Ok? {
        DrainLeavesNoBreak(a.core, a.buffer + chunks[0]);
        PushAllIsDrain(r.value, chunks[1..]);
      }
    }
  }

  lemma {:induction false} DrainLeavesNoBreak(c: Core, s: Bytes)
    ensures Drain(c, s).Ok? ==> FindBreak(Drain(c, s).value.1).None?
    decreases |s|
  {
    var i := FindBreak(s);
    if i.Some? && Consume(c, s[..i.value]).Ok? {
      DrainLeavesNoBreak(Consume(c, s[..i.value]).value, s[i.value + 2..]);
    }
  }

  /** Chunk boundaries do not matter: every way of cutting the same bytes ends
      in the same state, or raises the same exception. */
  lemma ChunkBoundariesDoNotMatter(xs: seq<Bytes>, ys: seq<Bytes>)
    requires Concat(xs) == Concat(ys)
    ensures PushAll(EMPTY, xs) == PushAll(EMPTY, ys)
  {
    PushAllIsDrain(EMPTY, xs);
    PushAllIsDrain(EMPTY, ys);
  }

  // ----- the one-shot parse -----

  /** The complete events of a byte string, in order. */
  function Events(s: Bytes): seq<Bytes>
    decreases |s|
  {
    var i := FindBreak(s);
    if i.None? then [] else [s[..i.value]] + Events(s[i.value + 2..])
  }

  /** What follows the last complete event. */
  function Leftover(s: Bytes): Bytes
    decreases |s|
  {
    var i := FindBreak(s);
    if i.None? then s else Leftover(s[i.value + 2..])
  }

  function Terminated(events: seq<Bytes>): Bytes {
    if events == [] then [] else events[0] + BREAK + Terminated(events[1..])
  }

  function ConsumeAll(c: Core, events: seq<Bytes>): Result<Core>
    decreases |events|
  {
    if events == [] then Ok(c)
    else
      var r := Consume(c, events[0]);
      if r.Raise? then r else ConsumeAll(r.value, events[1..])
  }

  /** Cutting into events loses nothing: the text is its events, each followed
      by a blank line, then the leftover. */
  lemma {:induction false} EventsPartition(s: Bytes)
    ensures s == Terminated(Events(s)) + Leftover(s)
    decreases |s|
  {
    var i := FindBreak(s);
    if i.Some? {
      var e, rest := s[..i.value], s[i.value + 2..];
      SplitAtBreak(s);
      EventsPartition(rest);
      PrependEvent(e, Events(rest), Leftover(rest));
    } else {
      assert [] + s == s;
    }
  }

  lemma SplitAtBreak(s: Bytes)
    requires FindBreak(s).Some?
    ensures var i := FindBreak(s).value;
            s == s[..i] + BREAK + s[i + 2..]
  {
  }

  /** And it cuts everywhere it can: no blank line is left inside an event,
      where an event meets its terminator, or in the leftover. */
  lemma {:induction false} EventsBreakFree(s: Bytes)
    ensures forall k | 0 <= k < |Events(s)| :: BreakFree(Events(s)[k])
    ensures FindBreak(Leftover(s)).None?
    decreases |s|
  {
    var i := FindBreak(s);
    if i.Some? {
      var rest := s[i.value + 2..];
      EventsBreakFree(rest);
      FirstEventBreakFree(s);
      assert forall k | 1 <= k < |Events(s)| :: Events(s)[k] == Events(rest)[k - 1];
    }
  }

  /** No blank line inside, and none arises from the newline that follows. */
  ghost predicate BreakFree(e: Bytes) { forall j :: !BreakAt(e + [NL], j) }

  lemma FirstEventBreakFree(s: Bytes)
    requires FindBreak(s).Some?
    ensures BreakFree(s[..FindBreak(s).value])
  {
    var i := FindBreak(s).value;
    FindBreakIsFirst(s);
    forall j
      ensures !BreakAt(s[..i] + [NL], j)
    {
      assert s[..i] + [NL] == s[..i + 1];
      assert BreakAt(s[..i] + [NL], j) ==> BreakAt(s, j);
    }
  }

  lemma PrependEvent(e: Bytes, events: seq<Bytes>, tail: Bytes)
    ensures Terminated([e] + events) + tail == e + BREAK + (Terminated(events) + tail)
  {
  }

  lemma {:induction false} DrainIsOneShot(c: Core, s: Bytes)
    ensures Drain(c, s) ==
            var r := ConsumeAll(c, Events(s));
            if r.Raise? then Raise(r.error) else Ok((r.value, Leftover(s)))
    decreases |s|
  {
    var i := FindBreak(s);
    if i.Some? {
      var r := Consume(c, s[..i.value]);
      assert Events(s)[1..] == Events(s[i.value + 2..]);
      if r.Ok? {
        DrainIsOneShot(r.value, s[i.value + 2..]);
      }
    }
  }

  /** The state after any chunking is the fold over the events of the whole
      text, with the leftover in the buffer. */
  lemma PushAllIsOneShot(chunks: seq<Bytes>)
    ensures PushAll(EMPTY, chunks) ==
            var s := Concat(chunks);
            var r := ConsumeAll(START, Events(s));
            if r.Raise? then Raise(r.error) else Ok(Assembler(r.value, Leftover(s)))
  {
    PushAllIsDrain(EMPTY, chunks);
    assert [] + Concat(chunks) == Concat(chunks);
    DrainIsOneShot(START, Concat(chunks));
  }

  // ----- completion -----

  ghost predicate HasDone(event: Bytes) { exists line <- Lines(event) :: IsDone(line) }

  ghost predicate ContainsDone(s: Bytes) { exists e <- Events(s) :: HasDone(e) }

  lemma {:induction false} MergeChoicesKeepsCompleted(c: Core, items: Items)
    ensures MergeChoices(c, items).Ok? ==> MergeChoices(c, items).value.completed == c.completed
    decreases items
  {
    if items.Item? {
      var r := MergeChoice(c, items.head);
      if r.Ok? {
        MergeChoicesKeepsCompleted(r.value, items.tail);
      }
    }
  }

  lemma ConsumeLineCompleted(c: Core, line: Bytes)
    ensures var r := ConsumeLine(c, line);
            r.Ok? ==> (r.value.completed <==> c.completed || IsDone(line))
  {
    var payload := Payload(line);
    if payload.Some? && payload.value != DONE {
      var data := JsonParser.Loads(payload.value);
      if data.Some? && data.value.Obj? {
        var items := Iterate(GetOr(data.value.members, "choices", Arr(NoItems)));
        if items.Ok? {
          MergeChoicesKeepsCompleted(MergeFields(c, data.value.members), items.value);
        }
      }
    }
  }

  lemma {:induction false} ConsumeLinesCompleted(c: Core, lines: seq<Bytes>)
    ensures var r := ConsumeLines(c, lines);
            r.Ok? ==> (r.value.completed <==> c.completed || exists line <- lines :: IsDone(line))
    decreases |lines|
  {
    if lines != [] {
      ConsumeLineCompleted(c, lines[0]);
      var r := ConsumeLine(c, lines[0]);
      if r.Ok? {
        ConsumeLinesCompleted(r.value, lines[1..]);
        assert forall l :: l in lines <==> l == lines[0] || l in lines[1..];
      }
    }
  }

  lemma ConsumeCompleted(c: Core, event: Bytes)
    ensures var r := Consume(c, event);
            r.Ok? ==> (r.value.completed <==> c.completed || HasDone(event))
  {
    ConsumeLinesCompleted(c, Lines(event));
  }

  lemma {:induction false} ConsumeAllCompleted(c: Core, events: seq<Bytes>)
    ensures var r := ConsumeAll(c, events);
            r.Ok? ==> (r.value.completed <==> c.completed || exists e <- events :: HasDone(e))
    decreases |events|
  {
    if events != [] {
      ConsumeCompleted(c, events[0]);
      var r := Consume(c, events[0]);
      if r.Ok? {
        ConsumeAllCompleted(r.value, events[1..]);
        assert forall e :: e in events <==> e == events[0] || e in events[1..];
        assert HasDone(events[0]) || (exists e <- events[1..] :: HasDone(e)) <==> exists e <- events :: HasDone(e);
      }
    }
  }

  /** The assembler is completed exactly when the bytes received hold a
      terminated `data: [DONE]` event. */
  lemma CompletedIffDone(chunks: seq<Bytes>)
    ensures var r := PushAll(EMPTY, chunks);
            r.Ok? ==> (r.value.core.completed <==> ContainsDone(Concat(chunks)))
  {
    PushAllIsOneShot(chunks);
    ConsumeAllCompleted(START, Events(Concat(chunks)));
  }

  // ----- the assembled response -----

  /** How pydantic reads an `int` field: integers are taken as they are, what
      it makes of other values is left open. */
  type IntField = Json -> Option<int>

  ghost predicate ReadsIntegers(asInt: IntField) { forall i :: asInt(Int(i)) == Some(i) }

  function JoinParts(parts: seq<Json>): Result<string> {
    if parts == [] then Ok("")
    else if !parts[0].Str? then Raise(TypeError)
    else
      var rest := JoinParts(parts[1..]);
      if rest.Raise? then rest else Ok(parts[0].s + rest.value)
  }

  function UsageField(m: Members, key: string, asInt: IntField): Result<int> {
    var v := Get(m, key);
    if v.None? then Ok(0)
    else if asInt(v.value).None? then Raise(ValidationError)
    else Ok(asInt(v.value).value)
  }

  function UsageOf(usage: Json, content: string, asInt: IntField): Result<Usage> {
    if !Truthy(usage) then
      var n := if |content| / 4 > 1 then |content| / 4 else 1;
      Ok(Usage(0, n, n))
    else if !usage.Obj? then Raise(AttributeError)
    else
      var p := UsageField(usage.members, "prompt_tokens", asInt);
      var c := UsageField(usage.members, "completion_tokens", asInt);
      var t := UsageField(usage.members, "total_tokens", asInt);
      if p.Raise? || c.Raise? || t.Raise? then Raise(ValidationError)
      else Ok(Usage(p.value, c.value, t.value))
  }

  /** `v or default` in a `str` field. */
  function StrField(v: Json, default: string): Result<string> {
    if !Truthy(v) then Ok(default) else if v.Str? then Ok(v.s) else Raise(ValidationError)
  }

  /** `v or default` in an `int` field. */
  function IntFieldOr(v: Json, default: int, asInt: IntField): Result<int> {
    if !Truthy(v) then Ok(default)
    else if asInt(v).None? then Raise(ValidationError)
    else Ok(asInt(v).value)
  }

  /** What the clock and the uuid generator supply when the stream named
      neither an id nor a creation time. */
  datatype Seed = Seed(id: string, now: int)

  function BuildResponse(c: Core, model: string, asInt: IntField, seed: Seed): Result<Response> {
    var content := JoinParts(c.parts);
    if content.Raise? then Raise(content.error)
    else
      var usage := UsageOf(c.usage, content.value, asInt);
      if usage.Raise? then Raise(usage.error)
      else
        var finish := StrField(c.finishReason, "stop");
        var id := StrField(c.id, seed.id);
        var created := IntFieldOr(c.created, seed.now, asInt);
        if finish.Raise? || id.Raise? || created.Raise? then Raise(ValidationError)
        else Ok(Response(id.value, created.value, model, [Choice(Some(content.value), Some(finish.value))], usage.value))
  }

  ghost predicate AllStrings(parts: seq<Json>) { forall i | 0 <= i < |parts| :: parts[i].Str? }

  lemma {:induction false} JoinPartsIff(parts: seq<Json>)
    ensures JoinParts(parts).Ok? <==> AllStrings(parts)
  {
    if parts != [] {
      JoinPartsIff(parts[1..]);
      assert forall i | 1 <= i < |parts| :: parts[i] == parts[1..][i - 1];
    }
  }

  predicate CountOk(m: Members, key: string, asInt: IntField) { Get(m, key).Some? ==> asInt(Get(m, key).value).Some? }

  /** Exactly when a response can be built: every content delta was a string,
      usage is falsy or an object whose counts read as integers, finish reason
      and id are falsy or strings, and the creation time is falsy or reads as an
      integer. What is built then carries the requested model. */
  lemma {:induction false} BuildsIff(c: Core, model: string, asInt: IntField, seed: Seed)
    ensures var r := BuildResponse(c, model, asInt, seed);
            && (r.Ok? <==> && AllStrings(c.parts)
                           && (Truthy(c.usage) ==> && c.usage.Obj?
                                                   && CountOk(c.usage.members, "prompt_tokens", asInt)
                                                   && CountOk(c.usage.members, "completion_tokens", asInt)
                                                   && CountOk(c.usage.members, "total_tokens", asInt))
                           && (Truthy(c.finishReason) ==> c.finishReason.Str?)
                           && (Truthy(c.id) ==> c.id.Str?)
                           && (Truthy(c.created) ==> asInt(c.created).Some?))
            && (r.Ok? ==> r.value.model == model && |r.value.choices| == 1 && Ok(r.value.FirstText()) == JoinParts(c.parts))
  {
    JoinPartsIff(c.parts);
  }

  /** The text of a list of deltas, a delta at a time from the end. */
  function TextOf(parts: seq<Json>): string
    requires AllStrings(parts)
  {
    if parts == [] then "" else TextOf(parts[..|parts| - 1]) + parts[|parts| - 1].s
  }

  lemma {:induction false} JoinPartsSnoc(parts: seq<Json>, last: Json)
    requires AllStrings(parts) && last.Str?
    ensures JoinParts(parts).Ok? && JoinParts(parts + [last]) == Ok(JoinParts(parts).value + last.s)
  {
    if parts == [] {
      assert parts + [last] == [last];
      assert [last][1..] == [];
      assert JoinParts([]) == Ok("");
      assert last.s + "" == "" + last.s;
    } else {
      assert (parts + [last])[1..] == parts[1..] + [last];
      JoinPartsSnoc(parts[1..], last);
      assert parts[0].s + (JoinParts(parts[1..]).value + last.s) == parts[0].s + JoinParts(parts[1..]).value + last.s;
    }
  }

  lemma {:induction false} JoinPartsText(parts: seq<Json>)
    requires AllStrings(parts)
    ensures JoinParts(parts) == Ok(TextOf(parts))
  {
    if parts != [] {
      var k := |parts| - 1;
      JoinPartsText(parts[..k]);
      JoinPartsSnoc(parts[..k], parts[k]);
      assert parts == parts[..k] + [parts[k]];
    }
  }

  /** A count of a usage object: what pydantic reads under the key, or 0. */
  predicate ReadAs(m: Members, key: string, asInt: IntField, n: int) {
    if Get(m, key).None? then n == 0 else asInt(Get(m, key).value) == Some(n)
  }

  /** What a built response holds: the joined text, id, creation time and finish
      reason as accumulated or else their defaults, and the usage reported under
      the three names, or an estimate of a token per four characters. */
  lemma {:induction false} BuiltFields(c: Core, model: string, asInt: IntField, seed: Seed)
    requires BuildResponse(c, model, asInt, seed).Ok?
    ensures var r := BuildResponse(c, model, asInt, seed).value;
            && AllStrings(c.parts) && r.model == model
            && |r.choices| == 1 && r.choices[0].content == Some(TextOf(c.parts))
            && r.choices[0].finishReason.Some?
            && (if Truthy(c.finishReason) then c.finishReason == Str(r.choices[0].finishReason.value)
                else r.choices[0].finishReason.value == "stop")
            && (if Truthy(c.id) then c.id == Str(r.id) else r.id == seed.id)
            && (if Truthy(c.created) then asInt(c.created) == Some(r.created) else r.created == seed.now)
            && (if Truthy(c.usage)
                then && c.usage.Obj?
                     && ReadAs(c.usage.members, "prompt_tokens", asInt, r.usage.promptTokens)
                     && ReadAs(c.usage.members, "completion_tokens", asInt, r.usage.completionTokens)
                     && ReadAs(c.usage.members, "total_tokens", asInt, r.usage.totalTokens)
                else && r.usage.promptTokens == 0 && r.usage.totalTokens == r.usage.completionTokens >= 1
                     && (r.usage.completionTokens == 1 || 4 * r.usage.completionTokens <= |TextOf(c.parts)|)
                     && |TextOf(c.parts)| < 4 * r.usage.completionTokens + 4)
  {
    BuildsIff(c, model, asInt, seed);
    JoinPartsText(c.parts);
  }

  // ----- cutting lines and payloads -----

  function JoinLines(lines: seq<Bytes>): Bytes {
    if lines == [] then [] else if |lines| == 1 then lines[0] else lines[0] + [0x0A] + JoinLines(lines[1..])
  }

  /** Lines lose nothing but the line feeds between them, and hold none. */
  lemma {:induction false} LinesJoin(s: Bytes)
    ensures JoinLines(Lines(s)) == s
    ensures forall line <- Lines(s) :: 0x0A !in line
  {
    if s != [] {
      var rest := Lines(s[1..]);
      LinesJoin(s[1..]);
      assert s == [s[0]] + s[1..];
      if s[0] == NL {
        assert ([[]] + rest)[1..] == rest;
      } else {
        var grown := [[s[0]] + rest[0]] + rest[1..];
        assert rest[0] in rest;
        assert grown[1..] == rest[1..];
        assert forall line <- grown :: line == [s[0]] + rest[0] || line in rest;
      }
    }
  }

  /** The white space of `bytes.strip()`. */
  lemma SpaceIsListed(b: Byte)
    ensures IsSpace(b) <==> b == 0x20 || b == 0x09 || b == 0x0A || b == 0x0B || b == 0x0C || b == 0x0D
  {
  }

  ghost predicate Padding(s: Bytes) { forall b <- s :: IsSpace(b) }

  lemma {:induction false} StripPadding(pre: Bytes, s: Bytes, post: Bytes)
    requires Padding(pre) && Padding(post) && s != [] && !IsSpace(s[0]) && !IsSpace(s[|s| - 1])
    ensures Strip(pre + s + post) == s
    decreases |pre|
  {
    if pre == [] {
      assert pre + s + post == s + post;
      assert StripLeft(s + post) == s + post;
      StripRightPadding(s, post);
    } else {
      assert (pre + s + post)[1..] == pre[1..] + s + post;
      assert (pre + s + post)[0] == pre[0];
      StripPadding(pre[1..], s, post);
    }
  }

  lemma {:induction false} StripRightPadding(s: Bytes, post: Bytes)
    requires Padding(post) && s != [] && !IsSpace(s[|s| - 1])
    ensures StripRight(s + post) == s
  {
    if post == [] {
      assert s + post == s;
    } else {
      var k := |post| - 1;
      assert (s + post)[..|s + post| - 1] == s + post[..k];
      assert (s + post)[|s + post| - 1] == post[k];
      StripRightPadding(s, post[..k]);
    }
  }

  /** A data line may be indented, end in a carriage return and pad its payload:
      the payload is what stands between. */
  lemma {:induction false} PaddedPayload(pre: Bytes, mid: Bytes, p: Bytes, post: Bytes)
    requires Padding(pre) && Padding(mid) && Padding(post)
    requires p != [] && !IsSpace(p[0]) && !IsSpace(p[|p| - 1])
    ensures Payload(pre + ([0x64, 0x61, 0x74, 0x61, 0x3A] + mid + p) + post) == Some(p)
  {
    var line := [0x64, 0x61, 0x74, 0x61, 0x3A] + mid + p;
    assert line[0] == 0x64 && line[|line| - 1] == p[|p| - 1];
    StripPadding(pre, line, post);
    assert line[..5] == DATA && line[5..] == mid + p + [];
    StripPadding(mid, p, []);
  }
}
