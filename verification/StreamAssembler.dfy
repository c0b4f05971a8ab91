/** The `StreamAssembler` object: the fields the source mutates, proved against
    the functions of `Sse`. A method returns the exception it lets escape. */
module StreamAssembler {
  import opened Wrappers
  import opened Utf8
  import opened Json
  import JsonParser
  import opened Chat
  import Sse

  class StreamAssembler {
    const model: string
    var buffer: Bytes
    var contentParts: seq<Json>
    var finishReason: Json
    var id: Json
    var created: Json
    var usage: Json
    var completed: bool

    function View(): Sse.Core
      reads this
    {
      Sse.Core(contentParts, finishReason, id, created, usage, completed)
    }

    constructor (model: string)
      ensures this.model == model
      ensures Sse.Assembler(View(), buffer) == Sse.EMPTY
    {
      this.model := model;
      buffer := [];
      contentParts := [];
      finishReason, id, created, usage := Null, Null, Null, Null;
      completed := false;
    }

    method Push(chunk: Bytes) returns (raised: Option<Error>)
      modifies this
      ensures Sse.Push(Sse.Assembler(old(View()), old(buffer)), chunk)
              == if raised.Some? then Raise(raised.value) else Ok(Sse.Assembler(View(), buffer))
      ensures Sse.Assembler(View(), buffer) == Sse.Drained(old(View()), old(buffer) + chunk)
    {
      buffer := buffer + chunk;
      while Sse.FindBreak(buffer).Some?
        invariant Sse.Drain(View(), buffer) == Sse.Drain(old(View()), old(buffer) + chunk)
        invariant Sse.Drained(View(), buffer) == Sse.Drained(old(View()), old(buffer) + chunk)
        decreases |buffer|
      {
        var i := Sse.FindBreak(buffer).value;
        var event := buffer[..i];
        buffer := buffer[i + 2..];
        raised := ConsumeEvent(event);
        if raised.Some? {
          return;
        }
      }
      raised := None;
    }

    method ConsumeEvent(event: Bytes) returns (raised: Option<Error>)
      modifies this
      ensures buffer == old(buffer)
      ensures Sse.Consume(old(View()), event)
              == if raised.Some? then Raise(raised.value) else Ok(View())
      ensures View() == Sse.Consumed(old(View()), event)
    {
      var lines := Sse.Lines(event);
      var i := 0;
      while i < |lines|
        invariant 0 <= i <= |lines|
        invariant buffer == old(buffer)
        invariant Sse.ConsumeLines(View(), lines[i..]) == Sse.Consume(old(View()), event)
        invariant Sse.ConsumedLines(View(), lines[i..]) == Sse.Consumed(old(View()), event)
      {
        assert lines[i..][1..] == lines[i + 1..];
        var line := Sse.Strip(lines[i]);
        if !JsonParser.StartsWith(line, Sse.DATA) {
          i := i + 1;
          continue;
        }
        var payload := Sse.Strip(line[|Sse.DATA|..]);
        if payload == Sse.DONE {
          completed := true;
          i := i + 1;
          continue;
        }
        var data := JsonParser.Loads(payload);
        if data.None? {
          i := i + 1;
          continue;
        }
        raised := Merge(data.value);
        if raised.Some? {
          return;
        }
        i := i + 1;
      }
      raised := None;
    }

    method Merge(data: Json) returns (raised: Option<Error>)
      modifies this
      ensures buffer == old(buffer)
      ensures Sse.Merge(old(View()), data)
              == if raised.Some? then Raise(raised.value) else Ok(View())
      ensures View() == Sse.Merged(old(View()), data)
    {
      if !data.Obj? {
        return Some(AttributeError);
      }
      var m := data.members;
      id := GetOr(m, "id", id);
      created := GetOr(m, "created", created);
      if Truthy(GetOr(m, "usage", Null)) {
        usage := GetOr(m, "usage", Null);
      }
      var choices := Sse.Iterate(GetOr(m, "choices", Arr(NoItems)));
      if choices.Raise? {
        return Some(choices.error);
      }
      var rest := choices.value;
      while rest.Item?
        invariant buffer == old(buffer)
        invariant Sse.MergeChoices(View(), rest) == Sse.Merge(old(View()), data)
        invariant Sse.MergedChoices(View(), rest) == Sse.Merged(old(View()), data)
        decreases rest
      {
        var choice := rest.head;
        if !choice.Obj? {
          return Some(AttributeError);
        }
        var delta := GetOr(choice.members, "delta", Obj(NoMembers));
        if !delta.Obj? {
          return Some(AttributeError);
        }
        var content := GetOr(delta.members, "content", Null);
        if Truthy(content) {
          contentParts := contentParts + [content];
        }
        var finish := GetOr(choice.members, "finish_reason", Null);
        if Truthy(finish) {
          finishReason := finish;
        }
        rest := rest.tail;
      }
      raised := None;
    }

    method BuildResponse(asInt: Sse.IntField, seed: Sse.Seed) returns (r: Result<Response>)
      ensures r == Sse.BuildResponse(View(), model, asInt, seed)
    {
      r := Sse.BuildResponse(View(), model, asInt, seed);
    }
  }
}
