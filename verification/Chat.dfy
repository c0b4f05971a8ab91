/** The OpenAI-compatible chat schemas the proxy works on. */
module Chat {
  import opened Wrappers

  datatype Role = System | User | Assistant | Tool | Function

  datatype Message = Message(role: Role, content: Option<string>)

  datatype Request = Request(
    model: string,
    messages: seq<Message>,
    temperature: real,
    maxTokens: Option<int>,
    cacheTags: Option<seq<string>>)
  {
    /** The content of the first system message, which may itself be absent. */
    function SystemPrompt(): Option<string> { FirstSystem(messages) }

    /** The newest non-empty user turn, else all contents joined by newlines. */
    function LatestUserPrompt(): string {
      var r := LastUser(messages);
      if r.Some? then r.value else JoinContents(messages)
    }
  }

  function FirstSystem(messages: seq<Message>): Option<string> {
    if messages == [] then None
    else if messages[0].role == System then messages[0].content
    else FirstSystem(messages[1..])
  }

  function LastUser(messages: seq<Message>): Option<string> {
    if messages == [] then None
    else
      var m := messages[|messages| - 1];
      if m.role == User && m.content.Some? && m.content.value != "" then m.content
      else LastUser(messages[..|messages| - 1])
  }

  function TextOr(content: Option<string>, default: string): string {
    if content.Some? then content.value else default
  }

  function JoinContents(messages: seq<Message>): string {
    if messages == [] then ""
    else if |messages| == 1 then TextOr(messages[0].content, "")
    else TextOr(messages[0].content, "") + "\n" + JoinContents(messages[1..])
  }

  datatype Usage = Usage(promptTokens: int, completionTokens: int, totalTokens: int)

  datatype Choice = Choice(content: Option<string>, finishReason: Option<string>)

  datatype Response = Response(id: string, created: int, model: string, choices: seq<Choice>, usage: Usage)
  {
    function FirstText(): string {
      if choices == [] then "" else TextOr(choices[0].content, "")
    }
  }

  // ----- what the requests' texts are -----

  /** The system prompt is the content of the first system message, and absent
      without one. */
  lemma {:induction false} SystemPromptIsFirst(messages: seq<Message>, i: nat)
    ensures i < |messages| && messages[i].role == System && (forall j | 0 <= j < i :: messages[j].role != System) ==>
              FirstSystem(messages) == messages[i].content
    ensures (forall j | 0 <= j < |messages| :: messages[j].role != System) ==> FirstSystem(messages) == None
    decreases |messages|
  {
    if messages != [] && messages[0].role != System {
      SystemPromptIsFirst(messages[1..], if i > 0 then i - 1 else 0);
    }
  }

  predicate Asks(m: Message) { m.role == User && m.content.Some? && m.content.value != "" }

  lemma {:induction false} LastUserIsLast(messages: seq<Message>, i: nat)
    ensures i < |messages| && Asks(messages[i]) && (forall j | i < j < |messages| :: !Asks(messages[j])) ==>
              LastUser(messages) == messages[i].content
    ensures (forall j | 0 <= j < |messages| :: !Asks(messages[j])) ==> LastUser(messages) == None
    decreases |messages|
  {
    if messages != [] && !Asks(messages[|messages| - 1]) {
      LastUserIsLast(messages[..|messages| - 1], i);
    }
  }

  /** The cache key text is the newest non-empty user turn. */
  lemma PromptIsNewestQuestion(r: Request, i: nat)
    requires i < |r.messages| && r.messages[i].role == User && r.messages[i].content.Some? && r.messages[i].content.value != ""
    requires forall j | i < j < |r.messages| ::
               r.messages[j].role != User || r.messages[j].content.None? || r.messages[j].content.value == ""
    ensures r.LatestUserPrompt() == r.messages[i].content.value
  {
    LastUserIsLast(r.messages, i);
  }

  /** Without one it is all contents, joined by newlines. */
  lemma PromptOfNoQuestion(r: Request)
    requires forall j | 0 <= j < |r.messages| ::
               r.messages[j].role != User || r.messages[j].content.None? || r.messages[j].content.value == ""
    ensures r.LatestUserPrompt() == JoinContents(r.messages)
  {
    LastUserIsLast(r.messages, 0);
  }

  /** Joining, from the other end: each further message adds a newline and its
      content, an absent content counting as empty. */
  lemma {:induction false} JoinOneMore(messages: seq<Message>, m: Message)
    ensures var text := if m.content.Some? then m.content.value else "";
            JoinContents(messages + [m]) == if messages == [] then text else JoinContents(messages) + ['\n'] + text
  {
    if messages == [] {
      assert messages + [m] == [m];
    } else {
      assert (messages + [m])[1..] == messages[1..] + [m];
      JoinOneMore(messages[1..], m);
    }
  }

  /** The text of a response is the content of its first choice. */
  lemma FirstTextIs(r: Response)
    ensures r.choices != [] && r.choices[0].content.Some? ==> r.FirstText() == r.choices[0].content.value
    ensures r.choices == [] || r.choices[0].content.None? ==> r.FirstText() == ""
  {
  }
}
