/** Provider-neutral messages and the request sanitisers of conversation/projection.go and conversation/item.go. */
module Unified {
  import opened Sequences

  datatype Role = User | Assistant | Tool | OtherRole(name: string)

  datatype Blob = Blob(url: string, base64: string)

  datatype ContentPart =
    | Text(text: string, cacheControl: string)
    | Image(source: Blob, alt: string)
    | Audio(source: Blob)
    | Video(source: Blob)
    | File(source: Blob, filename: string, mimeType: string)
    | Reasoning(text: string, signature: string)
    | Refusal(text: string)

  datatype ToolCall = ToolCall(id: string, name: string, arguments: string, index: int)

  datatype ToolResult = ToolResult(callId: string, name: string, content: seq<ContentPart>, isError: bool)

  datatype Meta = NoMeta | Extra(data: map<string, string>) | CompactionMeta(replaced: seq<string>)

  datatype Message = Message(
    role: Role,
    id: string,
    name: string,
    phase: string,
    content: seq<ContentPart>,
    toolCalls: seq<ToolCall>,
    toolResults: seq<ToolResult>,
    meta: Meta
  )

  const ZeroMessage := Message(OtherRole(""), "", "", "", [], [], [], NoMeta)

  const ResponsePrefix := "resp_"

  /** An image or file part must carry a URL or inline data. */
  predicate HasSource(part: ContentPart) {
    (part.Image? || part.File?) ==> part.source.url != "" || part.source.base64 != ""
  }

  /** Reasoning may be replayed to a provider only with its signature. */
  predicate Replayable(part: ContentPart) {
    part.Reasoning? ==> part.signature != ""
  }

  predicate ValidCall(call: ToolCall) {
    call.id != "" && call.name != ""
  }

  function ForRequest(msg: Message): Message {
    if msg.role.Assistant? then
      msg.(id := if ResponsePrefix <= msg.id then "" else msg.id,
           content := Filter(Replayable, msg.content))
    else
      msg
  }

  /** What one message looks like to a provider before its tool traffic is repaired. */
  function Clean(msg: Message): Message {
    var m := ForRequest(msg);
    m.(content := Filter(HasSource, m.content))
  }

  function CleanResult(result: ToolResult): ToolResult {
    result.(content := Filter(HasSource, result.content))
  }

  lemma ForRequestAfterClean(msg: Message)
    ensures ForRequest(Clean(msg)) == Clean(msg)
    ensures Clean(Clean(msg)) == Clean(msg)
  {
    var m := ForRequest(msg);
    FilterTwice(HasSource, m.content);
    if msg.role.Assistant? {
      FilterAll(Replayable, Filter(HasSource, m.content));
    }
  }

  lemma CleanResultTwice(result: ToolResult)
    ensures CleanResult(CleanResult(result)) == CleanResult(result)
  {
    FilterTwice(HasSource, result.content);
  }

  method SanitizeContentParts(parts: seq<ContentPart>) returns (out: seq<ContentPart>)
    ensures out == Filter(HasSource, parts)
  {
    out := [];
    for i := 0 to |parts|
      invariant out == Filter(HasSource, parts[..i])
    {
      PrefixStep(parts, i);
      if !((parts[i].Image? || parts[i].File?) && parts[i].source == Blob("", "")) {
        out := out + [parts[i]];
      }
    }
    assert parts[..|parts|] == parts;
  }

  method SanitizeAssistantContent(parts: seq<ContentPart>) returns (out: seq<ContentPart>)
    ensures out == Filter(Replayable, parts)
  {
    out := [];
    for i := 0 to |parts|
      invariant out == Filter(Replayable, parts[..i])
    {
      PrefixStep(parts, i);
      if !(parts[i].Reasoning? && parts[i].signature == "") {
        out := out + [parts[i]];
      }
    }
    assert parts[..|parts|] == parts;
  }

  method SanitizeMessageForRequest(msg: Message) returns (out: Message)
    ensures out == ForRequest(msg)
  {
    out := msg;
    if msg.role.Assistant? && ResponsePrefix <= msg.id {
      out := out.(id := "");
    }
    if msg.role.Assistant? {
      var content := SanitizeAssistantContent(msg.content);
      out := out.(content := content);
    }
  }
}
