/**
 How history payloads are written to and read back from thread events (runtime/history_events.go). JSON is the
 identity on the wire records; the kinds and the records themselves are the source's.
 */
module HistoryEvents {
  import opened Sequences
  import opened Unified
  import opened Items
  import opened Projection

  // ---------------------------------------------------------------- wire records

  datatype WirePart = WirePart(
    kind: string,
    text: string,
    signature: string,
    cacheControl: string,
    source: Option<Blob>,
    alt: string,
    filename: string,
    mimeType: string
  )

  const EmptyPart := WirePart("", "", "", "", None, "", "", "")

  datatype WireResult = WireResult(callId: string, name: string, content: seq<WirePart>, isError: bool)

  datatype WireMessage = WireMessage(
    role: Role,
    id: string,
    name: string,
    phase: string,
    content: seq<WirePart>,
    toolCalls: seq<ToolCall>,
    toolResults: seq<WireResult>,
    meta: Meta
  )

  datatype Wire =
    | WireMessageEvent(message: WireMessage)
    | WireAssistantTurn(message: WireMessage, finishReason: string, usage: Usage, continuations: seq<Continuation>)
    | WireCompaction(summary: string, replaced: seq<NodeId>)
    | WireAnnotation(text: string)

  datatype ConversationKind =
    | UserMessageKind
    | AssistantMessageKind
    | ToolResultKind
    | MessageKind
    | CompactionKind
    | AnnotationKind

  function PartToWire(part: ContentPart): WirePart {
    match part
    case Text(t, cc) => EmptyPart.(kind := "text", text := t, cacheControl := cc)
    case Image(s, alt) => EmptyPart.(kind := "image", source := Some(s), alt := alt)
    case Audio(s) => EmptyPart.(kind := "audio", source := Some(s))
    case Video(s) => EmptyPart.(kind := "video", source := Some(s))
    case File(s, name, mime) => EmptyPart.(kind := "file", source := Some(s), filename := name, mimeType := mime)
    case Reasoning(t, sig) => EmptyPart.(kind := "reasoning", text := t, signature := sig)
    case Refusal(t) => EmptyPart.(kind := "refusal", text := t)
  }

  function SourceOr(source: Option<Blob>): Blob {
    match source
    case Some(s) => s
    case None => Blob("", "")
  }

  /** A part of an unknown kind reads back as nothing. */
  function PartFromWire(part: WirePart): Option<ContentPart> {
    if part.kind == "text" || part.kind == "" then Some(Text(part.text, part.cacheControl))
    else if part.kind == "image" then Some(Image(SourceOr(part.source), part.alt))
    else if part.kind == "audio" then Some(Audio(SourceOr(part.source)))
    else if part.kind == "video" then Some(Video(SourceOr(part.source)))
    else if part.kind == "file" then Some(File(SourceOr(part.source), part.filename, part.mimeType))
    else if part.kind == "reasoning" then Some(Reasoning(part.text, part.signature))
    else if part.kind == "refusal" then Some(Refusal(part.text))
    else None
  }

  function PartsFromWire(parts: seq<WirePart>): seq<ContentPart> {
    if parts == [] then []
    else
      var rest := PartsFromWire(parts[..|parts| - 1]);
      match PartFromWire(parts[|parts| - 1])
      case Some(part) => rest + [part]
      case None => rest
  }

  function ResultToWire(r: ToolResult): WireResult {
    WireResult(r.callId, r.name, Map(PartToWire, r.content), r.isError)
  }

  function ResultFromWire(r: WireResult): ToolResult {
    ToolResult(r.callId, r.name, PartsFromWire(r.content), r.isError)
  }

  function MessageToWire(m: Message): WireMessage {
    WireMessage(m.role, m.id, m.name, m.phase, Map(PartToWire, m.content), m.toolCalls,
                Map(ResultToWire, m.toolResults), m.meta)
  }

  function MessageFromWire(m: WireMessage): Message {
    Message(m.role, m.id, m.name, m.phase, PartsFromWire(m.content), m.toolCalls, Map(ResultFromWire, m.toolResults),
            m.meta)
  }

  /** The kind a message is stored under follows from its role alone. */
  function MessageEventKind(m: Message): ConversationKind {
    match m.role
    case User => UserMessageKind
    case Tool => ToolResultKind
    case Assistant => AssistantMessageKind
    case OtherRole(_) => MessageKind
  }

  function EncodeKind(p: Payload): ConversationKind {
    match p
    case MessageEvent(m) => MessageEventKind(m)
    case AssistantTurnEvent(_, _, _, _) => AssistantMessageKind
    case CompactionEvent(_, _) => CompactionKind
    case AnnotationEvent(_) => AnnotationKind
  }

  function Encode(p: Payload): Wire {
    match p
    case MessageEvent(m) => WireMessageEvent(MessageToWire(m))
    case AssistantTurnEvent(m, fr, u, cs) => WireAssistantTurn(MessageToWire(m), fr, u, cs)
    case CompactionEvent(s, ids) => WireCompaction(s, ids)
    case AnnotationEvent(t) => WireAnnotation(t)
  }

  /** The `message` field of a record, read as JSON would: absent means empty. */
  function MessageField(w: Wire): WireMessage {
    match w
    case WireMessageEvent(m) => m
    case WireAssistantTurn(m, _, _, _) => m
    case _ => MessageToWire(ZeroMessage)
  }

  /** Which reader runs is decided by the event kind, not by what was written. */
  function Decode(kind: ConversationKind, w: Wire): Payload {
    match kind
    case AssistantMessageKind =>
      var m := MessageFromWire(MessageField(w));
      (match w
       case WireAssistantTurn(_, fr, u, cs) => AssistantTurnEvent(m, fr, u, cs)
       case _ => AssistantTurnEvent(m, "", ZeroUsage, []))
    case CompactionKind => if w.WireCompaction? then CompactionEvent(w.summary, w.replaced) else CompactionEvent("", [])
    case AnnotationKind => if w.WireAnnotation? then AnnotationEvent(w.text) else AnnotationEvent("")
    case _ => MessageEvent(MessageFromWire(MessageField(w)))
  }

  // ---------------------------------------------------------------- round trip

  lemma PartRoundTrip(part: ContentPart)
    ensures PartFromWire(PartToWire(part)) == Some(part)
  {}

  lemma {:induction false} PartsRoundTrip(parts: seq<ContentPart>)
    ensures PartsFromWire(Map(PartToWire, parts)) == parts
  {
    if parts != [] {
      var init, last := parts[..|parts| - 1], parts[|parts| - 1];
      PartsRoundTrip(init);
      PartRoundTrip(last);
      assert Map(PartToWire, parts)[..|parts| - 1] == Map(PartToWire, init);
      assert parts == init + [last];
    }
  }

  lemma MessageRoundTrip(m: Message)
    ensures MessageFromWire(MessageToWire(m)) == m
  {
    PartsRoundTrip(m.content);
    var back := Map(ResultFromWire, Map(ResultToWire, m.toolResults));
    forall i | 0 <= i < |m.toolResults| ensures back[i] == m.toolResults[i] {
      PartsRoundTrip(m.toolResults[i].content);
    }
    assert back == m.toolResults;
  }

  /**
   What a payload becomes by going through the log: a plain assistant message turns into an assistant turn without
   continuations.
   */
  function Reloaded(p: Payload): Payload {
    match p
    case MessageEvent(m) => if m.role.Assistant? then AssistantTurnEvent(m, "", ZeroUsage, []) else p
    case _ => p
  }

  /** Writing a payload and reading it back loses nothing but the distinction `Reloaded` names. */
  lemma PayloadRoundTrip(p: Payload)
    ensures Decode(EncodeKind(p), Encode(p)) == Reloaded(p)
  {
    match p
    case MessageEvent(m) => MessageRoundTrip(m);
    case AssistantTurnEvent(m, _, _, _) => MessageRoundTrip(m);
    case _ =>
  }

  /** Exactly the payloads that are not plain assistant messages come back unchanged. */
  lemma UnchangedByLog(p: Payload)
    ensures Decode(EncodeKind(p), Encode(p)) == p <==> !(p.MessageEvent? && p.message.role.Assistant?)
  {
    PayloadRoundTrip(p);
  }

  // ---------------------------------------------------------------- the source's loops

  method ContentPartsToWire(parts: seq<ContentPart>) returns (out: seq<WirePart>)
    ensures PartsFromWire(out) == parts
  {
    out := [];
    for i := 0 to |parts|
      invariant out == Map(PartToWire, parts[..i])
    {
      out := out + [PartToWire(parts[i])];
    }
    assert parts[..|parts|] == parts;
    PartsRoundTrip(parts);
  }

  method ContentPartsFromWire(parts: seq<WirePart>) returns (out: seq<ContentPart>)
    ensures out == PartsFromWire(parts)
  {
    out := [];
    for i := 0 to |parts|
      invariant out == PartsFromWire(parts[..i])
    {
      PrefixStep(parts, i);
      match PartFromWire(parts[i])
      case Some(part) => out := out + [part];
      case None =>
    }
    assert parts[..|parts|] == parts;
  }
}
