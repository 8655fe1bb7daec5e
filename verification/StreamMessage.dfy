/** A provider stream consumed into one assistant message (runner/runner.go, `consumeEvents`). */
module StreamMessage {
  import opened Sequences
  import opened Unified
  import opened StreamCalls

  /** Usage, warnings, raw and routing events only pass through. */
  datatype StreamEvent =
    | Call(event: CallEvent)
    | MessageMark(id: string, phase: string)
    | TextDelta(text: string)
    | ReasoningDelta(text: string, signature: string)
    | Completed(finishReason: string, messageId: string)
    | StreamFailed
    | Aside

  datatype Reply = Reply(message: Message, finishReason: string)

  function CallsIn(events: seq<StreamEvent>): seq<CallEvent> {
    if events == [] then []
    else CallsIn(events[..|events| - 1]) + if events[|events| - 1].Call? then [events[|events| - 1].event] else []
  }

  function TextIn(events: seq<StreamEvent>): string {
    if events == [] then ""
    else TextIn(events[..|events| - 1]) + if events[|events| - 1].TextDelta? then events[|events| - 1].text else ""
  }

  function ReasoningIn(events: seq<StreamEvent>): string {
    if events == [] then ""
    else ReasoningIn(events[..|events| - 1]) + if events[|events| - 1].ReasoningDelta? then events[|events| - 1].text
                                               else ""
  }

  function SignatureIn(events: seq<StreamEvent>): string {
    if events == [] then ""
    else SignatureIn(events[..|events| - 1]) + if events[|events| - 1].ReasoningDelta?
                                               then events[|events| - 1].signature else ""
  }

  /** The last message id any event gave. */
  function MessageIdIn(events: seq<StreamEvent>): string {
    if events == [] then ""
    else
      var e, before := events[|events| - 1], MessageIdIn(events[..|events| - 1]);
      if e.MessageMark? then FirstNonEmpty(e.id, before) else if e.Completed? then FirstNonEmpty(e.messageId, before)
                                                              else before
  }

  function PhaseIn(events: seq<StreamEvent>): string {
    if events == [] then ""
    else
      var e, before := events[|events| - 1], PhaseIn(events[..|events| - 1]);
      if e.MessageMark? then FirstNonEmpty(e.phase, before) else before
  }

  function FinishIn(events: seq<StreamEvent>): Option<string> {
    if events == [] then None
    else if events[|events| - 1].Completed? then Some(events[|events| - 1].finishReason)
    else FinishIn(events[..|events| - 1])
  }

  /** What has been heard so far, apart from tool calls. */
  datatype Heard = Heard(
    text: string,
    reasoning: string,
    signature: string,
    messageId: string,
    phase: string,
    finish: Option<string>
  )

  function Hear(h: Heard, e: StreamEvent): Heard {
    match e
    case MessageMark(id, phase) =>
      h.(messageId := FirstNonEmpty(id, h.messageId), phase := FirstNonEmpty(phase, h.phase))
    case TextDelta(text) => h.(text := h.text + text)
    case ReasoningDelta(text, signature) => h.(reasoning := h.reasoning + text, signature := h.signature + signature)
    case Completed(reason, id) => h.(finish := Some(reason), messageId := FirstNonEmpty(id, h.messageId))
    case _ => h
  }

  /** The parts of the message, each read off the whole stream. */
  function HeardIn(events: seq<StreamEvent>): Heard {
    Heard(TextIn(events), ReasoningIn(events), SignatureIn(events), MessageIdIn(events), PhaseIn(events),
          FinishIn(events))
  }

  lemma HeardSnoc(events: seq<StreamEvent>, e: StreamEvent)
    ensures HeardIn(events + [e]) == Hear(HeardIn(events), e)
    ensures CallsIn(events + [e]) == if e.Call? then CallsIn(events) + [e.event] else CallsIn(events)
  {
    assert (events + [e])[..|events|] == events;
    assert forall s: string :: s + "" == s;
  }

  function ContentOf(h: Heard): seq<ContentPart> {
    (if h.reasoning != "" || h.signature != "" then [Reasoning(h.reasoning, h.signature)] else [])
    + (if h.text != "" then [Text(h.text, "")] else [])
  }

  /** Ids of stored responses are not reused as message ids. */
  function ReusableId(id: string): string {
    if ResponsePrefix <= id then "" else id
  }

  function AssistantMessage(h: Heard, calls: seq<ToolCall>): Message {
    Message(Assistant, ReusableId(h.messageId), "", h.phase, ContentOf(h), calls, [], NoMeta)
  }

  function MessageFrom(events: seq<StreamEvent>): Message {
    AssistantMessage(HeardIn(events), Assembled(CallsIn(events)).calls)
  }

  predicate Unbroken(events: seq<StreamEvent>) {
    forall e | e in events :: !e.StreamFailed?
  }

  // ---------------------------------------------------------------- the message, told from the events

  function TextGiven(e: StreamEvent): string { if e.TextDelta? then e.text else "" }

  function ReasoningGiven(e: StreamEvent): string { if e.ReasoningDelta? then e.text else "" }

  function SignatureGiven(e: StreamEvent): string { if e.ReasoningDelta? then e.signature else "" }

  function IdGiven(e: StreamEvent): string {
    if e.MessageMark? then e.id else if e.Completed? then e.messageId else ""
  }

  function PhaseGiven(e: StreamEvent): string { if e.MessageMark? then e.phase else "" }

  function CallGiven(e: StreamEvent): seq<CallEvent> { if e.Call? then [e.event] else [] }

  /** Reasoning first, then text, and each only when there is any. */
  ghost predicate ContentTold(content: seq<ContentPart>, text: string, reasoning: string, signature: string) {
    && (forall p | p in content :: p == Reasoning(reasoning, signature) || p == Text(text, ""))
    && (Reasoning(reasoning, signature) in content <==> reasoning != "" || signature != "")
    && (Text(text, "") in content <==> text != "")
    && (forall i, j | 0 <= i < j < |content| :: content[i].Reasoning? && content[j].Text?)
  }

  /**
   The assistant's message: the text, the reasoning and the signature are all that was streamed of each, joined in
   order; id and phase are the last given, but the id of a stored response is dropped.
   */
  ghost predicate Streamed(events: seq<StreamEvent>, m: Message) {
    && m.role == Assistant && m.name == "" && m.toolResults == []
    && ContentTold(m.content, Flat(Map(TextGiven, events)), Flat(Map(ReasoningGiven, events)),
                   Flat(Map(SignatureGiven, events)))
    && (exists id :: IsLast(id, Map(IdGiven, events)) && m.id == if "resp_" <= id then "" else id)
    && IsLast(m.phase, Map(PhaseGiven, events))
    && m.toolCalls == Assembled(Flat(Map(CallGiven, events))).calls
  }

  /** The stream was completed, last for this reason. */
  ghost predicate FinishedAs(events: seq<StreamEvent>, reason: string) {
    exists i | 0 <= i < |events| :: events[i].Completed? && events[i].finishReason == reason &&
      forall j | i < j < |events| :: !events[j].Completed?
  }

  lemma {:induction false} JoinedExactly(events: seq<StreamEvent>)
    ensures TextIn(events) == Flat(Map(TextGiven, events)) && ReasoningIn(events) == Flat(Map(ReasoningGiven, events))
    ensures SignatureIn(events) == Flat(Map(SignatureGiven, events)) && CallsIn(events) == Flat(Map(CallGiven, events))
  {
    if events != [] {
      var init, e := events[..|events| - 1], events[|events| - 1];
      Unsnoc(events);
      JoinedExactly(init);
      FlatMapSnoc(TextGiven, init, e);
      FlatMapSnoc(ReasoningGiven, init, e);
      FlatMapSnoc(SignatureGiven, init, e);
      FlatMapSnoc(CallGiven, init, e);
    }
  }

  lemma {:induction false} LastIdExactly(events: seq<StreamEvent>)
    ensures IsLast(MessageIdIn(events), Map(IdGiven, events))
  {
    if events != [] {
      var init, e := events[..|events| - 1], events[|events| - 1];
      Unsnoc(events);
      LastIdExactly(init);
      MapSnoc(IdGiven, init, e);
      IsLastSnoc(MessageIdIn(init), Map(IdGiven, init), IdGiven(e));
    }
  }

  lemma {:induction false} LastPhaseExactly(events: seq<StreamEvent>)
    ensures IsLast(PhaseIn(events), Map(PhaseGiven, events))
  {
    if events != [] {
      var init, e := events[..|events| - 1], events[|events| - 1];
      Unsnoc(events);
      LastPhaseExactly(init);
      MapSnoc(PhaseGiven, init, e);
      IsLastSnoc(PhaseIn(init), Map(PhaseGiven, init), PhaseGiven(e));
    }
  }

  lemma {:induction false} FinishExactly(events: seq<StreamEvent>)
    ensures FinishIn(events).Some? <==> exists e :: e in events && e.Completed?
    ensures FinishIn(events).Some? ==> FinishedAs(events, FinishIn(events).value)
  {
    if events != [] {
      var init, e := events[..|events| - 1], events[|events| - 1];
      Unsnoc(events);
      FinishExactly(init);
      if e.Completed? {
        assert events[|events| - 1].finishReason == e.finishReason;
      } else if FinishIn(init).Some? {
        var i :| 0 <= i < |init| && init[i].Completed? && init[i].finishReason == FinishIn(init).value &&
          forall j | i < j < |init| :: !init[j].Completed?;
        assert events[i] == init[i] && forall j | i < j < |events| :: !events[j].Completed?;
      }
    }
  }

  lemma ContentExactly(h: Heard)
    ensures ContentTold(ContentOf(h), h.text, h.reasoning, h.signature)
  {}

  lemma StreamedExactly(events: seq<StreamEvent>)
    ensures Streamed(events, MessageFrom(events))
  {
    JoinedExactly(events);
    LastIdExactly(events);
    LastPhaseExactly(events);
    ContentExactly(HeardIn(events));
    assert IsLast(MessageIdIn(events), Map(IdGiven, events));
  }

  /**
   Reads until the stream closes; `cancelledAt` is how many events are read before a cancellation is noticed, if one is.
   */
  method ReadEvents(events: seq<StreamEvent>, cancelledAt: Option<nat>) returns (r: Result<Reply>)
    ensures r.Ok? <==>
            Unbroken(events) && FinishIn(events).Some? && (cancelledAt.Some? ==> cancelledAt.value > |events|)
    ensures r.Ok? ==> r.value == Reply(MessageFrom(events), FinishIn(events).value)
  {
    var heard := Heard("", "", "", "", "", None);
    var assembler := new Assembler();
    for i := 0 to |events|
      invariant Unbroken(events[..i]) && (cancelledAt.Some? ==> cancelledAt.value >= i)
      invariant heard == HeardIn(events[..i])
      invariant assembler.State() == Assembled(CallsIn(events[..i])) && fresh(assembler)
    {
      if cancelledAt == Some(i) {
        return Err;
      }
      PrefixStep(events, i);
      HeardSnoc(events[..i], events[i]);
      if events[i].StreamFailed? {
        assert events[i] in events;
        return Err;
      }
      if events[i].Call? {
        AssembledSnoc(CallsIn(events[..i]), events[i].event);
        assembler.Take(events[i].event);
      } else {
        heard := Hear(heard, events[i]);
      }
    }
    assert events[..|events|] == events;
    if heard.finish.None? || cancelledAt == Some(|events|) {
      return Err;
    }
    return Ok(Reply(AssistantMessage(heard, assembler.calls), heard.finish.value));
  }

  /** An answer needs a stream without an error event, a completion, and no cancellation before the end. */
  method ConsumeEvents(events: seq<StreamEvent>, cancelledAt: Option<nat>) returns (r: Result<Reply>)
    ensures r.Ok? <==>
            Unbroken(events) && FinishIn(events).Some? && (cancelledAt.Some? ==> cancelledAt.value > |events|)
    ensures FinishIn(events).Some? <==> exists e :: e in events && e.Completed?
    ensures r.Ok? ==> r.value == Reply(MessageFrom(events), FinishIn(events).value)
    ensures r.Ok? ==> Streamed(events, r.value.message) && FinishedAs(events, r.value.finishReason)
  {
    r := ReadEvents(events, cancelledAt);
    StreamedExactly(events);
    FinishExactly(events);
  }
}
