/**
 The record of one turn, filled in by the runner and turned into payloads once it is complete
 (conversation/turn_fragment.go).
 */
module TurnFragments {
  import opened Sequences
  import opened Unified
  import opened Items
  import opened Projection

  function MessageEvents(messages: seq<Message>): seq<Payload> {
    Map((m: Message) => MessageEvent(m), messages)
  }

  class TurnFragment {
    var requestMessages: seq<Message>
    var assistant: Message
    var finishReason: string
    var usage: Usage
    var continuations: seq<Continuation>
    var completed: bool
    var failed: bool

    constructor ()
      ensures requestMessages == [] && !HasTurn() && !completed && !failed
    {
      requestMessages, assistant, finishReason, usage, continuations := [], ZeroMessage, "", ZeroUsage, [];
      completed, failed := false, false;
    }

    /** Whether there is anything of an assistant turn to keep. */
    predicate HasTurn()
      reads this
    {
      assistant != ZeroMessage || continuations != [] || finishReason != "" || usage != ZeroUsage
    }

    /** What a turn is kept as: its messages in order, then the assistant turn if there is one. */
    ghost function Contents(): seq<Payload>
      reads this
    {
      MessageEvents(requestMessages) + if HasTurn()
                                       then [AssistantTurnEvent(assistant, finishReason, usage, continuations)] else []
    }

    /** Only a complete, unfailed and non-empty turn is kept. */
    ghost predicate Ready()
      reads this
    {
      !failed && completed && Contents() != []
    }

    method AddRequestMessages(messages: seq<Message>)
      modifies this`requestMessages
      ensures requestMessages == old(requestMessages) + messages
    {
      requestMessages := requestMessages + messages;
    }

    method SetAssistantMessage(message: Message)
      modifies this`assistant
      ensures assistant == message
    {
      assistant := message;
    }

    method SetUsage(value: Usage)
      modifies this`usage
      ensures usage == value
    {
      usage := value;
    }

    /** A continuation without a response id is not kept. */
    method AddContinuation(continuation: Continuation)
      modifies this`continuations
      ensures continuations == if continuation.responseId == "" then old(continuations)
                               else old(continuations) + [continuation]
    {
      if continuation.responseId != "" {
        continuations := continuations + [continuation];
      }
    }

    method Complete(reason: string)
      modifies this`finishReason, this`completed
      ensures finishReason == reason && completed
    {
      finishReason, completed := reason, true;
    }

    method Fail()
      modifies this`failed
      ensures failed
    {
      failed := true;
    }

    /** No summary is ever among the payloads of a turn. */
    method Payloads() returns (r: Result<seq<Payload>>)
      ensures r.Ok? <==> Ready()
      ensures r.Ok? ==> r.value == Contents() && forall p | p in r.value :: !p.CompactionEvent?
      ensures r.Ok? ==> |r.value| == |requestMessages| + (if HasTurn() then 1 else 0)
      ensures r.Ok? ==> forall k | 0 <= k < |requestMessages| :: r.value[k] == MessageEvent(requestMessages[k])
      ensures r.Ok? && HasTurn() ==>
                r.value[|requestMessages|] == AssistantTurnEvent(assistant, finishReason, usage, continuations)
    {
      if failed || !completed {
        return Err;
      }
      var payloads: seq<Payload> := [];
      for i := 0 to |requestMessages|
        invariant payloads == MessageEvents(requestMessages[..i])
      {
        PrefixStep(requestMessages, i);
        payloads := payloads + [MessageEvent(requestMessages[i])];
      }
      assert requestMessages[..|requestMessages|] == requestMessages;
      if HasTurn() {
        payloads := payloads + [AssistantTurnEvent(assistant, finishReason, usage, continuations)];
      }
      if |payloads| == 0 {
        return Err;
      }
      return Ok(payloads);
    }
  }
}
