/**
 The turn loop (runner/runner.go, `RunTurn`): one provider request per step, tools in between, everything persisted
 at the end. What the environment answers is scripted per step; what the runner does is recorded as actions.
 */
module TurnRunner {
  import opened Sequences
  import opened Unified
  import opened StreamMessage
  import opened ToolBatch
  import opened Transcript
  import opened TurnSteps

  // ---------------------------------------------------------------- settling a prepared request

  method RollBack(log: seq<Action>, ghost events: bool) returns (out: seq<Action>)
    requires Settlements(log) == 0 && LogFirst(log, events) && PersistsOnce(log)
    ensures InOrder(out, events) && (NoPersist(log) ==> NoPersist(out))
    ensures out == if Prepared in log then log + [RolledBack] else log
    ensures Written(out) == Written(log) && (Prepared in out <==> Prepared in log)
  {
    out := log;
    if Prepared in log {
      Snoc(log, RolledBack, events);
      out := log + [RolledBack];
    }
  }

  /** `commitPreparedRequest`. */
  method CommitPrepared(before: seq<Action>, env: StepEnv, events: bool, threadBacked: bool)
    returns (log: seq<Action>, ok: bool)
    requires Open(before, events)
    ensures InOrder(log, events) && NoPersist(log) && Written(log) == None && (Prepared in log <==> Prepared in before)
    ensures ok <==> SettlesWell(env, events, threadBacked, Prepared in before)
    ensures ok && Prepared in log ==> log[|log| - 1] == CommittedRequest(true)
  {
    log := before;
    if events {
      if !threadBacked {
        log := RollBack(log, events);
        return log, false;
      }
      Snoc(log, Appended(!env.appendFails), events);
      log := log + [Appended(!env.appendFails)];
      if env.appendFails {
        log := RollBack(log, events);
        return log, false;
      }
    }
    if Prepared !in log {
      return log, true;
    }
    Snoc(log, CommittedRequest(!env.commitFails), events);
    log := log + [CommittedRequest(!env.commitFails)];
    ok := !env.commitFails;
  }

  /** `commitFinalFragment`. */
  method CommitFinal(before: seq<Action>, env: StepEnv, events: bool, threadBacked: bool, messages: seq<Message>)
    returns (log: seq<Action>, ok: bool)
    requires Open(before, events)
    ensures InOrder(log, events) && (Prepared in log <==> Prepared in before)
    ensures ok <==> (events ==> threadBacked) && !env.persistFails && (Prepared in before ==> !env.commitFails)
    ensures Written(log) == if events && !threadBacked then None else Some(messages)
  {
    log := before;
    if events && !threadBacked {
      log := RollBack(log, events);
      return log, false;
    }
    var persisted := Persisted(messages, events, !env.persistFails);
    Snoc(log, persisted, events);
    log := log + [persisted];
    if env.persistFails {
      log := RollBack(log, events);
      return log, false;
    }
    if Prepared !in log {
      return log, true;
    }
    Snoc(log, CommittedRequest(!env.commitFails), events);
    log := log + [CommittedRequest(!env.commitFails)];
    ok := !env.commitFails;
  }

  // ---------------------------------------------------------------- one step

  /** The step's log is in order, and persisting ends the turn. */
  ghost predicate StepOk(log: seq<Action>, flow: Flow, events: bool) {
    InOrder(log, events) && (flow.Continue? ==> NoPersist(log))
  }

  /** The log of a step up to the provider's answer. */
  function Opening(env: StepEnv): seq<Action> {
    if env.prepare.Prepares? then [Prepared] else []
  }

  lemma OpeningIsOpen(env: StepEnv, events: bool)
    ensures Open(Opening(env), events) && Written(Opening(env)) == None &&
            (Prepared in Opening(env) <==> env.prepare.Prepares?)
  {
    assert [Prepared] == [] + [Prepared];
    Snoc([], Prepared, events);
  }

  lemma GrewPlain(canonical: string -> string, env: StepEnv, messages: seq<Message>)
    requires !HasCalls(env)
    ensures Grew(canonical, env, messages, messages + [MessageFrom(env.stream)])
  {
    assert (messages + [MessageFrom(env.stream)])[|messages|..] == [MessageFrom(env.stream)];
  }

  lemma GrewTools(canonical: string -> string, env: StepEnv, messages: seq<Message>, answers: Message)
    requires HasCalls(env) && ToolAnswer(canonical, env, MessageFrom(env.stream).toolCalls, answers)
    ensures Grew(canonical, env, messages, messages + [MessageFrom(env.stream)] + [answers])
  {
    var a := MessageFrom(env.stream);
    assert (messages + [a] + [answers])[|messages|..] == [a, answers];
  }

  /** A failed request is rolled back; a failed stream is also reported to the log. */
  method Abandon(env: StepEnv, diagnose: bool, ghost events: bool) returns (log: seq<Action>)
    ensures InOrder(log, events) && Written(log) == None && (Prepared in log <==> env.prepare.Prepares?)
  {
    OpeningIsOpen(env, events);
    log := RollBack(Opening(env), events);
    if diagnose {
      Snoc(log, Diagnosed, events);
      log := log + [Diagnosed];
    }
  }

  /** The step after an answer without tool calls. */
  method Conclude(ghost canonical: string -> string, env: StepEnv, ghost transcript: seq<Message>,
                  messages: seq<Message>, assistant: Message, threadBacked: bool)
    returns (log: seq<Action>, flow: Flow)
    requires GetsAnswer(env) && !HasCalls(env) && assistant == MessageFrom(env.stream)
    requires messages == StepMessages(env, transcript)
    ensures StepOk(log, flow, HasEvents(env, threadBacked)) && (Prepared in log <==> env.prepare.Prepares?)
    ensures StepLeads(canonical, env, transcript, threadBacked, flow, Written(log))
  {
    var events := HasEvents(env, threadBacked);
    var ok: bool;
    OpeningIsOpen(env, events);
    GrewPlain(canonical, env, messages);
    if assistant.phase == Commentary {
      log, ok := CommitPrepared(Opening(env), env, events, threadBacked);
      return log, if ok then Continue(messages + [assistant]) else Failed;
    }
    log, ok := CommitFinal(Opening(env), env, events, threadBacked, messages + [assistant]);
    flow := if ok then Flow.Completed else Failed;
  }

  /** Runs the calls and adds their results to the transcript. */
  method AnswerCalls(canonical: string -> string, env: StepEnv, messages: seq<Message>, assistant: Message)
    returns (transcript: seq<Message>, ran: seq<nat>)
    requires HasCalls(env) && assistant == MessageFrom(env.stream)
    ensures Grew(canonical, env, messages, transcript)
    ensures ran == After(canonical, assistant.toolCalls, seq(|assistant.toolCalls|, env.outcome),
                         |assistant.toolCalls|).ran
  {
    var calls := assistant.toolCalls;
    var results;
    results, ran := RunTools(canonical, calls, seq(|calls|, env.outcome));
    var answers := Message(Tool, "", "", "", [], [], results, NoMeta);
    GrewTools(canonical, env, messages, answers);
    transcript := messages + [assistant] + [answers];
  }

  /** The step after an answer with tool calls. */
  method UseTools(canonical: string -> string, env: StepEnv, ghost transcript: seq<Message>, messages: seq<Message>,
                  assistant: Message, threadBacked: bool)
    returns (log: seq<Action>, flow: Flow)
    requires GetsAnswer(env) && HasCalls(env) && assistant == MessageFrom(env.stream)
    requires messages == StepMessages(env, transcript)
    ensures StepOk(log, flow, HasEvents(env, threadBacked)) && (Prepared in log <==> env.prepare.Prepares?)
    ensures StepLeads(canonical, env, transcript, threadBacked, flow, Written(log))
    ensures !flow.Failed? ==>
            Ran(After(canonical, assistant.toolCalls, seq(|assistant.toolCalls|, env.outcome),
                      |assistant.toolCalls|).ran) in log
  {
    var events := HasEvents(env, threadBacked);
    var ok: bool;
    OpeningIsOpen(env, events);
    log, ok := CommitPrepared(Opening(env), env, events, threadBacked);
    if !ok {
      return log, Failed;
    }
    var grown, ran := AnswerCalls(canonical, env, messages, assistant);
    log := CloseStep(log, env, grown, ran, events);
    flow := if env.cancelled then Failed else Continue(grown);
  }

  /** Records the tools, and persists the transcript if the turn was cancelled meanwhile. */
  method CloseStep(before: seq<Action>, env: StepEnv, transcript: seq<Message>, ran: seq<nat>, ghost events: bool)
    returns (log: seq<Action>)
    requires InOrder(before, events) && NoPersist(before) && Written(before) == None
    ensures InOrder(log, events) && (Prepared in log <==> Prepared in before) && Ran(ran) in log
    ensures Written(log) == (if env.cancelled then Some(transcript) else None) && (!env.cancelled ==> NoPersist(log))
  {
    log := before + [Ran(ran)];
    RanIsQuiet(before, ran, events);
    if env.cancelled {
      PersistEnds(log, transcript, !env.persistFails, events);
      log := log + [Persisted(transcript, false, !env.persistFails)];
    }
  }

  lemma RanIsQuiet(before: seq<Action>, ran: seq<nat>, events: bool)
    requires InOrder(before, events) && NoPersist(before) && Written(before) == None
    ensures var log := before + [Ran(ran)];
            && InOrder(log, events) && NoPersist(log) && Written(log) == None
            && (Prepared in log <==> Prepared in before) && Ran(ran) in log
  {
    Snoc(before, Ran(ran), events);
  }

  lemma PersistEnds(before: seq<Action>, transcript: seq<Message>, ok: bool, events: bool)
    requires InOrder(before, events) && NoPersist(before)
    ensures var log := before + [Persisted(transcript, false, ok)];
            && InOrder(log, events) && Written(log) == Some(transcript) && (Prepared in log <==> Prepared in before)
            && forall a | a in before :: a in log
  {
    Snoc(before, Persisted(transcript, false, ok), events);
  }

  method RunStep(canonical: string -> string, env: StepEnv, transcript: seq<Message>, threadBacked: bool)
    returns (log: seq<Action>, flow: Flow)
    ensures StepOk(log, flow, HasEvents(env, threadBacked))
    ensures Prepared in log <==> env.prepare.Prepares? && !env.continuationFails
    ensures StepLeads(canonical, env, transcript, threadBacked, flow, Written(log))
  {
    ghost var events := HasEvents(env, threadBacked);
    var messages := transcript;
    if !env.prepare.NoPreparer? {
      if env.prepare.PrepareFails? || env.continuationFails {
        return [], Failed;
      }
      messages := env.prepare.rewrite(transcript);
    }
    if env.buildFails || env.requestFails {
      log := Abandon(env, false, events);
      return log, Failed;
    }
    var reply := ConsumeEvents(env.stream, env.cancelledAt);
    if reply.Err? {
      log := Abandon(env, threadBacked, events);
      return log, Failed;
    }
    var assistant := reply.value.message;
    if |assistant.toolCalls| == 0 {
      log, flow := Conclude(canonical, env, transcript, messages, assistant, threadBacked);
    } else {
      log, flow := UseTools(canonical, env, transcript, messages, assistant, threadBacked);
    }
  }

  // ---------------------------------------------------------------- the whole turn

  method RunSteps(canonical: string -> string, maxSteps: nat, envs: nat -> StepEnv, request: seq<Message>,
                  threadBacked: bool)
    returns (logs: seq<seq<Action>>, flow: Flow, ghost starts: seq<seq<Message>>)
    ensures |logs| <= maxSteps && LogsOk(logs, envs, threadBacked)
    ensures Story(canonical, envs, request, threadBacked, starts, logs, flow)
    ensures flow.Continue? ==> |logs| == maxSteps && (logs != [] ==> NoPersist(logs[|logs| - 1]))
    ensures flow.Continue? && logs != [] ==> flow.transcript != []
  {
    logs, flow, starts := [], Continue(request), [];
    for step := 0 to maxSteps
      invariant |logs| == step && LogsOk(logs, envs, threadBacked) && (logs != [] ==> NoPersist(logs[step - 1]))
      invariant flow.Continue? && Story(canonical, envs, request, threadBacked, starts, logs, flow)
      invariant logs != [] ==> flow.transcript != []
    {
      var log, next := RunStep(canonical, envs(step), flow.transcript, threadBacked);
      LogsSnoc(logs, log, envs, threadBacked);
      StorySnoc(canonical, envs, request, threadBacked, starts, logs, flow.transcript, log, next, step);
      starts := starts + [flow.transcript];
      logs, flow := logs + [log], next;
      if !next.Continue? {
        return;
      }
    }
  }

  /**
   `RunTurn`. Every step settles its prepared request exactly once and logs ahead of committing it; at most one
   transcript is persisted in the whole turn, by the last step or by the recovery after it. `starts` and `end` tell
   the turn's story.
   */
  method RunTurn(canonical: string -> string, maxSteps: nat, envs: nat -> StepEnv, request: seq<Message>,
                 threadBacked: bool, recoveryFails: bool)
    returns (logs: seq<seq<Action>>, recovery: Option<Action>, flow: Flow, ghost starts: seq<seq<Message>>,
             ghost end: Flow)
    ensures |logs| <= maxSteps && LogsOk(logs, envs, threadBacked)
    ensures Story(canonical, envs, request, threadBacked, starts, logs, end)
    ensures end.Continue? ==> |logs| == maxSteps && (logs != [] ==> NoPersist(logs[|logs| - 1]))
    ensures flow == if end.Continue? then Failed else end
    ensures recovery == if end.Continue? && logs != [] then Some(Persisted(end.transcript, false, !recoveryFails))
                        else None
    ensures Closed(request) && (forall s: nat :: Faithful(envs(s))) ==>
              && (recovery.Some? ==> Closed(recovery.value.messages))
              && (logs != [] && Written(logs[|logs| - 1]).Some? ==> Closed(Written(logs[|logs| - 1]).value))
  {
    logs, flow, starts := RunSteps(canonical, maxSteps, envs, request, threadBacked);
    recovery, end := None, flow;
    if Closed(request) && forall s: nat :: Faithful(envs(s)) {
      StaysClosed(canonical, envs, request, threadBacked, starts, logs, end);
    }
    if flow.Continue? {
      if |logs| > 0 && |flow.transcript| > 0 {
        recovery := Some(Persisted(flow.transcript, false, !recoveryFails));
      }
      flow := Failed;
    }
  }
}
