/**
 A turn told as a story of steps (runner/runner.go, `RunTurn`): what the environment answers in a step, what a step
 records, where it leads, and what every turn made of such steps keeps.
 */
module TurnSteps {
  import opened Sequences
  import opened Unified
  import opened StreamMessage
  import opened ToolBatch
  import opened Transcript

  /** The request preparer: it may rewrite the messages and ask for events to be logged before it is committed. */
  datatype Prepare = NoPreparer | PrepareFails | Prepares(rewrite: seq<Message> -> seq<Message>, events: bool)

  datatype StepEnv = StepEnv(
    continuationFails: bool,
    prepare: Prepare,
    buildFails: bool,
    requestFails: bool,
    stream: seq<StreamEvent>,
    cancelledAt: Option<nat>,
    metadata: bool,
    appendFails: bool,
    commitFails: bool,
    persistFails: bool,
    outcome: nat -> Outcome,
    cancelled: bool
  )

  datatype Action =
    | Prepared
    | RolledBack
    | Appended(ok: bool)
    | CommittedRequest(ok: bool)
    | Diagnosed
    | Ran(positions: seq<nat>)
    | Persisted(messages: seq<Message>, withEvents: bool, ok: bool)

  datatype Flow = Continue(transcript: seq<Message>) | Completed | Failed

  const Commentary := "commentary"

  // ---------------------------------------------------------------- what a log must satisfy

  predicate Settles(a: Action) {
    a.RolledBack? || a.CommittedRequest?
  }

  function Settlements(log: seq<Action>): nat {
    if log == [] then 0 else Settlements(log[..|log| - 1]) + if Settles(log[|log| - 1]) then 1 else 0
  }

  /** A prepared request is committed or rolled back exactly once; without one nothing is. */
  predicate SettledOnce(log: seq<Action>) {
    Settlements(log) == if Prepared in log then 1 else 0
  }

  predicate Logs(a: Action) {
    (a.Appended? && a.ok) || (a.Persisted? && a.withEvents && a.ok)
  }

  /** With events to log, a prepared request is committed only right after they were. */
  predicate LogFirst(log: seq<Action>, events: bool) {
    log == [] ||
    (var init, last := log[..|log| - 1], log[|log| - 1];
     LogFirst(init, events) && (events && last.CommittedRequest? ==> init != [] && Logs(init[|init| - 1])))
  }

  predicate NoPersist(log: seq<Action>) {
    log == [] || (NoPersist(log[..|log| - 1]) && !log[|log| - 1].Persisted?)
  }

  /** At most one transcript is persisted. */
  predicate PersistsOnce(log: seq<Action>) {
    log == [] ||
    (var init, last := log[..|log| - 1], log[|log| - 1];
     PersistsOnce(init) && (last.Persisted? ==> NoPersist(init)))
  }

  /** The transcript a log persists, successfully or not. */
  function Written(log: seq<Action>): Option<seq<Message>> {
    if log == [] then None
    else if log[|log| - 1].Persisted? then Some(log[|log| - 1].messages)
    else Written(log[..|log| - 1])
  }

  // ---------------------------------------------------------------- one more action

  lemma Snoc(log: seq<Action>, a: Action, events: bool)
    ensures Settlements(log + [a]) == Settlements(log) + if Settles(a) then 1 else 0
    ensures Prepared in log + [a] <==> Prepared in log || a == Prepared
    ensures LogFirst(log + [a], events) <==>
            LogFirst(log, events) && (events && a.CommittedRequest? ==> log != [] && Logs(log[|log| - 1]))
    ensures NoPersist(log + [a]) <==> NoPersist(log) && !a.Persisted?
    ensures PersistsOnce(log + [a]) <==> PersistsOnce(log) && (a.Persisted? ==> NoPersist(log))
    ensures Written(log + [a]) == if a.Persisted? then Some(a.messages) else Written(log)
  {
    assert (log + [a])[..|log|] == log;
  }

  // ---------------------------------------------------------------- settling a prepared request

  /** Everything so far is in order, and the prepared request, if any, is still open. */
  ghost predicate Open(log: seq<Action>, events: bool) {
    Settlements(log) == 0 && LogFirst(log, events) && NoPersist(log) && PersistsOnce(log) && Written(log) == None
  }

  ghost predicate InOrder(log: seq<Action>, events: bool) {
    SettledOnce(log) && LogFirst(log, events) && PersistsOnce(log)
  }

  /** Whether the events, if any, can be logged and the prepared request, if any, commits. */
  predicate SettlesWell(env: StepEnv, events: bool, threadBacked: bool, prepared: bool) {
    (events ==> threadBacked && !env.appendFails) && (prepared ==> !env.commitFails)
  }

  // ---------------------------------------------------------------- what one step promises

  /** Whether anything is logged ahead of this step's commit. */
  predicate HasEvents(env: StepEnv, threadBacked: bool) {
    (env.prepare.Prepares? && env.prepare.events) || (threadBacked && env.metadata)
  }

  predicate PreparesOk(env: StepEnv) {
    !env.prepare.PrepareFails? && (env.prepare.Prepares? ==> !env.continuationFails)
  }

  /** The provider answers: nothing fails before the request, and the stream runs to its end. */
  predicate GetsAnswer(env: StepEnv) {
    && PreparesOk(env) && !env.buildFails && !env.requestFails
    && Unbroken(env.stream) && FinishIn(env.stream).Some?
    && (env.cancelledAt.Some? ==> env.cancelledAt.value > |env.stream|)
  }

  predicate HasCalls(env: StepEnv) {
    MessageFrom(env.stream).toolCalls != []
  }

  predicate IsCommentary(env: StepEnv) {
    MessageFrom(env.stream).phase == Commentary
  }

  /** The turn goes on after an answer with calls, unless it was cancelled meanwhile, and after a commentary. */
  predicate Continues(env: StepEnv, threadBacked: bool) {
    && GetsAnswer(env) && SettlesWell(env, HasEvents(env, threadBacked), threadBacked, env.prepare.Prepares?)
    && (if HasCalls(env) then !env.cancelled else IsCommentary(env))
  }

  /** It is over after any other answer, once that is persisted and the prepared request committed. */
  predicate Completes(env: StepEnv, threadBacked: bool) {
    && GetsAnswer(env) && !HasCalls(env) && !IsCommentary(env) && !env.persistFails
    && (HasEvents(env, threadBacked) ==> threadBacked) && (env.prepare.Prepares? ==> !env.commitFails)
  }

  /** Something is handed to the history: a final answer, or the calls and results of a cancelled turn. */
  predicate Persists(env: StepEnv, threadBacked: bool) {
    && GetsAnswer(env)
    && (if HasCalls(env)
        then SettlesWell(env, HasEvents(env, threadBacked), threadBacked, env.prepare.Prepares?) && env.cancelled
        else !IsCommentary(env) && (HasEvents(env, threadBacked) ==> threadBacked))
  }

  /** The messages a step works on: the transcript, as its preparer rewrites it. */
  function StepMessages(env: StepEnv, transcript: seq<Message>): seq<Message> {
    if env.prepare.Prepares? then env.prepare.rewrite(transcript) else transcript
  }

  /** A tool message with one result per call, as the batch of calls settles them. */
  ghost predicate ToolAnswer(canonical: string -> string, env: StepEnv, calls: seq<ToolCall>, m: Message) {
    && m.role == Tool && m.content == [] && m.toolCalls == []
    && m.toolResults == After(canonical, calls, seq(|calls|, env.outcome), |calls|).results
  }

  /** What a step adds: its streamed answer and, if that has calls, one tool message. */
  ghost predicate StepAdds(canonical: string -> string, env: StepEnv, added: seq<Message>) {
    var answer := MessageFrom(env.stream);
    && added != [] && added[0] == answer
    && (if answer.toolCalls == [] then |added| == 1
        else |added| == 2 && ToolAnswer(canonical, env, answer.toolCalls, added[1]))
  }

  ghost predicate Grew(canonical: string -> string, env: StepEnv, messages: seq<Message>, out: seq<Message>) {
    messages <= out && StepAdds(canonical, env, out[|messages|..])
  }

  /** Where a step leads from a transcript, and what it hands to the history. */
  ghost predicate StepLeads(canonical: string -> string, env: StepEnv, transcript: seq<Message>, threadBacked: bool,
                            flow: Flow, written: Option<seq<Message>>)
  {
    && (flow.Continue? <==> Continues(env, threadBacked))
    && (flow.Completed? <==> Completes(env, threadBacked))
    && (written.Some? <==> Persists(env, threadBacked))
    && (flow.Continue? ==> Grew(canonical, env, StepMessages(env, transcript), flow.transcript))
    && (written.Some? ==> Grew(canonical, env, StepMessages(env, transcript), written.value))
  }

  // ---------------------------------------------------------------- the whole turn

  ghost predicate LogOk(log: seq<Action>, env: StepEnv, threadBacked: bool) {
    InOrder(log, HasEvents(env, threadBacked))
  }

  /** All logs are in order, and only the last may persist something. */
  ghost predicate LogsOk(logs: seq<seq<Action>>, envs: nat -> StepEnv, threadBacked: bool) {
    logs == [] ||
    (var init, last := logs[..|logs| - 1], logs[|logs| - 1];
     LogsOk(init, envs, threadBacked) && LogOk(last, envs(|init|), threadBacked) &&
       (init != [] ==> NoPersist(init[|init| - 1])))
  }

  lemma LogsSnoc(logs: seq<seq<Action>>, log: seq<Action>, envs: nat -> StepEnv, threadBacked: bool)
    requires LogsOk(logs, envs, threadBacked) && LogOk(log, envs(|logs|), threadBacked)
    requires logs != [] ==> NoPersist(logs[|logs| - 1])
    ensures LogsOk(logs + [log], envs, threadBacked)
  {
    assert (logs + [log])[..|logs|] == logs;
  }

  /**
   The story of a turn: `starts[s]` is the transcript step `s` began with. It begins with the request; the last step led
   from its start to `end`, and the steps before it led to that start.
   */
  ghost predicate Story(canonical: string -> string, envs: nat -> StepEnv, request: seq<Message>, threadBacked: bool,
                        starts: seq<seq<Message>>, logs: seq<seq<Action>>, end: Flow)
    decreases |logs|
  {
    |starts| == |logs| &&
    if logs == [] then end == Continue(request)
    else
      var n := |logs| - 1;
      && Story(canonical, envs, request, threadBacked, starts[..n], logs[..n], Continue(starts[n]))
      && StepLeads(canonical, envs(n), starts[n], threadBacked, end, Written(logs[n]))
  }

  lemma StoryNext(canonical: string -> string, envs: nat -> StepEnv, request: seq<Message>, threadBacked: bool,
                  starts: seq<seq<Message>>, logs: seq<seq<Action>>, end: Flow, n: nat)
    requires |starts| == n + 1 && |logs| == n + 1
    requires Story(canonical, envs, request, threadBacked, starts[..n], logs[..n], Continue(starts[n]))
    requires StepLeads(canonical, envs(n), starts[n], threadBacked, end, Written(logs[n]))
    ensures Story(canonical, envs, request, threadBacked, starts, logs, end)
  {}

  lemma StorySnoc(canonical: string -> string, envs: nat -> StepEnv, request: seq<Message>, threadBacked: bool,
                  starts: seq<seq<Message>>, logs: seq<seq<Action>>, transcript: seq<Message>, log: seq<Action>,
                  end: Flow, n: nat)
    requires n == |logs| && Story(canonical, envs, request, threadBacked, starts, logs, Continue(transcript))
    requires StepLeads(canonical, envs(n), transcript, threadBacked, end, Written(log))
    ensures Story(canonical, envs, request, threadBacked, starts + [transcript], logs + [log], end)
  {
    var starts', logs' := starts + [transcript], logs + [log];
    assert starts'[..n] == starts && starts'[n] == transcript;
    assert logs'[..n] == logs && logs'[n] == log;
    StoryNext(canonical, envs, request, threadBacked, starts', logs', end, n);
  }

  // ---------------------------------------------------------------- what every turn keeps

  lemma StoryLast(canonical: string -> string, envs: nat -> StepEnv, request: seq<Message>, threadBacked: bool,
                  starts: seq<seq<Message>>, logs: seq<seq<Action>>, end: Flow, n: nat)
    requires |logs| == n + 1 && Story(canonical, envs, request, threadBacked, starts, logs, end)
    ensures |starts| == n + 1
    ensures Story(canonical, envs, request, threadBacked, starts[..n], logs[..n], Continue(starts[n]))
    ensures StepLeads(canonical, envs(n), starts[n], threadBacked, end, Written(logs[n]))
  {}

  /** Each of the first `n` steps goes on. */
  predicate GoOn(envs: nat -> StepEnv, threadBacked: bool, n: nat) {
    n == 0 || (GoOn(envs, threadBacked, n - 1) && Continues(envs(n - 1), threadBacked))
  }

  lemma {:induction false} WentOn(canonical: string -> string, envs: nat -> StepEnv, request: seq<Message>,
                                  threadBacked: bool, starts: seq<seq<Message>>, logs: seq<seq<Action>>, end: Flow,
                                  n: nat)
    requires |logs| == n && end.Continue? && Story(canonical, envs, request, threadBacked, starts, logs, end)
    ensures GoOn(envs, threadBacked, n)
    decreases n
  {
    if n != 0 {
      var m: nat := n - 1;
      StoryLast(canonical, envs, request, threadBacked, starts, logs, end, m);
      WentOn(canonical, envs, request, threadBacked, starts[..m], logs[..m], Continue(starts[m]), m);
      assert Continues(envs(m), threadBacked);
    }
  }

  /** A turn goes on exactly while its steps say so; the last step decides how it ends and what it persists. */
  lemma StopsExactlyWhen(canonical: string -> string, envs: nat -> StepEnv, request: seq<Message>, threadBacked: bool,
                         starts: seq<seq<Message>>, logs: seq<seq<Action>>, end: Flow, n: nat)
    requires |logs| == n + 1 && Story(canonical, envs, request, threadBacked, starts, logs, end)
    ensures GoOn(envs, threadBacked, n)
    ensures end.Continue? <==> Continues(envs(n), threadBacked)
    ensures end.Completed? <==> Completes(envs(n), threadBacked)
    ensures Written(logs[n]).Some? <==> Persists(envs(n), threadBacked)
  {
    StoryLast(canonical, envs, request, threadBacked, starts, logs, end, n);
    WentOn(canonical, envs, request, threadBacked, starts[..n], logs[..n], Continue(starts[n]), n);
  }

  /** Step `s` added row `s`. */
  ghost predicate RowsAdded(canonical: string -> string, envs: nat -> StepEnv, rows: seq<seq<Message>>) {
    forall s: nat | s < |rows| :: StepAdds(canonical, envs(s), rows[s])
  }

  /** A request rewritten by each step's preparer and extended by what the step added. */
  function Extended(envs: nat -> StepEnv, request: seq<Message>, rows: seq<seq<Message>>): seq<Message>
    decreases |rows|
  {
    if rows == [] then request
    else
      var n := |rows| - 1;
      StepMessages(envs(n), Extended(envs, request, rows[..n])) + rows[n]
  }

  lemma ExtendedSnoc(envs: nat -> StepEnv, request: seq<Message>, rows: seq<seq<Message>>, row: seq<Message>)
    ensures Extended(envs, request, rows + [row]) ==
            StepMessages(envs(|rows|), Extended(envs, request, rows)) + row
  {
    SnocInit(rows, row);
  }

  lemma RowsSnoc(canonical: string -> string, envs: nat -> StepEnv, rows: seq<seq<Message>>, row: seq<Message>, n: nat)
    requires n == |rows| && RowsAdded(canonical, envs, rows) && StepAdds(canonical, envs(n), row)
    ensures RowsAdded(canonical, envs, rows + [row])
  {
    forall s: nat | s < n + 1 ensures StepAdds(canonical, envs(s), (rows + [row])[s]) {
      assert s < n ==> StepAdds(canonical, envs(s), rows[s]);
    }
  }

  lemma GrewBy(canonical: string -> string, envs: nat -> StepEnv, request: seq<Message>, rows: seq<seq<Message>>,
               out: seq<Message>, n: nat)
    returns (more: seq<seq<Message>>)
    requires n == |rows| && RowsAdded(canonical, envs, rows)
    requires Grew(canonical, envs(n), StepMessages(envs(n), Extended(envs, request, rows)), out)
    ensures |more| == n + 1 && RowsAdded(canonical, envs, more) && out == Extended(envs, request, more)
  {
    var messages := StepMessages(envs(n), Extended(envs, request, rows));
    var row := out[|messages|..];
    more := rows + [row];
    RowsSnoc(canonical, envs, rows, row, n);
    ExtendedSnoc(envs, request, rows, row);
    assert out == messages + row;
  }

  /** A transcript the turn goes on with is the request, rewritten and extended step by step. */
  lemma {:induction false} GoesOnWith(canonical: string -> string, envs: nat -> StepEnv, request: seq<Message>,
                                      threadBacked: bool, starts: seq<seq<Message>>, logs: seq<seq<Action>>,
                                      transcript: seq<Message>)
    returns (rows: seq<seq<Message>>)
    requires Story(canonical, envs, request, threadBacked, starts, logs, Continue(transcript))
    ensures |rows| == |logs| && RowsAdded(canonical, envs, rows) && transcript == Extended(envs, request, rows)
    decreases |logs|
  {
    if logs == [] {
      rows := [];
    } else {
      var n := |logs| - 1;
      StoryLast(canonical, envs, request, threadBacked, starts, logs, Continue(transcript), n);
      rows := GoesOnWith(canonical, envs, request, threadBacked, starts[..n], logs[..n], starts[n]);
      rows := GrewBy(canonical, envs, request, rows, transcript, n);
    }
  }

  /** So is the transcript its last step persists. */
  lemma PersistsWith(canonical: string -> string, envs: nat -> StepEnv, request: seq<Message>, threadBacked: bool,
                     starts: seq<seq<Message>>, logs: seq<seq<Action>>, end: Flow)
    returns (rows: seq<seq<Message>>)
    requires Story(canonical, envs, request, threadBacked, starts, logs, end)
    requires logs != [] && Written(logs[|logs| - 1]).Some?
    ensures |rows| == |logs| && RowsAdded(canonical, envs, rows)
    ensures Written(logs[|logs| - 1]).value == Extended(envs, request, rows)
  {
    var n := |logs| - 1;
    StoryLast(canonical, envs, request, threadBacked, starts, logs, end, n);
    rows := GoesOnWith(canonical, envs, request, threadBacked, starts[..n], logs[..n], starts[n]);
    rows := GrewBy(canonical, envs, request, rows, Written(logs[n]).value, n);
  }

  ghost predicate LeavesAlone(env: StepEnv) {
    forall ms :: StepMessages(env, ms) == ms
  }

  /** With preparers that leave the messages alone, the request comes first and the rows follow one after another. */
  lemma {:induction false} RequestComesFirst(envs: nat -> StepEnv, request: seq<Message>, rows: seq<seq<Message>>)
    requires forall s: nat :: LeavesAlone(envs(s))
    ensures Extended(envs, request, rows) == request + Flat(rows)
    decreases |rows|
  {
    if rows != [] {
      var n := |rows| - 1;
      RequestComesFirst(envs, request, rows[..n]);
      Assoc(request, Flat(rows[..n]), rows[n]);
    }
  }

  // ---------------------------------------------------------------- closed transcripts stay closed

  ghost predicate Keeps(rewrite: seq<Message> -> seq<Message>) {
    forall ms :: Closed(ms) ==> Closed(rewrite(ms))
  }

  /** The rewriting the thread runtime does, adding a context diff, is of this kind. */
  lemma InjectKeeps(diff: Option<string>)
    ensures Keeps(ms => Inject(ms, diff))
  {
    forall ms | Closed(ms) ensures Closed(Inject(ms, diff)) { InjectKeepsClosed(ms, diff); }
  }

  ghost predicate Faithful(env: StepEnv) {
    env.prepare.Prepares? ==> Keeps(env.prepare.rewrite)
  }

  lemma ToolAnswerAnswers(canonical: string -> string, env: StepEnv, calls: seq<ToolCall>, m: Message)
    requires ToolAnswer(canonical, env, calls, m)
    ensures Answers(m, calls)
  {
    var outcomes := seq(|calls|, env.outcome);
    Lengths(canonical, calls, outcomes, |calls|);
    forall k | 0 <= k < |calls| ensures m.toolResults[k].callId == calls[k].id {
      ResultNamed(canonical, calls, outcomes, k);
    }
  }

  lemma AddedOne(messages: seq<Message>, out: seq<Message>)
    requires messages <= out && |out[|messages|..]| == 1
    ensures out == messages + [out[|messages|..][0]]
  {}

  lemma AddedTwo(messages: seq<Message>, out: seq<Message>)
    requires messages <= out && |out[|messages|..]| == 2
    ensures out == messages + [out[|messages|..][0]] + [out[|messages|..][1]]
  {}

  lemma GrewClosed(canonical: string -> string, env: StepEnv, messages: seq<Message>, out: seq<Message>)
    requires Closed(messages) && Grew(canonical, env, messages, out)
    ensures Closed(out)
  {
    var answer, added := MessageFrom(env.stream), out[|messages|..];
    if answer.toolCalls == [] {
      AddedOne(messages, out);
      ClosedPlain(messages, answer);
    } else {
      ToolAnswerAnswers(canonical, env, answer.toolCalls, added[1]);
      AddedTwo(messages, out);
      ClosedTurn(messages, answer, added[1]);
    }
  }

  /** From a closed request, with preparers that keep requests closed, whatever goes on or is persisted is closed. */
  lemma {:induction false} StaysClosed(canonical: string -> string, envs: nat -> StepEnv, request: seq<Message>,
                                       threadBacked: bool, starts: seq<seq<Message>>, logs: seq<seq<Action>>,
                                       end: Flow)
    requires Closed(request) && forall s: nat :: Faithful(envs(s))
    requires Story(canonical, envs, request, threadBacked, starts, logs, end)
    ensures end.Continue? ==> Closed(end.transcript)
    ensures logs != [] && Written(logs[|logs| - 1]).Some? ==> Closed(Written(logs[|logs| - 1]).value)
    decreases |logs|
  {
    if logs != [] {
      var n := |logs| - 1;
      StoryLast(canonical, envs, request, threadBacked, starts, logs, end, n);
      StaysClosed(canonical, envs, request, threadBacked, starts[..n], logs[..n], Continue(starts[n]));
      var messages := StepMessages(envs(n), starts[n]);
      assert Faithful(envs(n)) && Closed(messages);
      if end.Continue? {
        GrewClosed(canonical, envs(n), messages, end.transcript);
      }
      if Written(logs[n]).Some? {
        GrewClosed(canonical, envs(n), messages, Written(logs[n]).value);
      }
    }
  }
}
