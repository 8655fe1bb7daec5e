/** The messages a turn accumulates and persists: closed transcripts, and why a closed one needs no repair. */
module Transcript {
  import opened Sequences
  import opened Unified
  import opened Items
  import opened Pairing

  /** `m` is the tool message that answers exactly these calls, in order. */
  predicate Answers(m: Message, calls: seq<ToolCall>) {
    m.role.Tool? && |m.toolResults| == |calls| && forall k | 0 <= k < |calls| :: m.toolResults[k].callId == calls[k].id
  }

  predicate Asks(m: Message) {
    m.role.Assistant? && m.toolCalls != []
  }

  /** A message with calls is followed at once by its answers. */
  predicate AnsweredAt(ms: seq<Message>, i: nat)
    requires i < |ms|
  {
    Asks(ms[i]) ==> i + 1 < |ms| && Answers(ms[i + 1], ms[i].toolCalls)
  }

  /** A tool message answers the one before it. */
  predicate AskedAt(ms: seq<Message>, i: nat)
    requires i < |ms|
  {
    ms[i].role.Tool? ==> i > 0 && Asks(ms[i - 1]) && Answers(ms[i], ms[i - 1].toolCalls)
  }

  /** Every call is answered by the next message, and nothing else is answered. */
  predicate Closed(ms: seq<Message>) {
    && (forall i: nat {:trigger AnsweredAt(ms, i)} | i < |ms| :: AnsweredAt(ms, i))
    && (forall i: nat {:trigger AskedAt(ms, i)} | i < |ms| :: AskedAt(ms, i))
  }

  lemma ClosedPlain(ms: seq<Message>, m: Message)
    requires Closed(ms) && !Asks(m) && !m.role.Tool?
    ensures Closed(ms + [m])
  {
    var all := ms + [m];
    forall i: nat | i < |all| ensures AnsweredAt(all, i) && AskedAt(all, i) {
      if i < |ms| { assert AnsweredAt(ms, i) && AskedAt(ms, i); }
    }
  }

  lemma ClosedTurn(ms: seq<Message>, asks: Message, answers: Message)
    requires Closed(ms) && Asks(asks) && Answers(answers, asks.toolCalls)
    ensures Closed(ms + [asks] + [answers])
  {
    var all := ms + [asks] + [answers];
    forall i: nat | i < |all| ensures AnsweredAt(all, i) && AskedAt(all, i) {
      if i < |ms| { assert AnsweredAt(ms, i) && AskedAt(ms, i); }
    }
  }

  // ---------------------------------------------------------------- context injected into a request

  /** `injectSystemContextDiff`: after a tool message a message of its own, otherwise the first part of the last one. */
  function Inject(ms: seq<Message>, diff: Option<string>): seq<Message> {
    if diff.None? || ms == [] then ms
    else
      var last := ms[|ms| - 1];
      if last.role.Tool? then ms + [Message(User, "", "context", "", [Text(diff.value, "")], [], [], NoMeta)]
      else ms[|ms| - 1 := last.(content := [Text(diff.value, "")] + last.content)]
  }

  /** Every message keeps all it had, and what it had of content comes last. */
  ghost predicate Retains(m: Message, m': Message) {
    && m' == m.(content := m'.content)
    && |m.content| <= |m'.content| && m'.content[|m'.content| - |m.content|..] == m.content
  }

  /**
   The diff is added once and nothing is lost: all messages but the last are as they were, the last one keeps its own
   content behind anything put in front of it, and the only new part is the diff, in what is now the last message.
   */
  lemma InjectAdds(ms: seq<Message>, diff: string)
    requires ms != []
    ensures var out := Inject(ms, Some(diff));
            && |ms| <= |out| <= |ms| + 1
            && (forall i | 0 <= i < |ms| - 1 :: out[i] == ms[i])
            && Retains(ms[|ms| - 1], out[|ms| - 1])
            && out[|out| - 1].content != [] && out[|out| - 1].content[0] == Text(diff, "")
            && (if |out| == |ms| then |out[|ms| - 1].content| == |ms[|ms| - 1].content| + 1
                else out[|ms| - 1] == ms[|ms| - 1] && ms[|ms| - 1].role.Tool? && out[|ms|].role == User &&
                     out[|ms|].content == [Text(diff, "")] && out[|ms|].toolCalls == [] && out[|ms|].toolResults == [])
            && (ms[|ms| - 1].role.Tool? <==> |out| == |ms| + 1)
  {
    var last := ms[|ms| - 1];
    assert ([Text(diff, "")] + last.content)[1..] == last.content;
  }

  lemma InjectKeepsClosed(ms: seq<Message>, diff: Option<string>)
    requires Closed(ms)
    ensures Closed(Inject(ms, diff))
  {
    if diff.Some? && ms != [] {
      if ms[|ms| - 1].role.Tool? {
        ClosedPlain(ms, Message(User, "", "context", "", [Text(diff.value, "")], [], [], NoMeta));
      } else {
        var out := Inject(ms, diff);
        forall i: nat | i < |out| ensures AnsweredAt(out, i) && AskedAt(out, i) {
          assert AnsweredAt(ms, i) && AskedAt(ms, i);
        }
      }
    }
  }

  // ---------------------------------------------------------------- closed transcripts are well paired

  function IdsOf(calls: seq<ToolCall>): seq<string> {
    Map((c: ToolCall) => c.id, calls)
  }

  /** The ids called, in order. */
  function CallList(ms: seq<Message>): seq<string> {
    if ms == [] then []
    else
      var m := ms[|ms| - 1];
      CallList(ms[..|ms| - 1]) + if m.role.Assistant? then IdsOf(m.toolCalls) else []
  }

  lemma CallListSnoc(ms: seq<Message>, m: Message)
    ensures CallList(ms + [m]) == CallList(ms) + if m.role.Assistant? then IdsOf(m.toolCalls) else []
    ensures Traffic(ms + [m]) == Traffic(ms) + MarksOf(m)
  {
    assert (ms + [m])[..|ms|] == ms;
  }

  lemma {:induction false} CallListIn(ms: seq<Message>, id: string)
    ensures id in CallList(ms) <==> Called(id) in Traffic(ms)
  {
    if ms != [] {
      var init, m := ms[..|ms| - 1], ms[|ms| - 1];
      CallListIn(init, id);
      if m.role.Assistant? {
        var ids, marks := IdsOf(m.toolCalls), MarksOf(m);
        assert forall k | 0 <= k < |ids| :: marks[k] == Called(ids[k]);
        assert id in ids <==> Called(id) in marks;
      }
    }
  }

  lemma NoDuplicatesConcat<T>(a: seq<T>, b: seq<T>)
    ensures NoDuplicates(a + b) <==> NoDuplicates(a) && NoDuplicates(b) && forall x | x in a :: x !in b
  {
    var s := a + b;
    if NoDuplicates(s) {
      forall i, j | 0 <= i < j < |a| ensures a[i] != a[j] { assert s[i] != s[j]; }
      forall i, j | 0 <= i < j < |b| ensures b[i] != b[j] { assert s[|a| + i] != s[|a| + j]; }
      forall i, j | 0 <= i < |a| && 0 <= j < |b| ensures a[i] != b[j] { assert s[i] != s[|a| + j]; }
    }
    if NoDuplicates(a) && NoDuplicates(b) && forall x | x in a :: x !in b {
      forall i, j | 0 <= i < j < |s| ensures s[i] != s[j] {
        if i < |a| <= j { assert a[i] in a && b[j - |a|] in b; }
      }
    }
  }

  /** Ids called twice show as repeated marks. */
  lemma {:induction false} CallsDistinct(ms: seq<Message>)
    requires NoDuplicates(Traffic(ms))
    ensures NoDuplicates(CallList(ms))
  {
    if ms != [] {
      var init, m := ms[..|ms| - 1], ms[|ms| - 1];
      NoDuplicatesConcat(Traffic(init), MarksOf(m));
      CallsDistinct(init);
      if m.role.Assistant? {
        var ids, marks := IdsOf(m.toolCalls), MarksOf(m);
        assert forall k | 0 <= k < |ids| :: marks[k] == Called(ids[k]);
        forall x | x in CallList(init) ensures x !in ids { CallListIn(init, x); }
        NoDuplicatesConcat(CallList(init), ids);
      } else {
        assert CallList(init) + [] == CallList(init);
      }
    }
  }

  lemma ClosedInit(ms: seq<Message>)
    requires Closed(ms) && ms != [] && !ms[|ms| - 1].role.Tool?
    ensures Closed(ms[..|ms| - 1]) && !Asks(ms[|ms| - 1])
  {
    var init := ms[..|ms| - 1];
    assert AnsweredAt(ms, |ms| - 1);
    forall i: nat | i < |init| ensures AnsweredAt(init, i) && AskedAt(init, i) {
      assert AnsweredAt(ms, i) && AskedAt(ms, i);
    }
  }

  lemma ClosedInitTurn(ms: seq<Message>)
    requires Closed(ms) && ms != [] && ms[|ms| - 1].role.Tool?
    ensures |ms| >= 2 && Asks(ms[|ms| - 2]) && Answers(ms[|ms| - 1], ms[|ms| - 2].toolCalls) && Closed(ms[..|ms| - 2])
  {
    assert AskedAt(ms, |ms| - 1);
    var init := ms[..|ms| - 2];
    forall i: nat | i < |init| ensures AnsweredAt(init, i) && AskedAt(init, i) {
      assert AnsweredAt(ms, i) && AskedAt(ms, i);
    }
  }

  ghost predicate Settled(t: seq<Mark>) {
    Sound(t) && OpenIn(t) == {}
  }

  /** The answers name exactly the calls. */
  lemma AnswersNameCalls(calls: seq<ToolCall>, results: seq<ToolResult>)
    requires |results| == |calls| && forall k | 0 <= k < |calls| :: results[k].callId == calls[k].id
    ensures ResultIds(results) == CallIds(calls) && forall r | r in results :: r.callId in CallIds(calls)
  {
    assert forall k | 0 <= k < |calls| :: calls[k] in calls && results[k] in results;
    forall id | id in CallIds(calls) ensures id in ResultIds(results) {
      var c :| c in calls && c.id == id;
      var k :| 0 <= k < |calls| && calls[k] == c;
      assert results[k].callId == id;
    }
  }

  /** A question and its answers leave nothing open. */
  lemma TurnSettles(t: seq<Mark>, calls: seq<ToolCall>, results: seq<ToolResult>)
    requires Settled(t) && |results| == |calls| && forall k | 0 <= k < |calls| :: results[k].callId == calls[k].id
    requires forall i, j | 0 <= i < j < |calls| :: calls[i].id != calls[j].id
    requires forall c | c in calls :: Called(c.id) !in t
    ensures Settled(t + CallMarks(calls) + ResultMarks(results))
  {
    SoundCalls(t, calls);
    AnswersNameCalls(calls, results);
    SoundAnswers(t + CallMarks(calls), results);
  }

  lemma DistinctCalls(calls: seq<ToolCall>)
    requires NoDuplicates(IdsOf(calls))
    ensures forall i, j | 0 <= i < j < |calls| :: calls[i].id != calls[j].id
  {
    assert forall i | 0 <= i < |calls| :: IdsOf(calls)[i] == calls[i].id;
  }

  lemma FreshCalls(base: seq<Message>, calls: seq<ToolCall>, c: ToolCall)
    requires (forall x | x in CallList(base) :: x !in IdsOf(calls)) && c in calls
    ensures Called(c.id) !in Traffic(base)
  {
    var i :| 0 <= i < |calls| && calls[i] == c;
    assert IdsOf(calls)[i] == c.id;
    CallListIn(base, c.id);
  }

  /** A transcript without open calls, extended by a question with new ids and its answers. */
  lemma SettlesTurn(base: seq<Message>, asks: Message, answers: Message)
    requires Settled(Traffic(base)) && Asks(asks) && Answers(answers, asks.toolCalls)
    requires NoDuplicates(CallList(base + [asks] + [answers]))
    ensures Settled(Traffic(base + [asks] + [answers]))
  {
    CallListSnoc(base, asks);
    CallListSnoc(base + [asks], answers);
    assert CallList(base + [asks] + [answers]) == CallList(base) + IdsOf(asks.toolCalls);
    NoDuplicatesConcat(CallList(base), IdsOf(asks.toolCalls));
    forall c | c in asks.toolCalls ensures Called(c.id) !in Traffic(base) { FreshCalls(base, asks.toolCalls, c); }
    DistinctCalls(asks.toolCalls);
    TurnSettles(Traffic(base), asks.toolCalls, answers.toolResults);
  }

  lemma CallListPrefix(a: seq<Message>, m: Message)
    requires NoDuplicates(CallList(a + [m]))
    ensures NoDuplicates(CallList(a))
  {
    CallListSnoc(a, m);
    NoDuplicatesConcat(CallList(a), if m.role.Assistant? then IdsOf(m.toolCalls) else []);
  }

  lemma SettlesPlain(base: seq<Message>, m: Message)
    requires Settled(Traffic(base)) && !Asks(m) && !m.role.Tool?
    ensures Settled(Traffic(base + [m]))
  {
    CallListSnoc(base, m);
    assert MarksOf(m) == [] && Traffic(base) + [] == Traffic(base);
  }

  lemma {:induction false} ClosedSettles(ms: seq<Message>)
    requires Closed(ms) && NoDuplicates(CallList(ms))
    ensures Settled(Traffic(ms))
    decreases |ms|
  {
    if ms != [] {
      var n := |ms|;
      Unsnoc(ms);
      CallListPrefix(ms[..n - 1], ms[n - 1]);
      if ms[n - 1].role.Tool? {
        ClosedInitTurn(ms);
        var base, asks, answers := ms[..n - 2], ms[n - 2], ms[n - 1];
        assert ms[..n - 1] == base + [asks];
        CallListPrefix(base, asks);
        ClosedSettles(base);
        SettlesTurn(base, asks, answers);
      } else {
        ClosedInit(ms);
        ClosedSettles(ms[..n - 1]);
        SettlesPlain(ms[..n - 1], ms[n - 1]);
      }
    }
  }

  /** A closed transcript satisfies what providers demand exactly when no call id occurs twice in it. */
  lemma ClosedIsPairedExactlyWhen(ms: seq<Message>)
    requires Closed(ms)
    ensures WellPaired(ms) <==> NoDuplicates(CallList(ms))
  {
    if NoDuplicates(CallList(ms)) {
      ClosedSettles(ms);
      var t := Traffic(ms);
      forall m | m in t && m.Called? ensures Answered(m.id) in t {
        assert m.id !in OpenIn(t);
      }
    }
    if WellPaired(ms) { CallsDistinct(ms); }
  }
}
