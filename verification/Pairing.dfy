/**
 What a provider demands of a request: every assistant tool call has exactly one tool result, later in
 the request, and no tool result lacks its call. Proved here for every list of items that
 `NormalizeItems` (conversation/item.go) can be given.
 */
module Pairing {
  import opened Sequences
  import opened Unified
  import opened Items

  // ---------------------------------------------------------------- tool traffic

  datatype Mark = Called(id: string) | Answered(id: string)

  function CallMarks(calls: seq<ToolCall>): (r: seq<Mark>)
    ensures |r| == |calls| && forall i | 0 <= i < |calls| :: r[i] == Called(calls[i].id)
  {
    seq(|calls|, i requires 0 <= i < |calls| => Called(calls[i].id))
  }

  function ResultMarks(results: seq<ToolResult>): (r: seq<Mark>)
    ensures |r| == |results| && forall i | 0 <= i < |results| :: r[i] == Answered(results[i].callId)
  {
    seq(|results|, i requires 0 <= i < |results| => Answered(results[i].callId))
  }

  /** The tool traffic of one message: assistant messages call, tool messages answer. */
  function MarksOf(m: Message): seq<Mark> {
    if m.role.Assistant? then CallMarks(m.toolCalls)
    else if m.role.Tool? then ResultMarks(m.toolResults)
    else []
  }

  function Traffic(messages: seq<Message>): seq<Mark> {
    if messages == [] then [] else Traffic(messages[..|messages| - 1]) + MarksOf(messages[|messages| - 1])
  }

  function Bodies(items: seq<Item>): seq<Message> {
    Map((item: Item) => item.message, items)
  }

  /** No id is called twice or answered twice, and every answer comes after its call. */
  ghost predicate Sound(t: seq<Mark>) {
    && NoDuplicates(t)
    && (forall i | 0 <= i < |t| && t[i].Answered? :: Called(t[i].id) in t[..i])
  }

  /** Sound traffic in which every call is answered. */
  ghost predicate WellPaired(messages: seq<Message>) {
    var t := Traffic(messages);
    Sound(t) && forall m | m in t :: m.Called? ==> Answered(m.id) in t
  }

  function OpenIn(t: seq<Mark>): set<string> {
    set m | m in t && m.Called? && Answered(m.id) !in t :: m.id
  }

  function DoneIn(t: seq<Mark>): set<string> {
    set m | m in t && m.Answered? :: m.id
  }

  lemma {:induction false} TrafficAppend(a: seq<Message>, b: seq<Message>)
    ensures Traffic(a + b) == Traffic(a) + Traffic(b)
  {
    if b == [] {
      assert a + b == a;
    } else {
      var init, last := b[..|b| - 1], b[|b| - 1];
      TrafficAppend(a, init);
      ConcatInit(a, b);
      Assoc(Traffic(a), Traffic(init), MarksOf(last));
    }
  }

  lemma BodiesAppend(a: seq<Item>, b: seq<Item>)
    ensures Bodies(a + b) == Bodies(a) + Bodies(b)
    ensures Traffic(Bodies(a + b)) == Traffic(Bodies(a)) + Traffic(Bodies(b))
  {
    assert Bodies(a + b) == Bodies(a) + Bodies(b);
    TrafficAppend(Bodies(a), Bodies(b));
  }

  lemma TrafficOne(m: Message)
    ensures Traffic([m]) == MarksOf(m)
  {
    assert [m][..0] == [];
  }

  lemma TrafficSnoc(items: seq<Item>, item: Item)
    ensures Traffic(Bodies(items + [item])) == Traffic(Bodies(items)) + MarksOf(item.message)
  {
    BodiesAppend(items, [item]);
    assert Bodies([item]) == [item.message];
    TrafficOne(item.message);
  }

  lemma SoundPrefix(a: seq<Mark>, b: seq<Mark>)
    requires Sound(a + b)
    ensures Sound(a)
  {
    forall i, j | 0 <= i < j < |a| ensures a[i] != a[j] {
      assert (a + b)[i] != (a + b)[j];
    }
    forall i | 0 <= i < |a| && a[i].Answered? ensures Called(a[i].id) in a[..i] {
      assert (a + b)[i] == a[i];
      assert (a + b)[..i] == a[..i];
    }
  }

  lemma SoundCall(t: seq<Mark>, id: string)
    requires Sound(t) && Called(id) !in t
    ensures Answered(id) !in t
    ensures Sound(t + [Called(id)])
    ensures OpenIn(t + [Called(id)]) == OpenIn(t) + {id}
    ensures DoneIn(t + [Called(id)]) == DoneIn(t)
  {
    var t' := t + [Called(id)];
    forall i | 0 <= i < |t'| && t'[i].Answered? ensures Called(t'[i].id) in t'[..i] {
      assert t'[..i] == t[..i];
    }
    assert forall m :: m in t' <==> m in t || m == Called(id);
  }

  lemma InSnoc(t: seq<Mark>, x: Mark, m: Mark)
    ensures m in t + [x] <==> m in t || m == x
  {}

  lemma OpenAfterAnswer(t: seq<Mark>, id: string)
    ensures OpenIn(t + [Answered(id)]) == OpenIn(t) - {id}
  {
    var t' := t + [Answered(id)];
    forall x ensures x in OpenIn(t') <==> x in OpenIn(t) - {id} {
      InSnoc(t, Answered(id), Called(x));
      InSnoc(t, Answered(id), Answered(x));
      OpenHas(t, x);
      OpenHas(t', x);
    }
  }

  lemma OpenHas(t: seq<Mark>, x: string)
    ensures x in OpenIn(t) <==> Called(x) in t && Answered(x) !in t
  {
    if Called(x) in t && Answered(x) !in t { assert Called(x).id == x; }
  }

  lemma DoneHas(t: seq<Mark>, x: string)
    ensures x in DoneIn(t) <==> Answered(x) in t
  {
    if Answered(x) in t { assert Answered(x).id == x; }
  }

  lemma DoneAfterAnswer(t: seq<Mark>, id: string)
    ensures DoneIn(t + [Answered(id)]) == DoneIn(t) + {id}
  {
    var t' := t + [Answered(id)];
    forall x ensures x in DoneIn(t') <==> x in DoneIn(t) + {id} {
      InSnoc(t, Answered(id), Answered(x));
      DoneHas(t, x);
      DoneHas(t', x);
    }
  }

  lemma SoundSnoc(t: seq<Mark>, m: Mark)
    requires Sound(t) && m !in t && (m.Answered? ==> Called(m.id) in t)
    ensures Sound(t + [m])
  {
    var t' := t + [m];
    forall i | 0 <= i < |t'| && t'[i].Answered? ensures Called(t'[i].id) in t'[..i] {
      assert t'[..i] == t[..i];
    }
  }

  lemma SoundAnswer(t: seq<Mark>, id: string)
    requires Sound(t) && id in OpenIn(t)
    ensures Sound(t + [Answered(id)])
    ensures OpenIn(t + [Answered(id)]) == OpenIn(t) - {id}
    ensures DoneIn(t + [Answered(id)]) == DoneIn(t) + {id}
  {
    OpenHas(t, id);
    SoundSnoc(t, Answered(id));
    OpenAfterAnswer(t, id);
    DoneAfterAnswer(t, id);
  }

  lemma NotCalledYet(t: seq<Mark>, calls: seq<ToolCall>)
    requires calls != [] && (forall i, j | 0 <= i < j < |calls| :: calls[i].id != calls[j].id)
    requires forall c | c in calls :: Called(c.id) !in t
    ensures Called(calls[|calls| - 1].id) !in t + CallMarks(calls[..|calls| - 1])
  {
    assert calls[|calls| - 1] in calls;
  }

  lemma {:induction false} SoundCalls(t: seq<Mark>, calls: seq<ToolCall>)
    requires Sound(t)
    requires forall i, j | 0 <= i < j < |calls| :: calls[i].id != calls[j].id
    requires forall c | c in calls :: Called(c.id) !in t
    ensures Sound(t + CallMarks(calls))
    ensures OpenIn(t + CallMarks(calls)) == OpenIn(t) + CallIds(calls)
    ensures DoneIn(t + CallMarks(calls)) == DoneIn(t)
  {
    if calls == [] {
      assert t + CallMarks(calls) == t;
    } else {
      var init, c := calls[..|calls| - 1], calls[|calls| - 1];
      SoundCalls(t, init);
      assert CallMarks(calls) == CallMarks(init) + [Called(c.id)];
      Assoc(t, CallMarks(init), [Called(c.id)]);
      NotCalledYet(t, calls);
      SoundCall(t + CallMarks(init), c.id);
      CallIdsAppend(init, c);
      Unsnoc(calls);
    }
  }

  lemma NotAnsweredYet(results: seq<ToolResult>)
    requires results != [] && forall i, j | 0 <= i < j < |results| :: results[i].callId != results[j].callId
    ensures results[|results| - 1] in results && results[|results| - 1].callId !in ResultIds(results[..|results| - 1])
  {}

  lemma ResultMarksSnoc(t: seq<Mark>, results: seq<ToolResult>, r: ToolResult)
    ensures t + ResultMarks(results + [r]) == (t + ResultMarks(results)) + [Answered(r.callId)]
  {}

  lemma SoundAnswersNext(t: seq<Mark>, init: seq<ToolResult>, r: ToolResult)
    requires Sound(t + ResultMarks(init)) && r.callId in OpenIn(t) && r.callId !in ResultIds(init)
    requires OpenIn(t + ResultMarks(init)) == OpenIn(t) - ResultIds(init)
    requires DoneIn(t + ResultMarks(init)) == DoneIn(t) + ResultIds(init)
    ensures Sound(t + ResultMarks(init + [r]))
    ensures OpenIn(t + ResultMarks(init + [r])) == OpenIn(t) - ResultIds(init + [r])
    ensures DoneIn(t + ResultMarks(init + [r])) == DoneIn(t) + ResultIds(init + [r])
  {
    SoundAnswer(t + ResultMarks(init), r.callId);
    ResultMarksSnoc(t, init, r);
    ResultIdsAppend(init, r);
  }

  lemma {:induction false} SoundAnswers(t: seq<Mark>, results: seq<ToolResult>)
    requires Sound(t)
    requires forall i, j | 0 <= i < j < |results| :: results[i].callId != results[j].callId
    requires forall r | r in results :: r.callId in OpenIn(t)
    ensures Sound(t + ResultMarks(results))
    ensures OpenIn(t + ResultMarks(results)) == OpenIn(t) - ResultIds(results)
    ensures DoneIn(t + ResultMarks(results)) == DoneIn(t) + ResultIds(results)
  {
    if results == [] {
      assert t + ResultMarks(results) == t;
    } else {
      var init, r := results[..|results| - 1], results[|results| - 1];
      NotAnsweredYet(results);
      assert forall x | x in init :: x in results;
      SoundAnswers(t, init);
      SoundAnswersNext(t, init, r);
      Unsnoc(results);
    }
  }

  lemma SplitAt(messages: seq<Message>, i: nat)
    requires i < |messages|
    ensures messages == (messages[..i] + [messages[i]]) + messages[i + 1..]
  {}

  lemma TrafficSplit(messages: seq<Message>, i: nat)
    requires i < |messages|
    ensures Traffic(messages) == Traffic(messages[..i]) + MarksOf(messages[i]) + Traffic(messages[i + 1..])
  {
    var before, rest := messages[..i], messages[i + 1..];
    SplitAt(messages, i);
    TrafficAppend(before + [messages[i]], rest);
    SnocInit(before, messages[i]);
    assert Traffic(before + [messages[i]]) == Traffic(before) + MarksOf(messages[i]);
  }

  /** In sound traffic a call is not answered before it is made. */
  lemma AnsweredAfter(a: seq<Mark>, b: seq<Mark>, c: seq<Mark>, id: string)
    requires Sound(a + b + c) && Called(id) in b && Answered(id) in a + b + c && Answered(id) !in b
    ensures Answered(id) in c
  {
    var t := a + b + c;
    var k :| 0 <= k < |b| && b[k] == Called(id);
    assert t[|a| + k] == b[k];
    assert forall x | 0 <= x < |a| :: t[x] == a[x] && t[x] != Called(id);
    assert forall x | 0 <= x < |a| :: t[..x] == a[..x];
  }

  lemma CalledBefore(a: seq<Mark>, b: seq<Mark>, c: seq<Mark>, id: string)
    requires Sound(a + b + c) && Answered(id) in b && Called(id) !in b
    ensures Called(id) in a
  {
    var t := a + b + c;
    var k :| 0 <= k < |b| && b[k] == Answered(id);
    assert t[|a| + k] == b[k];
    assert t[..|a| + k] == a + b[..k];
  }

  lemma RoleMarks(m: Message)
    ensures m.role.Assistant? ==> forall c | c in m.toolCalls ::
            Called(c.id) in MarksOf(m) && Answered(c.id) !in MarksOf(m)
    ensures m.role.Tool? ==> forall r | r in m.toolResults ::
            Answered(r.callId) in MarksOf(m) && Called(r.callId) !in MarksOf(m)
  {
    if m.role.Assistant? {
      forall c | c in m.toolCalls ensures Called(c.id) in MarksOf(m) {
        var k :| 0 <= k < |m.toolCalls| && m.toolCalls[k] == c;
        assert MarksOf(m)[k] == Called(c.id);
      }
    } else if m.role.Tool? {
      forall r | r in m.toolResults ensures Answered(r.callId) in MarksOf(m) {
        var k :| 0 <= k < |m.toolResults| && m.toolResults[k] == r;
        assert MarksOf(m)[k] == Answered(r.callId);
      }
    }
  }

  /** What `WellPaired` means message by message: each call is answered in a strictly later tool message. */
  lemma CallAnsweredLater(messages: seq<Message>, i: nat, c: ToolCall)
    requires WellPaired(messages) && i < |messages| && messages[i].role.Assistant? && c in messages[i].toolCalls
    ensures exists j :: i < j < |messages| && messages[j].role.Tool? && c.id in ResultIds(messages[j].toolResults)
  {
    var after := messages[i + 1..];
    TrafficSplit(messages, i);
    RoleMarks(messages[i]);
    AnsweredAfter(Traffic(messages[..i]), MarksOf(messages[i]), Traffic(after), c.id);
    var j := MarkSource(after, Answered(c.id));
    assert messages[i + 1 + j] == after[j];
  }

  /** ... and each tool result has its call in a strictly earlier assistant message. */
  lemma ResultCalledEarlier(messages: seq<Message>, i: nat, r: ToolResult)
    requires WellPaired(messages) && i < |messages| && messages[i].role.Tool? && r in messages[i].toolResults
    ensures exists j :: 0 <= j < i && messages[j].role.Assistant? && r.callId in CallIds(messages[j].toolCalls)
  {
    var before := messages[..i];
    TrafficSplit(messages, i);
    RoleMarks(messages[i]);
    CalledBefore(Traffic(before), MarksOf(messages[i]), Traffic(messages[i + 1..]), r.callId);
    var j := MarkSource(before, Called(r.callId));
    assert messages[j] == before[j];
  }

  /** A mark in the traffic comes from some message. */
  lemma {:induction false} MarkSource(messages: seq<Message>, mark: Mark) returns (j: nat)
    requires mark in Traffic(messages)
    ensures j < |messages| && mark in MarksOf(messages[j])
    ensures mark.Called? ==> messages[j].role.Assistant? && mark.id in CallIds(messages[j].toolCalls)
    ensures mark.Answered? ==> messages[j].role.Tool? && mark.id in ResultIds(messages[j].toolResults)
  {
    var last := messages[|messages| - 1];
    if mark in MarksOf(last) {
      j := |messages| - 1;
      var k :| 0 <= k < |MarksOf(last)| && MarksOf(last)[k] == mark;
      if last.role.Assistant? {
        assert last.toolCalls[k].id == mark.id;
      } else {
        assert last.toolResults[k].callId == mark.id;
      }
    } else {
      j := MarkSource(messages[..|messages| - 1], mark);
    }
  }

  // ---------------------------------------------------------------- first pass

  lemma {:induction false} NewCallsFresh(calls: seq<ToolCall>, seen: set<string>)
    ensures var r := NewCalls(calls, seen);
            && (forall i, j | 0 <= i < j < |r| :: r[i].id != r[j].id)
            && (forall c | c in r :: ValidCall(c) && c.id !in seen && c in calls)
            && (forall c | c in calls && ValidCall(c) :: c.id in seen || c.id in CallIds(r))
  {
    if calls != [] {
      NewCallsFresh(calls[..|calls| - 1], seen);
      CallIdsAppend(NewCalls(calls[..|calls| - 1], seen), calls[|calls| - 1]);
      assert calls == calls[..|calls| - 1] + [calls[|calls| - 1]];
    }
  }

  lemma {:induction false} FirstAnswersFresh(results: seq<ToolResult>, pending: set<string>, completed: set<string>)
    ensures var s := FirstAnswers(results, pending, completed);
            && (forall i, j | 0 <= i < j < |s| :: s[i].callId != s[j].callId)
            && (forall r | r in s :: r.callId != "" && r.callId in pending && CleanResult(r) == r)
            && ResultIds(s) <= ResultIds(results)
            && (forall id | id in ResultIds(results) && id != "" && id in pending && id !in completed ::
                id in ResultIds(s))
  {
    if results != [] {
      var init, last := results[..|results| - 1], results[|results| - 1];
      FirstAnswersFresh(init, pending, completed);
      CleanResultTwice(last);
      ResultIdsAppend(FirstAnswers(init, pending, completed), CleanResult(last));
      ResultIdsAppend(init, last);
      assert results == init + [last];
    }
  }

  /** A message no further cleaning changes. */
  predicate Tidy(m: Message) {
    && Clean(m) == m
    && !IsBlank(m)
    && (m.role.Assistant? ==> forall c | c in m.toolCalls :: ValidCall(c))
    && (m.role.Tool? ==> forall r | r in m.toolResults :: r.callId != "" && CleanResult(r) == r)
  }

  ghost predicate ScanOk(s: Scan) {
    && Sound(Traffic(Bodies(s.kept)))
    && s.pending == OpenIn(Traffic(Bodies(s.kept)))
    && s.completed == DoneIn(Traffic(Bodies(s.kept)))
    && forall k | k in s.kept :: CarriesMessage(k) && Tidy(k.message)
  }

  lemma TrimmedIsClean(s: Scan, msg: Message)
    ensures Clean(Trimmed(s, msg)) == Trimmed(s, msg)
  {
    ForRequestAfterClean(msg);
  }

  lemma TrimmedAssistant(s: Scan, msg: Message, t: seq<Mark>)
    requires Sound(t) && s.pending == OpenIn(t) && s.completed == DoneIn(t) && msg.role.Assistant?
    ensures var m := Trimmed(s, msg);
            && (forall c | c in m.toolCalls :: ValidCall(c))
            && Sound(t + MarksOf(m))
            && OpenIn(t + MarksOf(m)) == s.pending + CallIds(m.toolCalls)
            && DoneIn(t + MarksOf(m)) == s.completed
  {
    NewCallsFresh(msg.toolCalls, s.pending + s.completed);
    SeenCalls(t);
    SoundCalls(t, Trimmed(s, msg).toolCalls);
  }

  lemma TrimmedTool(s: Scan, msg: Message, t: seq<Mark>)
    requires Sound(t) && s.pending == OpenIn(t) && s.completed == DoneIn(t) && msg.role.Tool?
    ensures var m := Trimmed(s, msg);
            && (forall r | r in m.toolResults :: r.callId != "" && CleanResult(r) == r)
            && Sound(t + MarksOf(m))
            && OpenIn(t + MarksOf(m)) == s.pending - ResultIds(m.toolResults)
            && DoneIn(t + MarksOf(m)) == s.completed + ResultIds(m.toolResults)
  {
    FirstAnswersFresh(msg.toolResults, s.pending, s.completed);
    SoundAnswers(t, Trimmed(s, msg).toolResults);
  }

  lemma ScanStepOk(s: Scan, item: Item)
    requires ScanOk(s)
    ensures ScanOk(ScanStep(s, item))
  {
    if CarriesMessage(item) {
      var m := Trimmed(s, item.message);
      var t := Traffic(Bodies(s.kept));
      TrimmedIsClean(s, item.message);
      TrafficSnoc(s.kept, item.(message := m));
      if m.role.Assistant? {
        TrimmedAssistant(s, item.message, t);
      } else if m.role.Tool? {
        TrimmedTool(s, item.message, t);
      }
      if IsBlank(m) || !(m.role.Assistant? || m.role.Tool?) {
        assert t + MarksOf(m) == t;
      }
    }
  }

  lemma SeenCalls(t: seq<Mark>)
    ensures forall id | id !in OpenIn(t) && id !in DoneIn(t) :: Called(id) !in t
  {
    assert forall id :: Called(id).id == id && Answered(id).id == id;
  }

  lemma {:induction false} ScanIsOk(items: seq<Item>)
    ensures ScanOk(ScanItems(items))
  {
    if items == [] {
      assert Bodies([]) == [];
    } else {
      ScanIsOk(items[..|items| - 1]);
      ScanStepOk(ScanItems(items[..|items| - 1]), items[|items| - 1]);
    }
  }

  // ---------------------------------------------------------------- second pass

  lemma {:induction false} OpenCallsShape(calls: seq<ToolCall>, pending: set<string>)
    ensures var r := OpenCalls(calls, pending);
            && (forall i, j | 0 <= i < j < |r| :: r[i].id != r[j].id)
            && (forall c | c in r :: c in calls && c.id != "" && c.id in pending)
            && (forall c | c in calls && c.id != "" && c.id in pending :: c.id in CallIds(r))
  {
    if calls != [] {
      OpenCallsShape(calls[..|calls| - 1], pending);
      CallIdsAppend(OpenCalls(calls[..|calls| - 1], pending), calls[|calls| - 1]);
      assert calls == calls[..|calls| - 1] + [calls[|calls| - 1]];
    }
  }

  lemma MissingIds(calls: seq<ToolCall>)
    ensures ResultIds(Map(MissingResult, calls)) == CallIds(calls)
    ensures forall i | 0 <= i < |calls| :: Map(MissingResult, calls)[i].callId == calls[i].id
  {
    var rs := Map(MissingResult, calls);
    forall id | id in CallIds(calls) ensures id in ResultIds(rs) {
      var i :| 0 <= i < |calls| && calls[i].id == id;
      assert rs[i] in rs && rs[i].callId == id;
    }
    forall id | id in ResultIds(rs) ensures id in CallIds(calls) {
      var i :| 0 <= i < |rs| && rs[i].callId == id;
      assert calls[i] in calls;
    }
  }

  /**
   The repaired traffic `o` against the kept traffic `t`: same calls, and the extra answers are exactly the ids of `p`
   no longer pending.
   */
  ghost predicate Repaired(o: seq<Mark>, t: seq<Mark>, p: set<string>, left: set<string>) {
    && Sound(o)
    && left <= p
    && OpenIn(o) == OpenIn(t) - (p - left)
    && DoneIn(o) == DoneIn(t) + (p - left)
    && p - left <= OpenIn(t)
  }

  lemma RepairedStep(o: seq<Mark>, t: seq<Mark>, p: set<string>, left: set<string>, m: Message)
    requires Repaired(o, t, p, left)
    requires Sound(t) && Sound(t + MarksOf(m))
    requires forall id | id in p :: Answered(id) !in t + MarksOf(m)
    ensures Repaired(o + MarksOf(m), t + MarksOf(m), p, left)
    ensures m.role.Assistant? ==> CallIds(m.toolCalls) <= OpenIn(o + MarksOf(m))
  {
    var t' := t + MarksOf(m);
    if m.role.Assistant? {
      DistinctMarks(t, m);
      SeenCalls(o);
      SeenMarks(t);
      forall c | c in m.toolCalls ensures Called(c.id) !in o && Called(c.id) !in t {
        assert Called(c.id) !in t;
      }
      SoundCalls(t, m.toolCalls);
      SoundCalls(o, m.toolCalls);
    } else if m.role.Tool? {
      DistinctMarks(t, m);
      forall r | r in m.toolResults ensures r.callId in OpenIn(t) && r.callId in OpenIn(o) {
        assert r.callId !in p;
      }
      SoundAnswers(t, m.toolResults);
      SoundAnswers(o, m.toolResults);
    } else {
      assert t' == t && o + MarksOf(m) == o;
    }
  }

  lemma SeenMarks(t: seq<Mark>)
    requires Sound(t)
    ensures forall id | Called(id) !in t :: id !in OpenIn(t) && id !in DoneIn(t)
  {
  }

  /** In sound traffic a message calls fresh, distinct ids and answers open, distinct ids. */
  lemma DistinctMarks(t: seq<Mark>, m: Message)
    requires Sound(t + MarksOf(m))
    ensures m.role.Assistant? ==>
              && (forall i, j | 0 <= i < j < |m.toolCalls| :: m.toolCalls[i].id != m.toolCalls[j].id)
              && (forall c | c in m.toolCalls :: Called(c.id) !in t)
    ensures m.role.Tool? ==>
              && (forall i, j | 0 <= i < j < |m.toolResults| :: m.toolResults[i].callId != m.toolResults[j].callId)
              && (forall r | r in m.toolResults :: r.callId in OpenIn(t) && Answered(r.callId) in MarksOf(m))
  {
    var b := MarksOf(m);
    var t' := t + b;
    if m.role.Assistant? {
      forall i, j | 0 <= i < j < |m.toolCalls| ensures m.toolCalls[i].id != m.toolCalls[j].id {
        assert t'[|t| + i] == b[i] && t'[|t| + j] == b[j];
      }
      forall c | c in m.toolCalls ensures Called(c.id) !in t {
        var i :| 0 <= i < |m.toolCalls| && m.toolCalls[i] == c;
        assert t'[|t| + i] == b[i] == Called(c.id);
        assert forall x | 0 <= x < |t| :: t'[x] == t[x];
      }
    } else if m.role.Tool? {
      forall i, j | 0 <= i < j < |m.toolResults| ensures m.toolResults[i].callId != m.toolResults[j].callId {
        assert t'[|t| + i] == b[i] && t'[|t| + j] == b[j];
      }
      forall r | r in m.toolResults ensures r.callId in OpenIn(t) && Answered(r.callId) in MarksOf(m) {
        var i :| 0 <= i < |m.toolResults| && m.toolResults[i] == r;
        assert t'[|t| + i] == b[i] == Answered(r.callId);
        assert t'[..|t| + i] == t + b[..i];
        assert Called(r.callId) in t;
        assert forall x | 0 <= x < |t| :: t'[x] == t[x];
        assert Called(r.callId).id == r.callId;
      }
    }
  }

  /** Calls with these ids in turns are no longer open once the second pass has gone by. */
  ghost predicate TurnsSettled(kept: seq<Item>, left: set<string>) {
    forall k | k in kept && IsTurn(k) && k.message.role.Assistant? ::
      forall c | c in k.message.toolCalls :: c.id != "" ==> c.id !in left
  }

  /** Only calls in turns are settled. */
  ghost predicate SettledInTurns(kept: seq<Item>, p: set<string>, left: set<string>) {
    forall id | id in p && id !in left ::
      exists k :: k in kept && IsTurn(k) && k.message.role.Assistant? && id in CallIds(k.message.toolCalls)
  }

  /** Answering open ids of `left` moves them from open to done. */
  lemma RepairedAnswers(o: seq<Mark>, t: seq<Mark>, p: set<string>, left: set<string>, results: seq<ToolResult>)
    requires Repaired(o, t, p, left)
    requires forall i, j | 0 <= i < j < |results| :: results[i].callId != results[j].callId
    requires ResultIds(results) <= left && ResultIds(results) <= OpenIn(o)
    ensures Repaired(o + ResultMarks(results), t, p, left - ResultIds(results))
  {
    SoundAnswers(o, results);
    var gone := ResultIds(results);
    assert p - (left - gone) == (p - left) + gone;
  }

  lemma RepairStepSound(r: Repair, t: seq<Mark>, p: set<string>, item: Item)
    requires Repaired(Traffic(Bodies(r.out)), t, p, r.pending)
    requires Sound(t) && Sound(t + MarksOf(item.message))
    requires forall id | id in p :: Answered(id) !in t + MarksOf(item.message)
    ensures Repaired(Traffic(Bodies(RepairStep(r, item).out)), t + MarksOf(item.message), p,
                     RepairStep(r, item).pending)
  {
    var o := Traffic(Bodies(r.out));
    RepairedStep(o, t, p, r.pending, item.message);
    TrafficSnoc(r.out, item);
    var open := if IsTurn(item) && item.message.role.Assistant? then OpenCalls(item.message.toolCalls, r.pending)
                else [];
    if open == [] {
      assert RepairStep(r, item).out == r.out + [item];
    } else {
      OpenCallsShape(item.message.toolCalls, r.pending);
      MissingIds(open);
      RepairedAnswers(o + MarksOf(item.message), t + MarksOf(item.message), p, r.pending, Map(MissingResult, open));
      TrafficSnoc(r.out + [item], SyntheticItem(open));
    }
  }

  lemma {:induction false} RepairIsSound(kept: seq<Item>, p: set<string>)
    requires Sound(Traffic(Bodies(kept)))
    requires forall id | id in p :: Answered(id) !in Traffic(Bodies(kept))
    ensures var r := RepairItems(kept, p);
            Repaired(Traffic(Bodies(r.out)), Traffic(Bodies(kept)), p, r.pending)
  {
    if kept == [] {
      assert Bodies(kept) == [];
    } else {
      var init, item := kept[..|kept| - 1], kept[|kept| - 1];
      assert kept == init + [item];
      TrafficSnoc(init, item);
      SoundPrefix(Traffic(Bodies(init)), MarksOf(item.message));
      RepairIsSound(init, p);
      RepairStepSound(RepairItems(init, p), Traffic(Bodies(init)), p, item);
    }
  }

  lemma {:induction false} RepairSettles(kept: seq<Item>, p: set<string>)
    ensures var r := RepairItems(kept, p);
            r.pending <= p && TurnsSettled(kept, r.pending) && SettledInTurns(kept, p, r.pending)
  {
    if kept != [] {
      var init, item := kept[..|kept| - 1], kept[|kept| - 1];
      assert kept == init + [item];
      RepairSettles(init, p);
      OpenCallsShape(item.message.toolCalls, RepairItems(init, p).pending);
    }
  }

  // ---------------------------------------------------------------- the declarative reading

  /** Some assistant message of this item makes a valid call with this id. */
  ghost predicate Calls(item: Item, id: string) {
    CarriesMessage(item) && item.message.role.Assistant? && exists c ::
      c in item.message.toolCalls && ValidCall(c) && c.id == id
  }

  /** Some tool message of this item reports a result for this id. */
  ghost predicate Reports(item: Item, id: string) {
    CarriesMessage(item) && item.message.role.Tool? && id != "" && exists r ::
      r in item.message.toolResults && r.callId == id
  }

  ghost predicate FirstCall(items: seq<Item>, i: nat, id: string) {
    i < |items| && Calls(items[i], id) && forall j | 0 <= j < i :: !Calls(items[j], id)
  }

  /** The first call with this id stands at `i` and nothing after it reports a result. */
  ghost predicate Unanswered(items: seq<Item>, i: nat, id: string) {
    FirstCall(items, i, id) && forall j | i < j < |items| :: !Reports(items[j], id)
  }

  ghost predicate AnsweredLater(items: seq<Item>, i: nat, id: string) {
    FirstCall(items, i, id) && exists j :: i < j < |items| && Reports(items[j], id)
  }

  lemma CallsOf(s: Scan, item: Item, id: string)
    requires CarriesMessage(item) && item.message.role.Assistant?
    ensures Calls(item, id) && id !in s.pending && id !in s.completed <==>
            id in CallIds(Trimmed(s, item.message).toolCalls)
  {
    NewCallsFresh(item.message.toolCalls, s.pending + s.completed);
  }

  lemma ReportsOf(s: Scan, item: Item, id: string)
    requires CarriesMessage(item) && item.message.role.Tool?
    requires s.pending !! s.completed
    ensures Reports(item, id) && id in s.pending <==> id in ResultIds(Trimmed(s, item.message).toolResults)
  {
    FirstAnswersFresh(item.message.toolResults, s.pending, s.completed);
  }

  lemma OpenNotDone(t: seq<Mark>)
    ensures OpenIn(t) !! DoneIn(t)
  {
  }

  datatype Status = NeverCalled | Open(at: nat) | Done(at: nat)

  /** One id's life: called for the first time, then answered for the first time. */
  ghost function StatusOf(items: seq<Item>, id: string): Status {
    if items == [] then NeverCalled
    else
      var init, item := items[..|items| - 1], items[|items| - 1];
      match StatusOf(init, id)
      case NeverCalled => if Calls(item, id) then Open(|init|) else NeverCalled
      case Open(i) => if Reports(item, id) then Done(i) else Open(i)
      case Done(i) => Done(i)
  }

  lemma {:induction false} StatusExact(items: seq<Item>, id: string)
    ensures match StatusOf(items, id)
            case NeverCalled => forall i | 0 <= i < |items| :: !Calls(items[i], id)
            case Open(i) => Unanswered(items, i, id)
            case Done(i) => AnsweredLater(items, i, id)
  {
    if items != [] {
      var init := items[..|items| - 1];
      StatusExact(init, id);
      assert forall j | 0 <= j < |init| :: items[j] == init[j];
    }
  }

  lemma FirstCallUnique(items: seq<Item>, i: nat, j: nat, id: string)
    requires FirstCall(items, i, id) && FirstCall(items, j, id)
    ensures i == j
  {}

  /** The kept item that still makes the call has the kind of the first caller. */
  ghost predicate KeptCaller(kept: seq<Item>, kind: ItemKind, id: string) {
    exists k :: k in kept && k.kind == kind && k.message.role.Assistant? && id in CallIds(k.message.toolCalls)
  }

  lemma KeptStays(s: Scan, item: Item, kind: ItemKind, id: string)
    requires KeptCaller(s.kept, kind, id)
    ensures KeptCaller(ScanStep(s, item).kept, kind, id)
  {}

  lemma {:induction false} ScanStatus(items: seq<Item>, id: string)
    ensures var s := ScanItems(items);
            match StatusOf(items, id)
            case NeverCalled => id !in s.pending && id !in s.completed
            case Open(i) =>
              i < |items| && id in s.pending && id !in s.completed && KeptCaller(s.kept, items[i].kind, id)
            case Done(i) =>
              i < |items| && id !in s.pending && id in s.completed && KeptCaller(s.kept, items[i].kind, id)
  {
    if items != [] {
      var init, item := items[..|items| - 1], items[|items| - 1];
      var s := ScanItems(init);
      ScanStatus(init, id);
      ScanIsOk(init);
      OpenNotDone(Traffic(Bodies(s.kept)));
      var s' := ScanItems(items);
      forall kind | KeptCaller(s.kept, kind, id) ensures KeptCaller(s'.kept, kind, id) {
        KeptStays(s, item, kind, id);
      }
      if CarriesMessage(item) && item.message.role.Assistant? {
        CallsOf(s, item, id);
        if id in CallIds(Trimmed(s, item.message).toolCalls) {
          var k := item.(message := Trimmed(s, item.message));
          assert k in s'.kept;
          assert KeptCaller(s'.kept, item.kind, id);
        }
      } else if CarriesMessage(item) && item.message.role.Tool? {
        ReportsOf(s, item, id);
      }
    }
  }

  // ---------------------------------------------------------------- main results

  /** Two kept items cannot both make the same call. */
  lemma CallerUnique(kept: seq<Item>, a: Item, b: Item, id: string)
    requires Sound(Traffic(Bodies(kept)))
    requires a in kept && a.message.role.Assistant? && id in CallIds(a.message.toolCalls)
    requires b in kept && b.message.role.Assistant? && id in CallIds(b.message.toolCalls)
    ensures a == b
  {
    if kept != [] {
      var init, item := kept[..|kept| - 1], kept[|kept| - 1];
      assert kept == init + [item];
      TrafficSnoc(init, item);
      SoundPrefix(Traffic(Bodies(init)), MarksOf(item.message));
      DistinctMarks(Traffic(Bodies(init)), item.message);
      if a in init && b in init {
        CallerUnique(init, a, b, id);
      } else if a in init {
        CallInTraffic(init, a, id);
      } else if b in init {
        CallInTraffic(init, b, id);
      }
    }
  }

  lemma {:induction false} CallInTraffic(kept: seq<Item>, k: Item, id: string)
    requires k in kept && k.message.role.Assistant? && id in CallIds(k.message.toolCalls)
    ensures Called(id) in Traffic(Bodies(kept))
  {
    var init, item := kept[..|kept| - 1], kept[|kept| - 1];
    assert kept == init + [item];
    TrafficSnoc(init, item);
    if k == item {
      var i :| 0 <= i < |item.message.toolCalls| && item.message.toolCalls[i].id == id;
      assert MarksOf(item.message)[i] == Called(id);
    } else {
      CallInTraffic(init, k, id);
    }
  }

  /** The ids that stay unanswered after normalisation: those first called outside a turn. */
  lemma LeftOpenExact(items: seq<Item>, id: string)
    ensures var s := ScanItems(items);
            id in RepairItems(s.kept, s.pending).pending <==>
              exists i: nat :: Unanswered(items, i, id) && !IsTurn(items[i])
  {
    var s := ScanItems(items);
    var t := Traffic(Bodies(s.kept));
    ScanIsOk(items);
    ScanStatus(items, id);
    StatusExact(items, id);
    RepairSettles(s.kept, s.pending);
    var left := RepairItems(s.kept, s.pending).pending;
    match StatusOf(items, id)
    case Open(i) =>
      forall j | Unanswered(items, j, id) ensures j == i {
        FirstCallUnique(items, i, j, id);
      }
      var k :| k in s.kept && k.kind == items[i].kind && k.message.role.Assistant? &&
        id in CallIds(k.message.toolCalls);
      assert IsTurn(k) == IsTurn(items[i]);
      var c :| c in k.message.toolCalls && c.id == id;
      assert Tidy(k.message) && ValidCall(c);
      if id !in left {
        var k' :| k' in s.kept && IsTurn(k') && k'.message.role.Assistant? && id in CallIds(k'.message.toolCalls);
        CallerUnique(s.kept, k, k', id);
      }
    case _ =>
      forall j ensures !Unanswered(items, j, id) {
        if Unanswered(items, j, id) {
          NotBothAnswers(items, j, id);
        }
      }
  }

  lemma NotBothAnswers(items: seq<Item>, j: nat, id: string)
    requires Unanswered(items, j, id)
    ensures StatusOf(items, id) == Open(j)
  {
    StatusExact(items, id);
    match StatusOf(items, id)
    case Open(i) => FirstCallUnique(items, i, j, id);
    case Done(i) =>
      FirstCallUnique(items, i, j, id);
      assert false;
    case NeverCalled => assert false;
  }

  /**
   The exact strength of `NormalizeItems`: for every item list the resulting request is well paired if and
   only if no unanswered call was first made outside a message or assistant-turn item.
   */
  lemma NormalizedIsPairedExactlyWhen(items: seq<Item>)
    ensures WellPaired(Messages(items)) <==> forall i: nat, id :: Unanswered(items, i, id) ==> IsTurn(items[i])
  {
    var s := ScanItems(items);
    var r := RepairItems(s.kept, s.pending);
    ScanIsOk(items);
    RepairIsSound(s.kept, s.pending);
    var o := Traffic(Bodies(r.out));
    assert Messages(items) == Bodies(r.out);
    assert OpenIn(o) == r.pending;
    if r.pending == {} {
      forall m | m in o && m.Called? ensures Answered(m.id) in o {
        assert m.id !in OpenIn(o);
      }
      forall i: nat, id | Unanswered(items, i, id) ensures IsTurn(items[i]) {
        LeftOpenExact(items, id);
      }
    } else {
      var id :| id in r.pending;
      LeftOpenExact(items, id);
      assert Called(id) in o && Answered(id) !in o;
    }
  }
}
