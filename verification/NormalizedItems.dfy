/**
 What `NormalizeItems` (conversation/item.go) hands to a provider, told from the input items alone: which parts,
 calls and results of every item come out, which items vanish, and where a missing result is written in. None of
 the definitions here follows the source's two passes; `NormalizedExactly` proves that the passes compute them.
 */
module NormalizedItems {
  import opened Sequences
  import opened Unified
  import opened Items
  import opened Pairing

  // ---------------------------------------------------------------- what comes out of one item

  /** An image or a file needs a source; an assistant's reasoning needs its signature. */
  predicate MayShow(role: Role, part: ContentPart) {
    && (part.Image? || part.File? ==> part.source.url != "" || part.source.base64 != "")
    && (role.Assistant? && part.Reasoning? ==> part.signature != "")
  }

  function Parts(role: Role, content: seq<ContentPart>): seq<ContentPart> {
    Filter((p: ContentPart) => MayShow(role, p), content)
  }

  predicate ForProvider(kind: ItemKind) {
    kind == MessageItem || kind == AssistantTurnItem || kind == ContextFragmentItem || kind == CompactionItem
  }

  /** Call `j` of item `i` is valid and the first one with its id. */
  ghost predicate FirstCallAt(items: seq<Item>, i: nat, j: nat)
    requires i < |items|
  {
    var calls := items[i].message.toolCalls;
    && j < |calls| && calls[j].id != "" && calls[j].name != ""
    && (forall k | 0 <= k < i :: !Calls(items[k], calls[j].id))
    && (forall k | 0 <= k < j :: !(calls[k].id == calls[j].id && calls[k].name != ""))
  }

  ghost function CallsKept(items: seq<Item>, i: nat, n: nat): seq<ToolCall>
    requires i < |items| && n <= |items[i].message.toolCalls|
  {
    if n == 0 then []
    else if FirstCallAt(items, i, n - 1) then CallsKept(items, i, n - 1) + [items[i].message.toolCalls[n - 1]]
    else CallsKept(items, i, n - 1)
  }

  /** The id was called before item `i` and nothing has reported a result for it since. */
  ghost predicate OpenAt(items: seq<Item>, i: nat, id: string)
    requires i <= |items|
  {
    exists k: nat | k < i :: FirstCall(items, k, id) && NoReport(items, k + 1, i, id)
  }

  ghost predicate NoReport(items: seq<Item>, from: nat, to: nat, id: string)
    requires to <= |items|
  {
    forall l | from <= l < to :: !Reports(items[l], id)
  }

  /** No result before position `j` is for the same call. */
  ghost predicate AnswersNew(results: seq<ToolResult>, j: nat)
    requires j < |results|
  {
    forall k | 0 <= k < j :: results[k].callId != results[j].callId
  }

  /** Result `j` of item `i` is the first answer to a call that is open there. */
  ghost predicate FirstAnswerAt(items: seq<Item>, i: nat, j: nat)
    requires i < |items|
  {
    var results := items[i].message.toolResults;
    j < |results| && results[j].callId != "" && OpenAt(items, i, results[j].callId) && AnswersNew(results, j)
  }

  ghost function ResultsKept(items: seq<Item>, i: nat, n: nat): seq<ToolResult>
    requires i < |items| && n <= |items[i].message.toolResults|
  {
    if n == 0 then []
    else
      var r := items[i].message.toolResults[n - 1];
      ResultsKept(items, i, n - 1) +
      if FirstAnswerAt(items, i, n - 1) then [r.(content := Parts(Tool, r.content))] else []
  }

  /** The same role, name, phase and extras; the parts, calls and results that may go out. */
  ghost function KeptMessage(items: seq<Item>, i: nat): Message
    requires i < |items|
  {
    var m := items[i].message;
    Message(m.role,
            if m.role.Assistant? && "resp_" <= m.id then "" else m.id,
            m.name,
            m.phase,
            Parts(m.role, m.content),
            if m.role.Assistant? then CallsKept(items, i, |m.toolCalls|) else m.toolCalls,
            if m.role.Tool? then ResultsKept(items, i, |m.toolResults|) else m.toolResults,
            m.meta)
  }

  /**
   Nothing of the item is left: no part that may be shown and, for an assistant, no first call and no result; for a
   tool, no first answer; for any other role, no call and no result.
   */
  ghost predicate Vanishes(items: seq<Item>, i: nat)
    requires i < |items|
  {
    var m := items[i].message;
    !ForProvider(items[i].kind) ||
    (&& (forall p | p in m.content :: !MayShow(m.role, p))
     && (if m.role.Assistant? then
           m.toolResults == [] && forall j | 0 <= j < |m.toolCalls| :: !FirstCallAt(items, i, j)
         else if m.role.Tool? then
           forall j | 0 <= j < |m.toolResults| :: !FirstAnswerAt(items, i, j)
         else
           m.toolCalls == [] && m.toolResults == []))
  }

  /** The first calls of item `i` that nothing answers later. */
  ghost function CallsMissed(items: seq<Item>, i: nat, n: nat): seq<ToolCall>
    requires i < |items| && n <= |items[i].message.toolCalls|
  {
    if n == 0 then []
    else
      var c := items[i].message.toolCalls[n - 1];
      CallsMissed(items, i, n - 1) +
      if FirstCallAt(items, i, n - 1) && NoReport(items, i + 1, |items|, c.id) then [c] else []
  }

  /** A tool message that reports each of the calls as missing. */
  function MissingItem(calls: seq<ToolCall>): Item {
    var results := Map((c: ToolCall) => ToolResult(c.id, c.name, [Text("[Tool result missing]", "")], true), calls);
    Item(MessageItem, "", "", "", Message(Tool, "", "", "", [], [], results, NoMeta), NoDerived, [])
  }

  ghost function MissingAfter(items: seq<Item>, i: nat): seq<Item>
    requires i < |items|
  {
    var m := items[i].message;
    if m.role.Assistant? && (items[i].kind == MessageItem || items[i].kind == AssistantTurnItem) &&
      CallsMissed(items, i, |m.toolCalls|) != []
    then [MissingItem(CallsMissed(items, i, |m.toolCalls|))]
    else []
  }

  ghost function ShownAt(items: seq<Item>, i: nat): seq<Item>
    requires i < |items|
  {
    if Vanishes(items, i) then []
    else [items[i].(message := KeptMessage(items, i))] + MissingAfter(items, i)
  }

  ghost function Rows(items: seq<Item>): seq<seq<Item>> {
    seq(|items|, i requires 0 <= i < |items| => ShownAt(items, i))
  }

  // ---------------------------------------------------------------- the state of the first pass

  lemma {:induction false} CallsBefore(items: seq<Item>, n: nat, k: nat, id: string)
    requires k < n <= |items|
    ensures FirstCall(items[..n], k, id) <==> FirstCall(items, k, id)
  {
    assert forall j | 0 <= j <= k :: items[..n][j] == items[j];
  }

  lemma {:induction false} SeenExactly(items: seq<Item>, n: nat, id: string)
    requires n <= |items|
    ensures var s := ScanItems(items[..n]);
            id in s.pending + s.completed <==> exists k :: 0 <= k < n && Calls(items[k], id)
  {
    ScanStatus(items[..n], id);
    StatusExact(items[..n], id);
    assert forall k | 0 <= k < n :: items[..n][k] == items[k];
  }

  lemma {:induction false} OpenExactly(items: seq<Item>, n: nat, id: string)
    requires n <= |items|
    ensures id in ScanItems(items[..n]).pending <==> OpenAt(items, n, id)
  {
    var init := items[..n];
    ScanStatus(init, id);
    StatusExact(init, id);
    assert forall k | 0 <= k < n :: init[k] == items[k];
    match StatusOf(init, id) {
      case NeverCalled =>
      case Open(i) =>
        CallsBefore(items, n, i, id);
        assert NoReport(items, i + 1, n, id);
      case Done(i) =>
        CallsBefore(items, n, i, id);
        forall k: nat | k < n && FirstCall(items, k, id) ensures !NoReport(items, k + 1, n, id) {
          FirstCallUnique(items, i, k, id);
        }
    }
  }

  lemma {:induction false} OpenOrDone(items: seq<Item>)
    ensures ScanItems(items).pending !! ScanItems(items).completed
  {
    ScanIsOk(items);
    OpenNotDone(Traffic(Bodies(ScanItems(items).kept)));
  }

  // ---------------------------------------------------------------- one message of the first pass

  lemma {:induction false} FilterBoth<T>(p: T -> bool, q: T -> bool, both: T -> bool, s: seq<T>)
    requires forall x | x in s :: both(x) <==> p(x) && q(x)
    ensures Filter(p, Filter(q, s)) == Filter(both, s)
  {
    if s != [] {
      FilterBoth(p, q, both, s[..|s| - 1]);
      if q(s[|s| - 1]) {
        SnocInit(Filter(q, s[..|s| - 1]), s[|s| - 1]);
      }
    }
  }

  lemma {:induction false} PartsExactly(m: Message)
    ensures Clean(m).content == Parts(m.role, m.content)
    ensures forall r: ToolResult :: CleanResult(r).content == Parts(Tool, r.content)
  {
    if m.role.Assistant? {
      FilterBoth(HasSource, Replayable, (p: ContentPart) => MayShow(m.role, p), m.content);
    } else {
      FilterSame(HasSource, (p: ContentPart) => MayShow(m.role, p), m.content);
    }
    forall r: ToolResult ensures CleanResult(r).content == Parts(Tool, r.content) {
      FilterSame(HasSource, (p: ContentPart) => MayShow(Tool, p), r.content);
    }
  }

  /** Of the calls so far, a repeated id is one that was kept or one seen in an earlier message. */
  lemma {:induction false} CallRepeats(calls: seq<ToolCall>, seen: set<string>, id: string)
    requires id !in seen && id != ""
    ensures id in CallIds(NewCalls(calls, seen)) <==>
            exists k :: 0 <= k < |calls| && calls[k].id == id && calls[k].name != ""
  {
    NewCallsFresh(calls, seen);
    if k :| 0 <= k < |calls| && calls[k].id == id && calls[k].name != "" {
      assert calls[k] in calls && ValidCall(calls[k]);
    }
  }

  lemma {:induction false} CallsExactly(items: seq<Item>, i: nat, n: nat, seen: set<string>)
    requires i < |items| && n <= |items[i].message.toolCalls|
    requires forall id :: id in seen <==> exists k :: 0 <= k < i && Calls(items[k], id)
    ensures NewCalls(items[i].message.toolCalls[..n], seen) == CallsKept(items, i, n)
  {
    var calls := items[i].message.toolCalls;
    if n != 0 {
      CallsExactly(items, i, n - 1, seen);
      PrefixStep(calls, n - 1);
      if calls[n - 1].id !in seen && calls[n - 1].id != "" {
        CallRepeats(calls[..n - 1], seen, calls[n - 1].id);
      }
    }
  }

  lemma {:induction false} AnswerRepeats(results: seq<ToolResult>, n: nat, pending: set<string>, completed: set<string>)
    requires n < |results| && results[n].callId in pending && results[n].callId !in completed && results[n].callId != ""
    ensures results[n].callId !in ResultIds(FirstAnswers(results[..n], pending, completed)) <==> AnswersNew(results, n)
  {
    FirstAnswersFresh(results[..n], pending, completed);
    assert forall k | 0 <= k < n :: results[k] in results[..n];
    assert forall r | r in results[..n] :: exists k :: 0 <= k < n && results[k] == r;
  }

  lemma {:induction false} AnswersNext(results: seq<ToolResult>, n: nat, pending: set<string>, completed: set<string>)
    requires n < |results| && pending !! completed
    ensures var r := results[n];
            FirstAnswers(results[..n + 1], pending, completed) == FirstAnswers(results[..n], pending, completed) +
            if r.callId != "" && r.callId in pending && AnswersNew(results, n)
            then [r.(content := Parts(Tool, r.content))] else []
  {
    PrefixStep(results, n);
    if results[n].callId in pending && results[n].callId != "" {
      AnswerRepeats(results, n, pending, completed);
    }
    FilterSame(HasSource, (p: ContentPart) => MayShow(Tool, p), results[n].content);
  }

  lemma {:induction false} AnswersExactly(items: seq<Item>, i: nat, n: nat, pending: set<string>,
                                          completed: set<string>)
    requires i < |items| && n <= |items[i].message.toolResults| && pending !! completed
    requires forall id :: id in pending <==> OpenAt(items, i, id)
    ensures FirstAnswers(items[i].message.toolResults[..n], pending, completed) == ResultsKept(items, i, n)
  {
    if n != 0 {
      AnswersExactly(items, i, n - 1, pending, completed);
      AnswersNext(items[i].message.toolResults, n - 1, pending, completed);
    }
  }

  lemma {:induction false} TrimmedExactly(items: seq<Item>, i: nat)
    requires i < |items|
    ensures Trimmed(ScanItems(items[..i]), items[i].message) == KeptMessage(items, i)
  {
    var s, m := ScanItems(items[..i]), items[i].message;
    PartsExactly(m);
    if m.role.Assistant? {
      forall id ensures id in s.pending + s.completed <==> exists k :: 0 <= k < i && Calls(items[k], id) {
        SeenExactly(items, i, id);
      }
      CallsExactly(items, i, |m.toolCalls|, s.pending + s.completed);
      assert m.toolCalls[..|m.toolCalls|] == m.toolCalls;
    } else if m.role.Tool? {
      forall id ensures id in s.pending <==> OpenAt(items, i, id) {
        OpenExactly(items, i, id);
      }
      OpenOrDone(items[..i]);
      AnswersExactly(items, i, |m.toolResults|, s.pending, s.completed);
      assert m.toolResults[..|m.toolResults|] == m.toolResults;
    }
  }

  lemma {:induction false} NoCallKept(items: seq<Item>, i: nat, n: nat)
    requires i < |items| && n <= |items[i].message.toolCalls|
    ensures CallsKept(items, i, n) == [] <==> forall j | 0 <= j < n :: !FirstCallAt(items, i, j)
  {
    if n != 0 { NoCallKept(items, i, n - 1); }
  }

  lemma {:induction false} NoResultKept(items: seq<Item>, i: nat, n: nat)
    requires i < |items| && n <= |items[i].message.toolResults|
    ensures ResultsKept(items, i, n) == [] <==> forall j | 0 <= j < n :: !FirstAnswerAt(items, i, j)
  {
    if n != 0 { NoResultKept(items, i, n - 1); }
  }

  lemma {:induction false} NoPartShown(m: Message)
    ensures Parts(m.role, m.content) == [] <==> forall p | p in m.content :: !MayShow(m.role, p)
  {
    var parts := Parts(m.role, m.content);
    assert forall p | p in m.content && MayShow(m.role, p) :: p in parts;
    assert parts != [] ==> parts[0] in parts;
  }

  /** An item vanishes exactly when the first pass drops it. */
  lemma {:induction false} VanishesExactly(items: seq<Item>, i: nat)
    requires i < |items|
    ensures Vanishes(items, i) <==> !CarriesMessage(items[i]) || IsBlank(KeptMessage(items, i))
  {
    var m := items[i].message;
    NoPartShown(m);
    NoCallKept(items, i, |m.toolCalls|);
    NoResultKept(items, i, |m.toolResults|);
  }

  // ---------------------------------------------------------------- the first pass

  ghost function KeptWith(items: seq<Item>, n: nat, kept: seq<Item>): seq<Item>
    requires n < |items|
  {
    if Vanishes(items, n) then kept else kept + [items[n].(message := KeptMessage(items, n))]
  }

  ghost function KeptUpTo(items: seq<Item>, n: nat): seq<Item>
    requires n <= |items|
  {
    if n == 0 then [] else KeptWith(items, n - 1, KeptUpTo(items, n - 1))
  }

  lemma {:induction false} ScanNextExactly(items: seq<Item>, n: nat)
    requires n < |items|
    ensures var s := ScanItems(items[..n]);
            ScanStep(s, items[n]).kept == KeptWith(items, n, s.kept)
  {
    TrimmedExactly(items, n);
    VanishesExactly(items, n);
  }

  lemma {:induction false} ScanExactly(items: seq<Item>, n: nat)
    requires n <= |items|
    ensures ScanItems(items[..n]).kept == KeptUpTo(items, n)
  {
    if n != 0 {
      ScanExactly(items, n - 1);
      PrefixStep(items, n - 1);
      ScanNextExactly(items, n - 1);
    }
  }

  // ---------------------------------------------------------------- the second pass

  /** What the second pass still holds open: every open id that no item before `n` has called. */
  ghost predicate StillOpen(items: seq<Item>, n: nat, pending: set<string>, left: set<string>)
    requires n <= |items|
  {
    left <= pending && forall id | id in pending && forall k | 0 <= k < n :: !Calls(items[k], id) :: id in left
  }

  lemma {:induction false} KeptCallFirst(items: seq<Item>, i: nat, n: nat, c: ToolCall)
    requires i < |items| && n <= |items[i].message.toolCalls| && c in CallsKept(items, i, n)
    ensures c.id != "" && (forall k | 0 <= k < i :: !Calls(items[k], c.id))
    ensures ForProvider(items[i].kind) && items[i].message.role.Assistant? ==> FirstCall(items, i, c.id)
  {
    if c !in CallsKept(items, i, n - 1) {
      assert c in items[i].message.toolCalls && ValidCall(c);
    } else {
      KeptCallFirst(items, i, n - 1, c);
    }
  }

  lemma {:induction false} UnansweredOpen(items: seq<Item>, i: nat, id: string)
    requires i < |items| && FirstCall(items, i, id)
    ensures OpenAt(items, |items|, id) <==> NoReport(items, i + 1, |items|, id)
  {
    forall k: nat | k < |items| && FirstCall(items, k, id) ensures k == i {
      FirstCallUnique(items, i, k, id);
    }
  }

  lemma {:induction false} KeptCallOnce(items: seq<Item>, i: nat, n: nat, id: string)
    requires i < |items| && n <= |items[i].message.toolCalls|
    requires var calls := items[i].message.toolCalls;
             forall k | 0 <= k < n :: !(calls[k].id == id && calls[k].name != "")
    ensures id !in CallIds(CallsKept(items, i, n))
  {
    if n != 0 {
      KeptCallOnce(items, i, n - 1, id);
    }
  }

  lemma {:induction false} OpenCallsSnoc(kept: seq<ToolCall>, c: ToolCall, left: set<string>)
    requires c.id != "" && c.id !in CallIds(kept) && CallIds(OpenCalls(kept, left)) <= CallIds(kept)
    ensures OpenCalls(kept + [c], left) == OpenCalls(kept, left) + if c.id in left then [c] else []
    ensures CallIds(OpenCalls(kept + [c], left)) <= CallIds(kept + [c])
  {
    SnocInit(kept, c);
    CallIdsAppend(kept, c);
    CallIdsAppend(OpenCalls(kept, left), c);
  }

  lemma {:induction false} MissedExactly(items: seq<Item>, i: nat, j: nat, left: set<string>)
    requires i < |items| && ForProvider(items[i].kind) && items[i].message.role.Assistant?
    requires StillOpen(items, i, ScanItems(items).pending, left) && FirstCallAt(items, i, j)
    ensures var id := items[i].message.toolCalls[j].id; id in left <==> NoReport(items, i + 1, |items|, id)
  {
    var c := items[i].message.toolCalls[j];
    assert c in CallsKept(items, i, j + 1);
    KeptCallFirst(items, i, j + 1, c);
    UnansweredOpen(items, i, c.id);
    OpenExactly(items, |items|, c.id);
    assert items[..|items|] == items;
  }

  /** The calls the second pass finds open at item `i` are the first calls that nothing answers. */
  lemma {:induction false} OpenCallsExactly(items: seq<Item>, i: nat, n: nat, left: set<string>)
    requires i < |items| && n <= |items[i].message.toolCalls|
    requires ForProvider(items[i].kind) && items[i].message.role.Assistant?
    requires StillOpen(items, i, ScanItems(items).pending, left)
    ensures OpenCalls(CallsKept(items, i, n), left) == CallsMissed(items, i, n)
    ensures CallIds(CallsMissed(items, i, n)) <= CallIds(CallsKept(items, i, n))
  {
    if n != 0 {
      OpenCallsExactly(items, i, n - 1, left);
      if FirstCallAt(items, i, n - 1) {
        var c := items[i].message.toolCalls[n - 1];
        KeptCallOnce(items, i, n - 1, c.id);
        OpenCallsSnoc(CallsKept(items, i, n - 1), c, left);
        MissedExactly(items, i, n - 1, left);
      }
    }
  }

  lemma {:induction false} MissingAlike(calls: seq<ToolCall>)
    ensures SyntheticItem(calls) == MissingItem(calls)
  {}

  lemma {:induction false} CallsKeptCalled(items: seq<Item>, i: nat, id: string)
    requires i < |items| && ForProvider(items[i].kind) && items[i].message.role.Assistant?
    requires id in CallIds(CallsKept(items, i, |items[i].message.toolCalls|))
    ensures Calls(items[i], id)
  {
    var c :| c in CallsKept(items, i, |items[i].message.toolCalls|) && c.id == id;
    KeptCallFirst(items, i, |items[i].message.toolCalls|, c);
  }

  /** One kept item of the second pass. */
  lemma {:induction false} RepairNext(items: seq<Item>, n: nat, r: Repair)
    requires n < |items| && !Vanishes(items, n) && StillOpen(items, n, ScanItems(items).pending, r.pending)
    ensures var item := items[n].(message := KeptMessage(items, n));
            && RepairStep(r, item).out == r.out + ShownAt(items, n)
            && StillOpen(items, n + 1, ScanItems(items).pending, RepairStep(r, item).pending)
  {
    var item := items[n].(message := KeptMessage(items, n));
    if IsTurn(item) && item.message.role.Assistant? {
      var calls := |items[n].message.toolCalls|;
      var open := CallsMissed(items, n, calls);
      OpenCallsExactly(items, n, calls, r.pending);
      MissingAlike(open);
      Assoc(r.out, [item], MissingAfter(items, n));
      forall id | id in CallIds(open) ensures Calls(items[n], id) {
        CallsKeptCalled(items, n, id);
      }
    } else {
      assert RepairStep(r, item).out == r.out + [item];
    }
  }

  lemma {:induction false} RepairSnoc(kept: seq<Item>, item: Item, pending: set<string>)
    ensures RepairItems(kept + [item], pending) == RepairStep(RepairItems(kept, pending), item)
  {
    SnocInit(kept, item);
  }

  /** One item of the second pass, kept or not. */
  lemma {:induction false} RepairWith(items: seq<Item>, n: nat, kept: seq<Item>)
    requires n < |items|
    requires StillOpen(items, n, ScanItems(items).pending, RepairItems(kept, ScanItems(items).pending).pending)
    ensures var pending := ScanItems(items).pending;
            var r, r' := RepairItems(kept, pending), RepairItems(KeptWith(items, n, kept), pending);
            r'.out == r.out + ShownAt(items, n) && StillOpen(items, n + 1, pending, r'.pending)
  {
    if !Vanishes(items, n) {
      RepairSnoc(kept, items[n].(message := KeptMessage(items, n)), ScanItems(items).pending);
      RepairNext(items, n, RepairItems(kept, ScanItems(items).pending));
    }
  }

  lemma {:induction false} RepairExactly(items: seq<Item>, n: nat)
    requires n <= |items|
    ensures var r := RepairItems(KeptUpTo(items, n), ScanItems(items).pending);
            r.out == Flat(Rows(items)[..n]) && StillOpen(items, n, ScanItems(items).pending, r.pending)
  {
    if n != 0 {
      RepairExactly(items, n - 1);
      FlatStep(Rows(items), n - 1);
      RepairWith(items, n - 1, KeptUpTo(items, n - 1));
    }
  }

  // ---------------------------------------------------------------- main results

  /** Normalisation gives exactly what the items' own parts, first calls and first answers say. */
  lemma {:induction false} NormalizedExactly(items: seq<Item>)
    ensures Normalize(items) == Flat(Rows(items))
  {
    assert items[..|items|] == items && Rows(items)[..|items|] == Rows(items);
    ScanExactly(items, |items|);
    RepairExactly(items, |items|);
  }

  /** Where what item `i` gives begins among the messages of a request. */
  ghost function PlaceOf(items: seq<Item>, i: nat): nat
    requires i < |items|
  {
    |Flat(Rows(items)[..i])|
  }

  /** An item that does not vanish comes out at its place, as its own message with what may go out of it. */
  lemma {:induction false} ComesOut(items: seq<Item>, i: nat)
    requires i < |items| && !Vanishes(items, i)
    ensures PlaceOf(items, i) < |Messages(items)| && Messages(items)[PlaceOf(items, i)] == KeptMessage(items, i)
  {
    NormalizedExactly(items);
    FlatAt(Rows(items), i);
  }

  /** Messages come out in the order of their items, each at a place of its own. */
  lemma {:induction false} InOrder(items: seq<Item>, i: nat, j: nat)
    requires i < j < |items| && !Vanishes(items, i)
    ensures PlaceOf(items, i) < PlaceOf(items, j)
  {
    FlatStep(Rows(items), i);
    FlatGrows(Rows(items), i + 1, j);
  }
}
