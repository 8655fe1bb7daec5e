/**
 The projection stage of conversation/item.go: `ExpandItems`, `NormalizeItems` and
 `MessagesFromItems`. The functions define the result; the methods run the source's loops.
 */
module Items {
  import opened Sequences
  import opened Unified

  type NodeId = string
  type BranchId = string

  const MainBranch: BranchId := "main"

  datatype Continuation = Continuation(provider: string, responseId: string)

  datatype ItemKind =
    | MessageItem
    | AssistantTurnItem
    | ToolCallItem
    | ToolResultItem
    | ReasoningItem
    | ContinuationItem
    | ContextFragmentItem
    | CompactionItem
    | AnnotationItem

  /** What a derived item carries instead of a message. */
  datatype Derived =
    | NoDerived
    | DerivedReasoning(part: ContentPart)
    | DerivedCall(call: ToolCall)
    | DerivedResult(result: ToolResult)
    | DerivedContinuation(continuation: Continuation)

  datatype Item = Item(
    kind: ItemKind,
    node: NodeId,
    parent: NodeId,
    branch: BranchId,
    message: Message,
    derived: Derived,
    continuations: seq<Continuation>
  )

  /** The kinds that reach a provider as messages. */
  predicate CarriesMessage(item: Item) {
    item.kind.MessageItem? || item.kind.AssistantTurnItem? || item.kind.ContextFragmentItem? ||
      item.kind.CompactionItem?
  }

  /** The kinds whose unanswered calls get a synthetic result. */
  predicate IsTurn(item: Item) {
    item.kind.MessageItem? || item.kind.AssistantTurnItem?
  }

  function ToItems(messages: seq<Message>): seq<Item> {
    Map((m: Message) => Item(MessageItem, "", "", "", m, NoDerived, []), messages)
  }

  // ---------------------------------------------------------------- expansion

  function DeriveAs(item: Item, kind: ItemKind, derived: Derived): Item {
    item.(kind := kind, message := ZeroMessage, derived := derived)
  }

  /** The typed views of one message: its reasoning, calls, results and continuations. */
  function Derivations(item: Item): (r: seq<Item>)
    ensures forall d | d in r :: !CarriesMessage(d)
  {
    Map((p: ContentPart) => DeriveAs(item, ReasoningItem, DerivedReasoning(p)),
        Filter((p: ContentPart) => p.Reasoning?, item.message.content))
    + Map((c: ToolCall) => DeriveAs(item, ToolCallItem, DerivedCall(c)), item.message.toolCalls)
    + Map((r: ToolResult) => DeriveAs(item, ToolResultItem, DerivedResult(r)), item.message.toolResults)
    + Map((c: Continuation) => DeriveAs(item, ContinuationItem, DerivedContinuation(c)), item.continuations)
  }

  /** The derived items are one for each reasoning part, call, result and continuation, and nothing else. */
  lemma DerivesExactly(item: Item, d: Derived)
    ensures (exists x :: x in Derivations(item) && x.derived == d) <==>
            match d
            case NoDerived => false
            case DerivedReasoning(p) => p.Reasoning? && p in item.message.content
            case DerivedCall(c) => c in item.message.toolCalls
            case DerivedResult(r) => r in item.message.toolResults
            case DerivedContinuation(c) => c in item.continuations
  {
    var reasoning := Filter((p: ContentPart) => p.Reasoning?, item.message.content);
    var asReasoning := Map((p: ContentPart) => DeriveAs(item, ReasoningItem, DerivedReasoning(p)), reasoning);
    var asCalls := Map((c: ToolCall) => DeriveAs(item, ToolCallItem, DerivedCall(c)), item.message.toolCalls);
    var asResults := Map((r: ToolResult) => DeriveAs(item, ToolResultItem, DerivedResult(r)), item.message.toolResults);
    var asContinuations := Map((c: Continuation) => DeriveAs(item, ContinuationItem, DerivedContinuation(c)),
                               item.continuations);
    assert Derivations(item) == asReasoning + asCalls + asResults + asContinuations;
    match d
    case NoDerived =>
    case DerivedReasoning(p) =>
      if p.Reasoning? && p in item.message.content {
        var i :| 0 <= i < |reasoning| && reasoning[i] == p;
        assert asReasoning[i] in Derivations(item);
      }
      if i :| 0 <= i < |asReasoning| && asReasoning[i].derived == d {
        assert reasoning[i] in reasoning && reasoning[i] == p;
      }
    case DerivedCall(c) =>
      if i :| 0 <= i < |item.message.toolCalls| && item.message.toolCalls[i] == c {
        assert asCalls[i] in Derivations(item);
      }
    case DerivedResult(r) =>
      if i :| 0 <= i < |item.message.toolResults| && item.message.toolResults[i] == r {
        assert asResults[i] in Derivations(item);
      }
    case DerivedContinuation(c) =>
      if i :| 0 <= i < |item.continuations| && item.continuations[i] == c {
        assert asContinuations[i] in Derivations(item);
      }
  }

  function ExpandItem(item: Item): seq<Item> {
    if CarriesMessage(item) then [item] + Derivations(item) else [item]
  }

  function ExpandItems(items: seq<Item>): seq<Item> {
    if items == [] then [] else ExpandItems(items[..|items| - 1]) + ExpandItem(items[|items| - 1])
  }

  lemma FilterOne(item: Item)
    ensures Filter(CarriesMessage, [item]) == if CarriesMessage(item) then [item] else []
  {
    assert [item][..0] == [];
  }

  lemma ExpandOne(item: Item)
    ensures Filter(CarriesMessage, ExpandItem(item)) == if CarriesMessage(item) then [item] else []
  {
    FilterOne(item);
    if CarriesMessage(item) {
      FilterAppend(CarriesMessage, [item], Derivations(item));
      NoneKept(CarriesMessage, Derivations(item));
    }
  }

  /** Expansion only adds derived items: the messages a provider sees, and their order, are untouched. */
  lemma {:induction false} ExpandKeepsMessages(items: seq<Item>)
    ensures Filter(CarriesMessage, ExpandItems(items)) == Filter(CarriesMessage, items)
  {
    if items != [] {
      var init, last := items[..|items| - 1], items[|items| - 1];
      ExpandKeepsMessages(init);
      FilterAppend(CarriesMessage, ExpandItems(init), ExpandItem(last));
      ExpandOne(last);
    }
  }

  // ---------------------------------------------------------------- normalisation

  /** First pass over the items: what is kept, and which call ids are open or answered. */
  datatype Scan = Scan(kept: seq<Item>, pending: set<string>, completed: set<string>)

  function CallIds(calls: seq<ToolCall>): set<string> {
    set c | c in calls :: c.id
  }

  function ResultIds(results: seq<ToolResult>): set<string> {
    set r | r in results :: r.callId
  }

  /** Calls that are valid and whose id was not seen before, in this message or an earlier one. */
  function NewCalls(calls: seq<ToolCall>, seen: set<string>): (r: seq<ToolCall>) {
    if calls == [] then []
    else
      var rest := NewCalls(calls[..|calls| - 1], seen);
      var call := calls[|calls| - 1];
      if ValidCall(call) && call.id !in seen && call.id !in CallIds(rest) then rest + [call] else rest
  }

  /** Results that answer an open call and are the first to do so. */
  function FirstAnswers(results: seq<ToolResult>, pending: set<string>, completed: set<string>): (r: seq<ToolResult>) {
    if results == [] then []
    else
      var rest := FirstAnswers(results[..|results| - 1], pending, completed);
      var result := results[|results| - 1];
      if result.callId != "" && result.callId !in completed && result.callId !in ResultIds(rest) &&
        result.callId in pending
      then rest + [CleanResult(result)]
      else rest
  }

  predicate IsBlank(m: Message) {
    m.content == [] && m.toolResults == [] && (m.toolCalls == [] || m.role.Tool?)
  }

  /** The message as it is kept: cleaned, with duplicate calls and orphan results removed. */
  function Trimmed(s: Scan, msg: Message): Message {
    var m := Clean(msg);
    if m.role.Assistant? then m.(toolCalls := NewCalls(m.toolCalls, s.pending + s.completed))
    else if m.role.Tool? then m.(toolResults := FirstAnswers(m.toolResults, s.pending, s.completed))
    else m
  }

  function ScanStep(s: Scan, item: Item): Scan {
    if !CarriesMessage(item) then s
    else
      var m := Trimmed(s, item.message);
      var kept := if IsBlank(m) then s.kept else s.kept + [item.(message := m)];
      if m.role.Assistant? then Scan(kept, s.pending + CallIds(m.toolCalls), s.completed)
      else if m.role.Tool? then
        Scan(kept, s.pending - ResultIds(m.toolResults), s.completed + ResultIds(m.toolResults))
      else s.(kept := kept)
  }

  function ScanItems(items: seq<Item>): Scan {
    if items == [] then Scan([], {}, {}) else ScanStep(ScanItems(items[..|items| - 1]), items[|items| - 1])
  }

  const MissingText := "[Tool result missing]"

  function MissingResult(call: ToolCall): ToolResult {
    ToolResult(call.id, call.name, [Text(MissingText, "")], true)
  }

  /** Calls of one message that are still open when the message is reached in the second pass. */
  function OpenCalls(calls: seq<ToolCall>, pending: set<string>): (r: seq<ToolCall>) {
    if calls == [] then []
    else
      var rest := OpenCalls(calls[..|calls| - 1], pending);
      var call := calls[|calls| - 1];
      if call.id != "" && call.id in pending && call.id !in CallIds(rest) then rest + [call] else rest
  }

  function SyntheticItem(calls: seq<ToolCall>): Item {
    Item(MessageItem, "", "", "", ZeroMessage.(role := Tool, toolResults := Map(MissingResult, calls)), NoDerived, [])
  }

  /** Second pass: what has been written out, and the call ids still open. */
  datatype Repair = Repair(out: seq<Item>, pending: set<string>)

  function RepairStep(r: Repair, item: Item): Repair {
    var open := if IsTurn(item) && item.message.role.Assistant? then OpenCalls(item.message.toolCalls, r.pending)
                else [];
    Repair(r.out + [item] + (if open == [] then [] else [SyntheticItem(open)]), r.pending - CallIds(open))
  }

  function RepairItems(kept: seq<Item>, pending: set<string>): Repair {
    if kept == [] then Repair([], pending)
    else RepairStep(RepairItems(kept[..|kept| - 1], pending), kept[|kept| - 1])
  }

  function Normalize(items: seq<Item>): seq<Item> {
    var s := ScanItems(items);
    RepairItems(s.kept, s.pending).out
  }

  function Messages(items: seq<Item>): seq<Message> {
    Map((item: Item) => item.message, Normalize(items))
  }

  // ---------------------------------------------------------------- the source's loops

  method SanitizeToolCalls(calls: seq<ToolCall>) returns (out: seq<ToolCall>)
    ensures out == Filter(ValidCall, calls)
  {
    out := [];
    for i := 0 to |calls|
      invariant out == Filter(ValidCall, calls[..i])
    {
      PrefixStep(calls, i);
      if !(calls[i].id == "" || calls[i].name == "") {
        out := out + [calls[i]];
      }
    }
    assert calls[..|calls|] == calls;
  }

  /** Marks each kept result as answered while it goes, exactly as the caller's `completed` map is updated. */
  method SanitizeToolResults(results: seq<ToolResult>, pending: set<string>, completed: set<string>)
    returns (out: seq<ToolResult>, completed': set<string>)
    ensures out == FirstAnswers(results, pending, completed)
    ensures completed' == completed + ResultIds(out)
  {
    out, completed' := [], completed;
    for i := 0 to |results|
      invariant out == FirstAnswers(results[..i], pending, completed)
      invariant completed' == completed + ResultIds(out)
    {
      PrefixStep(results, i);
      var result := results[i];
      if result.callId == "" || result.callId in completed' || result.callId !in pending {
        continue;
      }
      var content := SanitizeContentParts(result.content);
      var before := out;
      out := out + [result.(content := content)];
      completed' := completed' + {result.callId};
      ResultIdsAppend(before, result.(content := content));
    }
    assert results[..|results|] == results;
  }

  lemma ResultIdsAppend(results: seq<ToolResult>, r: ToolResult)
    ensures ResultIds(results + [r]) == ResultIds(results) + {r.callId}
  {
    forall x | x in ResultIds(results) + {r.callId} ensures x in ResultIds(results + [r]) {
      if x == r.callId {
        assert r in results + [r];
      } else {
        var y :| y in results && y.callId == x;
        assert y in results + [r];
      }
    }
  }

  lemma CallIdsAppend(calls: seq<ToolCall>, c: ToolCall)
    ensures CallIds(calls + [c]) == CallIds(calls) + {c.id}
  {
    forall x | x in CallIds(calls) + {c.id} ensures x in CallIds(calls + [c]) {
      if x == c.id {
        assert c in calls + [c];
      } else {
        var y :| y in calls && y.id == x;
        assert y in calls + [c];
      }
    }
  }

  lemma {:induction false} NewCallsAfterValid(calls: seq<ToolCall>, seen: set<string>)
    ensures NewCalls(Filter(ValidCall, calls), seen) == NewCalls(calls, seen)
  {
    if calls != [] {
      NewCallsAfterValid(calls[..|calls| - 1], seen);
    }
  }

  method FilterNewCalls(calls: seq<ToolCall>, pending: set<string>, completed: set<string>)
    returns (out: seq<ToolCall>, pending': set<string>)
    requires forall c | c in calls :: ValidCall(c)
    ensures out == NewCalls(calls, pending + completed)
    ensures pending' == pending + CallIds(out)
  {
    out, pending' := [], pending;
    for i := 0 to |calls|
      invariant out == NewCalls(calls[..i], pending + completed)
      invariant pending' == pending + CallIds(out)
    {
      PrefixStep(calls, i);
      if calls[i].id in completed || calls[i].id in pending' {
        continue;
      }
      CallIdsAppend(out, calls[i]);
      pending' := pending' + {calls[i].id};
      out := out + [calls[i]];
    }
    assert calls[..|calls|] == calls;
  }

  method ExpandAll(items: seq<Item>) returns (out: seq<Item>)
    ensures out == ExpandItems(items)
  {
    out := [];
    for i := 0 to |items|
      invariant out == ExpandItems(items[..i])
    {
      PrefixStep(items, i);
      out := out + ExpandItem(items[i]);
    }
    assert items[..|items|] == items;
  }

  lemma {:induction false} ScanIgnoresDerived(items: seq<Item>)
    ensures ScanItems(items) == ScanItems(Filter(CarriesMessage, items))
  {
    if items != [] {
      ScanIgnoresDerived(items[..|items| - 1]);
    }
  }

  lemma {:induction false} NothingToRepair(kept: seq<Item>)
    ensures RepairItems(kept, {}) == Repair(kept, {})
  {
    if kept != [] {
      NothingToRepair(kept[..|kept| - 1]);
      var item := kept[|kept| - 1];
      NoOpenCalls(item.message.toolCalls, {});
      assert kept[..|kept| - 1] + [item] == kept;
    }
  }

  lemma {:induction false} NoOpenCalls(calls: seq<ToolCall>, pending: set<string>)
    requires forall c | c in calls :: c.id !in pending
    ensures OpenCalls(calls, pending) == []
  {
    if calls != [] {
      NoOpenCalls(calls[..|calls| - 1], pending);
    }
  }

  method MissingResults(calls: seq<ToolCall>, pending: set<string>)
    returns (missing: seq<ToolResult>, pending': set<string>)
    ensures missing == Map(MissingResult, OpenCalls(calls, pending))
    ensures pending' == pending - CallIds(OpenCalls(calls, pending))
  {
    missing, pending' := [], pending;
    for i := 0 to |calls|
      invariant missing == Map(MissingResult, OpenCalls(calls[..i], pending))
      invariant pending' == pending - CallIds(OpenCalls(calls[..i], pending))
    {
      PrefixStep(calls, i);
      if calls[i].id == "" || calls[i].id !in pending' {
        continue;
      }
      CallIdsAppend(OpenCalls(calls[..i], pending), calls[i]);
      MapSnoc(MissingResult, OpenCalls(calls[..i], pending), calls[i]);
      missing := missing + [MissingResult(calls[i])];
      pending' := pending' - {calls[i].id};
    }
    assert calls[..|calls|] == calls;
  }

  method RepairPass(kept: seq<Item>, pending: set<string>) returns (out: seq<Item>)
    ensures out == RepairItems(kept, pending).out
  {
    out := [];
    var open := pending;
    for i := 0 to |kept|
      invariant Repair(out, open) == RepairItems(kept[..i], pending)
    {
      PrefixStep(kept, i);
      out := out + [kept[i]];
      if !IsTurn(kept[i]) || !kept[i].message.role.Assistant? {
        continue;
      }
      var missing, open' := MissingResults(kept[i].message.toolCalls, open);
      if |missing| > 0 {
        out := out + [Item(MessageItem, "", "", "", ZeroMessage.(role := Tool, toolResults := missing), NoDerived, [])];
      }
      open := open';
    }
    assert kept[..|kept|] == kept;
  }

  /** One item of the first pass. */
  method ScanNext(kept: seq<Item>, pending: set<string>, completed: set<string>, item: Item)
    returns (kept': seq<Item>, pending': set<string>, completed': set<string>)
    ensures Scan(kept', pending', completed') == ScanStep(Scan(kept, pending, completed), item)
  {
    kept', pending', completed' := kept, pending, completed;
    if item.kind != MessageItem && item.kind != AssistantTurnItem && item.kind != ContextFragmentItem &&
      item.kind != CompactionItem
    {
      return;
    }
    var msg := SanitizeMessageForRequest(item.message);
    var content := SanitizeContentParts(msg.content);
    msg := msg.(content := content);
    assert msg == Clean(item.message);
    if msg.role == Assistant {
      var sanitized := SanitizeToolCalls(msg.toolCalls);
      NewCallsAfterValid(msg.toolCalls, pending + completed);
      var filtered;
      filtered, pending' := FilterNewCalls(sanitized, pending, completed);
      msg := msg.(toolCalls := filtered);
    }
    if msg.role == Tool {
      var results;
      results, completed' := SanitizeToolResults(msg.toolResults, pending, completed);
      msg := msg.(toolResults := results);
      pending' := pending - ResultIds(results);
      if |msg.toolResults| == 0 && |msg.content| == 0 {
        return;
      }
    }
    if |msg.content| == 0 && |msg.toolCalls| == 0 && |msg.toolResults| == 0 {
      return;
    }
    kept' := kept + [item.(message := msg)];
  }

  method NormalizeItems(items: seq<Item>) returns (out: seq<Item>)
    ensures out == Normalize(items)
  {
    var expanded := ExpandAll(items);
    var kept: seq<Item> := [];
    var pending: set<string>, completed: set<string> := {}, {};
    for i := 0 to |expanded|
      invariant Scan(kept, pending, completed) == ScanItems(expanded[..i])
    {
      PrefixStep(expanded, i);
      kept, pending, completed := ScanNext(kept, pending, completed, expanded[i]);
    }
    assert expanded[..|expanded|] == expanded;
    ExpandKeepsMessages(items);
    ScanIgnoresDerived(expanded);
    ScanIgnoresDerived(items);
    if pending == {} {
      NothingToRepair(kept);
      return kept;
    }
    out := RepairPass(kept, pending);
  }
}
