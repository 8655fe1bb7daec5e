/**
 The request a provider receives (conversation/projection_policy.go `defaultProject`): the projected history
 followed by the turn's own messages, or only the latter when the provider already holds the history.
 */
module Requests {
  import opened Sequences
  import opened Unified
  import opened Items
  import opened Pairing
  import opened Normalization
  import opened NormalizedItems
  import opened Projection
  import opened Compaction

  method StripForRequest(items: seq<Item>) returns (messages: seq<Message>)
    requires forall k | k in items :: CarriesMessage(k) && Clean(k.message) == k.message
    ensures messages == Bodies(items)
  {
    messages := [];
    for i := 0 to |items|
      invariant messages == Bodies(items[..i])
    {
      assert items[i] in items;
      ForRequestAfterClean(items[i].message);
      if items[i].kind == MessageItem || items[i].kind == AssistantTurnItem
         || items[i].kind == ContextFragmentItem || items[i].kind == CompactionItem {
        var m := SanitizeMessageForRequest(items[i].message);
        messages := messages + [m];
      }
    }
    assert items[..|items|] == items;
  }

  /** Strips once more what may not be replayed; normalisation already did. */
  method MessagesFromItems(items: seq<Item>) returns (messages: seq<Message>)
    ensures messages == Messages(items) == Bodies(Flat(Rows(items)))
  {
    var normalized := NormalizeItems(items);
    NormalizedIsStable(items);
    NormalizedExactly(items);
    messages := StripForRequest(normalized);
  }

  /** The history's messages come first and the turn's own messages are all that follows. */
  ghost predicate HistoryThenTurn(history: seq<Item>, pending: seq<Item>, messages: seq<Message>) {
    && Messages(history) <= messages
    && messages[|Messages(history)|..] == Messages(pending)
  }

  /** `continued`: native continuation is allowed, not already requested, and the branch head supports it. */
  method DefaultProject(history: seq<Item>, pending: seq<Item>, continued: bool) returns (messages: seq<Message>)
    ensures continued ==> messages == Messages(pending)
    ensures !continued ==> HistoryThenTurn(history, pending, messages)
  {
    var pendingMessages := MessagesFromItems(pending);
    if continued {
      return pendingMessages;
    }
    messages := MessagesFromItems(history);
    messages := messages + pendingMessages;
  }

  // ---------------------------------------------------------------- pairing

  /** What no projected item is: a call outside a message or an assistant turn. */
  predicate CallsOnlyInTurns(items: seq<Item>) {
    forall x | x in items :: x.message.role.Assistant? && CarriesMessage(x) ==> IsTurn(x)
  }

  lemma TurnsGivePairing(items: seq<Item>)
    requires CallsOnlyInTurns(items)
    ensures WellPaired(Messages(items))
  {
    forall i: nat, id | Unanswered(items, i, id) ensures IsTurn(items[i]) {
      assert items[i] in items;
    }
    NormalizedIsPairedExactlyWhen(items);
  }

  lemma {:induction false} SummariesAreUsers(path: seq<Node>, branch: BranchId, v: nat, n: nat)
    requires n <= |path|
    ensures forall x | x in SummariesAt(path, branch, v, n) :: x.message.role.User?
  {
    if n != 0 { SummariesAreUsers(path, branch, v, n - 1); }
  }

  lemma {:induction false} ProjectedCalls(path: seq<Node>, branch: BranchId, n: nat)
    requires n <= |path|
    ensures CallsOnlyInTurns(EmitUpTo(path, branch, n))
  {
    if n != 0 {
      ProjectedCalls(path, branch, n - 1);
      SummariesAreUsers(path, branch, n - 1, |path|);
      assert CallsOnlyInTurns(EmitAt(path, branch, n - 1)) by {
        assert CallsOnlyInTurns(OwnItem(path, branch, n - 1));
      }
    }
  }

  /**
   Pairing survives any compaction cut: whatever path a tree, branch and floor give, and whatever was replaced on
   it, the projected history is well paired.
   */
  lemma HistoryIsPaired(path: seq<Node>, branch: BranchId)
    ensures WellPaired(Messages(Project(path, branch)))
  {
    ProjectedCalls(path, branch, |path|);
    TurnsGivePairing(Project(path, branch));
  }

  /** No unanswered call of the items was first made outside a message or assistant turn. */
  ghost predicate OpenOnlyInTurns(items: seq<Item>) {
    forall i: nat, id :: Unanswered(items, i, id) ==> IsTurn(items[i])
  }

  /** The turn alone, which is the request when the provider holds the history. */
  lemma TurnIsPairedExactlyWhen(pending: seq<Item>)
    ensures WellPaired(Messages(pending)) <==> OpenOnlyInTurns(pending)
  {
    NormalizedIsPairedExactlyWhen(pending);
  }

  /**
   Any pending items after any history: the request is well paired exactly when every unanswered pending call was made
   in a turn and none reuses a call id of the history.
   */
  lemma RequestIsPairedExactlyWhen(path: seq<Node>, branch: BranchId, pending: seq<Item>, messages: seq<Message>)
    requires HistoryThenTurn(Project(path, branch), pending, messages)
    ensures WellPaired(messages) <==>
            OpenOnlyInTurns(pending) && CalledIds(Messages(Project(path, branch))) !! CalledIds(Messages(pending))
  {
    HistoryIsPaired(path, branch);
    TurnIsPairedExactlyWhen(pending);
    NormalizedIsSound(pending);
    ConcatPairedExactlyWhenDisjoint(Messages(Project(path, branch)), Messages(pending));
    assert messages == Messages(Project(path, branch)) + Messages(pending);
  }

  // ---------------------------------------------------------------- requests that are not well paired

  function Calling(call: ToolCall): Message {
    ZeroMessage.(role := Assistant, toolCalls := [call])
  }

  lemma CallIsFirst(items: seq<Item>, call: ToolCall)
    requires |items| == 1 && CarriesMessage(items[0]) && items[0].message == Calling(call) && ValidCall(call)
    ensures Unanswered(items, 0, call.id)
  {
    assert call in items[0].message.toolCalls;
  }

  /** A call in a context fragment that nothing answers goes out unanswered. */
  lemma FragmentCallStaysOpen(call: ToolCall)
    requires ValidCall(call)
    ensures !WellPaired(Messages([Item(ContextFragmentItem, "", "", "", Calling(call), NoDerived, [])]))
  {
    var items := [Item(ContextFragmentItem, "", "", "", Calling(call), NoDerived, [])];
    CallIsFirst(items, call);
    NormalizedIsPairedExactlyWhen(items);
  }

  /** A turn that repeats a call id of the history makes a request that calls it twice. */
  lemma RepeatedCallBreaksRequest(call: ToolCall, id: NodeId, branch: BranchId, messages: seq<Message>)
    requires ValidCall(call)
    requires HistoryThenTurn(Project([Node(id, "", MessageEvent(Calling(call)))], branch), ToItems([Calling(call)]),
                             messages)
    ensures !WellPaired(messages)
  {
    var path, turn := [Node(id, "", MessageEvent(Calling(call)))], ToItems([Calling(call)]);
    var history := Project(path, branch);
    NothingReplacedBy(path);
    assert Survives(path, 0) && SummariesAt(path, branch, 0, 1) == [];
    assert EmitUpTo(path, branch, 1) == EmitUpTo(path, branch, 0) + EmitAt(path, branch, 0);
    assert history == [ItemOf(path[0], branch)];
    CallIsFirst(history, call);
    CallIsFirst(turn, call);
    RequestTraffic(history, call.id);
    RequestTraffic(turn, call.id);
    assert call.id in CalledIds(Messages(history)) && call.id in CalledIds(Messages(turn));
    RequestIsPairedExactlyWhen(path, branch, turn, messages);
  }
}
