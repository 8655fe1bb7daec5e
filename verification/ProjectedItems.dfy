/**
 What `ProjectItems` (conversation/item.go) shows, told from the payloads on the path: which nodes appear, in which
 order, and what each item says. Then what of it reaches a provider.
 */
module ProjectedItems {
  import opened Sequences
  import opened Unified
  import opened Items
  import opened Projection
  import opened NormalizedItems

  // ---------------------------------------------------------------- what the payloads say

  /** A message or an assistant turn is shown with its own message, a summary as a user's text. */
  ghost predicate ShowsNode(item: Item, node: Node, branch: BranchId) {
    && item.node == node.id && item.parent == node.parent && item.branch == branch && item.derived == NoDerived
    && match node.payload
       case MessageEvent(m) => item.kind == MessageItem && item.message == m
       case AssistantTurnEvent(m, _, _, cs) =>
         item.kind == AssistantTurnItem && item.message == m && item.continuations == cs
       case CompactionEvent(summary, ids) =>
         && item.kind == CompactionItem && item.message.role == User && item.message.name == "conversation_summary"
         && item.message.content == [Text(summary, "")] && item.message.toolCalls == []
         && item.message.toolResults == [] && item.message.meta == CompactionMeta(ids)
       case AnnotationEvent(_) => item.kind == AnnotationItem
  }

  /** Some summary on the path lists the node. */
  ghost predicate Replaced(path: seq<Node>, q: nat)
    requires q < |path|
  {
    exists p :: 0 <= p < |path| && path[p].payload.CompactionEvent? && path[q].id in path[p].payload.replaced
  }

  /** Summaries are shown, and so is whatever no summary replaces. */
  ghost predicate IsShown(path: seq<Node>, q: nat) {
    q < |path| && (path[q].payload.CompactionEvent? || !Replaced(path, q))
  }

  /**
   The position whose place a node takes: a summary that of the first node it lists up to itself, the start when
   none of them is on the path, its own when it lists nothing; any other node its own.
   */
  ghost predicate GoesTo(path: seq<Node>, q: nat, v: nat)
    requires q < |path|
  {
    if path[q].payload.CompactionEvent? then
      var ids := path[q].payload.replaced;
      if exists k :: 0 <= k <= q && path[k].id in ids then
        v <= q && path[v].id in ids && forall k | 0 <= k < v :: path[k].id !in ids
      else
        v == if ids == [] then q else 0
    else
      v == q
  }

  /**
   Node `a` is shown before node `b`: at an earlier place, or at the same one as the earlier of two summaries or as a
   summary in front of the node that stands there.
   */
  ghost predicate Ahead(path: seq<Node>, a: nat, b: nat)
    requires a < |path| && b < |path|
  {
    exists v: nat, w: nat :: GoesTo(path, a, v) && GoesTo(path, b, w) &&
      (v < w || (v == w && path[a].payload.CompactionEvent? && (path[b].payload.CompactionEvent? ==> a < b)))
  }

  /** `order` lists the positions shown, each once, in the order of the items, and the items show those nodes. */
  ghost predicate Told(path: seq<Node>, branch: BranchId, items: seq<Item>, order: seq<nat>) {
    && |order| == |items|
    && (forall q :: q in order <==> IsShown(path, q))
    && (forall k | 0 <= k < |order| :: order[k] < |path| && ShowsNode(items[k], path[order[k]], branch))
    && (forall k, l | 0 <= k < l < |order| :: order[k] != order[l] && Ahead(path, order[k], order[l]))
  }

  // ---------------------------------------------------------------- the order the projection emits

  function KeyOf(path: seq<Node>, q: nat): nat
    requires q < |path|
  {
    if IsCompaction(path[q]) then PlaceFrom(path, 0, q) else q
  }

  lemma {:induction false} GoesToKey(path: seq<Node>, q: nat)
    requires q < |path|
    ensures GoesTo(path, q, KeyOf(path, q))
  {}

  predicate InFront(path: seq<Node>, a: nat, b: nat)
    requires a < |path| && b < |path|
  {
    KeyOf(path, a) < KeyOf(path, b) ||
    (KeyOf(path, a) == KeyOf(path, b) && IsCompaction(path[a]) && (IsCompaction(path[b]) ==> a < b))
  }

  lemma {:induction false} InFrontAhead(path: seq<Node>, a: nat, b: nat)
    requires a < |path| && b < |path| && InFront(path, a, b)
    ensures a != b && Ahead(path, a, b)
  {
    GoesToKey(path, a);
    GoesToKey(path, b);
  }

  ghost predicate Listed(path: seq<Node>, branch: BranchId, items: seq<Item>, order: seq<nat>) {
    && |order| == |items|
    && (forall k | 0 <= k < |order| :: order[k] < |path| && items[k] == ItemOf(path[order[k]], branch))
    && (forall k, l | 0 <= k < l < |order| :: InFront(path, order[k], order[l]))
  }

  lemma {:induction false} ListedConcat(path: seq<Node>, branch: BranchId, s: seq<Item>, a: seq<nat>, t: seq<Item>,
                                        b: seq<nat>)
    requires Listed(path, branch, s, a) && Listed(path, branch, t, b)
    requires forall x, y | x in a && y in b :: x < |path| && y < |path| && InFront(path, x, y)
    ensures Listed(path, branch, s + t, a + b)
  {
    var order := a + b;
    forall k, l | 0 <= k < l < |order| ensures InFront(path, order[k], order[l]) {
      if k < |a| <= l {
        assert order[k] in a && order[l] in b;
      }
    }
  }

  lemma {:induction false} ListedOne(path: seq<Node>, branch: BranchId, q: nat)
    requires q < |path|
    ensures Listed(path, branch, [ItemOf(path[q], branch)], [q])
  {}

  function SummaryOrder(path: seq<Node>, v: nat, n: nat): seq<nat>
    requires n <= |path|
  {
    if n == 0 then []
    else
      SummaryOrder(path, v, n - 1) +
      if IsCompaction(path[n - 1]) && PlaceFrom(path, 0, n - 1) == v then [n - 1] else []
  }

  lemma {:induction false} SummaryMembers(path: seq<Node>, v: nat, n: nat, q: nat)
    requires n <= |path|
    ensures q in SummaryOrder(path, v, n) <==> q < n && IsCompaction(path[q]) && PlaceFrom(path, 0, q) == v
  {
    if n != 0 { SummaryMembers(path, v, n - 1, q); }
  }

  lemma {:induction false} SummariesListed(path: seq<Node>, branch: BranchId, v: nat, n: nat)
    requires n <= |path|
    ensures Listed(path, branch, SummariesAt(path, branch, v, n), SummaryOrder(path, v, n))
  {
    if n != 0 {
      SummariesListed(path, branch, v, n - 1);
      if IsCompaction(path[n - 1]) && PlaceFrom(path, 0, n - 1) == v {
        ListedOne(path, branch, n - 1);
        forall x, y | x in SummaryOrder(path, v, n - 1) && y in [n - 1] ensures x < |path| && InFront(path, x, y) {
          SummaryMembers(path, v, n - 1, x);
        }
        ListedConcat(path, branch, SummariesAt(path, branch, v, n - 1), SummaryOrder(path, v, n - 1),
                     [ItemOf(path[n - 1], branch)], [n - 1]);
      }
    }
  }

  function OrderAt(path: seq<Node>, v: nat): seq<nat>
    requires v < |path|
  {
    SummaryOrder(path, v, |path|) + if Survives(path, v) then [v] else []
  }

  predicate Emitted(path: seq<Node>, q: nat) {
    q < |path| && (IsCompaction(path[q]) || Survives(path, q))
  }

  lemma {:induction false} OrderMembers(path: seq<Node>, v: nat, q: nat)
    requires v < |path|
    ensures q in OrderAt(path, v) <==> Emitted(path, q) && KeyOf(path, q) == v
  {
    SummaryMembers(path, v, |path|, q);
  }

  lemma {:induction false} EmittedListed(path: seq<Node>, branch: BranchId, v: nat)
    requires v < |path|
    ensures Listed(path, branch, EmitAt(path, branch, v), OrderAt(path, v))
  {
    SummariesListed(path, branch, v, |path|);
    ListedOne(path, branch, v);
    if Survives(path, v) {
      forall x, y | x in SummaryOrder(path, v, |path|) && y in [v] ensures x < |path| && InFront(path, x, y) {
        SummaryMembers(path, v, |path|, x);
      }
      ListedConcat(path, branch, SummariesAt(path, branch, v, |path|), SummaryOrder(path, v, |path|),
                   [ItemOf(path[v], branch)], [v]);
    } else {
      assert EmitAt(path, branch, v) == SummariesAt(path, branch, v, |path|);
      assert OrderAt(path, v) == SummaryOrder(path, v, |path|);
    }
  }

  function OrderUpTo(path: seq<Node>, n: nat): seq<nat>
    requires n <= |path|
  {
    if n == 0 then [] else OrderUpTo(path, n - 1) + OrderAt(path, n - 1)
  }

  lemma {:induction false} InConcat(a: seq<nat>, b: seq<nat>, q: nat)
    ensures q in a + b <==> q in a || q in b
  {}

  lemma {:induction false} EmittedAtKey(path: seq<Node>, n: nat, q: nat)
    requires n <= |path| && Emitted(path, q) && KeyOf(path, q) < n
    ensures q in OrderUpTo(path, n)
  {
    InConcat(OrderUpTo(path, n - 1), OrderAt(path, n - 1), q);
    if KeyOf(path, q) == n - 1 {
      OrderMembers(path, n - 1, q);
    } else {
      EmittedAtKey(path, n - 1, q);
    }
  }

  lemma {:induction false} OrderedMember(path: seq<Node>, n: nat, q: nat)
    requires n <= |path| && q in OrderUpTo(path, n)
    ensures Emitted(path, q) && KeyOf(path, q) < n
  {
    InConcat(OrderUpTo(path, n - 1), OrderAt(path, n - 1), q);
    if q in OrderAt(path, n - 1) {
      OrderMembers(path, n - 1, q);
    } else {
      OrderedMember(path, n - 1, q);
    }
  }

  lemma {:induction false} ProjectionListed(path: seq<Node>, branch: BranchId, n: nat)
    requires n <= |path|
    ensures Listed(path, branch, EmitUpTo(path, branch, n), OrderUpTo(path, n))
  {
    if n != 0 {
      ProjectionListed(path, branch, n - 1);
      EmittedListed(path, branch, n - 1);
      forall x, y | x in OrderUpTo(path, n - 1) && y in OrderAt(path, n - 1)
        ensures x < |path| && y < |path| && InFront(path, x, y)
      {
        OrderedMember(path, n - 1, x);
        OrderMembers(path, n - 1, y);
      }
      ListedConcat(path, branch, EmitUpTo(path, branch, n - 1), OrderUpTo(path, n - 1), EmitAt(path, branch, n - 1),
                   OrderAt(path, n - 1));
    }
  }

  // ---------------------------------------------------------------- main results

  lemma {:induction false} ReplacedExactly(path: seq<Node>, n: nat, id: NodeId)
    requires n <= |path|
    ensures id in ReplacedIds(path[..n]) <==>
            exists p :: 0 <= p < n && path[p].payload.CompactionEvent? && id in path[p].payload.replaced
  {
    if n != 0 {
      ReplacedExactly(path, n - 1, id);
      PrefixStep(path, n - 1);
    }
  }

  lemma {:induction false} ShownExactly(path: seq<Node>, q: nat)
    ensures IsShown(path, q) <==> Emitted(path, q)
  {
    if q < |path| {
      ReplacedExactly(path, |path|, path[q].id);
      assert path[..|path|] == path;
    }
  }

  lemma {:induction false} ItemShows(node: Node, branch: BranchId)
    ensures ShowsNode(ItemOf(node, branch), node, branch)
  {}

  /** The projection shows exactly the nodes it should, in their order, each saying what its payload says. */
  lemma {:induction false} ProjectedExactly(path: seq<Node>, branch: BranchId) returns (order: seq<nat>)
    ensures Told(path, branch, Project(path, branch), order)
  {
    order := OrderUpTo(path, |path|);
    ProjectionListed(path, branch, |path|);
    forall q ensures q in order <==> IsShown(path, q) {
      ShownExactly(path, q);
      if q in order {
        OrderedMember(path, |path|, q);
      } else if Emitted(path, q) {
        EmittedAtKey(path, |path|, q);
      }
    }
    forall k | 0 <= k < |order| ensures ShowsNode(Project(path, branch)[k], path[order[k]], branch) {
      ItemShows(path[order[k]], branch);
    }
    forall k, l | 0 <= k < l < |order| ensures order[k] != order[l] && Ahead(path, order[k], order[l]) {
      InFrontAhead(path, order[k], order[l]);
    }
  }

  lemma {:induction false} ShownSomewhere(path: seq<Node>, branch: BranchId, q: nat) returns (i: nat)
    requires IsShown(path, q)
    ensures i < |Project(path, branch)| && ShowsNode(Project(path, branch)[i], path[q], branch)
  {
    var order := ProjectedExactly(path, branch);
    assert q in order;
    i :| i < |order| && order[i] == q;
  }

  /** A summary on the path reaches the provider as a user message that says exactly the summary. */
  lemma {:induction false} SummaryReachesProvider(path: seq<Node>, branch: BranchId, q: nat) returns (k: nat)
    requires q < |path| && path[q].payload.CompactionEvent?
    ensures var messages := Messages(Project(path, branch));
            && k < |messages| && messages[k].role == User && messages[k].name == "conversation_summary"
            && messages[k].content == [Text(path[q].payload.summary, "")]
            && messages[k].toolCalls == [] && messages[k].toolResults == []
  {
    var items := Project(path, branch);
    var i := ShownSomewhere(path, branch, q);
    var m := items[i].message;
    assert m.content[0] in m.content && MayShow(m.role, m.content[0]);
    ComesOut(items, i);
    FilterAll((p: ContentPart) => MayShow(m.role, p), m.content);
    k := PlaceOf(items, i);
  }

  /** The message a node carries. */
  function SaidBy(node: Node): Option<Message> {
    match node.payload
    case MessageEvent(m) => Some(m)
    case AssistantTurnEvent(m, _, _, _) => Some(m)
    case _ => None
  }

  /** A message nothing replaces reaches the provider: its role, its name and every part that may be shown. */
  lemma {:induction false} SurvivorReachesProvider(path: seq<Node>, branch: BranchId, q: nat, m: Message)
    returns (k: nat)
    requires q < |path| && !Replaced(path, q) && SaidBy(path[q]) == Some(m)
    requires exists p :: p in m.content && MayShow(m.role, p)
    ensures var messages := Messages(Project(path, branch));
            && k < |messages| && messages[k].role == m.role && messages[k].name == m.name
            && messages[k].content == Parts(m.role, m.content)
  {
    var items := Project(path, branch);
    var i := ShownSomewhere(path, branch, q);
    ComesOut(items, i);
    k := PlaceOf(items, i);
  }
}
