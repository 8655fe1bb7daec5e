/**
 `ProjectItems` of conversation/item.go: a path of nodes becomes the item list a request is built from.
 Summaries move to the place of what they replace, replaced nodes disappear.
 */
module Projection {
  import opened Sequences
  import opened Unified
  import opened Items

  datatype Usage = Usage(tokens: nat, cost: nat)

  const ZeroUsage := Usage(0, 0)

  datatype Payload =
    | MessageEvent(message: Message)
    | AssistantTurnEvent(message: Message, finishReason: string, usage: Usage, continuations: seq<Continuation>)
    | CompactionEvent(summary: string, replaced: seq<NodeId>)
    | AnnotationEvent(text: string)

  datatype Node = Node(id: NodeId, parent: NodeId, payload: Payload)

  predicate DistinctIds(path: seq<Node>) {
    forall i, j | 0 <= i < j < |path| :: path[i].id != path[j].id
  }

  /** The last node's id, or the empty id that stands for the root. */
  function HeadId(path: seq<Node>): NodeId {
    if path == [] then "" else path[|path| - 1].id
  }

  predicate IsCompaction(node: Node) {
    node.payload.CompactionEvent?
  }

  function ReplacedBy(node: Node): seq<NodeId> {
    if IsCompaction(node) then node.payload.replaced else []
  }

  function SummaryMessage(summary: string, replaced: seq<NodeId>): Message {
    Message(User, "", "conversation_summary", "", [Text(summary, "")], [], [], CompactionMeta(replaced))
  }

  function ItemOf(node: Node, branch: BranchId): Item {
    match node.payload
    case MessageEvent(m) => Item(MessageItem, node.id, node.parent, branch, m, NoDerived, [])
    case AssistantTurnEvent(m, _, _, cs) => Item(AssistantTurnItem, node.id, node.parent, branch, m, NoDerived, cs)
    case CompactionEvent(s, ids) =>
      Item(CompactionItem, node.id, node.parent, branch, SummaryMessage(s, ids), NoDerived, [])
    case AnnotationEvent(_) => Item(AnnotationItem, node.id, node.parent, branch, ZeroMessage, NoDerived, [])
  }

  // ---------------------------------------------------------------- specification

  function IdSet(ids: seq<NodeId>): set<NodeId> {
    set id | id in ids
  }

  /** Every id replaced by some compaction on the path. */
  function ReplacedIds(path: seq<Node>): set<NodeId> {
    if path == [] then {}
    else ReplacedIds(path[..|path| - 1]) + IdSet(ReplacedBy(path[|path| - 1]))
  }

  /** The first position in [lo, hi) whose node is listed in `ids`; `hi` when there is none. */
  function FirstListed(path: seq<Node>, ids: seq<NodeId>, lo: nat, hi: nat): (q: nat)
    requires lo <= hi <= |path|
    ensures lo <= q <= hi
    ensures forall k | lo <= k < q :: path[k].id !in ids
    ensures q < hi ==> path[q].id in ids
    decreases hi - lo
  {
    if lo == hi || path[lo].id in ids then lo else FirstListed(path, ids, lo + 1, hi)
  }

  /**
   Where the summary at position `p` goes when the path is cut off below `floor`: the first replaced node still
   there, the cut if none is left, its own place if it replaces nothing.
   */
  function PlaceFrom(path: seq<Node>, floor: nat, p: nat): (q: nat)
    requires floor <= p < |path|
    ensures floor <= q <= p
  {
    var ids := ReplacedBy(path[p]);
    var q := FirstListed(path, ids, floor, p + 1);
    if q <= p then q else if ids != [] then floor else p
  }

  /** Summaries among the first `n` nodes that go to position `v`, oldest first. */
  function SummariesAt(path: seq<Node>, branch: BranchId, v: nat, n: nat): seq<Item>
    requires n <= |path|
  {
    if n == 0 then []
    else
      var rest := SummariesAt(path, branch, v, n - 1);
      if IsCompaction(path[n - 1]) && PlaceFrom(path, 0, n - 1) == v then rest + [ItemOf(path[n - 1], branch)] else rest
  }

  predicate Survives(path: seq<Node>, i: nat)
    requires i < |path|
  {
    !IsCompaction(path[i]) && path[i].id !in ReplacedIds(path)
  }

  function OwnItem(path: seq<Node>, branch: BranchId, i: nat): seq<Item>
    requires i < |path|
  {
    if Survives(path, i) then [ItemOf(path[i], branch)] else []
  }

  function EmitAt(path: seq<Node>, branch: BranchId, i: nat): seq<Item>
    requires i < |path|
  {
    SummariesAt(path, branch, i, |path|) + OwnItem(path, branch, i)
  }

  function EmitUpTo(path: seq<Node>, branch: BranchId, n: nat): seq<Item>
    requires n <= |path|
  {
    if n == 0 then [] else EmitUpTo(path, branch, n - 1) + EmitAt(path, branch, n - 1)
  }

  function Project(path: seq<Node>, branch: BranchId): seq<Item> {
    EmitUpTo(path, branch, |path|)
  }

  function ItemsUpTo(path: seq<Node>, branch: BranchId, n: nat): (r: seq<Item>)
    requires n <= |path|
    ensures |r| == n
  {
    if n == 0 then [] else ItemsUpTo(path, branch, n - 1) + [ItemOf(path[n - 1], branch)]
  }

  lemma {:induction false} ItemAt(path: seq<Node>, branch: BranchId, n: nat, i: nat)
    requires i < n <= |path|
    ensures ItemsUpTo(path, branch, n)[i] == ItemOf(path[i], branch)
  {
    if i < n - 1 { ItemAt(path, branch, n - 1, i); }
  }

  // ---------------------------------------------------------------- placements and their stable sort

  datatype Placement = Placement(index: nat, item: Item)

  function PlacementsUpTo(path: seq<Node>, branch: BranchId, n: nat): seq<Placement>
    requires n <= |path|
  {
    if n == 0 then []
    else
      var rest := PlacementsUpTo(path, branch, n - 1);
      if IsCompaction(path[n - 1])
      then rest + [Placement(PlaceFrom(path, 0, n - 1), ItemOf(path[n - 1], branch))]
      else rest
  }

  function PlacedItems(ps: seq<Placement>): seq<Item> {
    Map((p: Placement) => p.item, ps)
  }

  function PlacedAt(v: nat): Placement -> bool {
    (p: Placement) => p.index == v
  }

  lemma {:induction false} SummariesAreFiltered(path: seq<Node>, branch: BranchId, v: nat, n: nat)
    requires n <= |path|
    ensures PlacedItems(Filter(PlacedAt(v), PlacementsUpTo(path, branch, n))) == SummariesAt(path, branch, v, n)
  {
    if n != 0 {
      SummariesAreFiltered(path, branch, v, n - 1);
    }
  }

  lemma {:induction false} PlacementBound(path: seq<Node>, branch: BranchId, n: nat)
    requires n <= |path|
    ensures forall p | p in PlacementsUpTo(path, branch, n) :: p.index < n
  {
    if n != 0 { PlacementBound(path, branch, n - 1); }
  }

  predicate Sorted(ps: seq<Placement>) {
    forall i, j | 0 <= i < j < |ps| :: ps[i].index <= ps[j].index
  }

  /** One insertion of a stable sort: behind everything that is not larger. */
  function Insert(ps: seq<Placement>, x: Placement): (r: seq<Placement>)
    ensures |r| == |ps| + 1
    ensures forall p | p in r :: p in ps || p == x
  {
    if ps == [] || ps[|ps| - 1].index <= x.index then ps + [x]
    else Insert(ps[..|ps| - 1], x) + [ps[|ps| - 1]]
  }

  function StableSort(ps: seq<Placement>): seq<Placement> {
    if ps == [] then [] else Insert(StableSort(ps[..|ps| - 1]), ps[|ps| - 1])
  }

  lemma {:induction false} InsertSorted(ps: seq<Placement>, x: Placement)
    requires Sorted(ps)
    ensures Sorted(Insert(ps, x))
  {
    if ps != [] && ps[|ps| - 1].index > x.index {
      var init, last := ps[..|ps| - 1], ps[|ps| - 1];
      InsertSorted(init, x);
      assert forall p | p in Insert(init, x) :: p.index <= last.index;
    }
  }

  lemma {:induction false} InsertStable(ps: seq<Placement>, x: Placement, v: nat)
    requires Sorted(ps)
    ensures Filter(PlacedAt(v), Insert(ps, x)) == Filter(PlacedAt(v), ps + [x])
  {
    var keep := PlacedAt(v);
    if ps != [] && ps[|ps| - 1].index > x.index {
      var init, last := ps[..|ps| - 1], ps[|ps| - 1];
      InsertStable(init, x, v);
      assert ps == init + [last];
      FilterAppend(keep, Insert(init, x), [last]);
      FilterAppend(keep, init + [x], [last]);
      FilterAppend(keep, init, [x]);
      FilterAppend(keep, init, [last]);
      FilterAppend(keep, ps, [x]);
      assert !keep(x) || !keep(last);
      assert Filter(keep, [x]) == (if keep(x) then [x] else []);
      assert Filter(keep, [last]) == (if keep(last) then [last] else []);
    }
  }

  /** The sort orders by index and keeps the given order among equal indices. */
  lemma {:induction false} StableSortOrders(ps: seq<Placement>, v: nat)
    ensures Sorted(StableSort(ps))
    ensures Filter(PlacedAt(v), StableSort(ps)) == Filter(PlacedAt(v), ps)
    ensures forall p | p in StableSort(ps) :: p in ps
  {
    if ps != [] {
      var init, last := ps[..|ps| - 1], ps[|ps| - 1];
      StableSortOrders(init, v);
      InsertSorted(StableSort(init), last);
      InsertStable(StableSort(init), last, v);
      FilterAppend(PlacedAt(v), StableSort(init), [last]);
      FilterAppend(PlacedAt(v), init, [last]);
      assert ps == init + [last];
    }
  }

  /** In a sorted list the elements with index `v` stand together. */
  lemma {:induction false} NonePlaced(ps: seq<Placement>, v: nat)
    requires forall k | 0 <= k < |ps| :: ps[k].index != v
    ensures Filter(PlacedAt(v), ps) == []
  {
    if ps != [] { NonePlaced(ps[..|ps| - 1], v); }
  }

  lemma {:induction false} RestPlaced(ps: seq<Placement>, a: nat, v: nat)
    requires a <= |ps| && (forall k | 0 <= k < a :: ps[k].index != v) && forall k | a <= k < |ps| :: ps[k].index == v
    ensures Filter(PlacedAt(v), ps) == ps[a..]
  {
    if a == |ps| {
      NonePlaced(ps, v);
    } else {
      RestPlaced(ps[..|ps| - 1], a, v);
      SliceLast(ps, a);
    }
  }

  lemma {:induction false} SegmentIsFilter(ps: seq<Placement>, a: nat, b: nat, v: nat)
    requires a <= b <= |ps|
    requires forall k | 0 <= k < a :: ps[k].index < v
    requires forall k | a <= k < b :: ps[k].index == v
    requires forall k | b <= k < |ps| :: ps[k].index > v
    ensures Filter(PlacedAt(v), ps) == ps[a..b]
  {
    if b == |ps| {
      RestPlaced(ps, a, v);
    } else {
      SegmentIsFilter(ps[..|ps| - 1], a, b, v);
      SliceInit(ps, a, b);
    }
  }

  // ---------------------------------------------------------------- the source's loops

  /** `positions` is the source's `indexByNode` after `n` nodes. */
  ghost predicate IndexesPrefix(positions: map<NodeId, nat>, path: seq<Node>, n: nat) {
    && n <= |path|
    && (forall i | 0 <= i < n :: path[i].id in positions && positions[path[i].id] == i)
    && (forall id | id in positions :: positions[id] < n && path[positions[id]].id == id)
  }

  lemma IndexStep(positions: map<NodeId, nat>, path: seq<Node>, n: nat)
    requires IndexesPrefix(positions, path, n) && n < |path| && DistinctIds(path)
    ensures IndexesPrefix(positions[path[n].id := n], path, n + 1)
  {}

  method PlaceCompaction(item: Item, ids: seq<NodeId>, fallback: nat, positions: map<NodeId, nat>,
                         replaced: set<NodeId>,
                         ghost path: seq<Node>)
    returns (placement: Placement, replaced': set<NodeId>)
    requires fallback < |path| && IndexesPrefix(positions, path, fallback + 1) && ReplacedBy(path[fallback]) == ids
    ensures placement == Placement(PlaceFrom(path, 0, fallback), item)
    ensures replaced' == replaced + IdSet(ids)
  {
    var index, found := fallback, false;
    replaced' := replaced;
    for i := 0 to |ids|
      invariant replaced' == replaced + IdSet(ids[..i])
      invariant 0 <= index <= fallback && (!found ==> index == fallback)
      invariant found ==> path[index].id in ids[..i]
      invariant forall k | 0 <= k < i && ids[k] in positions :: found && index <= positions[ids[k]]
    {
      replaced' := replaced' + {ids[i]};
      if ids[i] !in positions {
        continue;
      }
      if !found || positions[ids[i]] < index {
        index, found := positions[ids[i]], true;
      }
    }
    assert ids[..|ids|] == ids;
    if !found && |ids| > 0 {
      index := 0;
    }
    PlacementFound(path, ids, fallback, positions, index, found);
    placement := Placement(index, item);
  }

  lemma PlacementFound(path: seq<Node>, ids: seq<NodeId>, p: nat, positions: map<NodeId, nat>, index: nat, found: bool)
    requires p < |path| && IndexesPrefix(positions, path, p + 1) && ReplacedBy(path[p]) == ids
    requires found ==> index <= p && path[index].id in ids
    requires !found ==> index == if ids == [] then p else 0
    requires forall k | 0 <= k < |ids| && ids[k] in positions :: found && index <= positions[ids[k]]
    ensures index == PlaceFrom(path, 0, p)
  {
    var q := FirstListed(path, ids, 0, p + 1);
    if q <= p {
      var k :| 0 <= k < |ids| && ids[k] == path[q].id;
      assert found && index <= q;
    }
  }

  /** First loop of `ProjectItems`: an item per node, a placement per summary, and the replaced ids. */
  method Collect(path: seq<Node>, branch: BranchId)
    returns (items: seq<Item>, placements: seq<Placement>, replaced: set<NodeId>)
    requires DistinctIds(path)
    ensures items == ItemsUpTo(path, branch, |path|)
    ensures placements == PlacementsUpTo(path, branch, |path|)
    ensures replaced == ReplacedIds(path)
  {
    items, placements, replaced := [], [], {};
    var positions: map<NodeId, nat> := map[];
    for i := 0 to |path|
      invariant IndexesPrefix(positions, path, i)
      invariant replaced == ReplacedIds(path[..i])
      invariant placements == PlacementsUpTo(path, branch, i)
      invariant items == ItemsUpTo(path, branch, i)
    {
      PrefixStep(path, i);
      IndexStep(positions, path, i);
      positions := positions[path[i].id := i];
      var item := ItemOf(path[i], branch);
      if path[i].payload.CompactionEvent? {
        var placement, replaced' := PlaceCompaction(item, path[i].payload.replaced, i, positions, replaced, path);
        placements, replaced := placements + [placement], replaced';
      }
      items := items + [item];
    }
    assert path[..|path|] == path;
  }

  method ProjectItems(path: seq<Node>, branch: BranchId) returns (items: seq<Item>)
    requires DistinctIds(path)
    ensures items == Project(path, branch)
  {
    var placements, replaced;
    items, placements, replaced := Collect(path, branch);
    if replaced == {} {
      NothingReplaced(path, branch, |path|);
    } else {
      SortListsSummaries(path, branch);
      items := Merge(path, branch, items, StableSort(placements), replaced);
    }
  }

  /** The first `k` placements go before position `v`, the rest do not. */
  predicate SplitAt(ps: seq<Placement>, k: nat, v: nat) {
    && k <= |ps|
    && (forall i | 0 <= i < k :: ps[i].index < v)
    && (forall i | k <= i < |ps| :: ps[i].index >= v)
  }

  /** The summaries placed at `i`, and where the list continues. */
  method TakePlaced(sorted: seq<Placement>, first: nat, i: nat) returns (placed: seq<Item>, next: nat)
    requires Sorted(sorted) && SplitAt(sorted, first, i)
    ensures SplitAt(sorted, next, i + 1)
    ensures placed == PlacedItems(Filter(PlacedAt(i), sorted))
  {
    placed, next := [], first;
    while next < |sorted| && sorted[next].index == i
      invariant first <= next <= |sorted|
      invariant forall k | first <= k < next :: sorted[k].index == i
      invariant placed == PlacedItems(sorted[first..next])
    {
      assert sorted[first..next + 1] == sorted[first..next] + [sorted[next]];
      placed := placed + [sorted[next].item];
      next := next + 1;
    }
    SegmentIsFilter(sorted, first, next, i);
  }

  /** A sorted list holding, for every position, the summaries that go there. */
  ghost predicate ListsSummaries(sorted: seq<Placement>, path: seq<Node>, branch: BranchId) {
    && Sorted(sorted)
    && (forall p | p in sorted :: p.index < |path|)
    && (forall v: nat :: PlacedItems(Filter(PlacedAt(v), sorted)) == SummariesAt(path, branch, v, |path|))
  }

  lemma SortListsSummaries(path: seq<Node>, branch: BranchId)
    ensures ListsSummaries(StableSort(PlacementsUpTo(path, branch, |path|)), path, branch)
  {
    var placements := PlacementsUpTo(path, branch, |path|);
    PlacementBound(path, branch, |path|);
    StableSortOrders(placements, 0);
    forall v: nat
      ensures PlacedItems(Filter(PlacedAt(v), StableSort(placements))) == SummariesAt(path, branch, v, |path|)
    {
      StableSortOrders(placements, v);
      SummariesAreFiltered(path, branch, v, |path|);
    }
  }

  /** Everything written out for position `i`: the summaries placed there, then the item unless it is gone. */
  method EmitOne(path: seq<Node>, branch: BranchId, item: Item, sorted: seq<Placement>, first: nat,
                 replaced: set<NodeId>, i: nat)
    returns (emitted: seq<Item>, next: nat)
    requires i < |path| && item == ItemOf(path[i], branch) && replaced == ReplacedIds(path)
    requires ListsSummaries(sorted, path, branch) && SplitAt(sorted, first, i)
    ensures SplitAt(sorted, next, i + 1)
    ensures emitted == EmitAt(path, branch, i)
  {
    emitted, next := TakePlaced(sorted, first, i);
    if item.kind == CompactionItem || item.node in replaced {
      return;
    }
    emitted := emitted + [item];
  }

  /** Walks the items, putting each summary in front of the position it was placed at. */
  method Merge(path: seq<Node>, branch: BranchId, items: seq<Item>, sorted: seq<Placement>, replaced: set<NodeId>)
    returns (out: seq<Item>)
    requires items == ItemsUpTo(path, branch, |path|) && replaced == ReplacedIds(path)
    requires ListsSummaries(sorted, path, branch)
    ensures out == Project(path, branch)
  {
    out := [];
    var next := 0;
    for i := 0 to |items|
      invariant 0 <= next && SplitAt(sorted, next, i)
      invariant out == EmitUpTo(path, branch, i)
    {
      out, next := MergeNext(path, branch, items, sorted, replaced, i, out, next);
    }
    // Every placement is a position on the path, so no summary is left over.
    assert next == |sorted|;
  }

  method MergeNext(path: seq<Node>, branch: BranchId, items: seq<Item>, sorted: seq<Placement>, replaced: set<NodeId>,
                   i: nat,
                   before: seq<Item>, first: nat) returns (out: seq<Item>, next: nat)
    requires items == ItemsUpTo(path, branch, |path|) && replaced == ReplacedIds(path) && i < |items|
    requires ListsSummaries(sorted, path, branch) && SplitAt(sorted, first, i) && before == EmitUpTo(path, branch, i)
    ensures SplitAt(sorted, next, i + 1) && out == EmitUpTo(path, branch, i + 1)
  {
    ItemAt(path, branch, |path|, i);
    out, next := EmitOne(path, branch, items[i], sorted, first, replaced, i);
    out := before + out;
  }

  lemma {:induction false} NoIdsReplaced(path: seq<Node>, p: nat)
    requires ReplacedIds(path) == {} && p < |path|
    ensures ReplacedBy(path[p]) == []
  {
    var init, last := path[..|path| - 1], path[|path| - 1];
    if p < |init| {
      NoIdsReplaced(init, p);
    } else if ReplacedBy(last) != [] {
      SomeIds(ReplacedBy(last));
    }
  }

  lemma SomeIds(ids: seq<NodeId>)
    requires ids != []
    ensures IdSet(ids) != {}
  {
    assert ids[0] in IdSet(ids);
  }

  lemma {:induction false} SummariesInPlace(path: seq<Node>, branch: BranchId, v: nat, n: nat)
    requires n <= |path| && forall p | 0 <= p < |path| :: ReplacedBy(path[p]) == []
    ensures SummariesAt(path, branch, v, n) == if v < n && IsCompaction(path[v]) then [ItemOf(path[v], branch)] else []
  {
    if n != 0 { SummariesInPlace(path, branch, v, n - 1); }
  }

  lemma EmitInPlace(path: seq<Node>, branch: BranchId, i: nat)
    requires i < |path| && ReplacedIds(path) == {}
    ensures EmitAt(path, branch, i) == [ItemOf(path[i], branch)]
  {
    forall p | 0 <= p < |path| ensures ReplacedBy(path[p]) == [] { NoIdsReplaced(path, p); }
    SummariesInPlace(path, branch, i, |path|);
  }

  /** With nothing replaced, every item stays where it is. */
  lemma {:induction false} NothingReplaced(path: seq<Node>, branch: BranchId, n: nat)
    requires n <= |path| && ReplacedIds(path) == {}
    ensures EmitUpTo(path, branch, n) == ItemsUpTo(path, branch, n)
  {
    if n != 0 {
      NothingReplaced(path, branch, n - 1);
      EmitInPlace(path, branch, n - 1);
    }
  }
}
