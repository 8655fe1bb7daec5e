/**
 The shape of every path a live conversation can reach by committing turns and compacting: `Live(path, floor)`
 is kept by both steps, and under it every cut at or below the floor projects to the normal form. The floor is
 therefore invisible, and so is forking (which forgets it) and resuming (which recomputes it).
 */
module LivePath {
  import opened Sequences
  import opened Items
  import opened Projection
  import opened Compaction

  // ---------------------------------------------------------------- the two steps

  /** Ids of the nodes among the first `n` that are not summaries. */
  function NonSummaryIds(path: seq<Node>, n: nat): seq<NodeId>
    requires n <= |path|
  {
    if n == 0 then []
    else
      var rest := NonSummaryIds(path, n - 1);
      if IsCompaction(path[n - 1]) then rest else rest + [path[n - 1].id]
  }

  /** `selectCompactionNodes`: everything but the last `keep` visible nodes, sparing earlier summaries. */
  function SelectNodes(visible: seq<Node>, keep: nat): seq<NodeId> {
    if |visible| <= keep then [] else NonSummaryIds(visible, |visible| - keep)
  }

  /** The first position whose node is not listed, or the length. */
  function FirstUnlisted(path: seq<Node>, ids: seq<NodeId>): (q: nat)
    ensures q <= |path|
    ensures forall k | 0 <= k < q :: path[k].id in ids
    ensures q < |path| ==> path[q].id !in ids
  {
    if path == [] || path[0].id !in ids then 0
    else
      assert forall k | 0 <= k < |path| - 1 :: path[1..][k] == path[k + 1];
      1 + FirstUnlisted(path[1..], ids)
  }

  function SummaryNode(path: seq<Node>, floor: nat, keep: nat, summary: string, id: NodeId): Node
    requires floor <= |path|
  {
    Node(id, HeadId(path), CompactionEvent(summary, SelectNodes(path[floor..], keep)))
  }

  /** `setCompactionFloor`: the first visible node that is not replaced. */
  function FloorAfter(path: seq<Node>, floor: nat, ids: seq<NodeId>): (f: nat)
    requires floor <= |path|
    ensures floor <= f <= |path|
  {
    var q := FirstUnlisted(path[floor..], ids);
    if q < |path| - floor then floor + q else floor
  }

  predicate FreshId(path: seq<Node>, id: NodeId) {
    forall q | 0 <= q < |path| :: path[q].id != id
  }

  // ---------------------------------------------------------------- the invariant

  /** The summary at `p` replaces exactly the nodes of [lo, hi) that are not summaries. */
  ghost predicate Spans(path: seq<Node>, p: nat, lo: nat, hi: nat) {
    && p < |path| && lo <= hi <= p
    && forall q | 0 <= q < |path| :: path[q].id in ReplacedBy(path[p]) <==> lo <= q < hi && !IsCompaction(path[q])
  }

  ghost predicate SpansBelow(path: seq<Node>, p: nat, floor: nat) {
    exists lo: nat, hi: nat :: Spans(path, p, lo, hi) && lo <= floor
  }

  ghost predicate KnownIds(path: seq<Node>, ids: seq<NodeId>) {
    forall id | id in ids :: exists q :: 0 <= q < |path| && path[q].id == id
  }

  ghost predicate Live(path: seq<Node>, floor: nat) {
    && DistinctIds(path)
    && Droppable(path, floor)
    && (forall p | 0 <= p < |path| && IsCompaction(path[p]) ::
          ReplacedBy(path[p]) != [] && SpansBelow(path, p, floor) && KnownIds(path, ReplacedBy(path[p])))
    && ((floor < |path| && IsCompaction(path[floor])) || forall q | floor <= q < |path| ::
        path[q].id !in ReplacedIds(path))
    && (forall g | 0 <= g <= floor :: OrderedFrom(path, g))
  }

  lemma LiveEmpty()
    ensures Live([], 0)
  {}

  lemma DroppableBelow(path: seq<Node>, floor: nat, g: nat)
    requires Droppable(path, floor) && g <= floor
    ensures Droppable(path, g)
  {}

  lemma LiveInFront(path: seq<Node>, floor: nat, g: nat)
    requires Live(path, floor) && g <= floor
    ensures InFrontFrom(path, g)
  {
    forall p, u | g <= p < |path| && g <= u < |path| && IsCompaction(path[p]) && Survives(path, u)
      ensures PlaceFrom(path, g, p) <= u
    {
      assert floor <= u;
      assert SpansBelow(path, p, floor);
      var lo: nat, hi: nat :| Spans(path, p, lo, hi) && lo <= floor;
      InReplaced(path, path[u].id);
      assert path[u].id !in ReplacedBy(path[p]);
    }
  }

  /** Every cut at or below the floor shows the normal form of the whole path. */
  lemma LiveProjection(path: seq<Node>, floor: nat, branch: BranchId, g: nat)
    requires Live(path, floor) && g <= floor
    ensures Project(path[g..], branch) == NormalForm(path, branch)
  {
    DroppableBelow(path, floor, g);
    LiveInFront(path, floor, g);
    CutProjection(path, branch, g);
  }

  // ---------------------------------------------------------------- committing a node

  lemma FirstListedAppend(path: seq<Node>, more: seq<Node>, ids: seq<NodeId>, lo: nat, hi: nat)
    requires lo <= hi <= |path|
    ensures FirstListed(path + more, ids, lo, hi) == FirstListed(path, ids, lo, hi)
    decreases hi - lo
  {
    if lo != hi { FirstListedAppend(path, more, ids, lo + 1, hi); }
  }

  lemma PlaceAppend(path: seq<Node>, more: seq<Node>, g: nat, p: nat)
    requires g <= p < |path|
    ensures PlaceFrom(path + more, g, p) == PlaceFrom(path, g, p)
  {
    FirstListedAppend(path, more, ReplacedBy(path[p]), g, p + 1);
  }

  lemma NotReplaced(path: seq<Node>, floor: nat, id: NodeId)
    requires Live(path, floor) && FreshId(path, id)
    ensures id !in ReplacedIds(path)
  {
    InReplaced(path, id);
    forall p | 0 <= p < |path| ensures id !in ReplacedBy(path[p]) {
      if IsCompaction(path[p]) { assert KnownIds(path, ReplacedBy(path[p])); }
    }
  }

  lemma SpansAppend(path: seq<Node>, node: Node, p: nat, floor: nat)
    requires p < |path| && SpansBelow(path, p, floor) && KnownIds(path, ReplacedBy(path[p])) && FreshId(path, node.id)
    ensures SpansBelow(path + [node], p, floor)
    ensures KnownIds(path + [node], ReplacedBy(path[p]))
  {
    var lo: nat, hi: nat :| Spans(path, p, lo, hi) && lo <= floor;
    var path' := path + [node];
    assert Spans(path', p, lo, hi);
    forall id | id in ReplacedBy(path[p]) ensures exists q :: 0 <= q < |path'| && path'[q].id == id {
      var q :| 0 <= q < |path| && path[q].id == id;
      assert path'[q].id == id;
    }
  }

  lemma LiveCommit(path: seq<Node>, floor: nat, node: Node)
    requires Live(path, floor) && FreshId(path, node.id) && !IsCompaction(node)
    ensures Live(path + [node], floor)
  {
    var path' := path + [node];
    ReplacedIdsAppend(path, [node]);
    NothingReplacedBy([node]);
    NotReplaced(path, floor, node.id);
    forall p | 0 <= p < |path'| && IsCompaction(path'[p])
      ensures ReplacedBy(path'[p]) != [] && SpansBelow(path', p, floor) && KnownIds(path', ReplacedBy(path'[p]))
    {
      SpansAppend(path, node, p, floor);
    }
    forall g | 0 <= g <= floor ensures OrderedFrom(path', g) {
      OrderedAppend(path, node, g);
    }
  }

  lemma OrderedAppend(path: seq<Node>, node: Node, g: nat)
    requires OrderedFrom(path, g)
    requires IsCompaction(node) ==> g <= |path| && forall p | g <= p < |path| && IsCompaction(path[p]) ::
               PlaceFrom(path, g, p) <= PlaceFrom(path + [node], g, |path|)
    ensures OrderedFrom(path + [node], g)
  {
    forall p | g <= p < |path| ensures PlaceFrom(path + [node], g, p) == PlaceFrom(path, g, p) {
      PlaceAppend(path, [node], g, p);
    }
  }

  // ---------------------------------------------------------------- compacting

  lemma {:induction false} NonSummaryListed(path: seq<Node>, n: nat, q: nat)
    requires DistinctIds(path) && n <= |path| && q < |path|
    ensures path[q].id in NonSummaryIds(path, n) <==> q < n && !IsCompaction(path[q])
  {
    if n != 0 { NonSummaryListed(path, n - 1, q); }
  }

  lemma {:induction false} NonSummaryKnown(path: seq<Node>, n: nat)
    requires n <= |path|
    ensures KnownIds(path, NonSummaryIds(path, n))
  {
    if n != 0 { NonSummaryKnown(path, n - 1); }
  }

  /** What a compaction from `floor` with window `keep` replaces. */
  lemma SelectedNodes(path: seq<Node>, floor: nat, keep: nat)
    requires DistinctIds(path) && floor <= |path| && SelectNodes(path[floor..], keep) != []
    ensures floor + keep < |path|
    ensures forall q | 0 <= q < |path| ::
              path[q].id in SelectNodes(path[floor..], keep) <==> floor <= q < |path| - keep && !IsCompaction(path[q])
    ensures KnownIds(path, SelectNodes(path[floor..], keep))
  {
    var v := path[floor..];
    var n := |v| - keep;
    NonSummaryKnown(v, n);
    forall id | id in NonSummaryIds(v, n) ensures exists q :: floor <= q < |path| && path[q].id == id {
      var q :| 0 <= q < |v| && v[q].id == id;
      assert path[q + floor].id == id;
    }
    forall q | 0 <= q < |path|
      ensures path[q].id in NonSummaryIds(v, n) <==> floor <= q < floor + n && !IsCompaction(path[q])
    {
      if floor <= q { NonSummaryListed(v, n, q - floor); }
    }
  }

  /** One compaction of a live path, with everything the invariant needs to know about it. */
  ghost predicate CompactedTo(path: seq<Node>, floor: nat, path': seq<Node>, floor': nat, hi: nat) {
    && floor <= floor' <= hi <= |path|
    && |path'| == |path| + 1 && path == path'[..|path|]
    && DistinctIds(path') && IsCompaction(path'[|path|])
    && Spans(path', |path|, floor, hi)
    && (exists m :: floor <= m < hi && !IsCompaction(path[m]))
    && (forall q | floor <= q < floor' :: !IsCompaction(path[q]))
    && (floor' < hi ==> IsCompaction(path[floor']))
  }

  lemma KnownAppend(path: seq<Node>, node: Node, ids: seq<NodeId>)
    requires KnownIds(path, ids)
    ensures KnownIds(path + [node], ids)
  {
    forall x | x in ids ensures exists r :: 0 <= r < |path + [node]| && (path + [node])[r].id == x {
      var r :| 0 <= r < |path| && path[r].id == x;
      assert (path + [node])[r].id == x;
    }
  }

  /** The floor moves over replaced nodes up to the first summary or the kept window. */
  lemma FloorMoves(path': seq<Node>, floor: nat, hi: nat, ids: seq<NodeId>)
    requires floor <= hi < |path'|
    requires forall q | 0 <= q < |path'| :: path'[q].id in ids <==> floor <= q < hi && !IsCompaction(path'[q])
    ensures var f := FloorAfter(path', floor, ids);
            && f <= hi
            && (forall q | floor <= q < f :: !IsCompaction(path'[q]))
            && (f < hi ==> IsCompaction(path'[f]))
  {
    var v := path'[floor..];
    assert forall k | 0 <= k < |v| :: v[k] == path'[k + floor];
    assert v[hi - floor].id !in ids;
  }

  lemma NewSummarySpans(path: seq<Node>, floor: nat, keep: nat, node: Node)
    requires DistinctIds(path) && floor <= |path| && FreshId(path, node.id)
    requires ReplacedBy(node) == SelectNodes(path[floor..], keep) != []
    ensures Spans(path + [node], |path|, floor, |path| - keep)
    ensures exists m :: floor <= m < |path| - keep && !IsCompaction(path[m])
    ensures KnownIds(path + [node], ReplacedBy(node))
  {
    var ids := ReplacedBy(node);
    SelectedNodes(path, floor, keep);
    KnownAppend(path, node, ids);
    assert node.id !in ids;
    assert ids[0] in ids;
    var m :| 0 <= m < |path| && path[m].id == ids[0];
  }

  lemma CompactionSpans(path: seq<Node>, floor: nat, keep: nat, node: Node)
    requires DistinctIds(path) && floor <= |path| && FreshId(path, node.id)
    requires ReplacedBy(node) == SelectNodes(path[floor..], keep) != []
    ensures var path' := path + [node];
            CompactedTo(path, floor, path', FloorAfter(path', floor, ReplacedBy(node)), |path| - keep)
  {
    var path' := path + [node];
    NewSummarySpans(path, floor, keep, node);
    FloorMoves(path', floor, |path| - keep, ReplacedBy(node));
    assert path'[..|path|] == path;
  }

  lemma DroppableAfter(path: seq<Node>, floor: nat, path': seq<Node>, floor': nat, hi: nat)
    requires Live(path, floor) && CompactedTo(path, floor, path', floor', hi)
    ensures Droppable(path', floor')
  {
    var node := path'[|path|];
    assert path' == path + [node];
    ReplacedIdsAppend(path, [node]);
    forall q | 0 <= q < floor' ensures !IsCompaction(path'[q]) && path'[q].id in ReplacedIds(path') {
      if floor <= q { InReplaced(path', path'[q].id); }
    }
  }

  /** Once the floor is not a summary, no old summary reaches above it. */
  lemma OldSummariesAtCut(path: seq<Node>, floor: nat, g: nat, p: nat)
    requires Live(path, floor) && floor < |path| && !IsCompaction(path[floor]) && floor <= g <= p < |path| &&
             IsCompaction(path[p])
    ensures PlaceFrom(path, g, p) == g
  {
    forall q | g <= q <= p ensures path[q].id !in ReplacedBy(path[p]) {
      InReplaced(path, path[q].id);
    }
  }

  /** A summary reaching down to `m` or below is placed no later than the ordinary node `m`. */
  lemma PlacedUpTo(path: seq<Node>, p: nat, lo: nat, hi: nat, g: nat, m: nat)
    requires Spans(path, p, lo, hi) && ReplacedBy(path[p]) != []
    requires g <= p && g <= m < |path| && lo <= m && !IsCompaction(path[m])
    ensures PlaceFrom(path, g, p) <= m
  {}

  lemma PlacedInside(path: seq<Node>, p: nat, lo: nat, hi: nat, g: nat, m: nat)
    requires Spans(path, p, lo, hi) && g <= lo <= m < hi && !IsCompaction(path[m])
    ensures var q := PlaceFrom(path, g, p); lo <= q < hi && !IsCompaction(path[q])
  {
    assert path[m].id in ReplacedBy(path[p]);
  }

  /** The new summary is placed behind no earlier one. */
  lemma NewSummaryLast(path: seq<Node>, floor: nat, path': seq<Node>, floor': nat, hi: nat, g: nat, p: nat)
    requires Live(path, floor) && CompactedTo(path, floor, path', floor', hi) && g <= floor' && g <= p < |path| &&
             IsCompaction(path[p])
    ensures PlaceFrom(path, g, p) <= PlaceFrom(path', g, |path|)
  {
    if g <= floor {
      var first :| floor <= first < hi && !IsCompaction(path[first]);
      assert path[first] == path'[first];
      PlacedInside(path', |path|, floor, hi, g, first);
      var m := PlaceFrom(path', g, |path|);
      assert path[m] == path'[m];
      assert SpansBelow(path, p, floor);
      var lo: nat, top: nat :| Spans(path, p, lo, top) && lo <= floor;
      PlacedUpTo(path, p, lo, top, g, m);
    } else {
      OldSummariesAtCut(path, floor, g, p);
    }
  }

  lemma OrderedAfter(path: seq<Node>, floor: nat, path': seq<Node>, floor': nat, hi: nat, g: nat)
    requires Live(path, floor) && CompactedTo(path, floor, path', floor', hi) && g <= floor'
    ensures OrderedFrom(path', g)
  {
    assert path' == path + [path'[|path|]];
    assert OrderedFrom(path, g) by {
      if floor < g {
        forall p | g <= p < |path| && IsCompaction(path[p]) ensures PlaceFrom(path, g, p) == g {
          OldSummariesAtCut(path, floor, g, p);
        }
      }
    }
    forall p | g <= p < |path| && IsCompaction(path[p]) ensures PlaceFrom(path, g, p) <= PlaceFrom(path', g, |path|) {
      NewSummaryLast(path, floor, path', floor', hi, g, p);
    }
    OrderedAppend(path, path'[|path|], g);
  }

  lemma ReplacedIdsSnoc(path: seq<Node>, node: Node)
    ensures ReplacedIds(path + [node]) == ReplacedIds(path) + IdSet(ReplacedBy(node))
  {
    assert (path + [node])[..|path|] == path;
  }

  lemma NothingReplacedAbove(path: seq<Node>, floor: nat, path': seq<Node>, floor': nat, hi: nat, q: nat)
    requires Live(path, floor) && CompactedTo(path, floor, path', floor', hi) && !IsCompaction(path'[floor'])
    requires floor' <= q < |path'|
    ensures path'[q].id !in ReplacedIds(path')
  {
    var node := path'[|path|];
    Unsnoc(path');
    ReplacedIdsSnoc(path, node);
    assert path'[q].id !in ReplacedBy(node);
    if q == |path| {
      NotReplaced(path, floor, node.id);
    } else {
      assert path[floor] == path'[floor] && path[q] == path'[q];
    }
  }

  lemma LiveCompactedTo(path: seq<Node>, floor: nat, path': seq<Node>, floor': nat, hi: nat)
    requires Live(path, floor) && CompactedTo(path, floor, path', floor', hi)
    requires ReplacedBy(path'[|path|]) != [] && KnownIds(path', ReplacedBy(path'[|path|]))
    ensures Live(path', floor')
  {
    var node := path'[|path|];
    assert path' == path + [node];
    DroppableAfter(path, floor, path', floor', hi);
    forall p | 0 <= p < |path'| && IsCompaction(path'[p])
      ensures ReplacedBy(path'[p]) != [] && SpansBelow(path', p, floor') && KnownIds(path', ReplacedBy(path'[p]))
    {
      if p < |path| {
        assert path'[p] == path[p];
        SpansAppend(path, node, p, floor);
        var lo: nat, top: nat :| Spans(path', p, lo, top) && lo <= floor;
        assert Spans(path', p, lo, top) && lo <= floor';
      } else {
        assert Spans(path', p, floor, hi) && floor <= floor';
      }
    }
    if !IsCompaction(path'[floor']) {
      forall q | floor' <= q < |path'| ensures path'[q].id !in ReplacedIds(path') {
        NothingReplacedAbove(path, floor, path', floor', hi, q);
      }
    }
    forall g | 0 <= g <= floor' ensures OrderedFrom(path', g) {
      OrderedAfter(path, floor, path', floor', hi, g);
    }
  }

  /** Compacting keeps the invariant, with the floor the source moves to. */
  lemma LiveCompact(path: seq<Node>, floor: nat, keep: nat, summary: string, id: NodeId)
    requires Live(path, floor) && SelectNodes(path[floor..], keep) != [] && FreshId(path, id)
    ensures var node := SummaryNode(path, floor, keep, summary, id);
            Live(path + [node], FloorAfter(path + [node], floor, ReplacedBy(node)))
  {
    var node := SummaryNode(path, floor, keep, summary, id);
    var path' := path + [node];
    CompactionSpans(path, floor, keep, node);
    NewSummarySpans(path, floor, keep, node);
    LiveCompactedTo(path, floor, path', FloorAfter(path', floor, ReplacedBy(node)), |path| - keep);
  }

  // ---------------------------------------------------------------- resuming

  /** The replaced ids of the last summary on the path, as `ResumeHistoryFromThread` remembers them. */
  function LastReplaced(path: seq<Node>): seq<NodeId> {
    if path == [] then []
    else if IsCompaction(path[|path| - 1]) then ReplacedBy(path[|path| - 1])
    else LastReplaced(path[..|path| - 1])
  }

  lemma {:induction false} LastReplacedIsSome(path: seq<Node>) returns (p: nat)
    requires LastReplaced(path) != []
    ensures p < |path| && IsCompaction(path[p]) && ReplacedBy(path[p]) == LastReplaced(path)
  {
    if IsCompaction(path[|path| - 1]) { p := |path| - 1; } else { p := LastReplacedIsSome(path[..|path| - 1]); }
  }

  /** The floor found on the whole path with only the last summary's ids. */
  function ResumedFloor(path: seq<Node>): (f: nat)
    ensures f <= |path|
  {
    if LastReplaced(path) == [] then 0 else FloorAfter(path, 0, LastReplaced(path))
  }

  /** It may lie below the live floor, never above it. */
  lemma ResumedFloorBelow(path: seq<Node>, floor: nat)
    requires Live(path, floor)
    ensures ResumedFloor(path) <= floor
  {
    if LastReplaced(path) != [] {
      var p := LastReplacedIsSome(path);
      assert path[0..] == path;
      var f := ResumedFloor(path);
      if floor < f {
        assert path[floor].id in ReplacedBy(path[p]);
        InReplaced(path, path[floor].id);
      }
    }
  }

  /** A resumed conversation shows what the live one shows. */
  lemma ResumedProjection(path: seq<Node>, floor: nat, branch: BranchId)
    requires Live(path, floor)
    ensures Project(path[ResumedFloor(path)..], branch) == Project(path[floor..], branch)
  {
    ResumedFloorBelow(path, floor);
    LiveProjection(path, floor, branch, floor);
    LiveProjection(path, floor, branch, ResumedFloor(path));
  }
}
