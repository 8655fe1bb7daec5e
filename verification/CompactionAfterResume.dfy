/**
 The limit of the normal form: a compaction made after a resume starts from the recomputed floor, which may lie
 below nodes already summarised. Exactly when the projection is still in normal form, exactly when the floor is still
 invisible, and a run where neither holds. Both conditions are on the path before the compaction.
 */
module CompactionAfterResume {
  import opened Unified
  import opened Items
  import opened Projection
  import opened Compaction
  import opened NormalFormExact
  import opened LateSummary
  import opened LivePath
  import opened HistoryRun

  function AfterResume(c: Chat): Chat {
    Chat(c.path, ResumedFloor(c.path))
  }

  lemma SurvivesOnlyIfBefore(path: seq<Node>, node: Node, u: nat)
    requires u < |path| && Survives(path + [node], u)
    ensures Survives(path, u)
  {
    ReplacedIdsSnoc(path, node);
  }

  /** The new summary still goes in front of everything that survives it. */
  lemma NewSummaryInFront(path: seq<Node>, floor: nat, g: nat, hi: nat, node: Node, u: nat)
    requires Live(path, floor) && g <= floor && g < hi && FreshId(path, node.id) && IsCompaction(node)
    requires Spans(path + [node], |path|, g, hi) && (exists m :: g <= m < hi && !IsCompaction(path[m]))
    requires u < |path| + 1 && Survives(path + [node], u)
    ensures PlaceFrom(path + [node], 0, |path|) <= u
  {
    var path' := path + [node];
    var m :| g <= m < hi && !IsCompaction(path[m]);
    assert path'[m] == path[m];
    PlacedInside(path', |path|, g, hi, 0, m);
    ReplacedIdsSnoc(path, node);
    SurvivesOnlyIfBefore(path, node, u);
    assert path'[u] == path[u] && floor <= u;
    assert path'[u].id !in ReplacedBy(node);
  }

  lemma InFrontAfter(path: seq<Node>, floor: nat, g: nat, hi: nat, node: Node)
    requires Live(path, floor) && g <= floor && g < hi && FreshId(path, node.id) && IsCompaction(node)
    requires Spans(path + [node], |path|, g, hi) && (exists m :: g <= m < hi && !IsCompaction(path[m]))
    ensures InFrontFrom(path + [node], 0)
  {
    var path' := path + [node];
    LiveInFront(path, floor, 0);
    forall p, u | 0 <= p < |path'| && 0 <= u < |path'| && IsCompaction(path'[p]) && Survives(path', u)
      ensures PlaceFrom(path', 0, p) <= u
    {
      if p == |path| {
        NewSummaryInFront(path, floor, g, hi, node, u);
      } else {
        SurvivesOnlyIfBefore(path, node, u);
        PlaceAppend(path, [node], 0, p);
      }
    }
  }

  lemma OrderedSnocExactlyWhen(path: seq<Node>, node: Node)
    requires OrderedFrom(path, 0) && IsCompaction(node)
    ensures OrderedFrom(path + [node], 0)
            <==> forall p | 0 <= p < |path| && IsCompaction(path[p]) ::
              PlaceFrom(path, 0, p) <= PlaceFrom(path + [node], 0, |path|)
  {
    var path' := path + [node];
    forall p | 0 <= p < |path| ensures PlaceFrom(path', 0, p) == PlaceFrom(path, 0, p) && path'[p] == path[p] {
      PlaceAppend(path, [node], 0, p);
    }
  }

  // ---------------------------------------------------------------- told from the path before

  /** The first node in [lo, hi) that is not a summary; `hi` if there is none. */
  function FirstOrdinary(path: seq<Node>, lo: nat, hi: nat): (q: nat)
    requires lo <= hi <= |path|
    ensures lo <= q <= hi && (q < hi ==> !IsCompaction(path[q]))
    ensures forall k | lo <= k < q :: IsCompaction(path[k])
    decreases hi - lo
  {
    if lo == hi || !IsCompaction(path[lo]) then lo else FirstOrdinary(path, lo + 1, hi)
  }

  /** The first summary in [lo, hi); `hi` if there is none. */
  function FirstSummary(path: seq<Node>, lo: nat, hi: nat): (q: nat)
    requires lo <= hi <= |path|
    ensures lo <= q <= hi && (q < hi ==> IsCompaction(path[q]))
    ensures forall k | lo <= k < q :: !IsCompaction(path[k])
    decreases hi - lo
  {
    if lo == hi || IsCompaction(path[lo]) then lo else FirstSummary(path, lo + 1, hi)
  }

  /** Where a summary of the ordinary nodes in [lo, hi) goes when the path is cut below `cut`. */
  function StartFrom(path: seq<Node>, cut: nat, hi: nat): nat
    requires cut <= hi <= |path|
  {
    var q := FirstOrdinary(path, cut, hi);
    if q < hi then q else cut
  }

  lemma NewSummaryAt(path: seq<Node>, node: Node, g: nat, hi: nat, cut: nat)
    requires IsCompaction(node) && ReplacedBy(node) != [] && Spans(path + [node], |path|, g, hi) && g <= cut <= hi
    ensures PlaceFrom(path + [node], cut, |path|) == StartFrom(path, cut, hi)
  {
    var path', q := path + [node], FirstOrdinary(path, cut, hi);
    assert forall k | 0 <= k < |path| :: path'[k] == path[k];
    var at := FirstListed(path', ReplacedBy(node), cut, |path'|);
    if q < hi {
      assert path'[q].id in ReplacedBy(node);
      assert forall k | cut <= k < q :: path'[k].id !in ReplacedBy(node);
    } else {
      assert forall k | cut <= k < |path'| :: path'[k].id !in ReplacedBy(node);
    }
  }

  /** On the whole path it goes to the first ordinary node it replaces. */
  lemma NewSummaryAtRoot(path: seq<Node>, node: Node, g: nat, hi: nat)
    requires IsCompaction(node) && Spans(path + [node], |path|, g, hi) && FirstOrdinary(path, g, hi) < hi
    ensures PlaceFrom(path + [node], 0, |path|) == FirstOrdinary(path, g, hi)
  {
    var path', q := path + [node], FirstOrdinary(path, g, hi);
    assert forall k | 0 <= k < |path| :: path'[k] == path[k];
    assert path'[q].id in ReplacedBy(node);
    assert forall k | 0 <= k < q :: path'[k].id !in ReplacedBy(node);
  }

  lemma SomeOrdinary(path: seq<Node>, g: nat, hi: nat)
    requires g <= hi <= |path| && exists m :: g <= m < hi && !IsCompaction(path[m])
    ensures FirstOrdinary(path, g, hi) < hi
  {}

  lemma NewSummaryCovers(path: seq<Node>, g: nat, keep: nat, node: Node)
    requires DistinctIds(path) && g <= |path| && FreshId(path, node.id)
    requires ReplacedBy(node) == SelectNodes(path[g..], keep) != []
    ensures g + keep < |path| && Spans(path + [node], |path|, g, |path| - keep)
    ensures exists m :: g <= m < |path| - keep && !IsCompaction(path[m])
  {
    NewSummarySpans(path, g, keep, node);
  }

  // ---------------------------------------------------------------- the normal form

  /** No summary starts behind the first ordinary node a compaction from `g` replaces. */
  ghost predicate NoneStartsBehind(path: seq<Node>, g: nat, keep: nat)
    requires g + keep <= |path|
  {
    forall p | 0 <= p < |path| && IsCompaction(path[p]) ::
      PlaceFrom(path, 0, p) <= FirstOrdinary(path, g, |path| - keep)
  }

  lemma OrderedAfterExactlyWhen(path: seq<Node>, g: nat, keep: nat, hi: nat, node: Node)
    requires OrderedFrom(path, 0) && IsCompaction(node) && hi == |path| - keep && Spans(path + [node], |path|, g, hi)
    requires exists m :: g <= m < hi && !IsCompaction(path[m])
    ensures OrderedFrom(path + [node], 0) <==> NoneStartsBehind(path, g, keep)
  {
    SomeOrdinary(path, g, hi);
    NewSummaryAtRoot(path, node, g, hi);
    OrderedSnocExactlyWhen(path, node);
  }

  lemma NormalAfterExactlyWhen(path: seq<Node>, floor: nat, g: nat, keep: nat, node: Node, branch: BranchId)
    requires Live(path, floor) && g <= floor && FreshId(path, node.id)
    requires ReplacedBy(node) == SelectNodes(path[g..], keep) != []
    ensures g + keep < |path|
    ensures Project(path + [node], branch) == NormalForm(path + [node], branch) <==> NoneStartsBehind(path, g, keep)
  {
    NewSummaryCovers(path, g, keep, node);
    InFrontAfter(path, floor, g, |path| - keep, node);
    assert DistinctIds(path + [node]);
    NormalFormExactlyWhen(path + [node], branch);
    assert OrderedFrom(path, 0);
    OrderedAfterExactlyWhen(path, g, keep, |path| - keep, node);
  }

  /**
   Compacting after a resume keeps the normal form if and only if no earlier summary starts behind the first ordinary
   node from the resumed floor on, which is where the new one starts.
   */
  lemma NormalAfterResumeExactlyWhen(c: LiveChat, keep: nat, summary: string, id: NodeId, branch: BranchId)
    requires id != "" && FreshId(c.path, id)
    requires SelectNodes(c.path[ResumedFloor(c.path)..], keep) != []
    ensures ResumedFloor(c.path) + keep < |c.path|
    ensures var path' := CompactChat(AfterResume(c), keep, summary, id).path;
            Project(path', branch) == NormalForm(path', branch) <==>
            NoneStartsBehind(c.path, ResumedFloor(c.path), keep)
  {
    var node := SummaryNode(c.path, ResumedFloor(c.path), keep, summary, id);
    ResumedFloorBelow(c.path, c.floor);
    NormalAfterExactlyWhen(c.path, c.floor, ResumedFloor(c.path), keep, node, branch);
  }

  // ---------------------------------------------------------------- the floor

  lemma FloorIs(path: seq<Node>, g: nat, keep: nat, node: Node)
    requires DistinctIds(path) && g <= |path| && FreshId(path, node.id)
    requires ReplacedBy(node) == SelectNodes(path[g..], keep) != []
    ensures g + keep < |path|
    ensures FloorAfter(path + [node], g, ReplacedBy(node)) == FirstSummary(path, g, |path| - keep)
  {
    SelectedNodes(path, g, keep);
    CompactionSpans(path, g, keep, node);
  }

  /** Old summaries are in order on the new cut too. */
  lemma OrderedAtCut(path: seq<Node>, floor: nat, g: nat, cut: nat)
    requires Live(path, floor) && g <= floor && g <= cut <= |path| && forall q | g <= q < cut :: !IsCompaction(path[q])
    ensures OrderedFrom(path, cut)
    ensures floor < cut ==> forall p | cut <= p < |path| && IsCompaction(path[p]) :: PlaceFrom(path, cut, p) == cut
  {
    if floor < cut {
      forall p | cut <= p < |path| && IsCompaction(path[p]) ensures PlaceFrom(path, cut, p) == cut {
        OldSummariesAtCut(path, floor, cut, p);
      }
    }
  }

  lemma InFrontAtCut(path: seq<Node>, floor: nat, g: nat, hi: nat, cut: nat, node: Node)
    requires Live(path, floor) && g <= floor && g <= cut <= hi <= |path|
    requires forall q | g <= q < cut :: !IsCompaction(path[q])
    requires FreshId(path, node.id) && IsCompaction(node) && ReplacedBy(node) != []
    requires Spans(path + [node], |path|, g, hi)
    ensures InFrontFrom(path + [node], cut)
  {
    var path' := path + [node];
    OrderedAtCut(path, floor, g, cut);
    if cut <= floor { LiveInFront(path, floor, cut); }
    forall p, u | cut <= p < |path'| && cut <= u < |path'| && IsCompaction(path'[p]) && Survives(path', u)
      ensures PlaceFrom(path', cut, p) <= u
    {
      SurvivesOnlyIfBefore(path, node, u);
      if p == |path| {
        NewSummaryAt(path, node, g, hi, cut);
        SurvivorsAbove(path, node, g, hi, u);
      } else {
        PlaceAppend(path, [node], cut, p);
      }
    }
  }

  lemma SurvivorsAbove(path: seq<Node>, node: Node, g: nat, hi: nat, u: nat)
    requires u < |path| && Survives(path + [node], u) && Spans(path + [node], |path|, g, hi)
    ensures u < g || hi <= u
  {
    var path' := path + [node];
    ReplacedIdsSnoc(path, node);
    assert path'[|path|] == node && path'[u].id !in ReplacedBy(node);
  }

  lemma DroppableAtCut(path: seq<Node>, floor: nat, g: nat, hi: nat, cut: nat, node: Node)
    requires Live(path, floor) && g <= floor && g <= cut <= hi <= |path|
    requires forall q | g <= q < cut :: !IsCompaction(path[q])
    requires IsCompaction(node) && Spans(path + [node], |path|, g, hi)
    ensures Droppable(path + [node], cut)
  {
    var path' := path + [node];
    ReplacedIdsSnoc(path, node);
    forall q | 0 <= q < cut ensures !IsCompaction(path'[q]) && path'[q].id in ReplacedIds(path') {
      assert path'[q] == path[q] && path'[|path|] == node;
    }
  }

  lemma OrderedCut(path: seq<Node>, cut: nat)
    requires cut <= |path| && OrderedFrom(path, cut)
    ensures OrderedFrom(path[cut..], 0)
  {
    var v := path[cut..];
    forall p, q | 0 <= p < q < |v| && IsCompaction(v[p]) && IsCompaction(v[q])
      ensures PlaceFrom(v, 0, p) <= PlaceFrom(v, 0, q)
    {
      PlaceCut(path, cut, p + cut);
      PlaceCut(path, cut, q + cut);
    }
  }

  lemma InFrontCut(path: seq<Node>, cut: nat)
    requires InFrontFrom(path, cut) && Droppable(path, cut)
    ensures InFrontFrom(path[cut..], 0)
  {
    var v := path[cut..];
    CutKeepsReplaced(path, cut);
    forall p, u | 0 <= p < |v| && 0 <= u < |v| && IsCompaction(v[p]) && Survives(v, u) ensures PlaceFrom(v, 0, p) <= u {
      PlaceCut(path, cut, p + cut);
      assert Survives(path, u + cut);
    }
  }

  /** What holds from the cut on, said of the cut as a path of its own. */
  lemma CutShape(path: seq<Node>, node: Node, cut: nat)
    requires cut <= |path| && OrderedFrom(path, cut) && InFrontFrom(path + [node], cut) && Droppable(path + [node], cut)
    ensures OrderedFrom(path[cut..], 0) && InFrontFrom(path[cut..] + [node], 0)
  {
    OrderedCut(path, cut);
    InFrontCut(path + [node], cut);
    assert (path + [node])[cut..] == path[cut..] + [node];
  }

  lemma CutAfterIsLate(path: seq<Node>, floor: nat, g: nat, hi: nat, cut: nat, node: Node)
    requires Live(path, floor) && g <= floor && g <= cut <= hi <= |path| && g < hi
    requires forall q | g <= q < cut :: !IsCompaction(path[q])
    requires FreshId(path, node.id) && IsCompaction(node) && ReplacedBy(node) != []
    requires Spans(path + [node], |path|, g, hi) && exists m :: g <= m < hi && !IsCompaction(path[m])
    ensures LateOnBoth(path, node, cut)
  {
    InFrontAfter(path, floor, g, hi, node);
    assert OrderedFrom(path, 0);
    OrderedAtCut(path, floor, g, cut);
    InFrontAtCut(path, floor, g, hi, cut, node);
    DroppableAtCut(path, floor, g, hi, cut, node);
    CutShape(path, node, cut);
  }

  /** The summaries from `cut` on that start no later than `start` when the path is cut below `floor`. */
  function NotLater(path: seq<Node>, cut: nat, floor: nat, start: nat): set<nat>
    requires floor <= cut
  {
    set p: nat | cut <= p < |path| && IsCompaction(path[p]) && PlaceFrom(path, floor, p) <= start
  }

  /** Those a compaction from `g` is listed behind on the whole path. */
  function InFrontOfNew(path: seq<Node>, g: nat, keep: nat): set<nat>
    requires g + keep <= |path|
  {
    var hi := |path| - keep;
    NotLater(path, FirstSummary(path, g, hi), 0, FirstOrdinary(path, g, hi))
  }

  /** Those it is listed behind from its new floor on. */
  function InFrontOfNewFromFloor(path: seq<Node>, g: nat, keep: nat): set<nat>
    requires g + keep <= |path|
  {
    var hi := |path| - keep;
    var cut := FirstSummary(path, g, hi);
    NotLater(path, cut, cut, StartFrom(path, cut, hi))
  }

  lemma SameSets(path: seq<Node>, node: Node, cut: nat, a: nat, b: nat)
    requires cut <= |path|
    requires a == PlaceFrom(path + [node], 0, |path|) && b == PlaceFrom(path + [node], cut, |path|)
    ensures SameBehind(path, node, cut) <==> NotLater(path, cut, 0, a) == NotLater(path, cut, cut, b)
  {
    if NotLater(path, cut, 0, a) == NotLater(path, cut, cut, b) {
      forall p: nat | cut <= p < |path| && IsCompaction(path[p])
        ensures PlaceFrom(path, 0, p) <= a <==> PlaceFrom(path, cut, p) <= b
      {
        assert p in NotLater(path, cut, 0, a) <==> p in NotLater(path, cut, cut, b);
      }
    }
  }

  lemma InFrontIs(path: seq<Node>, g: nat, keep: nat, hi: nat, cut: nat)
    requires g <= hi == |path| - keep && cut == FirstSummary(path, g, hi)
    ensures InFrontOfNew(path, g, keep) == NotLater(path, cut, 0, FirstOrdinary(path, g, hi))
    ensures InFrontOfNewFromFloor(path, g, keep) == NotLater(path, cut, cut, StartFrom(path, cut, hi))
  {}

  lemma SetsAreSameBehind(path: seq<Node>, g: nat, keep: nat, hi: nat, cut: nat, node: Node)
    requires g <= hi == |path| - keep && cut == FirstSummary(path, g, hi)
    requires IsCompaction(node) && ReplacedBy(node) != [] && Spans(path + [node], |path|, g, hi)
    requires exists m :: g <= m < hi && !IsCompaction(path[m])
    ensures SameBehind(path, node, cut) <==> InFrontOfNew(path, g, keep) == InFrontOfNewFromFloor(path, g, keep)
  {
    SomeOrdinary(path, g, hi);
    NewSummaryAtRoot(path, node, g, hi);
    NewSummaryAt(path, node, g, hi, cut);
    InFrontIs(path, g, keep, hi, cut);
    SameSets(path, node, cut, PlaceFrom(path + [node], 0, |path|), PlaceFrom(path + [node], cut, |path|));
  }

  lemma FloorHiddenExactlyWhen(path: seq<Node>, floor: nat, g: nat, keep: nat, hi: nat, cut: nat, node: Node,
                               branch: BranchId)
    requires Live(path, floor) && g <= floor && FreshId(path, node.id)
    requires ReplacedBy(node) == SelectNodes(path[g..], keep) != []
    requires g <= hi == |path| - keep && cut == FirstSummary(path, g, hi)
    ensures Project(path[cut..] + [node], branch) == Project(path + [node], branch) <==>
            InFrontOfNew(path, g, keep) == InFrontOfNewFromFloor(path, g, keep)
  {
    NewSummaryCovers(path, g, keep, node);
    CutAfterIsLate(path, floor, g, hi, cut, node);
    CutShowsSameExactlyWhen(path, node, cut, branch);
    SetsAreSameBehind(path, g, keep, hi, cut, node);
  }

  /** What a compaction from `g` leaves to show, cut at its floor and whole. */
  lemma CompactedAtCut(path: seq<Node>, g: nat, keep: nat, node: Node) returns (hi: nat, cut: nat)
    requires DistinctIds(path) && g <= |path| && FreshId(path, node.id)
    requires ReplacedBy(node) == SelectNodes(path[g..], keep) != []
    ensures g < hi == |path| - keep && cut == FirstSummary(path, g, hi)
    ensures (path + [node])[FloorAfter(path + [node], g, ReplacedBy(node))..] == path[cut..] + [node]
  {
    FloorIs(path, g, keep, node);
    hi := |path| - keep;
    cut := FirstSummary(path, g, hi);
    assert (path + [node])[cut..] == path[cut..] + [node];
  }

  lemma CutHiddenExactlyWhen(path: seq<Node>, floor: nat, g: nat, keep: nat, summary: string, id: NodeId,
                             branch: BranchId)
    requires Live(path, floor) && g <= floor && FreshId(path, id) && SelectNodes(path[g..], keep) != []
    ensures g + keep < |path|
    ensures var c' := CompactChat(Chat(path, g), keep, summary, id);
            Project(c'.path[c'.floor..], branch) == Project(c'.path, branch) <==>
            InFrontOfNew(path, g, keep) == InFrontOfNewFromFloor(path, g, keep)
  {
    var node, c' := SummaryNode(path, g, keep, summary, id), CompactChat(Chat(path, g), keep, summary, id);
    var hi, cut := CompactedAtCut(path, g, keep, node);
    assert c'.path == path + [node] && c'.path[c'.floor..] == path[cut..] + [node];
    FloorHiddenExactlyWhen(path, floor, g, keep, hi, cut, node, branch);
  }

  /**
   After a compaction made on a resumed conversation the branch shows what a fork of it shows if and only if the
   earlier summaries that start no later than the new one are the same from the new floor as from the root.
   */
  lemma FloorHiddenAfterResumeExactlyWhen(c: LiveChat, keep: nat, summary: string, id: NodeId, branch: BranchId)
    requires id != "" && FreshId(c.path, id)
    requires SelectNodes(c.path[ResumedFloor(c.path)..], keep) != []
    ensures ResumedFloor(c.path) + keep < |c.path|
    ensures var c' := CompactChat(AfterResume(c), keep, summary, id);
            Project(c'.path[c'.floor..], branch) == Project(c'.path, branch) <==>
            InFrontOfNew(c.path, ResumedFloor(c.path), keep) ==
              InFrontOfNewFromFloor(c.path, ResumedFloor(c.path), keep)
  {
    ResumedFloorBelow(c.path, c.floor);
    CutHiddenExactlyWhen(c.path, c.floor, ResumedFloor(c.path), keep, summary, id, branch);
  }

  // ---------------------------------------------------------------- a run that leaves the normal form

  function Said(id: NodeId, parent: NodeId): Node {
    Node(id, parent, MessageEvent(ZeroMessage.(role := User, content := [Text(id, "")])))
  }

  const A := Said("a", "")
  const B := Said("b", "a")
  const C := Said("c", "s1")
  const S1 := Node("s1", "b", CompactionEvent("one", ["a"]))
  const S2 := Node("s2", "c", CompactionEvent("two", ["b"]))
  const S3 := Node("s3", "s2", CompactionEvent("three", ["a", "b"]))

  /** Two messages; the first is compacted away. */
  lemma FirstCompaction()
    ensures CompactChat(Chat([A, B], 0), 1, "one", "s1") == Chat([A, B, S1], 1)
  {
    assert [A, B][0..] == [A, B];
    assert NonSummaryIds([A, B], 1) == ["a"];
    assert [A, B] + [S1] == [A, B, S1];
    assert [A, B, S1][0..] == [A, B, S1] && [A, B, S1][1..] == [B, S1];
    assert FirstUnlisted([B, S1], ["a"]) == 0;
  }

  /** A third message; then the second is compacted away. */
  lemma SecondCompaction()
    ensures CompactChat(Chat([A, B, S1, C], 1), 2, "two", "s2") == Chat([A, B, S1, C, S2], 2)
  {
    var v := [B, S1, C];
    assert [A, B, S1, C][1..] == v;
    assert NonSummaryIds(v, 1) == ["b"];
    assert [A, B, S1, C] + [S2] == [A, B, S1, C, S2];
    assert [A, B, S1, C, S2][1..] == [B, S1, C, S2] && [B, S1, C, S2][1..] == [S1, C, S2];
    assert FirstUnlisted([S1, C, S2], ["b"]) == 0;
  }

  /** Resuming here puts the floor back to the root, and the next compaction summarises both messages again. */
  lemma CompactionAfterResuming()
    ensures AfterResume(Chat([A, B, S1, C, S2], 2)) == Chat([A, B, S1, C, S2], 0)
    ensures CompactChat(Chat([A, B, S1, C, S2], 0), 3, "three", "s3") == Chat([A, B, S1, C, S2, S3], 2)
  {
    var p := [A, B, S1, C, S2];
    assert p[0..] == p;
    assert LastReplaced(p) == ["b"];
    assert FirstUnlisted(p, ["b"]) == 0;
    assert NonSummaryIds(p, 1) == ["a"];
    assert NonSummaryIds(p, 2) == ["a", "b"];
    var q := [A, B, S1, C, S2, S3];
    assert p + [S3] == q && q[0..] == q && q[1..] == [B, S1, C, S2, S3] && q[1..][1..] == [S1, C, S2, S3];
    assert FirstUnlisted([S1, C, S2, S3], ["a", "b"]) == 0;
    assert FirstUnlisted([B, S1, C, S2, S3], ["a", "b"]) == 1;
  }

  const Six := [A, B, S1, C, S2, S3]

  /** Where that run ends. */
  function RunEnd(): Chat {
    var one := CompactChat(Chat([A, B], 0), 1, "one", "s1");
    var two := CompactChat(one.(path := one.path + [C]), 2, "two", "s2");
    CompactChat(AfterResume(two), 3, "three", "s3")
  }

  lemma RunEndIs()
    ensures RunEnd() == Chat(Six, 2)
  {
    FirstCompaction();
    assert [A, B, S1] + [C] == [A, B, S1, C];
    SecondCompaction();
    CompactionAfterResuming();
  }

  lemma CutIsNormal(branch: BranchId)
    ensures Project(Six[2..], branch) == NormalForm(Six, branch)
  {
    assert Six[..5] == [A, B, S1, C, S2] && Six[..4] == [A, B, S1, C] && Six[..3] == [A, B, S1];
    forall p | 2 <= p < 6 && IsCompaction(Six[p]) ensures PlaceFrom(Six, 2, p) == 2 {}
    InReplaced(Six, "a");
    InReplaced(Six, "b");
    assert "a" in ReplacedBy(Six[2]) && "b" in ReplacedBy(Six[4]);
    CutProjection(Six, branch, 2);
  }

  lemma WholeIsNotNormal(branch: BranchId)
    ensures Project(Six, branch) != NormalForm(Six, branch)
  {
    assert FirstListed(Six, ["b"], 0, 5) == 1;
    assert FirstListed(Six, ["a", "b"], 0, 6) == 0;
    MisorderedShows(Six, branch, 4, 5);
  }

  /**
   After that run a fork of the branch, which has no floor, orders the summaries differently from the branch itself.
   */
  lemma FloorShowsAfterResume(branch: BranchId)
    ensures Project(RunEnd().path[RunEnd().floor..], branch) != Project(RunEnd().path, branch)
  {
    RunEndIs();
    CutIsNormal(branch);
    WholeIsNotNormal(branch);
  }
}
