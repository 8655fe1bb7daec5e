/**
 What a provider is sent once a conversation has been compacted, read off the nodes' payloads: the text of every
 summary, and the messages no summary replaced. Holds for every conversation that commits and compactions reach.
 */
module CompactedRequest {
  import Sequences
  import opened Unified
  import opened Items
  import opened Projection
  import opened LivePath
  import opened HistoryRun
  import opened NormalizedItems
  import opened ProjectedItems

  /** The messages of the visible part of a conversation on `branch`. */
  function SentOn(c: Chat, branch: BranchId): seq<Message>
    requires c.floor <= |c.path|
  {
    Messages(Project(c.path[c.floor..], branch))
  }

  lemma FloorHidesNothing(c: LiveChat, branch: BranchId)
    ensures SentOn(c, branch) == Messages(Project(c.path, branch))
  {
    LiveProjection(c.path, c.floor, branch, c.floor);
    LiveProjection(c.path, c.floor, branch, 0);
    assert c.path[0..] == c.path;
  }

  /** Every summary ever written is sent as a user message that says exactly the summary. */
  lemma SummaryIsSent(c: LiveChat, branch: BranchId, q: nat) returns (k: nat)
    requires q < |c.path| && c.path[q].payload.CompactionEvent?
    ensures var sent := SentOn(c, branch);
            k < |sent| && sent[k].role == User && sent[k].content == [Text(c.path[q].payload.summary, "")]
  {
    FloorHidesNothing(c, branch);
    k := SummaryReachesProvider(c.path, branch, q);
  }

  /** Every message no summary replaced is sent with its role, its name and the parts that may be shown. */
  lemma MessageIsSent(c: LiveChat, branch: BranchId, q: nat, m: Message) returns (k: nat)
    requires q < |c.path| && !Replaced(c.path, q) && SaidBy(c.path[q]) == Sequences.Some(m)
    requires exists p :: p in m.content && MayShow(m.role, p)
    ensures var sent := SentOn(c, branch);
            && k < |sent| && sent[k].role == m.role && sent[k].name == m.name
            && sent[k].content == Parts(m.role, m.content)
  {
    FloorHidesNothing(c, branch);
    k := SurvivorReachesProvider(c.path, branch, q, m);
  }

  /** After a compaction the request says its summary. */
  lemma CompactionIsSent(c: LiveChat, keep: nat, summary: string, id: NodeId, branch: BranchId) returns (k: nat)
    requires id != "" && FreshId(c.path, id) && CompactChat(c, keep, summary, id) != c
    ensures var sent := SentOn(CompactChat(c, keep, summary, id), branch);
            k < |sent| && sent[k].role == User && sent[k].content == [Text(summary, "")]
  {
    k := SummaryIsSent(Compacted(c, keep, summary, id), branch, |c.path|);
  }

  lemma ReplacedSnoc(path: seq<Node>, node: Node, q: nat)
    requires q < |path| && !Replaced(path, q) && path[q].id !in ReplacedBy(node)
    ensures !Replaced(path + [node], q)
  {
    assert forall p | 0 <= p < |path| :: (path + [node])[p] == path[p];
  }

  lemma WindowUnreplaced(c: LiveChat, keep: nat, summary: string, id: NodeId, q: nat)
    requires id != "" && FreshId(c.path, id) && CompactChat(c, keep, summary, id) != c
    requires |c.path| - keep <= q < |c.path| && !Replaced(c.path, q)
    ensures !Replaced(CompactChat(c, keep, summary, id).path, q)
  {
    var ids := SelectNodes(c.path[c.floor..], keep);
    assert c.path[q].id !in ids by { SelectedNodes(c.path, c.floor, keep); }
    ReplacedSnoc(c.path, SummaryNode(c.path, c.floor, keep, summary, id), q);
  }

  /** ... and still carries every message of the kept window that was visible before. */
  lemma WindowIsSent(c: LiveChat, keep: nat, summary: string, id: NodeId, branch: BranchId, q: nat, m: Message)
    returns (k: nat)
    requires id != "" && FreshId(c.path, id) && CompactChat(c, keep, summary, id) != c
    requires |c.path| - keep <= q < |c.path| && !Replaced(c.path, q) && SaidBy(c.path[q]) == Sequences.Some(m)
    requires exists p :: p in m.content && MayShow(m.role, p)
    ensures var sent := SentOn(CompactChat(c, keep, summary, id), branch);
            && k < |sent| && sent[k].role == m.role && sent[k].name == m.name
            && sent[k].content == Parts(m.role, m.content)
  {
    WindowUnreplaced(c, keep, summary, id, q);
    k := MessageIsSent(Compacted(c, keep, summary, id), branch, q, m);
  }
}
