/**
 What normalisation preserves: it is a projection onto the well-formed transcripts (idempotent, and the
 identity exactly there), it never reorders or invents anything but the missing results, it does not look
 at the difference between message and assistant-turn items, and its results concatenate.
 */
module Normalization {
  import opened Sequences
  import opened Unified
  import opened Items
  import opened Pairing

  // ---------------------------------------------------------------- fixed points

  /** A transcript with nothing left to repair. */
  ghost predicate Stable(items: seq<Item>) {
    && (forall k | k in items :: CarriesMessage(k) && Tidy(k.message))
    && Sound(Traffic(Bodies(items)))
    && (forall k, c | k in items && IsTurn(k) && k.message.role.Assistant? && c in k.message.toolCalls ::
          Answered(c.id) in Traffic(Bodies(items)))
  }

  lemma {:induction false} AllNew(calls: seq<ToolCall>, seen: set<string>)
    requires forall i, j | 0 <= i < j < |calls| :: calls[i].id != calls[j].id
    requires forall c | c in calls :: ValidCall(c) && c.id !in seen
    ensures NewCalls(calls, seen) == calls
  {
    if calls != [] {
      var init, last := calls[..|calls| - 1], calls[|calls| - 1];
      AllNew(init, seen);
      assert calls == init + [last];
      assert last.id !in CallIds(init);
    }
  }

  lemma {:induction false} AllAnswer(results: seq<ToolResult>, pending: set<string>, completed: set<string>)
    requires forall i, j | 0 <= i < j < |results| :: results[i].callId != results[j].callId
    requires forall r | r in results ::
             r.callId != "" && CleanResult(r) == r && r.callId in pending && r.callId !in completed
    ensures FirstAnswers(results, pending, completed) == results
  {
    if results != [] {
      var init, last := results[..|results| - 1], results[|results| - 1];
      AllAnswer(init, pending, completed);
      assert results == init + [last];
      assert last.callId !in ResultIds(init);
    }
  }

  lemma TrimmedUnchanged(s: Scan, m: Message)
    requires ScanOk(s) && Tidy(m) && Sound(Traffic(Bodies(s.kept)) + MarksOf(m))
    ensures Trimmed(s, m) == m
  {
    var t := Traffic(Bodies(s.kept));
    DistinctMarks(t, m);
    if m.role.Assistant? {
      SeenMarks(t);
      AllNew(m.toolCalls, s.pending + s.completed);
    } else if m.role.Tool? {
      OpenNotDone(t);
      AllAnswer(m.toolResults, s.pending, s.completed);
    }
  }

  lemma {:induction false} ScanKeepsAll(items: seq<Item>)
    requires forall k | k in items :: CarriesMessage(k) && Tidy(k.message)
    requires Sound(Traffic(Bodies(items)))
    ensures ScanItems(items).kept == items
  {
    if items != [] {
      var init, item := items[..|items| - 1], items[|items| - 1];
      Unsnoc(items);
      assert item in items;
      TrafficSnoc(init, item);
      SoundPrefix(Traffic(Bodies(init)), MarksOf(item.message));
      ScanKeepsAll(init);
      ScanIsOk(init);
      TrimmedUnchanged(ScanItems(init), item.message);
    }
  }

  lemma {:induction false} RepairKeepsAll(kept: seq<Item>, p: set<string>)
    requires forall k, c | k in kept && IsTurn(k) && k.message.role.Assistant? && c in k.message.toolCalls :: c.id !in p
    ensures RepairItems(kept, p) == Repair(kept, p)
  {
    if kept != [] {
      var init, item := kept[..|kept| - 1], kept[|kept| - 1];
      assert kept == init + [item];
      RepairKeepsAll(init, p);
      if IsTurn(item) && item.message.role.Assistant? {
        NoOpenCalls(item.message.toolCalls, p);
      }
    }
  }

  /** Well-formed transcripts pass through untouched. */
  lemma StableUnchanged(items: seq<Item>)
    requires Stable(items)
    ensures Normalize(items) == items
  {
    ScanKeepsAll(items);
    ScanIsOk(items);
    RepairKeepsAll(items, ScanItems(items).pending);
  }

  lemma SyntheticTidy(open: seq<ToolCall>)
    requires open != [] && forall c | c in open :: c.id != ""
    ensures CarriesMessage(SyntheticItem(open)) && Tidy(SyntheticItem(open).message)
  {
    var m := SyntheticItem(open).message;
    assert Clean(m).content == [];
    forall r | r in m.toolResults ensures r.callId != "" && CleanResult(r) == r {
      var i :| 0 <= i < |m.toolResults| && m.toolResults[i] == r;
      assert r == MissingResult(open[i]) && open[i] in open;
      FilterAll(HasSource, r.content);
    }
    assert m.toolResults[0] in m.toolResults;
  }

  /** Every item written out was kept or synthesised; all of them are tidy. */
  lemma {:induction false} RepairTidy(kept: seq<Item>, p: set<string>)
    requires forall k | k in kept :: CarriesMessage(k) && Tidy(k.message)
    ensures forall k | k in RepairItems(kept, p).out ::
              CarriesMessage(k) && Tidy(k.message) && (k in kept || k.message.role.Tool?)
  {
    if kept != [] {
      var init, item := kept[..|kept| - 1], kept[|kept| - 1];
      assert kept == init + [item];
      RepairTidy(init, p);
      var r := RepairItems(init, p);
      var open := if IsTurn(item) && item.message.role.Assistant? then OpenCalls(item.message.toolCalls, r.pending)
                  else [];
      if open != [] {
        OpenCallsShape(item.message.toolCalls, r.pending);
        SyntheticTidy(open);
      }
    }
  }

  lemma NormalizedIsStable(items: seq<Item>)
    ensures Stable(Normalize(items))
  {
    var s := ScanItems(items);
    var r := RepairItems(s.kept, s.pending);
    ScanIsOk(items);
    RepairIsSound(s.kept, s.pending);
    RepairSettles(s.kept, s.pending);
    RepairTidy(s.kept, s.pending);
    var o := Traffic(Bodies(r.out));
    assert OpenIn(o) == r.pending;
    forall k, c | k in r.out && IsTurn(k) && k.message.role.Assistant? && c in k.message.toolCalls
      ensures Answered(c.id) in o
    {
      assert ValidCall(c) && k in s.kept;
      CallInTraffic(r.out, k, c.id);
      assert Called(c.id).id == c.id && c.id !in OpenIn(o);
    }
  }

  /** Normalising twice is normalising once, for every input. */
  lemma NormalizeIdempotent(items: seq<Item>)
    ensures Normalize(Normalize(items)) == Normalize(items)
  {
    NormalizedIsStable(items);
    StableUnchanged(Normalize(items));
  }

  /** The inputs normalisation leaves alone are exactly the stable ones. */
  lemma UnchangedExactlyWhenStable(items: seq<Item>)
    ensures Normalize(items) == items <==> Stable(items)
  {
    NormalizedIsStable(items);
    if Stable(items) {
      StableUnchanged(items);
    }
  }

  // ---------------------------------------------------------------- nothing invented, nothing reordered

  /** `part` is obtained from `whole` by deleting elements. */
  ghost predicate Subsequence<T>(part: seq<T>, whole: seq<T>) {
    if whole == [] then part == []
    else
      || Subsequence(part, whole[..|whole| - 1])
      || (part != [] && part[|part| - 1] == whole[|whole| - 1] && Subsequence(part[..|part| - 1], whole[..|whole| - 1]))
  }

  /** `out` is `item` cleaned, with some calls and some results deleted. */
  ghost predicate ThinnedFrom(out: Item, item: Item) {
    && CarriesMessage(item)
    && out == item.(message := out.message)
    && out.message == Clean(item.message).(toolCalls := out.message.toolCalls, toolResults := out.message.toolResults)
    && Subsequence(out.message.toolCalls, item.message.toolCalls)
    && (if item.message.role.Tool? then Subsequence(out.message.toolResults, Map(CleanResult, item.message.toolResults))
        else out.message.toolResults == item.message.toolResults)
  }

  /** `kept` arises from `items` by deleting items and thinning the rest, keeping the order. */
  ghost predicate Thinned(kept: seq<Item>, items: seq<Item>) {
    if items == [] then kept == []
    else
      || Thinned(kept, items[..|items| - 1])
      || (kept != [] && ThinnedFrom(kept[|kept| - 1], items[|items| - 1]) &&
          Thinned(kept[..|kept| - 1], items[..|items| - 1]))
  }

  ghost predicate IsSynthetic(item: Item) {
    exists calls :: item == SyntheticItem(calls)
  }

  /** `out` is `kept` with synthetic results inserted. */
  ghost predicate WithSynthetic(out: seq<Item>, kept: seq<Item>) {
    if out == [] then kept == []
    else
      || (IsSynthetic(out[|out| - 1]) && WithSynthetic(out[..|out| - 1], kept))
      || (kept != [] && out[|out| - 1] == kept[|kept| - 1] && WithSynthetic(out[..|out| - 1], kept[..|kept| - 1]))
  }

  lemma {:induction false} SubsequenceSelf<T>(s: seq<T>)
    ensures Subsequence(s, s)
  {
    if s != [] { SubsequenceSelf(s[..|s| - 1]); }
  }

  lemma {:induction false} NewCallsSubsequence(calls: seq<ToolCall>, seen: set<string>)
    ensures Subsequence(NewCalls(calls, seen), calls)
  {
    if calls != [] {
      NewCallsSubsequence(calls[..|calls| - 1], seen);
      var rest := NewCalls(calls[..|calls| - 1], seen);
      assert (rest + [calls[|calls| - 1]])[..|rest|] == rest;
    }
  }

  lemma {:induction false} FirstAnswersSubsequence(results: seq<ToolResult>, pending: set<string>,
                                                   completed: set<string>)
    ensures Subsequence(FirstAnswers(results, pending, completed), Map(CleanResult, results))
  {
    if results != [] {
      var init, last := results[..|results| - 1], results[|results| - 1];
      FirstAnswersSubsequence(init, pending, completed);
      var rest := FirstAnswers(init, pending, completed);
      assert (rest + [CleanResult(last)])[..|rest|] == rest;
      assert Map(CleanResult, results)[..|results| - 1] == Map(CleanResult, init);
    }
  }

  lemma TrimmedIsThinned(s: Scan, item: Item)
    requires CarriesMessage(item)
    ensures ThinnedFrom(item.(message := Trimmed(s, item.message)), item)
  {
    SubsequenceSelf(item.message.toolCalls);
    NewCallsSubsequence(item.message.toolCalls, s.pending + s.completed);
    FirstAnswersSubsequence(item.message.toolResults, s.pending, s.completed);
  }

  lemma {:induction false} ScanThins(items: seq<Item>)
    ensures Thinned(ScanItems(items).kept, items)
  {
    if items != [] {
      var init, item := items[..|items| - 1], items[|items| - 1];
      ScanThins(init);
      var s := ScanItems(init);
      if CarriesMessage(item) && !IsBlank(Trimmed(s, item.message)) {
        TrimmedIsThinned(s, item);
        var k := item.(message := Trimmed(s, item.message));
        assert (s.kept + [k])[..|s.kept|] == s.kept;
      }
    }
  }

  lemma {:induction false} RepairInserts(kept: seq<Item>, p: set<string>)
    ensures WithSynthetic(RepairItems(kept, p).out, kept)
  {
    if kept != [] {
      var init, item := kept[..|kept| - 1], kept[|kept| - 1];
      RepairInserts(init, p);
      var r := RepairItems(init, p);
      var open := if IsTurn(item) && item.message.role.Assistant? then OpenCalls(item.message.toolCalls, r.pending)
                  else [];
      var copied := r.out + [item];
      SnocInit(r.out, item);
      assert WithSynthetic(copied, kept);
      if open == [] {
        assert copied + [] == copied;
      } else {
        SnocInit(copied, SyntheticItem(open));
      }
    }
  }

  /** Apart from synthetic results, the output is the input with things deleted, in the input's order. */
  lemma NothingInvented(items: seq<Item>)
    ensures exists kept :: Thinned(kept, items) && WithSynthetic(Normalize(items), kept)
  {
    var s := ScanItems(items);
    ScanThins(items);
    RepairInserts(s.kept, s.pending);
  }

  // ---------------------------------------------------------------- which ids end up answered

  /**
   The tool traffic of the request, read off the input alone: a call for every id called, an answer for every id
   answered later or first called in a turn.
   */
  lemma RequestTraffic(items: seq<Item>, id: string)
    ensures var t := Traffic(Messages(items));
            && (Called(id) in t <==> exists i: nat :: FirstCall(items, i, id))
            && (Answered(id) in t <==>
                exists i: nat :: FirstCall(items, i, id) && (AnsweredLater(items, i, id) || IsTurn(items[i])))
  {
    var s := ScanItems(items);
    var r := RepairItems(s.kept, s.pending);
    ScanIsOk(items);
    RepairIsSound(s.kept, s.pending);
    var o := Traffic(Bodies(r.out));
    assert Messages(items) == Bodies(r.out);
    assert OpenIn(o) == r.pending && DoneIn(o) == s.completed + (s.pending - r.pending);
    ScanStatus(items, id);
    StatusExact(items, id);
    LeftOpenExact(items, id);
    assert Called(id).id == id && Answered(id).id == id;
    assert Called(id) in o <==> id in OpenIn(o) + DoneIn(o) by {
      SeenCalls(o);
      SeenMarks(o);
    }
    assert Answered(id) in o <==> id in DoneIn(o);
    match StatusOf(items, id)
    case NeverCalled =>
    case Open(i) =>
      forall j: nat | FirstCall(items, j, id) ensures j == i { FirstCallUnique(items, i, j, id); }
    case Done(i) =>
      forall j: nat | FirstCall(items, j, id) ensures j == i { FirstCallUnique(items, i, j, id); }
  }

  // ---------------------------------------------------------------- kinds do not matter beyond turn or not

  predicate Alike(a: Item, b: Item) {
    && CarriesMessage(a) == CarriesMessage(b)
    && IsTurn(a) == IsTurn(b)
    && (CarriesMessage(a) ==> a.message == b.message)
  }

  predicate AllAlike(a: seq<Item>, b: seq<Item>) {
    |a| == |b| && forall i | 0 <= i < |a| :: Alike(a[i], b[i])
  }

  lemma AlikeSnoc(a: seq<Item>, b: seq<Item>, x: Item, y: Item)
    requires AllAlike(a, b) && Alike(x, y)
    ensures AllAlike(a + [x], b + [y])
  {}

  lemma ScanStepAlike(s: Scan, t: Scan, x: Item, y: Item)
    requires AllAlike(s.kept, t.kept) && s.pending == t.pending && s.completed == t.completed && Alike(x, y)
    ensures var s', t' := ScanStep(s, x), ScanStep(t, y);
            AllAlike(s'.kept, t'.kept) && s'.pending == t'.pending && s'.completed == t'.completed
  {
    if CarriesMessage(x) {
      var m := Trimmed(s, x.message);
      AlikeSnoc(s.kept, t.kept, x.(message := m), y.(message := m));
    }
  }

  lemma {:induction false} ScanAlike(a: seq<Item>, b: seq<Item>)
    requires AllAlike(a, b)
    ensures var s, t := ScanItems(a), ScanItems(b);
            AllAlike(s.kept, t.kept) && s.pending == t.pending && s.completed == t.completed
  {
    if a != [] {
      ScanAlike(a[..|a| - 1], b[..|b| - 1]);
      ScanStepAlike(ScanItems(a[..|a| - 1]), ScanItems(b[..|b| - 1]), a[|a| - 1], b[|b| - 1]);
    }
  }

  lemma BodiesSnoc(items: seq<Item>, item: Item)
    ensures Bodies(items + [item]) == Bodies(items) + [item.message]
  {}

  lemma RepairStepAlike(r: Repair, q: Repair, x: Item, y: Item)
    requires r.pending == q.pending && Bodies(r.out) == Bodies(q.out) && Alike(x, y) && CarriesMessage(x)
    ensures RepairStep(r, x).pending == RepairStep(q, y).pending
    ensures Bodies(RepairStep(r, x).out) == Bodies(RepairStep(q, y).out)
  {
    BodiesSnoc(r.out, x);
    BodiesSnoc(q.out, y);
    var open := if IsTurn(x) && x.message.role.Assistant? then OpenCalls(x.message.toolCalls, r.pending) else [];
    if open == [] {
      assert r.out + [x] + [] == r.out + [x] && q.out + [y] + [] == q.out + [y];
    } else {
      BodiesSnoc(r.out + [x], SyntheticItem(open));
      BodiesSnoc(q.out + [y], SyntheticItem(open));
    }
  }

  lemma {:induction false} RepairAlike(a: seq<Item>, b: seq<Item>, p: set<string>)
    requires AllAlike(a, b) && forall k | k in a :: CarriesMessage(k)
    ensures RepairItems(a, p).pending == RepairItems(b, p).pending
    ensures Bodies(RepairItems(a, p).out) == Bodies(RepairItems(b, p).out)
  {
    if a != [] {
      var x, y := a[|a| - 1], b[|b| - 1];
      assert x in a;
      Unsnoc(a);
      RepairAlike(a[..|a| - 1], b[..|b| - 1], p);
      RepairStepAlike(RepairItems(a[..|a| - 1], p), RepairItems(b[..|b| - 1], p), x, y);
    }
  }

  /** A provider cannot tell message items from assistant-turn items. */
  lemma MessagesAlike(a: seq<Item>, b: seq<Item>)
    requires AllAlike(a, b)
    ensures Messages(a) == Messages(b)
  {
    ScanAlike(a, b);
    ScanIsOk(a);
    RepairAlike(ScanItems(a).kept, ScanItems(b).kept, ScanItems(a).pending);
    assert Messages(a) == Bodies(Normalize(a)) && Messages(b) == Bodies(Normalize(b));
  }

  // ---------------------------------------------------------------- requests assembled from parts

  function CalledIds(messages: seq<Message>): set<string> {
    set m | m in Traffic(messages) && m.Called? :: m.id
  }

  ghost predicate ShareNoCall(s: seq<Mark>, t: seq<Mark>) {
    forall m | m in s && m.Called? :: m !in t
  }

  lemma SharedMark(s: seq<Mark>, t: seq<Mark>, m: Mark)
    requires Sound(s) && Sound(t) && ShareNoCall(s, t) && m in s
    ensures m !in t
  {
    assert Called(m.id) in s;
  }

  lemma SoundConcat(a: seq<Mark>, b: seq<Mark>)
    requires Sound(a) && Sound(b)
    ensures Sound(a + b) <==> ShareNoCall(a, b)
  {
    var t := a + b;
    if ShareNoCall(a, b) {
      forall m | m in a ensures m !in b { SharedMark(a, b, m); }
      forall i, j | 0 <= i < j < |t| ensures t[i] != t[j] {
        if i < |a| <= j { assert a[i] !in b; }
      }
      forall i | 0 <= i < |t| && t[i].Answered? ensures Called(t[i].id) in t[..i] {
        if i < |a| {
          assert t[..i] == a[..i];
        } else {
          assert Called(b[i - |a|].id) in b[..i - |a|];
          assert t[..i] == a + b[..i - |a|];
        }
      }
    } else {
      var m :| m in a && m in b;
      var i, j :| 0 <= i < |a| && a[i] == m && 0 <= j < |b| && b[j] == m;
      assert t[i] == t[|a| + j];
    }
  }

  lemma CalledIdsDisjoint(a: seq<Message>, b: seq<Message>)
    ensures CalledIds(a) !! CalledIds(b) <==> ShareNoCall(Traffic(a), Traffic(b))
  {
    if ShareNoCall(Traffic(a), Traffic(b)) {
      forall id | id in CalledIds(a) ensures id !in CalledIds(b) {
        assert Called(id) in Traffic(a);
      }
    } else {
      var m :| m in Traffic(a) && m.Called? && m in Traffic(b);
      assert m.id in CalledIds(a) && m.id in CalledIds(b);
    }
  }

  /** Whatever the items, what normalisation leaves is sound; only an answer may be missing. */
  lemma NormalizedIsSound(items: seq<Item>)
    ensures Sound(Traffic(Messages(items)))
  {
    var s := ScanItems(items);
    ScanIsOk(items);
    RepairIsSound(s.kept, s.pending);
    assert Messages(items) == Bodies(RepairItems(s.kept, s.pending).out);
  }

  lemma AnsweredInSecond(s: seq<Mark>, t: seq<Mark>, id: string)
    requires Sound(s) && ShareNoCall(s, t) && Called(id) in t && Answered(id) in s + t
    ensures Answered(id) in t
  {}

  /**
   Well-paired history and separately normalised pending messages form a well-paired request exactly when the pending
   messages are well paired themselves and share no call id with the history.
   */
  lemma ConcatPairedExactlyWhenDisjoint(a: seq<Message>, b: seq<Message>)
    requires WellPaired(a) && Sound(Traffic(b))
    ensures WellPaired(a + b) <==> WellPaired(b) && CalledIds(a) !! CalledIds(b)
  {
    TrafficAppend(a, b);
    SoundConcat(Traffic(a), Traffic(b));
    CalledIdsDisjoint(a, b);
    if WellPaired(a + b) {
      forall m | m in Traffic(b) && m.Called? ensures Answered(m.id) in Traffic(b) {
        assert m in Traffic(a + b);
        AnsweredInSecond(Traffic(a), Traffic(b), m.id);
      }
    }
  }

  lemma AgainTidy(items: seq<Item>, k: Item)
    requires k in ToItems(Messages(items))
    ensures CarriesMessage(k) && IsTurn(k) && Tidy(k.message)
  {
    NormalizedIsStable(items);
    var again := ToItems(Messages(items));
    var i :| 0 <= i < |again| && again[i] == k;
    assert Normalize(items)[i] in Normalize(items);
  }

  lemma AgainPaired(items: seq<Item>)
    requires WellPaired(Messages(items))
    ensures Messages(ToItems(Messages(items))) == Messages(items)
  {
    var ms := Messages(items);
    var again := ToItems(ms);
    assert Bodies(again) == ms;
    forall k | k in again ensures CarriesMessage(k) && Tidy(k.message) { AgainTidy(items, k); }
    forall k, c | k in again && k.message.role.Assistant? && c in k.message.toolCalls
      ensures Answered(c.id) in Traffic(Bodies(again))
    {
      AgainTidy(items, k);
      CallInTraffic(again, k, c.id);
    }
    StableUnchanged(again);
  }

  /** Normalising a request that is already messages changes nothing exactly when it is well paired. */
  lemma RenormalizeExactlyWhenPaired(items: seq<Item>)
    ensures Messages(ToItems(Messages(items))) == Messages(items) <==> WellPaired(Messages(items))
  {
    if WellPaired(Messages(items)) {
      AgainPaired(items);
    } else {
      var again := ToItems(Messages(items));
      forall i: nat, id | Unanswered(again, i, id) ensures IsTurn(again[i]) {
        assert again[i] in again;
        AgainTidy(items, again[i]);
      }
      NormalizedIsPairedExactlyWhen(again);
    }
  }
}
