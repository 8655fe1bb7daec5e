/**
 The calls of a stream, told from its events: in a stream that keeps them apart, every index with an event that makes
 a call has exactly one, in order of appearance, under the last id and name it was given, with the arguments of its
 completion or else all its deltas joined.
 */
module StreamedCalls {
  import opened Sequences
  import opened Unified
  import opened StreamCalls

  function GivesId(i: int): CallEvent -> string {
    (e: CallEvent) => if e.index == i then e.id else ""
  }

  function GivesName(i: int): CallEvent -> string {
    (e: CallEvent) => if e.index == i && !e.Delta? then e.name else ""
  }

  function GivesDelta(i: int): CallEvent -> string {
    (e: CallEvent) => if e.index == i && e.Delta? then e.delta else ""
  }

  /** A start, a completion, or a delta that says something. */
  predicate Makes(e: CallEvent, i: int) {
    e.index == i && (e.Delta? ==> e.id != "" || e.delta != "")
  }

  ghost predicate LastMade(events: seq<CallEvent>, i: int, k: nat) {
    k < |events| && Makes(events[k], i) && forall l | k < l < |events| :: !Makes(events[l], i)
  }

  /** A completion that comes last brings the arguments; otherwise they are the deltas joined. */
  function ArgumentsAt(events: seq<CallEvent>, i: int, k: nat): string
    requires k < |events|
  {
    if events[k].Done? && events[k].arguments != "" then events[k].arguments else Flat(Map(GivesDelta(i), events))
  }

  ghost predicate ArgumentsTold(events: seq<CallEvent>, i: int, arguments: string) {
    exists k: nat :: LastMade(events, i, k) && arguments == ArgumentsAt(events, i, k)
  }

  ghost predicate CallTold(events: seq<CallEvent>, call: ToolCall) {
    && IsLast(call.id, Map(GivesId(call.index), events)) && IsLast(call.name, Map(GivesName(call.index), events))
    && ArgumentsTold(events, call.index, call.arguments)
  }

  // ---------------------------------------------------------------- the builder

  ghost predicate BuilderTold(events: seq<CallEvent>, i: int, b: Builder) {
    && IsLast(b.id, Map(GivesId(i), events)) && IsLast(b.name, Map(GivesName(i), events))
    && b.arguments == Flat(Map(GivesDelta(i), events))
  }

  lemma BuilderStep(events: seq<CallEvent>, e: CallEvent, i: int, b: Builder)
    requires BuilderTold(events, i, b)
    ensures BuilderTold(events + [e], i, if e.index == i then Built(b, e) else b)
  {
    MapSnoc(GivesId(i), events, e);
    MapSnoc(GivesName(i), events, e);
    FlatMapSnoc(GivesDelta(i), events, e);
    IsLastSnoc(b.id, Map(GivesId(i), events), GivesId(i)(e));
    IsLastSnoc(b.name, Map(GivesName(i), events), GivesName(i)(e));
    assert b.arguments + "" == b.arguments;
  }

  lemma {:induction false} BuilderExactly(events: seq<CallEvent>, i: int)
    ensures BuilderTold(events, i, SlotOf(events, i).builder)
  {
    if events != [] {
      var init, e := events[..|events| - 1], events[|events| - 1];
      Unsnoc(events);
      BuilderExactly(init, i);
      BuilderStep(init, e, i, SlotOf(init, i).builder);
    }
  }

  // ---------------------------------------------------------------- the call

  /** A call goes by what its builder holds, and without one the builder holds nothing. */
  predicate GoesBy(s: Slot, i: int) {
    match s.call
    case None => s.builder == Builder("", "", "")
    case Some(call) => call.id == s.builder.id && call.name == s.builder.name && call.index == i
  }

  lemma GoesByStep(s: Slot, e: CallEvent, i: int)
    requires GoesBy(s, i) && e.index == i && (e.Start? ==> s.call.None?)
    ensures GoesBy(SlotNext(s, e), i)
    ensures Makes(e, i) ==> SlotNext(s, e).call.Some?
    ensures !Makes(e, i) ==> SlotNext(s, e) == s
    ensures Makes(e, i) ==> (SlotNext(s, e).call.value.arguments ==
                             if e.Done? && e.arguments != "" then e.arguments else SlotNext(s, e).builder.arguments)
  {
    assert s.builder.arguments + "" == s.builder.arguments;
  }

  lemma {:induction false} GoesByExactly(events: seq<CallEvent>, i: int)
    requires AllFit(events)
    ensures GoesBy(SlotOf(events, i), i)
  {
    if events != [] {
      var init, e := events[..|events| - 1], events[|events| - 1];
      GoesByExactly(init, i);
      SlotInOrder(init, i);
      if e.index == i { GoesByStep(SlotOf(init, i), e, i); }
    }
  }

  lemma LastMadeKept(events: seq<CallEvent>, e: CallEvent, i: int, k: nat)
    requires LastMade(events, i, k) && !Makes(e, i)
    ensures LastMade(events + [e], i, k) && ArgumentsAt(events + [e], i, k) == ArgumentsAt(events, i, k)
  {
    FlatMapSnoc(GivesDelta(i), events, e);
    assert Flat(Map(GivesDelta(i), events)) + "" == Flat(Map(GivesDelta(i), events));
  }

  lemma ArgumentsKept(events: seq<CallEvent>, e: CallEvent, i: int, arguments: string)
    requires ArgumentsTold(events, i, arguments) && !Makes(e, i)
    ensures ArgumentsTold(events + [e], i, arguments)
  {
    var k: nat :| LastMade(events, i, k) && arguments == ArgumentsAt(events, i, k);
    LastMadeKept(events, e, i, k);
  }

  lemma ArgumentsMade(events: seq<CallEvent>, e: CallEvent, i: int)
    requires Makes(e, i)
    ensures ArgumentsTold(events + [e], i, if e.Done? && e.arguments != "" then e.arguments
                                           else Flat(Map(GivesDelta(i), events + [e])))
  {
    assert LastMade(events + [e], i, |events|);
  }

  lemma {:induction false} ArgumentsExactly(events: seq<CallEvent>, i: int)
    requires AllFit(events)
    ensures SlotOf(events, i).call.Some? ==> ArgumentsTold(events, i, SlotOf(events, i).call.value.arguments)
  {
    if events != [] {
      var init, e := events[..|events| - 1], events[|events| - 1];
      Unsnoc(events);
      ArgumentsExactly(init, i);
      GoesByExactly(init, i);
      SlotInOrder(init, i);
      BuilderExactly(events, i);
      if e.index == i { GoesByStep(SlotOf(init, i), e, i); }
      if Makes(e, i) {
        ArgumentsMade(init, e, i);
      } else if SlotOf(init, i).call.Some? {
        ArgumentsKept(init, e, i, SlotOf(init, i).call.value.arguments);
      }
    }
  }

  // ---------------------------------------------------------------- main results

  lemma {:induction false} OrderExactly(events: seq<CallEvent>, i: int)
    ensures i in Order(events) <==> exists k :: 0 <= k < |events| && Makes(events[k], i)
  {
    if events != [] {
      OrderExactly(events[..|events| - 1], i);
      assert Creates(events[|events| - 1]) && events[|events| - 1].index == i <==> Makes(events[|events| - 1], i);
    }
  }

  /** Something makes a call under `i` before anything makes one under `j`. */
  ghost predicate AppearsFirst(events: seq<CallEvent>, i: int, j: int) {
    exists k: nat :: k < |events| && Makes(events[k], i) && forall l | 0 <= l <= k :: !Makes(events[l], j)
  }

  lemma AppearsKept(events: seq<CallEvent>, e: CallEvent, i: int, j: int)
    requires AppearsFirst(events, i, j)
    ensures AppearsFirst(events + [e], i, j)
  {
    var k: nat :| k < |events| && Makes(events[k], i) && forall l | 0 <= l <= k :: !Makes(events[l], j);
    var more := events + [e];
    assert more[k] == events[k] && forall l | 0 <= l <= k :: more[l] == events[l];
  }

  lemma {:induction false} AppearanceExactly(events: seq<CallEvent>, a: nat, b: nat)
    requires a < b < |Order(events)|
    ensures AppearsFirst(events, Order(events)[a], Order(events)[b])
  {
    var init, e := events[..|events| - 1], events[|events| - 1];
    var i, j := Order(events)[a], Order(events)[b];
    Unsnoc(events);
    if b < |Order(init)| {
      AppearanceExactly(init, a, b);
      AppearsKept(init, e, i, j);
    } else {
      OrderExactly(init, i);
      OrderExactly(init, j);
      var k :| 0 <= k < |init| && Makes(init[k], i);
      assert events[k] == init[k];
    }
  }

  /**
   In a stream whose events all fit: one call for every index that something makes a call for, in the order in which
   that first happens, each as its own events tell it.
   */
  lemma CallsExactly(events: seq<CallEvent>)
    requires AllFit(events)
    ensures var calls := Assembled(events).calls;
            && (forall c | c in calls :: CallTold(events, c))
            && (forall k | 0 <= k < |events| && Makes(events[k], events[k].index) ::
                  exists c :: c in calls && c.index == events[k].index)
            && (forall a, b | 0 <= a < b < |calls| ::
                  calls[a].index != calls[b].index && AppearsFirst(events, calls[a].index, calls[b].index))
  {
    var calls := Assembled(events).calls;
    FittingInStep(events);
    OrderDistinct(events);
    forall a | 0 <= a < |calls| ensures calls[a].index == Order(events)[a] && CallTold(events, calls[a]) {
      CallAt(events, a);
    }
    forall k | 0 <= k < |events| && Makes(events[k], events[k].index)
      ensures exists c :: c in calls && c.index == events[k].index
    {
      OrderExactly(events, events[k].index);
      var a := PositionOf(Order(events), events[k].index);
      assert calls[a].index == events[k].index;
    }
    forall a, b | 0 <= a < b < |calls| ensures AppearsFirst(events, calls[a].index, calls[b].index) {
      AppearanceExactly(events, a, b);
    }
  }

  lemma CallAt(events: seq<CallEvent>, a: nat)
    requires AllFit(events) && InStep(events) && a < |Order(events)|
    ensures var c := Assembled(events).calls[a]; c.index == Order(events)[a] && CallTold(events, c)
  {
    var i := Order(events)[a];
    SlotCallAt(events, a);
    BuilderExactly(events, i);
    GoesByExactly(events, i);
    ArgumentsExactly(events, i);
  }
}
