/**
 Tool calls put together from a provider stream (runner/runner.go, `consumeEvents`): parallel calls may arrive
 interleaved in any way; each comes out as if it had been streamed alone.
 */
module StreamCalls {
  import opened Sequences
  import opened Unified

  datatype CallEvent =
    | Start(index: int, id: string, name: string)
    | Delta(index: int, id: string, delta: string)
    | Done(index: int, id: string, name: string, arguments: string)

  datatype Builder = Builder(id: string, name: string, arguments: string)

  datatype Calls = Calls(calls: seq<ToolCall>, builders: map<int, Builder>)

  const NoCalls := Calls([], map[])

  function FirstNonEmpty(a: string, b: string): string {
    if a != "" then a else b
  }

  function BuilderAt(builders: map<int, Builder>, index: int): Builder {
    if index in builders then builders[index] else Builder("", "", "")
  }

  predicate Fits(call: ToolCall, index: int, id: string) {
    call.index == index || (id != "" && call.id == id)
  }

  /** The first call an event is about, or the length. */
  function Place(calls: seq<ToolCall>, index: int, id: string): (j: nat)
    ensures j <= |calls| && (j < |calls| ==> Fits(calls[j], index, id)) && forall k | 0 <= k < j ::
            !Fits(calls[k], index, id)
  {
    if calls == [] || Fits(calls[0], index, id) then 0
    else
      assert forall k | 0 <= k < |calls| - 1 :: calls[1..][k] == calls[k + 1];
      1 + Place(calls[1..], index, id)
  }

  function Upsert(calls: seq<ToolCall>, call: ToolCall): seq<ToolCall> {
    var j := Place(calls, call.index, call.id);
    if j < |calls| then calls[j := call] else calls + [call]
  }

  function WithArguments(call: ToolCall, id: string, name: string, arguments: string): ToolCall {
    call.(id := FirstNonEmpty(id, call.id), name := FirstNonEmpty(name, call.name), arguments := arguments)
  }

  function UpdateArguments(calls: seq<ToolCall>, index: int, id: string, name: string, arguments: string): seq<ToolCall>
  {
    var j := Place(calls, index, id);
    if j < |calls| then calls[j := WithArguments(calls[j], id, name, arguments)]
    else calls + [ToolCall(id, name, arguments, index)]
  }

  /** The builder of the event's index after the event. */
  function Built(b: Builder, e: CallEvent): Builder {
    match e
    case Start(_, id, name) => Builder(FirstNonEmpty(id, b.id), FirstNonEmpty(name, b.name), b.arguments)
    case Delta(_, id, delta) => Builder(FirstNonEmpty(id, b.id), b.name, b.arguments + delta)
    case Done(_, id, name, _) => Builder(FirstNonEmpty(id, b.id), FirstNonEmpty(name, b.name), b.arguments)
  }

  function Finished(b: Builder, e: CallEvent): ToolCall
    requires e.Done?
  {
    ToolCall(FirstNonEmpty(e.id, b.id), FirstNonEmpty(e.name, b.name), FirstNonEmpty(e.arguments, b.arguments), e.index)
  }

  function Next(s: Calls, e: CallEvent): Calls {
    var b := Built(BuilderAt(s.builders, e.index), e);
    var calls := match e
                 case Start(index, id, name) => s.calls + [ToolCall(id, name, "", index)]
                 case Delta(index, id, delta) =>
                   if id != "" || delta != "" then UpdateArguments(s.calls, index, id, b.name, b.arguments) else s.calls
                 case Done(_, _, _, _) => Upsert(s.calls, Finished(b, e));
    Calls(calls, s.builders[e.index := b])
  }

  function Assembled(events: seq<CallEvent>): Calls {
    if events == [] then NoCalls else Next(Assembled(events[..|events| - 1]), events[|events| - 1])
  }

  lemma AssembledSnoc(events: seq<CallEvent>, e: CallEvent)
    ensures Assembled(events + [e]) == Next(Assembled(events), e)
  {
    assert (events + [e])[..|events|] == events;
  }

  // ---------------------------------------------------------------- the loops

  method FindPlace(calls: seq<ToolCall>, index: int, id: string) returns (j: nat)
    ensures j == Place(calls, index, id)
  {
    j := 0;
    while j < |calls|
      invariant j <= |calls| && forall k | 0 <= k < j :: !Fits(calls[k], index, id)
    {
      if calls[j].index == index || (id != "" && calls[j].id == id) {
        return;
      }
      j := j + 1;
    }
  }

  /** The in-memory state `consumeEvents` keeps for tool calls. */
  class Assembler {
    var calls: seq<ToolCall>
    var builders: map<int, Builder>

    ghost function State(): Calls
      reads this
    {
      Calls(calls, builders)
    }

    constructor ()
      ensures State() == NoCalls
    {
      calls, builders := [], map[];
    }

    method Take(e: CallEvent)
      modifies this
      ensures State() == Next(old(State()), e)
    {
      var b := if e.index in builders then builders[e.index] else Builder("", "", "");
      match e {
      case Start(index, id, name) =>
        b := Builder(if id != "" then id else b.id, if name != "" then name else b.name, b.arguments);
        calls := calls + [ToolCall(id, name, "", index)];
      case Delta(index, id, delta) =>
        b := Builder(if id != "" then id else b.id, b.name, b.arguments + delta);
        if id != "" || delta != "" {
          var j := FindPlace(calls, index, id);
          if j < |calls| {
            var call := calls[j];
            calls := calls[j := ToolCall(if id != "" then id else call.id, if b.name != "" then b.name else call.name,
                                         b.arguments, call.index)];
          } else {
            calls := calls + [ToolCall(id, b.name, b.arguments, index)];
          }
        }
      case Done(index, id, name, arguments) =>
        b := Builder(if id != "" then id else b.id, if name != "" then name else b.name, b.arguments);
        var call := ToolCall(b.id, b.name, if arguments != "" then arguments else b.arguments, index);
        var j := FindPlace(calls, index, call.id);
        calls := if j < |calls| then calls[j := call] else calls + [call];
      }
      builders := builders[e.index := b];
    }
  }

  // ---------------------------------------------------------------- one call at a time

  /** One index by itself: its call, once there is one, and its builder. */
  datatype Slot = Slot(call: Option<ToolCall>, builder: Builder)

  function SlotNext(s: Slot, e: CallEvent): Slot {
    var b := Built(s.builder, e);
    match e
    case Start(index, id, name) => Slot(Some(ToolCall(id, name, "", index)), b)
    case Delta(index, id, delta) =>
      if id == "" && delta == "" then Slot(s.call, b)
      else if s.call.Some? then Slot(Some(WithArguments(s.call.value, id, b.name, b.arguments)), b)
      else Slot(Some(ToolCall(id, b.name, b.arguments, index)), b)
    case Done(_, _, _, _) => Slot(Some(Finished(b, e)), b)
  }

  function SlotOf(events: seq<CallEvent>, index: int): Slot {
    if events == [] then Slot(None, Builder("", "", ""))
    else
      var s, e := SlotOf(events[..|events| - 1], index), events[|events| - 1];
      if e.index == index then SlotNext(s, e) else s
  }

  predicate Creates(e: CallEvent) {
    e.Delta? ==> e.id != "" || e.delta != ""
  }

  /** The indices of the calls, in the order they appear. */
  function Order(events: seq<CallEvent>): seq<int> {
    if events == [] then []
    else
      var rest, e := Order(events[..|events| - 1]), events[|events| - 1];
      if Creates(e) && e.index !in rest then rest + [e.index] else rest
  }

  lemma SlotSnoc(events: seq<CallEvent>, e: CallEvent, i: int)
    ensures SlotOf(events + [e], i) == if e.index == i then SlotNext(SlotOf(events, i), e) else SlotOf(events, i)
    ensures Order(events + [e]) ==
            if Creates(e) && e.index !in Order(events) then Order(events) + [e.index] else Order(events)
  {
    assert (events + [e])[..|events|] == events;
  }

  lemma BuilderNext(events: seq<CallEvent>, e: CallEvent, s: Calls, i: int)
    requires BuilderAt(s.builders, i) == SlotOf(events, i).builder
    ensures BuilderAt(Next(s, e).builders, i) == SlotOf(events + [e], i).builder
  {
    SlotSnoc(events, e, i);
  }

  /** A builder never sees another index. */
  lemma {:induction false} BuilderIsSlot(events: seq<CallEvent>, i: int)
    ensures BuilderAt(Assembled(events).builders, i) == SlotOf(events, i).builder
  {
    if events != [] {
      var init, e := events[..|events| - 1], events[|events| - 1];
      assert events == init + [e];
      BuilderIsSlot(init, i);
      BuilderNext(init, e, Assembled(init), i);
    }
  }

  /** An index has a call exactly when it is in the order of appearance. */
  lemma {:induction false} SlotInOrder(events: seq<CallEvent>, i: int)
    ensures SlotOf(events, i).call.Some? <==> i in Order(events)
    ensures SlotOf(events, i).call.Some? ==> SlotOf(events, i).call.value.index == i
  {
    if events != [] { SlotInOrder(events[..|events| - 1], i); }
  }

  lemma {:induction false} OrderDistinct(events: seq<CallEvent>)
    ensures NoDuplicates(Order(events))
  {
    if events != [] { OrderDistinct(events[..|events| - 1]); }
  }

  /** The position of `i`, or the length. */
  function PositionOf(order: seq<int>, i: int): (j: nat)
    ensures j <= |order| && (if j < |order| then order[j] == i else i !in order)
    ensures forall k | 0 <= k < j :: order[k] != i
  {
    if order == [] || order[0] == i then 0
    else
      assert order == [order[0]] + order[1..];
      1 + PositionOf(order[1..], i)
  }

  /** The call of an index, as its own events make it. */
  function SlotCall(events: seq<CallEvent>, i: int): ToolCall {
    match SlotOf(events, i).call
    case Some(call) => call
    case None => ToolCall("", "", "", i)
  }

  /** The calls as each index by itself would have them, in order of appearance. */
  function SlotCalls(events: seq<CallEvent>): (calls: seq<ToolCall>)
    ensures |calls| == |Order(events)|
  {
    var order := Order(events);
    seq(|order|, j requires 0 <= j < |order| => SlotCall(events, order[j]))
  }

  lemma SlotCallAt(events: seq<CallEvent>, j: nat)
    requires j < |Order(events)|
    ensures SlotOf(events, Order(events)[j]).call == Some(SlotCalls(events)[j])
    ensures SlotCalls(events)[j].index == Order(events)[j]
  {
    SlotInOrder(events, Order(events)[j]);
  }

  /** The calls are those of the indices taken one by one. */
  predicate InStep(events: seq<CallEvent>) {
    Assembled(events).calls == SlotCalls(events)
  }

  // ---------------------------------------------------------------- exactly which events keep the calls apart

  /** No call that appeared before the first `own` ones has the id. */
  predicate Unclaimed(calls: seq<ToolCall>, own: nat, id: string)
    requires own <= |calls|
  {
    id == "" || forall k | 0 <= k < own :: calls[k].id != id
  }

  /** An update that changes neither the call it reaches nor the one it is meant for. */
  predicate Idle(calls: seq<ToolCall>, own: nat, id: string, b: Builder) {
    && own < |calls|
    && WithArguments(calls[own], id, b.name, b.arguments) == calls[own]
    && var j := Place(calls, calls[own].index, id);
       j < |calls| && WithArguments(calls[j], id, b.name, b.arguments) == calls[j]
  }

  /** What an event needs of the calls so far, told from the slots alone. */
  predicate Fitting(events: seq<CallEvent>, e: CallEvent) {
    var calls, own := SlotCalls(events), PositionOf(Order(events), e.index);
    var b := Built(SlotOf(events, e.index).builder, e);
    match e
    case Start(index, _, _) => index !in Order(events)
    case Delta(_, id, _) => !Creates(e) || Unclaimed(calls, own, id) || Idle(calls, own, id, b)
    case Done(_, _, _, _) => Unclaimed(calls, own, Finished(b, e).id)
  }

  /** An event is placed in its own slot exactly when no earlier call has claimed its id. */
  lemma PlaceExactlyWhen(events: seq<CallEvent>, index: int, id: string)
    ensures var own := PositionOf(Order(events), index);
            Place(SlotCalls(events), index, id) <= own
            && (Place(SlotCalls(events), index, id) == own <==> Unclaimed(SlotCalls(events), own, id))
  {
    var calls, own := SlotCalls(events), PositionOf(Order(events), index);
    forall k | 0 <= k < |calls| ensures Fits(calls[k], index, id) <==> k == own || (id != "" && calls[k].id == id) {
      SlotCallAt(events, k);
      OrderDistinct(events);
    }
    if own < |calls| { assert Fits(calls[own], index, id); }
  }

  function Placed(calls: seq<ToolCall>, j: nat, call: ToolCall): seq<ToolCall>
    requires j <= |calls|
  {
    if j < |calls| then calls[j := call] else calls + [call]
  }

  lemma SlotCallKept(events: seq<CallEvent>, e: CallEvent, k: nat)
    requires k < |Order(events)|
    ensures k < |Order(events + [e])| && Order(events + [e])[k] == Order(events)[k]
    ensures Order(events)[k] != e.index || !Creates(e) ==> SlotCalls(events + [e])[k] == SlotCalls(events)[k]
  {
    SlotSnoc(events, e, Order(events)[k]);
  }

  lemma SlotCallSet(events: seq<CallEvent>, e: CallEvent)
    requires Creates(e)
    ensures var own, slot := PositionOf(Order(events), e.index), SlotNext(SlotOf(events, e.index), e);
            slot.call.Some? && own < |Order(events + [e])| && SlotCalls(events + [e])[own] == slot.call.value
    ensures |Order(events + [e])| == |Order(events)| + if e.index in Order(events) then 0 else 1
  {
    SlotSnoc(events, e, e.index);
  }

  /** What an event does to the slots: it sets its own. */
  lemma SlotCallsNext(events: seq<CallEvent>, e: CallEvent)
    ensures var slot := SlotNext(SlotOf(events, e.index), e);
            if Creates(e) then
              slot.call.Some?
              && SlotCalls(events + [e]) ==
                 Placed(SlotCalls(events), PositionOf(Order(events), e.index), slot.call.value)
            else SlotCalls(events + [e]) == SlotCalls(events)
  {
    var order, own := Order(events), PositionOf(Order(events), e.index);
    OrderDistinct(events);
    forall k | 0 <= k < |order| && (k != own || !Creates(e))
      ensures k < |SlotCalls(events + [e])| && SlotCalls(events + [e])[k] == SlotCalls(events)[k]
    {
      SlotCallKept(events, e, k);
    }
    if Creates(e) {
      SlotCallSet(events, e);
    } else {
      SlotSnoc(events, e, e.index);
    }
  }

  /** The same list twice, changed at one place each: equal exactly when nothing tells the places apart. */
  lemma PlacedTwice(calls: seq<ToolCall>, j: nat, x: ToolCall, own: nat, y: ToolCall)
    requires j <= own <= |calls|
    ensures Placed(calls, j, x) == Placed(calls, own, y) <==>
            (if j == own then x == y else own < |calls| && x == calls[j] && y == calls[own])
  {
    var a, b := Placed(calls, j, x), Placed(calls, own, y);
    if j < own && a == b {
      assert a[j] == x && b[j] == calls[j];
      assert a[own] == calls[own] && b[own] == y;
    }
    if j == own && a == b {
      assert a[j] == x && b[j] == y;
    }
  }

  lemma StartExactlyWhen(events: seq<CallEvent>, call: ToolCall)
    ensures SlotCalls(events) + [call] == Placed(SlotCalls(events), PositionOf(Order(events), call.index), call)
            <==> call.index !in Order(events)
  {
    var calls, own := SlotCalls(events), PositionOf(Order(events), call.index);
    if own < |calls| {
      assert |calls + [call]| != |Placed(calls, own, call)|;
    }
  }

  lemma DeltaExactlyWhen(events: seq<CallEvent>, e: CallEvent, b: Builder)
    requires e.Delta? && Creates(e) && b == Built(SlotOf(events, e.index).builder, e)
    ensures var calls, own := SlotCalls(events), PositionOf(Order(events), e.index);
            var slot := SlotNext(SlotOf(events, e.index), e);
            slot.call.Some?
            && (UpdateArguments(calls, e.index, e.id, b.name, b.arguments) == Placed(calls, own, slot.call.value)
                <==> Unclaimed(calls, own, e.id) || Idle(calls, own, e.id, b))
  {
    var calls, own := SlotCalls(events), PositionOf(Order(events), e.index);
    var j := Place(calls, e.index, e.id);
    PlaceExactlyWhen(events, e.index, e.id);
    SlotInOrder(events, e.index);
    if own < |calls| { SlotCallAt(events, own); }
    var x := if j < |calls| then WithArguments(calls[j], e.id, b.name, b.arguments)
             else ToolCall(e.id, b.name, b.arguments, e.index);
    PlacedTwice(calls, j, x, own, SlotNext(SlotOf(events, e.index), e).call.value);
  }

  lemma DoneExactlyWhen(events: seq<CallEvent>, call: ToolCall)
    ensures var calls, own := SlotCalls(events), PositionOf(Order(events), call.index);
            Upsert(calls, call) == Placed(calls, own, call) <==> Unclaimed(calls, own, call.id)
  {
    var calls, own := SlotCalls(events), PositionOf(Order(events), call.index);
    var j := Place(calls, call.index, call.id);
    PlaceExactlyWhen(events, call.index, call.id);
    PlacedTwice(calls, j, call, own, call);
    if j < own {
      SlotCallAt(events, j);
    }
  }

  /** From calls in step, one event leaves them in step exactly when it fits. */
  lemma StepExactlyWhen(events: seq<CallEvent>, e: CallEvent)
    requires InStep(events)
    ensures InStep(events + [e]) <==> Fitting(events, e)
  {
    AssembledSnoc(events, e);
    BuilderIsSlot(events, e.index);
    SlotCallsNext(events, e);
    var b := Built(SlotOf(events, e.index).builder, e);
    match e
    case Start(index, id, name) => StartExactlyWhen(events, ToolCall(id, name, "", index));
    case Delta(_, _, _) => if Creates(e) { DeltaExactlyWhen(events, e, b); }
    case Done(_, _, _, _) => DoneExactlyWhen(events, Finished(b, e));
  }

  /** In step after every event. */
  predicate InStepThroughout(events: seq<CallEvent>) {
    events == [] || (InStepThroughout(events[..|events| - 1]) && InStep(events))
  }

  /** Every event fits the ones before it. */
  predicate AllFit(events: seq<CallEvent>) {
    events == [] || (AllFit(events[..|events| - 1]) && Fitting(events[..|events| - 1], events[|events| - 1]))
  }

  /**
   The calls are kept apart at every point of a stream exactly when every event fits: a start is the first to name its
   index, and a delta or completion carries no id that a call before its own has claimed.
   */
  lemma {:induction false} KeptApartExactlyWhen(events: seq<CallEvent>)
    ensures InStepThroughout(events) <==> AllFit(events)
  {
    if events != [] {
      var init, e := events[..|events| - 1], events[|events| - 1];
      assert events == init + [e];
      KeptApartExactlyWhen(init);
      if InStepThroughout(init) {
        StepExactlyWhen(init, e);
      }
    }
  }

  lemma FittingInStep(events: seq<CallEvent>)
    requires AllFit(events)
    ensures InStep(events)
  {
    KeptApartExactlyWhen(events);
  }

  // ---------------------------------------------------------------- streams with separate ids

  /** A start comes first for its index, and no id is used for two indices. */
  predicate Separate(events: seq<CallEvent>) {
    && (forall a, b | 0 <= a < b < |events| && events[b].Start? :: events[a].index != events[b].index)
    && (forall a, b | 0 <= a < |events| && 0 <= b < |events| && events[a].id != "" && events[a].id == events[b].id ::
          events[a].index == events[b].index)
  }

  predicate Uses(events: seq<CallEvent>, index: int, id: string) {
    id == "" || exists a :: 0 <= a < |events| && events[a].id == id && events[a].index == index
  }

  lemma UsesSnoc(events: seq<CallEvent>, e: CallEvent, index: int, id: string)
    ensures Uses(events, index, id) ==> Uses(events + [e], index, id)
    ensures Uses(events + [e], e.index, e.id)
  {
    var all := events + [e];
    assert all[|events|] == e;
    if Uses(events, index, id) && id != "" {
      var a :| 0 <= a < |events| && events[a].id == id && events[a].index == index;
      assert all[a] == events[a];
    }
  }

  /** Ids shared by two indices do not happen. */
  lemma UsedOnce(events: seq<CallEvent>, i: int, j: int, id: string)
    requires Separate(events) && Uses(events, i, id) && Uses(events, j, id) && id != ""
    ensures i == j
  {}

  lemma {:induction false} SlotUses(events: seq<CallEvent>, i: int)
    ensures Uses(events, i, SlotOf(events, i).builder.id)
    ensures SlotOf(events, i).call.Some? ==>
            SlotOf(events, i).call.value.index == i && Uses(events, i, SlotOf(events, i).call.value.id)
  {
    if events != [] {
      var init, e := events[..|events| - 1], events[|events| - 1];
      assert events == init + [e];
      SlotUses(init, i);
      var s := SlotOf(init, i);
      UsesSnoc(init, e, i, s.builder.id);
      if s.call.Some? { UsesSnoc(init, e, i, s.call.value.id); }
    }
  }

  lemma {:induction false} StartIsFirst(events: seq<CallEvent>, i: int)
    requires forall a | 0 <= a < |events| :: events[a].index != i
    ensures i !in Order(events) && SlotOf(events, i) == Slot(None, Builder("", "", ""))
  {
    if events != [] { StartIsFirst(events[..|events| - 1], i); }
  }

  lemma SeparatePrefix(events: seq<CallEvent>, e: CallEvent)
    requires Separate(events + [e])
    ensures Separate(events)
    ensures e.Start? ==> forall a | 0 <= a < |events| :: events[a].index != e.index
  {
    var all := events + [e];
    assert forall a | 0 <= a < |events| :: all[a] == events[a];
    assert all[|events|] == e;
  }

  /** A call with the id of an event of another index would be a shared id. */
  lemma SeparateUnclaimed(events: seq<CallEvent>, e: CallEvent, id: string)
    requires Separate(events + [e]) && Uses(events + [e], e.index, id)
    ensures Unclaimed(SlotCalls(events), PositionOf(Order(events), e.index), id)
  {
    var calls, order, own := SlotCalls(events), Order(events), PositionOf(Order(events), e.index);
    forall k | 0 <= k < own && id != "" ensures calls[k].id != id {
      SlotUses(events, order[k]);
      SlotCallAt(events, k);
      if calls[k].id == id {
        UsesSnoc(events, e, order[k], id);
        UsedOnce(events + [e], order[k], e.index, id);
      }
    }
  }

  lemma SeparateFitting(events: seq<CallEvent>, e: CallEvent)
    requires Separate(events + [e])
    ensures Fitting(events, e)
  {
    var b := SlotOf(events, e.index).builder;
    SlotUses(events, e.index);
    UsesSnoc(events, e, e.index, b.id);
    match e
    case Start(index, _, _) =>
      SeparatePrefix(events, e);
      StartIsFirst(events, index);
    case Delta(_, id, _) => SeparateUnclaimed(events, e, id);
    case Done(_, _, _, _) => SeparateUnclaimed(events, e, Finished(Built(b, e), e).id);
  }

  /** Starts that come first and ids used for one index each are enough. */
  lemma {:induction false} SeparateAllFit(events: seq<CallEvent>)
    requires Separate(events)
    ensures AllFit(events)
  {
    if events != [] {
      var init, e := events[..|events| - 1], events[|events| - 1];
      assert events == init + [e];
      SeparatePrefix(init, e);
      SeparateAllFit(init);
      SeparateFitting(init, e);
    }
  }

  // ---------------------------------------------------------------- interleaving does not matter

  function On(index: int): CallEvent -> bool {
    (e: CallEvent) => e.index == index
  }

  /** A slot sees only its own events. */
  lemma {:induction false} SlotOfOwn(events: seq<CallEvent>, i: int)
    ensures SlotOf(Filter(On(i), events), i) == SlotOf(events, i)
  {
    if events != [] {
      var init, e := events[..|events| - 1], events[|events| - 1];
      SlotOfOwn(init, i);
      if e.index == i { SlotSnoc(Filter(On(i), init), e, i); }
    }
  }

  /**
   Interleaving of parallel calls does not matter: two streams that carry the same events for every index, and in
   which the calls first appear in the same order, assemble to the same calls.
   */
  lemma InterleavingIndependent(a: seq<CallEvent>, b: seq<CallEvent>)
    requires AllFit(a) && AllFit(b) && Order(a) == Order(b)
    requires forall i :: Filter(On(i), a) == Filter(On(i), b)
    ensures Assembled(a).calls == Assembled(b).calls
  {
    FittingInStep(a);
    FittingInStep(b);
    forall j | 0 <= j < |Order(a)| ensures Assembled(a).calls[j] == Assembled(b).calls[j] {
      SlotOfOwn(a, Order(a)[j]);
      SlotOfOwn(b, Order(a)[j]);
      SlotCallAt(a, j);
      SlotCallAt(b, j);
      assert Filter(On(Order(a)[j]), a) == Filter(On(Order(a)[j]), b);
    }
  }

  function Joined(deltas: seq<CallEvent>): string
    requires forall e | e in deltas :: e.Delta?
  {
    if deltas == [] then "" else Joined(deltas[..|deltas| - 1]) + deltas[|deltas| - 1].delta
  }

  predicate DeltasOf(deltas: seq<CallEvent>, index: int, id: string) {
    forall e | e in deltas :: e.Delta? && e.index == index && (e.id == "" || e.id == id)
  }

  lemma {:induction false} StartedSlot(index: int, id: string, name: string, deltas: seq<CallEvent>)
    requires DeltasOf(deltas, index, id)
    ensures var s := SlotOf([Start(index, id, name)] + deltas, index);
            s == Slot(Some(ToolCall(id, name, Joined(deltas), index)), Builder(id, name, Joined(deltas)))
  {
    var start := Start(index, id, name);
    if deltas == [] {
      assert [start] + deltas == [] + [start];
      SlotSnoc([], start, index);
    } else {
      var init, e := deltas[..|deltas| - 1], deltas[|deltas| - 1];
      assert e in deltas;
      StartedSlot(index, id, name, init);
      assert [start] + deltas == ([start] + init) + [e];
      SlotSnoc([start] + init, e, index);
      assert Joined(init) + "" == Joined(init);
    }
  }

  /** At most one completion, without an id or name of its own that differs. */
  predicate CompletionOf(completion: seq<CallEvent>, index: int, id: string, name: string) {
    |completion| <= 1
    && forall e | e in completion :: e.Done? && e.index == index && e.id in {"", id} && e.name in {"", name}
  }

  lemma StreamedSlot(index: int, id: string, name: string, deltas: seq<CallEvent>, completion: seq<CallEvent>)
    requires DeltasOf(deltas, index, id) && CompletionOf(completion, index, id, name)
    ensures var arguments := if completion != [] && completion[0].arguments != "" then completion[0].arguments
                             else Joined(deltas);
            SlotOf([Start(index, id, name)] + deltas + completion, index).call ==
            Some(ToolCall(id, name, arguments, index))
  {
    StartedSlot(index, id, name, deltas);
    var started := [Start(index, id, name)] + deltas;
    if completion == [] {
      assert started + completion == started;
    } else {
      assert completion[0] in completion && completion == [completion[0]];
      SlotSnoc(started, completion[0], index);
    }
  }

  /** A started call ends up with its completion's arguments if it has any, and otherwise with its deltas joined. */
  lemma CallAsStreamed(events: seq<CallEvent>, index: int, id: string, name: string,
                       deltas: seq<CallEvent>, completion: seq<CallEvent>)
    requires AllFit(events) && DeltasOf(deltas, index, id) && CompletionOf(completion, index, id, name)
    requires Filter(On(index), events) == [Start(index, id, name)] + deltas + completion
    ensures var arguments := if completion != [] && completion[0].arguments != "" then completion[0].arguments
                             else Joined(deltas);
            ToolCall(id, name, arguments, index) in Assembled(events).calls
  {
    FittingInStep(events);
    SlotOfOwn(events, index);
    StreamedSlot(index, id, name, deltas, completion);
    SlotInOrder(events, index);
    SlotCallAt(events, PositionOf(Order(events), index));
  }

  /** A start that comes after other events of its index makes a second call of them. */
  lemma {:induction false} LateStartSplits(i: int, id: string, name: string, delta: string)
    requires delta != ""
    ensures Assembled([Delta(i, "", delta), Start(i, id, name)]).calls ==
            [ToolCall("", "", delta, i), ToolCall(id, name, "", i)]
  {
    var first, second := Delta(i, "", delta), Start(i, id, name);
    AssembledSnoc([], first);
    AssembledSnoc([first], second);
    assert [] + [first] == [first] && [first] + [second] == [first, second];
    assert "" + delta == delta;
  }

  /** An id shared by two indices merges their calls. */
  lemma SharedIdMerges(i: int, j: int, id: string, a: string, b: string, args: string)
    requires i != j && id != "" && args != "" && b != ""
    ensures Assembled([Start(i, id, a), Done(j, id, b, args)]).calls == [ToolCall(id, b, args, j)]
  {
    var first, second := Start(i, id, a), Done(j, id, b, args);
    AssembledSnoc([], first);
    AssembledSnoc([first], second);
    assert [] + [first] == [first] && [first] + [second] == [first, second];
  }
}
