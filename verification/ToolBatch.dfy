/** Running the tool calls of one step in order (runner/runner.go, the loop over `toolCalls`). */
module ToolBatch {
  import opened Sequences
  import opened Unified

  const CanceledOutput := "[Canceled]"
  const TimedOutOutput := "[Timed out]"

  /** What executing the call at a position would return, and whether the turn is cancelled before and after it. */
  datatype Outcome = Outcome(content: seq<ContentPart>, isError: bool, cancelledBefore: bool, cancelledAfter: bool)

  /** The text parts, one per line. */
  function TextOf(content: seq<ContentPart>): string {
    Joined(Filter((p: ContentPart) => p.Text?, content))
  }

  function Joined(parts: seq<ContentPart>): string
    requires forall p | p in parts :: p.Text?
  {
    if parts == [] then ""
    else if |parts| == 1 then parts[0].text
    else
      assert parts[|parts| - 1] in parts;
      Joined(parts[..|parts| - 1]) + "\n" + parts[|parts| - 1].text
  }

  predicate Interrupts(o: Outcome) {
    o.cancelledAfter || TextOf(o.content) == CanceledOutput || TextOf(o.content) == TimedOutOutput
  }

  /** Calls with the same name and the same canonical arguments are the same work; `canonical` re-encodes JSON. */
  function DedupeKey(canonical: string -> string, call: ToolCall): string {
    call.name + [0 as char] + canonical(call.arguments)
  }

  function ResultOf(call: ToolCall, content: seq<ContentPart>, isError: bool): ToolResult {
    ToolResult(call.id, call.name, content, isError)
  }

  function CanceledResult(call: ToolCall): ToolResult {
    ResultOf(call, [Text(CanceledOutput, "")], true)
  }

  datatype Batch = Batch(results: seq<ToolResult>, known: map<string, ToolResult>, ran: seq<nat>, cancelled: bool)

  function Next(canonical: string -> string, s: Batch, call: ToolCall, o: Outcome): Batch {
    var key := DedupeKey(canonical, call);
    if s.cancelled || o.cancelledBefore then s.(results := s.results + [CanceledResult(call)], cancelled := true)
    else if key in s.known then
      s.(results := s.results + [ResultOf(call, s.known[key].content, s.known[key].isError)])
    else
      var r := ResultOf(call, o.content, o.isError);
      Batch(s.results + [r], s.known[key := r], s.ran + [|s.results|], Interrupts(o))
  }

  /** The state after the first `n` calls. */
  function After(canonical: string -> string, calls: seq<ToolCall>, outcomes: seq<Outcome>, n: nat): Batch
    requires n <= |calls| == |outcomes|
  {
    if n == 0 then Batch([], map[], [], false)
    else Next(canonical, After(canonical, calls, outcomes, n - 1), calls[n - 1], outcomes[n - 1])
  }

  // ---------------------------------------------------------------- what runs

  /** Something before position `i` stopped the batch. */
  ghost predicate StoppedBefore(ran: seq<nat>, outcomes: seq<Outcome>, i: nat)
    requires i <= |outcomes|
  {
    exists j: nat | j < i :: outcomes[j].cancelledBefore || (j in ran && Interrupts(outcomes[j]))
  }

  ghost predicate RanBefore(canonical: string -> string, calls: seq<ToolCall>, ran: seq<nat>, i: nat, key: string)
    requires i <= |calls|
  {
    exists j: nat | j < i :: j in ran && DedupeKey(canonical, calls[j]) == key
  }

  lemma {:induction false} StoppedSnoc(ran: seq<nat>, outcomes: seq<Outcome>, n: nat, ran': seq<nat>)
    requires n < |outcomes| && (ran' == ran || ran' == ran + [n]) && forall j | j in ran :: j < n
    ensures StoppedBefore(ran', outcomes, n) <==> StoppedBefore(ran, outcomes, n)
    ensures StoppedBefore(ran', outcomes, n + 1) <==>
            StoppedBefore(ran, outcomes, n) || outcomes[n].cancelledBefore || (n in ran' && Interrupts(outcomes[n]))
  {
    assert forall j: nat | j < n :: j in ran' <==> j in ran;
  }

  lemma {:induction false} RanSnoc(canonical: string -> string, calls: seq<ToolCall>, ran: seq<nat>, n: nat,
                                   ran': seq<nat>, key: string)
    requires n < |calls| && (ran' == ran || ran' == ran + [n]) && forall j | j in ran :: j < n
    ensures RanBefore(canonical, calls, ran', n, key) <==> RanBefore(canonical, calls, ran, n, key)
    ensures RanBefore(canonical, calls, ran', n + 1, key) <==>
            RanBefore(canonical, calls, ran, n, key) || (n in ran' && DedupeKey(canonical, calls[n]) == key)
  {
    assert forall j: nat | j < n :: j in ran' <==> j in ran;
  }

  /** One call: what it adds. */
  lemma {:induction false} Adds(canonical: string -> string, s: Batch, call: ToolCall, o: Outcome)
    ensures var t := Next(canonical, s, call, o);
            && s.results <= t.results && |t.results| == |s.results| + 1
            && (if s.cancelled || o.cancelledBefore || DedupeKey(canonical, call) in s.known then t.ran == s.ran
                else t.ran == s.ran + [|s.results|])
  {}

  lemma {:induction false} Lengths(canonical: string -> string, calls: seq<ToolCall>, outcomes: seq<Outcome>, n: nat)
    requires n <= |calls| == |outcomes|
    ensures |After(canonical, calls, outcomes, n).results| == n
    ensures forall j | j in After(canonical, calls, outcomes, n).ran :: j < n
  {
    if n != 0 {
      Lengths(canonical, calls, outcomes, n - 1);
      Adds(canonical, After(canonical, calls, outcomes, n - 1), calls[n - 1], outcomes[n - 1]);
    }
  }

  lemma {:induction false} CancelledNext(canonical: string -> string, s: Batch, call: ToolCall, outcomes: seq<Outcome>,
                                         n: nat)
    requires n < |outcomes| && |s.results| == n && (forall j | j in s.ran :: j < n)
    requires s.cancelled <==> StoppedBefore(s.ran, outcomes, n)
    ensures Next(canonical, s, call, outcomes[n]).cancelled <==>
            StoppedBefore(Next(canonical, s, call, outcomes[n]).ran, outcomes, n + 1)
  {
    Adds(canonical, s, call, outcomes[n]);
    StoppedSnoc(s.ran, outcomes, n, Next(canonical, s, call, outcomes[n]).ran);
  }

  /** The flag is up exactly when something has stopped the batch. */
  lemma {:induction false} CancelledIs(canonical: string -> string, calls: seq<ToolCall>, outcomes: seq<Outcome>,
                                       n: nat)
    requires n <= |calls| == |outcomes|
    ensures After(canonical, calls, outcomes, n).cancelled <==>
            StoppedBefore(After(canonical, calls, outcomes, n).ran, outcomes, n)
  {
    if n != 0 {
      CancelledIs(canonical, calls, outcomes, n - 1);
      Lengths(canonical, calls, outcomes, n - 1);
      CancelledNext(canonical, After(canonical, calls, outcomes, n - 1), calls[n - 1], outcomes, n - 1);
    }
  }

  lemma {:induction false} KnownNext(canonical: string -> string, s: Batch, calls: seq<ToolCall>, o: Outcome, n: nat,
                                     key: string)
    requires n < |calls| && |s.results| == n && (forall j | j in s.ran :: j < n)
    requires key in s.known <==> RanBefore(canonical, calls, s.ran, n, key)
    ensures key in Next(canonical, s, calls[n], o).known <==>
            RanBefore(canonical, calls, Next(canonical, s, calls[n], o).ran, n + 1, key)
  {
    Adds(canonical, s, calls[n], o);
    RanSnoc(canonical, calls, s.ran, n, Next(canonical, s, calls[n], o).ran, key);
  }

  /** A result is known exactly for the work that was run. */
  lemma {:induction false} KnownIs(canonical: string -> string, calls: seq<ToolCall>, outcomes: seq<Outcome>, n: nat,
                                   key: string)
    requires n <= |calls| == |outcomes|
    ensures key in After(canonical, calls, outcomes, n).known <==>
            RanBefore(canonical, calls, After(canonical, calls, outcomes, n).ran, n, key)
  {
    if n != 0 {
      KnownIs(canonical, calls, outcomes, n - 1, key);
      Lengths(canonical, calls, outcomes, n - 1);
      KnownNext(canonical, After(canonical, calls, outcomes, n - 1), calls, outcomes[n - 1], n - 1, key);
    }
  }

  lemma {:induction false} StillKnown(canonical: string -> string, s: Batch, call: ToolCall, o: Outcome, key: string,
                                      j: nat)
    requires key in s.known && j in s.ran
    ensures var t := Next(canonical, s, call, o); key in t.known && t.known[key] == s.known[key] && j in t.ran
  {}

  lemma {:induction false} NewlyKnown(canonical: string -> string, s: Batch, call: ToolCall, o: Outcome, key: string)
    requires key in Next(canonical, s, call, o).known && key !in s.known
    ensures var t := Next(canonical, s, call, o);
            && DedupeKey(canonical, call) == key
            && t.known[key] == ResultOf(call, o.content, o.isError)
            && |s.results| in t.ran
  {}

  /** A known result is that of the call that was run for it. */
  lemma {:induction false} KnownFrom(canonical: string -> string, calls: seq<ToolCall>, outcomes: seq<Outcome>,
                                     n: nat, key: string)
    returns (j: nat)
    requires n <= |calls| == |outcomes| && key in After(canonical, calls, outcomes, n).known
    ensures j < n && j in After(canonical, calls, outcomes, n).ran && DedupeKey(canonical, calls[j]) == key
    ensures After(canonical, calls, outcomes, n).known[key] ==
            ResultOf(calls[j], outcomes[j].content, outcomes[j].isError)
  {
    var s := After(canonical, calls, outcomes, n - 1);
    if key in s.known {
      j := KnownFrom(canonical, calls, outcomes, n - 1, key);
      StillKnown(canonical, s, calls[n - 1], outcomes[n - 1], key, j);
    } else {
      NewlyKnown(canonical, s, calls[n - 1], outcomes[n - 1], key);
      Lengths(canonical, calls, outcomes, n - 1);
      j := n - 1;
    }
  }

  lemma {:induction false} Grows(canonical: string -> string, calls: seq<ToolCall>, outcomes: seq<Outcome>, i: nat,
                                 n: nat)
    requires i <= n <= |calls| == |outcomes|
    ensures After(canonical, calls, outcomes, i).results <= After(canonical, calls, outcomes, n).results
  {
    if i < n {
      Grows(canonical, calls, outcomes, i, n - 1);
      Adds(canonical, After(canonical, calls, outcomes, n - 1), calls[n - 1], outcomes[n - 1]);
    }
  }

  lemma {:induction false} RanKept(canonical: string -> string, calls: seq<ToolCall>, outcomes: seq<Outcome>, i: nat,
                                   n: nat, j: nat)
    requires j < i <= n <= |calls| == |outcomes|
    ensures j in After(canonical, calls, outcomes, n).ran <==> j in After(canonical, calls, outcomes, i).ran
  {
    if i < n {
      RanKept(canonical, calls, outcomes, i, n - 1, j);
      Lengths(canonical, calls, outcomes, n - 1);
      Adds(canonical, After(canonical, calls, outcomes, n - 1), calls[n - 1], outcomes[n - 1]);
    }
  }

  lemma {:induction false} RanOnceNext(canonical: string -> string, s: Batch, call: ToolCall, o: Outcome)
    requires NoDuplicates(s.ran) && forall j | j in s.ran :: j < |s.results|
    ensures NoDuplicates(Next(canonical, s, call, o).ran)
  {
    Adds(canonical, s, call, o);
    NoDuplicatesSnoc(s.ran, |s.results|);
  }

  /** No position is run twice. */
  lemma {:induction false} RanOnce(canonical: string -> string, calls: seq<ToolCall>, outcomes: seq<Outcome>, n: nat)
    requires n <= |calls| == |outcomes|
    ensures NoDuplicates(After(canonical, calls, outcomes, n).ran)
  {
    if n != 0 {
      RanOnce(canonical, calls, outcomes, n - 1);
      Lengths(canonical, calls, outcomes, n - 1);
      RanOnceNext(canonical, After(canonical, calls, outcomes, n - 1), calls[n - 1], outcomes[n - 1]);
    }
  }

  lemma {:induction false} NoDuplicatesSnoc(s: seq<nat>, x: nat)
    requires NoDuplicates(s) && forall y | y in s :: y < x
    ensures NoDuplicates(s + [x])
  {
    assert forall i | 0 <= i < |s| :: s[i] in s;
  }

  lemma {:induction false} SameBefore(canonical: string -> string, calls: seq<ToolCall>, outcomes: seq<Outcome>,
                                      i: nat, n: nat,
                   key: string)
    requires i <= n <= |calls| == |outcomes|
    ensures var s, t := After(canonical, calls, outcomes, i), After(canonical, calls, outcomes, n);
            && (StoppedBefore(t.ran, outcomes, i) <==> StoppedBefore(s.ran, outcomes, i))
            && (RanBefore(canonical, calls, t.ran, i, key) <==> RanBefore(canonical, calls, s.ran, i, key))
  {
    forall j: nat | j < i
      ensures j in After(canonical, calls, outcomes, n).ran <==> j in After(canonical, calls, outcomes, i).ran
    {
      RanKept(canonical, calls, outcomes, i, n, j);
    }
  }

  /** The state before call `i`, told from what is run in the whole batch. */
  lemma {:induction false} Before(canonical: string -> string, calls: seq<ToolCall>, outcomes: seq<Outcome>, i: nat)
    requires i < |calls| == |outcomes|
    ensures var s, ran := After(canonical, calls, outcomes, i), After(canonical, calls, outcomes, |calls|).ran;
            && |s.results| == i && i !in s.ran
            && (s.cancelled <==> StoppedBefore(ran, outcomes, i))
            && (DedupeKey(canonical, calls[i]) in s.known <==>
                RanBefore(canonical, calls, ran, i, DedupeKey(canonical, calls[i])))
  {
    var key := DedupeKey(canonical, calls[i]);
    Lengths(canonical, calls, outcomes, i);
    CancelledIs(canonical, calls, outcomes, i);
    KnownIs(canonical, calls, outcomes, i, key);
    SameBefore(canonical, calls, outcomes, i, |calls|, key);
  }

  /** A call is run exactly when nothing has stopped the batch and the same work has not been run already. */
  lemma {:induction false} RunsExactlyWhen(canonical: string -> string, calls: seq<ToolCall>, outcomes: seq<Outcome>,
                                           i: nat)
    requires i < |calls| == |outcomes|
    ensures var ran := After(canonical, calls, outcomes, |calls|).ran;
            i in ran <==> (&& !outcomes[i].cancelledBefore && !StoppedBefore(ran, outcomes, i)
                           && !RanBefore(canonical, calls, ran, i, DedupeKey(canonical, calls[i])))
  {
    Before(canonical, calls, outcomes, i);
    RanKept(canonical, calls, outcomes, i + 1, |calls|, i);
    Adds(canonical, After(canonical, calls, outcomes, i), calls[i], outcomes[i]);
  }

  /** No two executions are of calls with the same work. */
  ghost predicate WorkDistinct(canonical: string -> string, calls: seq<ToolCall>, ran: seq<nat>) {
    && (forall k | 0 <= k < |ran| :: ran[k] < |calls|)
    && forall k, l | 0 <= k < l < |ran| :: DedupeKey(canonical, calls[ran[k]]) != DedupeKey(canonical, calls[ran[l]])
  }

  /** Of two positions that are run, the later one is for other work. */
  lemma {:induction false} OtherWork(canonical: string -> string, calls: seq<ToolCall>, outcomes: seq<Outcome>, i: nat,
                                     j: nat)
    requires i < j < |calls| == |outcomes|
    requires i in After(canonical, calls, outcomes, |calls|).ran && j in After(canonical, calls, outcomes, |calls|).ran
    ensures DedupeKey(canonical, calls[i]) != DedupeKey(canonical, calls[j])
  {
    RunsExactlyWhen(canonical, calls, outcomes, j);
  }

  /** The same work is executed at most once in a batch. */
  lemma {:induction false} WorkRunsOnce(canonical: string -> string, calls: seq<ToolCall>, outcomes: seq<Outcome>)
    requires |calls| == |outcomes|
    ensures WorkDistinct(canonical, calls, After(canonical, calls, outcomes, |calls|).ran)
  {
    var ran := After(canonical, calls, outcomes, |calls|).ran;
    Lengths(canonical, calls, outcomes, |calls|);
    RanOnce(canonical, calls, outcomes, |calls|);
    assert forall k | 0 <= k < |ran| :: ran[k] in ran;
    forall k, l | 0 <= k < l < |ran|
      ensures DedupeKey(canonical, calls[ran[k]]) != DedupeKey(canonical, calls[ran[l]])
    {
      assert ran[k] != ran[l];
      if ran[k] < ran[l] {
        OtherWork(canonical, calls, outcomes, ran[k], ran[l]);
      } else {
        OtherWork(canonical, calls, outcomes, ran[l], ran[k]);
      }
    }
  }

  lemma {:induction false} ResultAt(canonical: string -> string, calls: seq<ToolCall>, outcomes: seq<Outcome>, i: nat)
    requires i < |calls| == |outcomes|
    ensures |After(canonical, calls, outcomes, |calls|).results| == |calls|
    ensures var s := After(canonical, calls, outcomes, i);
            |s.results| == i && After(canonical, calls, outcomes, |calls|).results[i] ==
              Next(canonical, s, calls[i], outcomes[i]).results[i]
  {
    Lengths(canonical, calls, outcomes, |calls|);
    Lengths(canonical, calls, outcomes, i);
    Lengths(canonical, calls, outcomes, i + 1);
    Grows(canonical, calls, outcomes, i + 1, |calls|);
  }

  /** Every call gets exactly one result under its own id. */
  lemma {:induction false} ResultNamed(canonical: string -> string, calls: seq<ToolCall>, outcomes: seq<Outcome>,
                                       i: nat)
    requires i < |calls| == |outcomes|
    ensures var s := After(canonical, calls, outcomes, |calls|);
            |s.results| == |calls| && s.results[i].callId == calls[i].id && s.results[i].name == calls[i].name
  {
    ResultAt(canonical, calls, outcomes, i);
  }

  /** The result is the call's own if it was run, and a cancellation if the batch had stopped. */
  lemma {:induction false} ResultRunOrCanceled(canonical: string -> string, calls: seq<ToolCall>,
                                               outcomes: seq<Outcome>, i: nat)
    requires i < |calls| == |outcomes|
    ensures var s := After(canonical, calls, outcomes, |calls|);
            && |s.results| == |calls|
            && (i in s.ran ==> s.results[i] == ResultOf(calls[i], outcomes[i].content, outcomes[i].isError))
            && (outcomes[i].cancelledBefore || StoppedBefore(s.ran, outcomes, i) ==>
                s.results[i] == CanceledResult(calls[i]))
  {
    ResultAt(canonical, calls, outcomes, i);
    Before(canonical, calls, outcomes, i);
    RunsExactlyWhen(canonical, calls, outcomes, i);
  }

  /** Otherwise it is that of the same work run earlier. */
  lemma {:induction false} ResultShared(canonical: string -> string, calls: seq<ToolCall>, outcomes: seq<Outcome>,
                                        i: nat)
    returns (j: nat)
    requires i < |calls| == |outcomes| && i !in After(canonical, calls, outcomes, |calls|).ran
    requires !outcomes[i].cancelledBefore && !StoppedBefore(After(canonical, calls, outcomes, |calls|).ran, outcomes, i)
    ensures j < i && j in After(canonical, calls, outcomes, |calls|).ran &&
            DedupeKey(canonical, calls[j]) == DedupeKey(canonical, calls[i])
    ensures |After(canonical, calls, outcomes, |calls|).results| == |calls|
    ensures After(canonical, calls, outcomes, |calls|).results[i] ==
            ResultOf(calls[i], outcomes[j].content, outcomes[j].isError)
  {
    ResultAt(canonical, calls, outcomes, i);
    Before(canonical, calls, outcomes, i);
    RunsExactlyWhen(canonical, calls, outcomes, i);
    j := KnownFrom(canonical, calls, outcomes, i, DedupeKey(canonical, calls[i]));
    RanKept(canonical, calls, outcomes, i, |calls|, j);
  }

  // ---------------------------------------------------------------- the batch, told from names and arguments

  /** The same tool with the same canonical arguments. */
  predicate SameWork(canonical: string -> string, a: ToolCall, b: ToolCall) {
    a.name == b.name && canonical(a.arguments) == canonical(b.arguments)
  }

  ghost predicate PlainNames(calls: seq<ToolCall>) {
    forall c | c in calls :: (0 as char) !in c.name
  }

  lemma {:induction false} SplitAtFirst(nul: char, x: string, u: string, y: string, v: string)
    requires nul !in x && nul !in y && x + [nul] + u == y + [nul] + v
    ensures x == y && u == v
  {
    var s, t := x + [nul] + u, y + [nul] + v;
    assert s[..|x|] == x && s[|x|] == nul && s[|x| + 1..] == u;
    assert t[..|y|] == y && t[|y|] == nul && t[|y| + 1..] == v;
  }

  /** Without a NUL in the names, the key tells calls apart exactly by name and canonical arguments. */
  lemma {:induction false} KeyExactlyWhen(canonical: string -> string, a: ToolCall, b: ToolCall)
    requires (0 as char) !in a.name && (0 as char) !in b.name
    ensures DedupeKey(canonical, a) == DedupeKey(canonical, b) <==> SameWork(canonical, a, b)
  {
    if DedupeKey(canonical, a) == DedupeKey(canonical, b) {
      SplitAtFirst(0 as char, a.name, canonical(a.arguments), b.name, canonical(b.arguments));
    }
  }

  /** One part is text and says exactly `text`; no other part is text. */
  ghost predicate Says(content: seq<ContentPart>, text: string) {
    exists k | 0 <= k < |content| :: content[k].Text? && content[k].text == text && OnlyTextAt(content, k)
  }

  ghost predicate OnlyTextAt(content: seq<ContentPart>, k: nat) {
    forall l | 0 <= l < |content| && l != k :: !content[l].Text?
  }

  /** The outcomes after which nothing more is run. */
  ghost predicate Stops(o: Outcome) {
    o.cancelledAfter || Says(o.content, "[Canceled]") || Says(o.content, "[Timed out]")
  }

  lemma {:induction false} JoinedExactly(parts: seq<ContentPart>, text: string)
    requires (forall p | p in parts :: p.Text?) && text != "" && '\n' !in text
    ensures Joined(parts) == text <==> |parts| == 1 && parts[0].text == text
  {
    if |parts| > 1 {
      var init, last := parts[..|parts| - 1], parts[|parts| - 1];
      assert last in parts;
      assert Joined(parts) == Joined(init) + "\n" + last.text;
      assert Joined(parts)[|Joined(init)|] == '\n';
    }
  }

  lemma {:induction false} NoTextLeft(content: seq<ContentPart>)
    requires Filter((p: ContentPart) => p.Text?, content) == []
    ensures forall l | 0 <= l < |content| :: !content[l].Text?
  {
    forall l | 0 <= l < |content| ensures !content[l].Text? {
      assert content[l] in content;
    }
  }

  lemma {:induction false} SaysSnoc(content: seq<ContentPart>, part: ContentPart, text: string)
    ensures !part.Text? ==> (Says(content + [part], text) <==> Says(content, text))
    ensures part.Text? ==> (Says(content + [part], text) <==>
                            part.text == text && forall l | 0 <= l < |content| :: !content[l].Text?)
  {
    var more := content + [part];
    assert more[|content|] == part;
    if Says(content, text) && !part.Text? {
      var k :| 0 <= k < |content| && content[k].Text? && content[k].text == text && OnlyTextAt(content, k);
      assert more[k] == content[k] && OnlyTextAt(more, k);
    }
    if Says(more, text) {
      var k :| 0 <= k < |more| && more[k].Text? && more[k].text == text && OnlyTextAt(more, k);
      if k < |content| {
        assert content[k] == more[k];
        assert forall l | 0 <= l < |content| && l != k :: content[l] == more[l];
        assert OnlyTextAt(content, k);
      } else {
        assert forall l | 0 <= l < |content| :: content[l] == more[l];
      }
    }
    if part.Text? && part.text == text && forall l | 0 <= l < |content| :: !content[l].Text? {
      assert OnlyTextAt(more, |content|);
    }
  }

  lemma {:induction false} SaysExactly(content: seq<ContentPart>, text: string)
    ensures var texts := Filter((p: ContentPart) => p.Text?, content);
            Says(content, text) <==> |texts| == 1 && texts[0].Text? && texts[0].text == text
  {
    if content != [] {
      var init, last := content[..|content| - 1], content[|content| - 1];
      Unsnoc(content);
      SaysExactly(init, text);
      SaysSnoc(init, last, text);
      if last.Text? && Filter((p: ContentPart) => p.Text?, init) == [] {
        NoTextLeft(init);
      } else if last.Text? {
        var first := Filter((p: ContentPart) => p.Text?, init)[0];
        assert first in init && first.Text?;
      }
    }
  }

  lemma {:induction false} InterruptsExactly(o: Outcome)
    ensures Interrupts(o) <==> Stops(o)
  {
    var texts := Filter((p: ContentPart) => p.Text?, o.content);
    JoinedExactly(texts, "[Canceled]");
    JoinedExactly(texts, "[Timed out]");
    SaysExactly(o.content, "[Canceled]");
    SaysExactly(o.content, "[Timed out]");
  }

  /** The batch has stopped by the time position `i` is reached. */
  ghost predicate StoppedAt(outcomes: seq<Outcome>, ran: seq<nat>, i: nat)
    requires i < |outcomes|
  {
    outcomes[i].cancelledBefore ||
    exists j: nat | j < i :: outcomes[j].cancelledBefore || (j in ran && Stops(outcomes[j]))
  }

  lemma {:induction false} StoppedExactly(outcomes: seq<Outcome>, ran: seq<nat>, i: nat)
    requires i < |outcomes|
    ensures StoppedAt(outcomes, ran, i) <==> outcomes[i].cancelledBefore || StoppedBefore(ran, outcomes, i)
  {
    forall j: nat | j < i ensures Interrupts(outcomes[j]) <==> Stops(outcomes[j]) {
      InterruptsExactly(outcomes[j]);
    }
  }

  /** Position `j` was executed earlier, for the work that position `i` asks for. */
  ghost predicate DoneAt(canonical: string -> string, calls: seq<ToolCall>, ran: seq<nat>, i: nat, j: nat)
    requires i < |calls|
  {
    j < i && j in ran && SameWork(canonical, calls[j], calls[i])
  }

  /**
   What call `i` of a batch gets: a cancellation once the batch has stopped; the outcome of the same work if
   that was executed earlier; otherwise it is executed itself and gets its own outcome. Always under its own
   id and name.
   */
  ghost predicate SettledAt(canonical: string -> string, calls: seq<ToolCall>, outcomes: seq<Outcome>,
                            results: seq<ToolResult>, ran: seq<nat>, i: nat)
    requires i < |calls| == |outcomes| == |results|
  {
    var id, name := calls[i].id, calls[i].name;
    if StoppedAt(outcomes, ran, i) then
      i !in ran && results[i] == ToolResult(id, name, [Text("[Canceled]", "")], true)
    else if exists j: nat :: DoneAt(canonical, calls, ran, i, j) then
      i !in ran &&
      forall j: nat | DoneAt(canonical, calls, ran, i, j) ::
        results[i] == ToolResult(id, name, outcomes[j].content, outcomes[j].isError)
    else
      i in ran && results[i] == ToolResult(id, name, outcomes[i].content, outcomes[i].isError)
  }

  lemma {:induction false} DoneExactly(canonical: string -> string, calls: seq<ToolCall>, ran: seq<nat>, i: nat)
    requires i < |calls| && PlainNames(calls)
    ensures (exists j: nat :: DoneAt(canonical, calls, ran, i, j)) <==>
            RanBefore(canonical, calls, ran, i, DedupeKey(canonical, calls[i]))
  {
    forall j: nat | j < i
      ensures DedupeKey(canonical, calls[j]) == DedupeKey(canonical, calls[i]) <==>
              SameWork(canonical, calls[j], calls[i])
    {
      KeyExactlyWhen(canonical, calls[j], calls[i]);
    }
    if j: nat :| j < i && j in ran && DedupeKey(canonical, calls[j]) == DedupeKey(canonical, calls[i]) {
      assert DoneAt(canonical, calls, ran, i, j);
    }
  }

  /** There is only one earlier execution of the same work, and the result is its outcome. */
  lemma {:induction false} SharedFrom(canonical: string -> string, calls: seq<ToolCall>, outcomes: seq<Outcome>,
                                      i: nat, k: nat)
    requires i < |calls| == |outcomes| && PlainNames(calls)
    requires i !in After(canonical, calls, outcomes, |calls|).ran
    requires !outcomes[i].cancelledBefore && !StoppedBefore(After(canonical, calls, outcomes, |calls|).ran, outcomes, i)
    requires DoneAt(canonical, calls, After(canonical, calls, outcomes, |calls|).ran, i, k)
    ensures |After(canonical, calls, outcomes, |calls|).results| == |calls|
    ensures After(canonical, calls, outcomes, |calls|).results[i] ==
            ToolResult(calls[i].id, calls[i].name, outcomes[k].content, outcomes[k].isError)
  {
    var j := ResultShared(canonical, calls, outcomes, i);
    KeyExactlyWhen(canonical, calls[k], calls[i]);
    if j < k {
      OtherWork(canonical, calls, outcomes, j, k);
    } else if k < j {
      OtherWork(canonical, calls, outcomes, k, j);
    }
  }

  /** Every call of every batch is settled so. */
  lemma {:induction false} BatchExactly(canonical: string -> string, calls: seq<ToolCall>, outcomes: seq<Outcome>,
                                        i: nat)
    requires i < |calls| == |outcomes| && PlainNames(calls)
    ensures var s := After(canonical, calls, outcomes, |calls|);
            |s.results| == |calls| && SettledAt(canonical, calls, outcomes, s.results, s.ran, i)
  {
    var s := After(canonical, calls, outcomes, |calls|);
    StoppedExactly(outcomes, s.ran, i);
    DoneExactly(canonical, calls, s.ran, i);
    RunsExactlyWhen(canonical, calls, outcomes, i);
    ResultRunOrCanceled(canonical, calls, outcomes, i);
    if !StoppedAt(outcomes, s.ran, i) && i !in s.ran {
      forall j: nat | DoneAt(canonical, calls, s.ran, i, j)
        ensures s.results[i] == ToolResult(calls[i].id, calls[i].name, outcomes[j].content, outcomes[j].isError)
      {
        SharedFrom(canonical, calls, outcomes, i, j);
      }
    }
  }

  /** The loop of `RunTurn` over the calls of one answer. */
  method RunLoop(canonical: string -> string, calls: seq<ToolCall>, outcomes: seq<Outcome>)
    returns (results: seq<ToolResult>, ran: seq<nat>)
    requires |calls| == |outcomes|
    ensures results == After(canonical, calls, outcomes, |calls|).results
    ensures ran == After(canonical, calls, outcomes, |calls|).ran
  {
    results, ran := [], [];
    var known: map<string, ToolResult> := map[];
    var cancelled := false;
    for i := 0 to |calls|
      invariant Batch(results, known, ran, cancelled) == After(canonical, calls, outcomes, i)
      invariant |results| == i
    {
      var call, key := calls[i], DedupeKey(canonical, calls[i]);
      var r: ToolResult;
      if cancelled || outcomes[i].cancelledBefore {
        cancelled := true;
        r := CanceledResult(call);
      } else if key in known {
        r := ToolResult(call.id, call.name, known[key].content, known[key].isError);
      } else {
        r := ResultOf(call, outcomes[i].content, outcomes[i].isError);
        known := known[key := r];
        ran := ran + [i];
        if Interrupts(outcomes[i]) {
          cancelled := true;
        }
      }
      results := results + [r];
    }
  }

  method RunTools(canonical: string -> string, calls: seq<ToolCall>, outcomes: seq<Outcome>)
    returns (results: seq<ToolResult>, ran: seq<nat>)
    requires |calls| == |outcomes|
    ensures results == After(canonical, calls, outcomes, |calls|).results
    ensures ran == After(canonical, calls, outcomes, |calls|).ran
    ensures |results| == |calls|
    ensures forall k | 0 <= k < |calls| :: results[k].callId == calls[k].id && results[k].name == calls[k].name
    ensures WorkDistinct(canonical, calls, ran)
    ensures PlainNames(calls) ==>
              forall k | 0 <= k < |calls| :: SettledAt(canonical, calls, outcomes, results, ran, k)
  {
    results, ran := RunLoop(canonical, calls, outcomes);
    Lengths(canonical, calls, outcomes, |calls|);
    forall k | 0 <= k < |calls| ensures results[k].callId == calls[k].id && results[k].name == calls[k].name {
      ResultNamed(canonical, calls, outcomes, k);
    }
    WorkRunsOnce(canonical, calls, outcomes);
    if PlainNames(calls) {
      forall k | 0 <= k < |calls| ensures SettledAt(canonical, calls, outcomes, results, ran, k) {
        BatchExactly(canonical, calls, outcomes, k);
      }
    }
  }
}
