/**
 Trigger jobs (trigger/scheduler.go): events fire while earlier runs are still executing. Each locked section of a
 job is one step; the steps of any number of runs interleave freely.
 */
module Scheduler {
  datatype Overlap = SkipIfRunning | AllowOverlap

  datatype Status = Starting | Active | Running | Skipped | Stopped | Failed

  /** The counters and flags of a job. */
  datatype JobState = JobState(status: Status, running: bool, matched: nat, skipped: nat, lastError: bool)

  const Fresh := JobState(Starting, false, 0, 0, false)

  predicate CanStart(policy: Overlap, s: JobState) {
    !(s.running && policy.SkipIfRunning?)
  }

  function Fired(policy: Overlap, s: JobState): JobState {
    if CanStart(policy, s) then s.(running := true, status := Running, matched := s.matched + 1)
    else s.(status := Skipped, skipped := s.skipped + 1)
  }

  function FinishedRun(s: JobState): JobState {
    s.(running := false, status := if s.status.Failed? then Failed else Active)
  }

  class Job {
    const policy: Overlap
    var status: Status
    var running: bool
    var matched: nat
    var skipped: nat
    var lastError: bool

    ghost function State(): JobState
      reads this
    {
      JobState(status, running, matched, skipped, lastError)
    }

    constructor (policy: Overlap)
      ensures this.policy == policy && State() == Fresh
    {
      this.policy := policy;
      status, running, matched, skipped, lastError := Starting, false, 0, 0, false;
    }

    method TryStartRun() returns (ok: bool)
      modifies this
      ensures ok <==> CanStart(policy, old(State()))
      ensures State() == Fired(policy, old(State()))
    {
      if running && policy.SkipIfRunning? {
        skipped := skipped + 1;
        status := Skipped;
        return false;
      }
      running := true;
      status := Running;
      matched := matched + 1;
      ok := true;
    }

    method FinishRun()
      modifies this
      ensures State() == FinishedRun(old(State()))
    {
      running := false;
      if status != Failed {
        status := Active;
      }
    }

    method SetError()
      modifies this
      ensures State() == old(State()).(status := Failed, lastError := true)
    {
      status, lastError := Failed, true;
    }

    method SetResult()
      modifies this
      ensures State() == old(State()).(lastError := false)
    {
      lastError := false;
    }

    method SetStatus(next: Status)
      modifies this
      ensures State() == old(State()).(status := next)
    {
      status := next;
    }
  }

  // ---------------------------------------------------------------- interleavings

  /** A run executes, then reports its result or error, then finishes. */
  datatype Phase = Executing | Reported(failed: bool) | Finished(failed: bool)

  datatype World = World(job: JobState, runs: seq<Phase>, fired: nat)

  datatype Step =
    | Activate
    | Fire
    | Report(run: nat, failed: bool)
    | Finish(run: nat)
    | MatcherFails
    | Stop

  function Next(policy: Overlap, w: World, step: Step): World {
    match step
    case Activate => w.(job := w.job.(status := Active))
    case Fire =>
      World(Fired(policy, w.job), if CanStart(policy, w.job) then w.runs + [Executing] else w.runs, w.fired + 1)
    case Report(i, failed) =>
      if i < |w.runs| && w.runs[i].Executing?
      then w.(job := if failed then w.job.(status := Failed, lastError := true) else w.job.(lastError := false),
              runs := w.runs[i := Reported(failed)])
      else w
    case Finish(i) =>
      if i < |w.runs| && w.runs[i].Reported?
      then w.(job := FinishedRun(w.job), runs := w.runs[i := Finished(w.runs[i].failed)])
      else w
    case MatcherFails => w.(job := w.job.(status := Failed, lastError := true))
    case Stop => w.(job := w.job.(status := Stopped))
  }

  function Run(policy: Overlap, steps: seq<Step>): World {
    if steps == [] then World(Fresh, [], 0) else Next(policy, Run(policy, steps[..|steps| - 1]), steps[|steps| - 1])
  }

  predicate InFlight(p: Phase) {
    !p.Finished?
  }

  function Flying(runs: seq<Phase>): nat {
    if runs == [] then 0 else Flying(runs[..|runs| - 1]) + if InFlight(runs[|runs| - 1]) then 1 else 0
  }

  lemma {:induction false} FlyingUpdate(runs: seq<Phase>, i: nat, p: Phase)
    requires i < |runs|
    ensures Flying(runs[i := p]) == Flying(runs) - (if InFlight(runs[i]) then 1 else 0) + (if InFlight(p) then 1 else 0)
  {
    var init, n := runs[..|runs| - 1], |runs| - 1;
    if i < n {
      FlyingUpdate(init, i, p);
      assert runs[i := p][..n] == init[i := p];
    } else {
      assert runs[i := p][..n] == init;
    }
  }

  lemma FlyingSnoc(runs: seq<Phase>, p: Phase)
    ensures Flying(runs + [p]) == Flying(runs) + if InFlight(p) then 1 else 0
  {
    assert (runs + [p])[..|runs|] == runs;
  }

  lemma {:induction false} FlyingIn(runs: seq<Phase>, i: nat)
    requires i < |runs| && InFlight(runs[i])
    ensures Flying(runs) >= 1
  {
    if i < |runs| - 1 { FlyingIn(runs[..|runs| - 1], i); }
  }

  /** The books balance whatever the policy: every firing is counted once, and every match is one run. */
  ghost predicate Balanced(w: World) {
    w.job.matched + w.job.skipped == w.fired && |w.runs| == w.job.matched
  }

  /** The flag says whether a run is in flight, and there is never more than one. */
  ghost predicate OneAtATime(w: World) {
    Flying(w.runs) == if w.job.running then 1 else 0
  }

  lemma BalancedStep(policy: Overlap, w: World, step: Step)
    requires Balanced(w)
    ensures Balanced(Next(policy, w, step))
  {}

  lemma OneAtATimeStep(w: World, step: Step)
    requires OneAtATime(w)
    ensures OneAtATime(Next(SkipIfRunning, w, step))
  {
    match step
    case Fire => FlyingSnoc(w.runs, Executing);
    case Report(i, failed) =>
      if i < |w.runs| && w.runs[i].Executing? { FlyingUpdate(w.runs, i, Reported(failed)); }
    case Finish(i) =>
      if i < |w.runs| && w.runs[i].Reported? {
        FlyingIn(w.runs, i);
        FlyingUpdate(w.runs, i, Finished(w.runs[i].failed));
      }
    case _ =>
  }

  lemma {:induction false} SkipKeepsOne(steps: seq<Step>)
    ensures OneAtATime(Run(SkipIfRunning, steps))
  {
    if steps != [] {
      SkipKeepsOne(steps[..|steps| - 1]);
      OneAtATimeStep(Run(SkipIfRunning, steps[..|steps| - 1]), steps[|steps| - 1]);
    }
  }

  /** In every interleaving and under either policy: fired = matched + skipped, and the runs are the matches. */
  lemma {:induction false} BooksBalance(policy: Overlap, steps: seq<Step>)
    ensures Balanced(Run(policy, steps))
  {
    if steps != [] {
      BooksBalance(policy, steps[..|steps| - 1]);
      BalancedStep(policy, Run(policy, steps[..|steps| - 1]), steps[|steps| - 1]);
    }
  }

  /** Two firings, and the first run done: the flag is down while the second still executes. */
  lemma OverlapLosesTheFlag()
    ensures !OneAtATime(Run(AllowOverlap, [Fire, Fire, Report(0, false), Finish(0)]))
  {
    var w1 := Run(AllowOverlap, [Fire]);
    assert [Fire][..0] == [] && [Fire, Fire][..1] == [Fire] && [Fire, Fire, Report(0, false)][..2] == [Fire, Fire];
    assert [Fire, Fire, Report(0, false), Finish(0)][..3] == [Fire, Fire, Report(0, false)];
    assert w1 == Next(AllowOverlap, World(Fresh, [], 0), Fire);
    var w2 := Run(AllowOverlap, [Fire, Fire]);
    assert w2.runs == [Executing, Executing];
    var w3 := Run(AllowOverlap, [Fire, Fire, Report(0, false)]);
    assert w3.runs == [Reported(false), Executing];
    var w4 := Run(AllowOverlap, [Fire, Fire, Report(0, false), Finish(0)]);
    assert w4.runs == [Finished(false), Executing] && !w4.job.running;
    FlyingIn(w4.runs, 1);
  }

  /** One run at a time, and a flag that tells, in every interleaving: exactly under the skipping policy. */
  lemma OneAtATimeExactlyWhen(policy: Overlap)
    ensures (forall steps :: OneAtATime(Run(policy, steps))) <==> policy.SkipIfRunning?
  {
    if policy.SkipIfRunning? {
      forall steps ensures OneAtATime(Run(policy, steps)) { SkipKeepsOne(steps); }
    } else {
      OverlapLosesTheFlag();
    }
  }

  // ---------------------------------------------------------------- conservation

  function Ended(runs: seq<Phase>, failed: bool): nat {
    if runs == [] then 0 else Ended(runs[..|runs| - 1], failed) + if runs[|runs| - 1] == Finished(failed) then 1 else 0
  }

  lemma {:induction false} Accounted(runs: seq<Phase>)
    ensures |runs| == Ended(runs, false) + Ended(runs, true) + Flying(runs)
  {
    if runs != [] { Accounted(runs[..|runs| - 1]); }
  }

  /**
   Conservation, in every interleaving: accepted events are matched plus skipped, matched events are completed plus
   failed runs plus those in flight; and under the skipping policy at most one is, exactly when the flag is up.
   */
  lemma Conservation(policy: Overlap, steps: seq<Step>)
    ensures var w := Run(policy, steps);
            && w.fired == w.job.matched + w.job.skipped
            && w.job.matched == Ended(w.runs, false) + Ended(w.runs, true) + Flying(w.runs)
            && (policy.SkipIfRunning? ==> Flying(w.runs) == if w.job.running then 1 else 0)
  {
    BooksBalance(policy, steps);
    Accounted(Run(policy, steps).runs);
    if policy.SkipIfRunning? { SkipKeepsOne(steps); }
  }
}
