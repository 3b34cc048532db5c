/** The end-to-end guard: the traffic tracker feeds every decision of the selection state, and no
    switch happens behind an active, stale or freshly observed current node. */
module Guard {
  import opened Prelude
  import opened Ranking
  import opened Confirmation
  import opened Selection
  import opened SelectionRuns
  import opened Traffic

  /** One step of the program: a connection snapshot or its loss, or a completed round to decide. */
  datatype Step =
    | Seen(event: Event)
    | Decided(scope: SelectionScope, roundId: U64, routeActivationRequired: bool,
              panel: NodeViewProjection, facts: seq<Facts>, now: nat)
  {
    function Event(): Event { if Decided? then Asked(scope, now) else event }
  }

  /** The tracker's view of the steps, position by position. */
  function Log(steps: seq<Step>): (log: seq<Event>)
    ensures |log| == |steps| && forall i :: 0 <= i < |steps| ==> log[i] == steps[i].Event()
  {
    seq(|steps|, i requires 0 <= i < |steps| => steps[i].Event())
  }

  /** The round that decision `k` evaluates, with the transfer state at that moment. */
  function RoundAt(steps: seq<Step>, k: nat): Round
    requires k < |steps| && steps[k].Decided?
  {
    var s := steps[k];
    Round(s.scope, s.roundId, s.routeActivationRequired, s.panel, s.facts,
          StatusFromLog(Log(steps[..k]), s.scope, s.now))
  }

  function RunOf(steps: seq<Step>): seq<Round> {
    if steps == [] then []
    else
      var n := |steps| - 1;
      RunOf(steps[..n]) + if steps[n].Decided? then [RoundAt(steps, n)] else []
  }

  ghost predicate Orderly(steps: seq<Step>, now: nat) { InOrder(Log(steps), now) }

  // ---------------------------------------------------------------- the driver

  class AutoSelector {
    const tracker: ActiveNodeTrafficTracker
    const selection: AutomaticSelectionState
    ghost var steps: seq<Step>

    ghost predicate Valid()
      reads this, tracker, selection
    {
      tracker.Valid() && selection.Valid() && tracker.log == Log(steps) &&
      forall now :: Orderly(steps, now) ==> selection.run == RunOf(steps)
    }

    constructor ()
      ensures Valid() && steps == [] && fresh(tracker) && fresh(selection)
    {
      tracker := new ActiveNodeTrafficTracker();
      selection := new AutomaticSelectionState();
      steps := [];
    }

    method Observe(scope: SelectionScope, at: nat, snapshot: seq<Connection>)
      requires Valid()
      modifies this, tracker
      ensures Valid() && steps == old(steps) + [Seen(Observed(scope, at, snapshot))]
    {
      tracker.Observe(scope, at, snapshot);
      ghost var step := Seen(Observed(scope, at, snapshot));
      StepAppended(steps, step);
      steps := steps + [step];
    }

    method MarkUnavailable(detail: string)
      requires Valid()
      modifies this, tracker
      ensures Valid() && steps == old(steps) + [Seen(Lost(detail))]
    {
      tracker.MarkUnavailable(detail);
      StepAppended(steps, Seen(Lost(detail)));
      steps := steps + [Seen(Lost(detail))];
    }

    method Decide(scope: SelectionScope, roundId: U64, routeActivationRequired: bool,
                  panel: NodeViewProjection, facts: seq<Facts>, now: nat)
      returns (d: Decision)
      requires Valid()
      modifies this, tracker, selection
      ensures Valid()
      ensures steps == old(steps) + [Decided(scope, roundId, routeActivationRequired, panel, facts, now)]
      ensures Orderly(steps, now) ==> RunOf(steps) != [] && d == AnswerOf(RunOf(steps))
    {
      var transfer := tracker.Status(scope, now);
      d := selection.Evaluate(scope, roundId, routeActivationRequired, panel, facts, transfer);
      ghost var step := Decided(scope, roundId, routeActivationRequired, panel, facts, now);
      StepAppended(steps, step);
      steps := steps + [step];
    }
  }

  lemma {:induction false} StepAppended(steps: seq<Step>, step: Step)
    ensures var steps' := steps + [step];
      Log(steps') == Log(steps) + [step.Event()] &&
      RunOf(steps') == RunOf(steps) + (if step.Decided? then [RoundAt(steps', |steps|)] else []) &&
      (forall now :: Orderly(steps', now) ==>
         (step.Event().Lost? && Orderly(steps, now)) ||
         (!step.Event().Lost? && step.Event().at <= now && Orderly(steps, step.Event().at)))
  {
    var steps' := steps + [step];
    assert steps'[..|steps|] == steps;
    assert Log(steps')[..|steps|] == Log(steps);
  }

  // ---------------------------------------------------------------- what a switch has seen

  /** Since step `b` the scope has been watched without interruption up to step `k`. */
  ghost predicate WatchedSince(steps: seq<Step>, b: nat, k: nat, scope: SelectionScope)
    requires b < k <= |steps|
  {
    steps[b].Event().Observed? && steps[b].Event().scope == scope &&
    forall i :: b < i < k ==>
      !steps[i].Event().Lost? && (steps[i].Event().Observed? ==> steps[i].Event().scope == scope)
  }

  /** Decision `k` saw at least ten seconds of uninterrupted observation of its scope, a snapshot at
      most three seconds old, and at most `limit` bytes of growth of the current node within the
      window, counted over everything observed since the baseline. */
  ghost predicate Guarded(steps: seq<Step>, k: nat, limit: nat)
    requires k < |steps| && steps[k].Decided?
  {
    exists b, l :: 0 <= b <= l < k && GuardedBy(steps, b, l, k, limit)
  }

  ghost predicate GuardedBy(steps: seq<Step>, b: nat, l: nat, k: nat, limit: nat)
    requires b <= l < k < |steps| && steps[k].Decided?
  {
    var s, w := steps[k], Watched(Log(steps[..k]));
    WatchedSince(steps, b, k, s.scope) && s.now >= steps[b].Event().at + 10_000_000_000 &&
    steps[l].Event().Observed? && s.now <= steps[l].Event().at + 3_000_000_000 &&
    w.Some? && w.value.scope == s.scope && SumRecent(AllGrowth(w.value.samples), s.now) <= limit &&
    (AllUnique(w.value.samples) ==> GrownWithin(w.value.samples, s.now) <= limit)
  }

  lemma {:induction false} StretchInLog(log: seq<Event>) returns (b: nat, l: nat)
    requires Watched(log).Some?
    ensures var w := Watched(log).value;
      b <= l < |log| && log[b].Observed? && log[b].at == w.samples[0].at &&
      log[l].Observed? && log[l].at == w.samples[|w.samples| - 1].at &&
      log[b].scope == w.scope &&
      forall i :: b < i < |log| ==> !log[i].Lost? && (log[i].Observed? ==> log[i].scope == w.scope)
  {
    var n := |log| - 1;
    var before := Watched(log[..n]);
    match log[n]
    case Lost(_) => b, l := 0, 0;
    case Asked(_, _) => b, l := StretchInLog(log[..n]);
    case Observed(scope, _, _) =>
      if before.Some? && before.value.scope == scope {
        b, l := StretchInLog(log[..n]);
        l := n;
      } else {
        b, l := n, n;
      }
  }

  lemma {:induction false} IdleStretch(log: seq<Event>, scope: SelectionScope, now: nat)
    requires StatusFromLog(log, scope, now).Idle?
    ensures Watched(log).Some? && Watched(log).value.scope == scope
    ensures var samples, growth := Watched(log).value.samples, StatusFromLog(log, scope, now).growthBytes;
            now >= samples[0].at + 10_000_000_000 && now <= samples[|samples| - 1].at + 3_000_000_000 &&
            SumRecent(AllGrowth(samples), now) == growth <= 64 * 1024 &&
            (AllUnique(samples) ==> GrownWithin(samples, now) == growth)
  {
    if AllUnique(Watched(log).value.samples) { RecentGrowth(Watched(log).value.samples, now); }
  }

  lemma {:induction false} IdleIsGuarded(steps: seq<Step>, k: nat)
    requires k < |steps| && steps[k].Decided? && RoundAt(steps, k).transfer.Idle?
    ensures Guarded(steps, k, 64 * 1024)
    ensures RoundAt(steps, k).transfer == Idle(0) ==> Guarded(steps, k, 0)
  {
    var log := Log(steps[..k]);
    IdleStretch(log, steps[k].scope, steps[k].now);
    var b, l := StretchInLog(log);
    assert forall i :: 0 <= i < k ==> log[i] == steps[i].Event();
    assert WatchedSince(steps, b, k, steps[k].scope);
    assert GuardedBy(steps, b, l, k, 64 * 1024);
    if RoundAt(steps, k).transfer == Idle(0) { assert GuardedBy(steps, b, l, k, 0); }
  }

  lemma {:induction false} PositionOfRound(steps: seq<Step>, j: nat) returns (k: nat)
    requires j < |RunOf(steps)|
    ensures k < |steps| && steps[k].Decided? && RunOf(steps)[j] == RoundAt(steps, k)
    ensures j < |RunOf(steps)| - 1 && steps[|steps| - 1].Decided? ==> k < |steps| - 1
  {
    var n := |steps| - 1;
    var run := RunOf(steps[..n]);
    if j < |run| {
      k := PositionOfRound(steps[..n], j);
      assert steps[..n][..k] == steps[..k];
    } else {
      k := n;
    }
  }

  /** The last decision of a run was answered for this reason. */
  ghost predicate Concludes(steps: seq<Step>, reason: Reason) {
    RunOf(steps) != [] && AnswerOf(RunOf(steps)).reason == reason
  }

  /** The last step decides in the scope of the earlier decision `k`, on a newer round, and both are guarded. */
  ghost predicate RestsOn(steps: seq<Step>, k: nat, limit: nat) {
    var n := |steps| - 1;
    k < n && steps[k].Decided? && steps[n].Decided? && steps[k].scope == steps[n].scope &&
    steps[k].roundId < steps[n].roundId &&
    Guarded(steps, k, limit) && Guarded(steps, n, limit)
  }

  /** A confirmed switch rests on two guarded decisions in the same scope, each with at most 64 KiB
      of growth in its window. */
  lemma {:induction false} ConfirmedSwitchIsGuarded(steps: seq<Step>, c: string) returns (k: nat)
    requires steps != [] && steps[|steps| - 1].Decided?
    requires Concludes(steps, SwitchConfirmed(c))
    ensures RestsOn(steps, k, 64 * 1024)
  {
    var run, n := RunOf(steps), |steps| - 1;
    var j := SwitchNeedsTwoRounds(run, c);
    k := PositionOfRound(steps, j);
    IdleIsGuarded(steps, k);
    IdleIsGuarded(steps, n);
  }

  /** An emergency switch rests on two guarded decisions with no growth at all. */
  lemma {:induction false} EmergencySwitchIsGuarded(steps: seq<Step>, c: string) returns (k: nat)
    requires steps != [] && steps[|steps| - 1].Decided?
    requires Concludes(steps, EmergencySwitch(c))
    ensures RestsOn(steps, k, 0)
  {
    var run, n := RunOf(steps), |steps| - 1;
    var j, _ := EmergencyNeedsTwoOutages(run, c);
    k := PositionOfRound(steps, j);
    IdleIsGuarded(steps, k);
    IdleIsGuarded(steps, n);
  }
}
