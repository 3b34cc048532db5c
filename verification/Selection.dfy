/** Automatic node selection: the evidence one completed round provides, and the incremental state
    that answers it. */
module Selection {
  import opened Prelude
  import opened Ranking
  import opened Confirmation

  datatype PanelMembership = Included | Rejected | Untested | Expired

  datatype NodeViewProjection = NodeViewProjection(
    id: string, policy: RankingPolicy, revision: U64, members: map<string, PanelMembership>)
  {
    function Membership(node: string): PanelMembership {
      if node in members then members[node] else Untested
    }
  }

  datatype ActiveNodeTransfer =
    | Idle(growthBytes: U64)
    | Active(growthBytes: U64)
    | Warming(observedMillis: U64)
    | Unavailable(detail: string)

  /** One call of `evaluate`. */
  datatype Round = Round(
    scope: SelectionScope, roundId: U64, routeActivationRequired: bool,
    panel: NodeViewProjection, facts: seq<Facts>, transfer: ActiveNodeTransfer)

  // ---------------------------------------------------------------- evidence of a single round

  /** The first facts recorded for a node. */
  function FindFacts(facts: seq<Facts>, node: string): (f: Option<Facts>)
    ensures f.Some? ==> f.value in facts && f.value.node == node
  {
    if facts == [] then None
    else if facts[0].node == node then Some(facts[0])
    else FindFacts(facts[1..], node)
  }

  predicate Assessed(facts: seq<Facts>, node: string) {
    var f := FindFacts(facts, node);
    f.Some? && f.value.reachability.Some?
  }

  predicate PanelIncomplete(panel: NodeViewProjection, facts: seq<Facts>) {
    exists node :: node in panel.members && panel.members[node] == Included && !Assessed(facts, node)
  }

  predicate IsCandidate(panel: NodeViewProjection, f: Facts) {
    panel.Membership(f.node) == Included && f.IsEligible(panel.policy)
  }

  function Candidates(panel: NodeViewProjection, facts: seq<Facts>): seq<Facts>
  {
    if facts == [] then []
    else (if IsCandidate(panel, facts[0]) then [facts[0]] else []) + Candidates(panel, facts[1..])
  }

  lemma {:induction false} CandidatesExact(panel: NodeViewProjection, facts: seq<Facts>)
    ensures forall f :: f in Candidates(panel, facts) <==> f in facts && IsCandidate(panel, f)
  {
    if facts != [] { CandidatesExact(panel, facts[1..]); }
  }

  /** The 20% gate; an answer of `None` means the evidence it needs is missing. */
  function MaterialImprovement(panel: NodeViewProjection, current: Facts, candidate: Facts): Option<bool>
    requires current.reachability.Some? && candidate.reachability.Some?
  {
    if candidate.reachability != current.reachability then
      Some(candidate.reachability.value.Rank() > current.reachability.value.Rank())
    else if panel.Membership(current.node) != Included then Some(true)
    else if panel.policy == Throughput then
      if candidate.throughput.Some? && current.throughput.Some?
      then Some(candidate.throughput.value * 5 >= current.throughput.value * 6) else None
    else
      if candidate.warmMedianMs.Some? && current.warmMedianMs.Some?
      then Some(candidate.warmMedianMs.value * 5 <= current.warmMedianMs.value * 4) else None
  }

  function JudgeOutage(candidate: string, transfer: ActiveNodeTransfer): Evidence {
    match transfer
    case Idle(growth) => if growth == 0 then Outage(candidate) else Nothing(ReachabilityTrafficAnomaly(growth))
    case Active(growth) => Nothing(ReachabilityTrafficAnomaly(growth))
    case Warming(millis) => Nothing(TransferWindowWarming(millis))
    case Unavailable(detail) => Nothing(TransferUnavailable(detail))
  }

  function JudgeIdle(r: Round, current: Facts, best: Facts): Evidence
    requires current.reachability.Some? && best.reachability.Some?
  {
    if best.node == current.node then
      if r.routeActivationRequired then Win(best.node, true) else Nothing(CurrentPreferred)
    else
      match MaterialImprovement(r.panel, current, best)
      case Some(true) => Win(best.node, false)
      case Some(false) => Nothing(InsufficientImprovement(best.node))
      case None => Nothing(IncompleteImprovementEvidence)
  }

  predicate PanelUntested(panel: NodeViewProjection) {
    exists node :: node in panel.members && panel.members[node] in {Untested, Expired}
  }

  function Best(r: Round): (b: Option<Facts>)
    ensures b.Some? ==> b.value in r.facts && IsCandidate(r.panel, b.value)
  {
    CandidatesExact(r.panel, r.facts);
    MaxBy(r.panel.policy, Candidates(r.panel, r.facts))
  }

  /** The evidence of a round whose best candidate is `best`. */
  function JudgeWith(r: Round, best: Option<Facts>): Evidence
    requires best.Some? ==> best.value.reachability.Some?
  {
    if !Assessed(r.facts, r.scope.currentNode) then Nothing(IncompleteCurrentAssessment)
    else if PanelIncomplete(r.panel, r.facts) then Nothing(IncompletePanelAssessment)
    else if best.None? then
      Nothing(if PanelUntested(r.panel) then IncompletePanelAssessment else NoEligibleCandidate)
    else
      var current := FindFacts(r.facts, r.scope.currentNode).value;
      if current.reachability.value == Unreachable then JudgeOutage(best.value.node, r.transfer)
      else JudgeReachable(r, current, best.value)
  }

  /** The evidence of a round in which the current node is reachable. */
  function JudgeReachable(r: Round, current: Facts, best: Facts): Evidence
    requires current.reachability.Some? && best.reachability.Some?
  {
    match r.transfer
    case Active(growth) => Nothing(ActiveTransfer(growth))
    case Warming(millis) => Nothing(TransferWindowWarming(millis))
    case Unavailable(detail) => Nothing(TransferUnavailable(detail))
    case Idle(_) => JudgeIdle(r, current, best)
  }

  function Judge(r: Round): Evidence { JudgeWith(r, Best(r)) }

  function MarkOf(r: Round): Mark { Mark(r.scope, r.roundId, Judge(r)) }

  ghost function Marks(run: seq<Round>): (h: seq<Mark>)
    ensures |h| == |run| && forall i :: 0 <= i < |run| ==> h[i] == MarkOf(run[i])
  {
    seq(|run|, i requires 0 <= i < |run| => MarkOf(run[i]))
  }

  lemma {:induction false} MarksAppend(run: seq<Round>, r: Round)
    ensures Marks(run + [r]) == Marks(run) + [MarkOf(r)]
  {
  }

  // ---------------------------------------------------------------- the incremental state

  /** `AutomaticSelectionState`. The ghost run is what the five fields summarise. */
  class AutomaticSelectionState {
    var scope: Option<SelectionScope>
    var pendingCandidate: Option<string>
    var pendingWins: nat
    var emergencyFailures: nat
    var lastRoundId: Option<U64>
    ghost var run: seq<Round>

    /** The fields hold exactly what the latest fresh round leaves to be confirmed. */
    ghost predicate Valid()
      reads this
    {
      Fields().Of(Marks(run))
    }

    ghost function Fields(): Summary
      reads this
    {
      Summary(scope, lastRoundId, pendingCandidate, pendingWins, emergencyFailures)
    }

    constructor ()
      ensures Valid() && run == []
    {
      scope, pendingCandidate, lastRoundId := None, None, None;
      pendingWins, emergencyFailures := 0, 0;
      run := [];
    }

    method Evaluate(newScope: SelectionScope, roundId: U64, routeActivationRequired: bool,
                    panel: NodeViewProjection, facts: seq<Facts>, transfer: ActiveNodeTransfer)
      returns (d: Decision)
      requires Valid()
      modifies this
      ensures Valid()
      ensures run == old(run) + [Round(newScope, roundId, routeActivationRequired, panel, facts, transfer)]
      ensures d == Answer(Marks(run))
      ensures pendingWins == 0 || emergencyFailures == 0
    {
      ghost var r := Round(newScope, roundId, routeActivationRequired, panel, facts, transfer);
      MarksAppend(run, r);
      d := Respond(newScope, roundId, routeActivationRequired, panel, facts, transfer, r, Marks(run), MarkOf(r));
      run := run + [r];
    }

    /** The scope and replay checks, and then the round itself, over the marks of the run so far. */
    method Respond(newScope: SelectionScope, roundId: U64, routeActivationRequired: bool, panel: NodeViewProjection,
                   facts: seq<Facts>, transfer: ActiveNodeTransfer, ghost r: Round, ghost h: seq<Mark>, ghost m: Mark)
      returns (d: Decision)
      requires Fields().Of(h) && m == Mark(newScope, roundId, Judge(r))
      requires r == Round(newScope, roundId, routeActivationRequired, panel, facts, transfer)
      modifies this`scope, this`lastRoundId, this`pendingCandidate, this`pendingWins, this`emergencyFailures
      ensures Fields().Of(h + [m]) && d == Answer(h + [m]) && (pendingWins == 0 || emergencyFailures == 0)
    {
      ghost var s := Fields();
      if scope != Some(newScope) {
        scope, lastRoundId := Some(newScope), None;
        ResetRounds();
      }
      if lastRoundId.Some? && roundId <= lastRoundId.value {
        ReplayKeepsSummary(h, m, s);
        OneCauseAtATime(h + [m], Fields());
        return Defer(DuplicateRound(roundId));
      }
      lastRoundId := Some(roundId);
      d := EvaluateFresh(newScope, routeActivationRequired, panel, facts, transfer, r);
      FreshRoundSettles(h, m, s, Fields(), d);
      OneCauseAtATime(h + [m], Fields());
    }

    /** The part of `evaluate` after the replay check: all branches on the round's own evidence. */
    method EvaluateFresh(newScope: SelectionScope, routeActivationRequired: bool,
                         panel: NodeViewProjection, facts: seq<Facts>, transfer: ActiveNodeTransfer,
                         ghost r: Round)
      returns (d: Decision)
      requires r == Round(newScope, r.roundId, routeActivationRequired, panel, facts, transfer)
      requires pendingWins == (if pendingCandidate.Some? then 1 else 0) && emergencyFailures <= 1
      modifies this`pendingCandidate, this`pendingWins, this`emergencyFailures
      ensures old(Fields()).Settles(Judge(r), Fields(), d)
    {
      var current := FindFacts(facts, newScope.currentNode);
      if current.None? || current.value.reachability.None? {
        ResetRounds();
        return Defer(IncompleteCurrentAssessment);
      }
      if PanelIncomplete(panel, facts) {
        ResetRounds();
        return Defer(IncompletePanelAssessment);
      }
      var best := MaxBy(panel.policy, Candidates(panel, facts));
      assert best == Best(r);
      if best.None? {
        ResetRounds();
        return Defer(if PanelUntested(panel) then IncompletePanelAssessment else NoEligibleCandidate);
      }
      if current.value.reachability.value == Unreachable {
        pendingCandidate, pendingWins := None, 0;
        d := EvaluateEmergency(best.value, transfer);
        return;
      }
      d := EvaluateReachable(routeActivationRequired, panel, transfer, current.value, best.value, r);
    }

    /** The part of `evaluate` for a current node that is reachable. */
    method EvaluateReachable(routeActivationRequired: bool, panel: NodeViewProjection, transfer: ActiveNodeTransfer,
                             current: Facts, best: Facts, ghost r: Round)
      returns (d: Decision)
      requires r.routeActivationRequired == routeActivationRequired && r.panel == panel && r.transfer == transfer
      requires current.reachability.Some? && best.reachability.Some?
      requires pendingWins == if pendingCandidate.Some? then 1 else 0
      modifies this`pendingCandidate, this`pendingWins, this`emergencyFailures
      ensures old(Fields()).Settles(JudgeReachable(r, current, best), Fields(), d)
    {
      emergencyFailures := 0;
      if !transfer.Idle? {
        pendingCandidate, pendingWins := None, 0;
        match transfer {
          case Active(growth) => return Defer(ActiveTransfer(growth));
          case Warming(millis) => return Defer(TransferWindowWarming(millis));
          case Unavailable(detail) => return Defer(TransferUnavailable(detail));
        }
      }
      if best.node == current.node {
        if !routeActivationRequired {
          pendingCandidate, pendingWins := None, 0;
          return Defer(CurrentPreferred);
        }
        d := ConfirmCandidate(best, true);
        return;
      }
      var improvement := MaterialImprovement(panel, current, best);
      if improvement != Some(true) {
        pendingCandidate, pendingWins := None, 0;
        return Defer(if improvement.Some? then InsufficientImprovement(best.node)
                     else IncompleteImprovementEvidence);
      }
      d := ConfirmCandidate(best, false);
    }

    method ConfirmCandidate(best: Facts, routeOnly: bool) returns (d: Decision)
      requires pendingWins == if pendingCandidate.Some? then 1 else 0
      modifies this`pendingCandidate, this`pendingWins
      ensures var e := Win(best.node, routeOnly);
              if old(pendingCandidate) == Some(best.node)
              then d == Acting(e) && pendingCandidate == None && pendingWins == 0
              else d == Awaiting(e) && pendingCandidate == Some(best.node) && pendingWins == 1
    {
      if pendingCandidate == Some(best.node) {
        pendingWins := pendingWins + 1;
      } else {
        pendingCandidate, pendingWins := Some(best.node), 1;
      }
      if pendingWins < 2 {
        return Defer(if routeOnly then RouteActivationAwaiting(best.node, pendingWins, 2)
                     else AwaitingConfirmation(best.node, pendingWins, 2));
      }
      pendingCandidate, pendingWins := None, 0;
      d := Decision(if routeOnly then None else Some(best.node), true,
                    if routeOnly then RouteActivationConfirmed(best.node) else SwitchConfirmed(best.node));
    }

    method EvaluateEmergency(best: Facts, transfer: ActiveNodeTransfer) returns (d: Decision)
      requires emergencyFailures <= 1
      modifies this`emergencyFailures
      ensures var e := JudgeOutage(best.node, transfer);
              if e.Nothing? then d == Defer(e.reason) && emergencyFailures == 0
              else if old(emergencyFailures) == 1 then d == Acting(e) && emergencyFailures == 0
              else d == Awaiting(e) && emergencyFailures == 1
    {
      match transfer
      case Idle(growth) =>
        if growth == 0 {
          emergencyFailures := emergencyFailures + 1;
          if emergencyFailures < 2 {
            return Defer(EmergencyAwaitingConfirmation(best.node, emergencyFailures, 2));
          }
          emergencyFailures := 0;
          return Decision(Some(best.node), true, EmergencySwitch(best.node));
        }
        emergencyFailures := 0;
        return Defer(ReachabilityTrafficAnomaly(growth));
      case Active(growth) =>
        emergencyFailures := 0;
        return Defer(ReachabilityTrafficAnomaly(growth));
      case Warming(millis) =>
        emergencyFailures := 0;
        return Defer(TransferWindowWarming(millis));
      case Unavailable(detail) =>
        emergencyFailures := 0;
        return Defer(TransferUnavailable(detail));
    }

    method ResetRounds()
      modifies this`pendingCandidate, this`pendingWins, this`emergencyFailures
      ensures pendingCandidate == None && pendingWins == 0 && emergencyFailures == 0
    {
      pendingCandidate, pendingWins, emergencyFailures := None, 0, 0;
    }
  }
}
