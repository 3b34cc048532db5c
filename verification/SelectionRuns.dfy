/** What every run of automatic selection keeps: what must have happened for a switch to be issued,
    and how a run settles. A run is any sequence of rounds; `Answer(Marks(run))` is what
    `AutomaticSelectionState.Evaluate` returns for its last round. */
module SelectionRuns {
  import opened Prelude
  import opened Ranking
  import opened Confirmation
  import opened Selection

  ghost function AnswerOf(run: seq<Round>): Decision
    requires run != []
  {
    Answer(Marks(run))
  }

  /** Node `c` is the round's best included and eligible node. */
  ghost predicate Leads(r: Round, c: string) {
    Best(r).Some? && Best(r).value.node == c
  }

  /** The round has an assessment for the current node and for every included node. */
  ghost predicate Complete(r: Round) {
    Assessed(r.facts, r.scope.currentNode) &&
    forall node :: node in r.panel.members && r.panel.members[node] == Included ==> Assessed(r.facts, node)
  }

  ghost function Current(r: Round): Facts
    requires Assessed(r.facts, r.scope.currentNode)
  {
    FindFacts(r.facts, r.scope.currentNode).value
  }

  /** A complete, idle round in which `c` is a materially better choice than the reachable current node. */
  ghost predicate SupportsSwitch(r: Round, c: string) {
    Complete(r) && r.transfer.Idle? && Current(r).reachability.value != Unreachable &&
    c != r.scope.currentNode && Leads(r, c) &&
    MaterialImprovement(r.panel, Current(r), Best(r).value) == Some(true)
  }

  /** A complete round in which the current node is down, carries nothing, and `c` could replace it. */
  ghost predicate SupportsEmergency(r: Round, c: string) {
    Complete(r) && r.transfer == Idle(0) && Current(r).reachability.value == Unreachable && Leads(r, c)
  }

  /** The node `evaluate` picks is in the panel, eligible, and not outranked by any such node; with
      distinct config orders it is the only one and does not depend on the order of the facts. */
  lemma {:induction false} LeaderDominates(r: Round, f: Facts, shuffled: seq<Facts>)
    requires f in r.facts && IsCandidate(r.panel, f)
    ensures Best(r).Some? && Best(r).value in r.facts && IsCandidate(r.panel, Best(r).value)
    ensures CompareNodeQuality(r.panel.policy, f, Best(r).value) != Greater
    ensures DistinctOrders(r.facts) && (forall g :: g in r.facts <==> g in shuffled) ==>
              Best(r.(facts := shuffled)) == Best(r)
  {
    var rows := Candidates(r.panel, r.facts);
    CandidatesExact(r.panel, r.facts);
    CandidatesExact(r.panel, shuffled);
    WinnerDominates(r.panel.policy, rows, f);
    if DistinctOrders(r.facts) && forall g :: g in r.facts <==> g in shuffled {
      CandidatesKeepDistinctOrders(r.panel, r.facts);
      WinnerIgnoresOrder(r.panel.policy, rows, Candidates(r.panel, shuffled));
    }
  }

  lemma {:induction false} CandidatesKeepDistinctOrders(panel: NodeViewProjection, facts: seq<Facts>)
    requires DistinctOrders(facts)
    ensures DistinctOrders(Candidates(panel, facts))
  {
    if facts != [] {
      CandidatesKeepDistinctOrders(panel, facts[1..]);
      CandidatesExact(panel, facts[1..]);
      var rest := Candidates(panel, facts[1..]);
      forall j | 0 <= j < |rest| ensures rest[j].configOrder != facts[0].configOrder {
        assert rest[j] in facts[1..];
      }
    }
  }

  lemma {:induction false} PlainEvidenceWith(r: Round, best: Option<Facts>)
    requires best.Some? ==> best.value.reachability.Some?
    ensures var e := JudgeWith(r, best);
            Plain(e) && (e.Win? ==> (e.routeOnly <==> e.candidate == r.scope.currentNode))
  {
  }

  lemma {:induction false} PlainEvidence(r: Round)
    ensures Plain(Judge(r))
    ensures Judge(r).Win? ==> (Judge(r).routeOnly <==> Judge(r).candidate == r.scope.currentNode)
  {
    PlainEvidenceWith(r, Best(r));
  }

  lemma {:induction false} EvidenceMeaningWith(r: Round, best: Option<Facts>)
    requires best.Some? ==> best.value.reachability.Some?
    ensures var e := JudgeWith(r, best);
      (e.Win? && !e.routeOnly <==>
        Complete(r) && r.transfer.Idle? && Current(r).reachability.value != Unreachable && best.Some? &&
        best.value.node != r.scope.currentNode &&
        MaterialImprovement(r.panel, Current(r), best.value) == Some(true)) &&
      (e.Outage? <==>
        Complete(r) && r.transfer == Idle(0) && Current(r).reachability.value == Unreachable && best.Some?) &&
      (!e.Nothing? ==> best.Some? && e.candidate == best.value.node)
  {
    assert Complete(r) <==> Assessed(r.facts, r.scope.currentNode) && !PanelIncomplete(r.panel, r.facts);
  }

  lemma {:induction false} EvidenceMeaning(r: Round, c: string)
    ensures Judge(r) == Win(c, false) <==> SupportsSwitch(r, c)
    ensures Judge(r) == Outage(c) <==> SupportsEmergency(r, c)
  {
    EvidenceMeaningWith(r, Best(r));
  }

  // ---------------------------------------------------------------- the evidence, field by field

  /** The panel includes the node, it answered at least two of three probes, and its throughput is known if the
      policy ranks by it. */
  predicate Qualifies(panel: NodeViewProjection, f: Facts) {
    f.node in panel.members && panel.members[f.node] == Included &&
    f.reachability in {Some(Reachable), Some(StableReachable)} && (panel.policy == Throughput ==> f.throughput.Some?)
  }

  /** The best node qualifies and no qualifying node is better; there is none only if no node qualifies. */
  lemma {:induction false} LeaderMeaning(r: Round)
    ensures Best(r).None? <==> forall f: Facts :: f in r.facts ==> !Qualifies(r.panel, f)
    ensures Best(r).Some? ==>
              var best := Best(r).value;
              best in r.facts && Qualifies(r.panel, best) &&
              forall f :: f in r.facts && Qualifies(r.panel, f) ==> !Better(r.panel.policy, f, best)
  {
    var rows := Candidates(r.panel, r.facts);
    CandidatesExact(r.panel, r.facts);
    forall f: Facts ensures IsCandidate(r.panel, f) <==> Qualifies(r.panel, f) { CandidateMeaning(r.panel, f); }
    forall f | f in r.facts && Qualifies(r.panel, f)
      ensures Best(r).Some? && !Better(r.panel.policy, f, Best(r).value)
    {
      assert f in rows;
      NoneIsBetter(r.panel.policy, rows, f);
    }
  }

  lemma {:induction false} CandidateMeaning(panel: NodeViewProjection, f: Facts)
    ensures IsCandidate(panel, f) <==> Qualifies(panel, f)
  {
  }

  /** Under the latency policy no node of the best one's tier has a shorter warm median; under the throughput
      policy none has more throughput; under the balanced policy none answers a larger share of its rounds. */
  lemma {:induction false} LeaderIsFirst(r: Round, f: Facts)
    requires f in r.facts && Qualifies(r.panel, f)
    ensures Best(r).Some? && !TierAbove(f.reachability, Best(r).value.reachability)
    ensures f.reachability == Best(r).value.reachability ==>
              match r.panel.policy
              case LowLatency => !Faster(f.warmMedianMs, Best(r).value.warmMedianMs)
              case Throughput => !Stronger(f.throughput, Best(r).value.throughput)
              case Balanced => QuickShare(f) <= QuickShare(Best(r).value)
  {
    LeaderMeaning(r);
  }

  /** `f` is the first row of its name. */
  ghost predicate Speaks(facts: seq<Facts>, f: Facts) {
    exists i :: 0 <= i < |facts| && facts[i] == f && forall j :: 0 <= j < i ==> facts[j].node != f.node
  }

  lemma {:induction false} FirstRowSpeaks(facts: seq<Facts>, node: string)
    ensures FindFacts(facts, node).None? <==> forall f: Facts :: f in facts ==> f.node != node
    ensures FindFacts(facts, node).Some? ==> FindFacts(facts, node).value.node == node &&
                                             Speaks(facts, FindFacts(facts, node).value)
  {
    if facts != [] && facts[0].node != node {
      FirstRowSpeaks(facts[1..], node);
      if FindFacts(facts[1..], node).Some? {
        var f := FindFacts(facts[1..], node).value;
        var rest := facts[1..];
        var i :| 0 <= i < |rest| && rest[i] == f && forall j :: 0 <= j < i ==> rest[j].node != f.node;
        assert facts[i + 1] == f;
        assert forall j :: 0 < j < i + 1 ==> facts[j] == rest[j - 1];
      }
    } else if facts != [] {
      assert facts[0] == FindFacts(facts, node).value;
    }
  }

  /** `best` is worth leaving `current` for: a higher tier, or the same one and either the current node is out of
      the panel or the measure of the policy is better by a fifth. */
  predicate WorthLeaving(panel: NodeViewProjection, current: Facts, best: Facts) {
    TierAbove(best.reachability, current.reachability) ||
    (best.reachability == current.reachability &&
     (!(current.node in panel.members && panel.members[current.node] == Included) ||
      (if panel.policy == Throughput
       then best.throughput.Some? && current.throughput.Some? &&
            best.throughput.value * 100 >= current.throughput.value * 120
       else best.warmMedianMs.Some? && current.warmMedianMs.Some? &&
            best.warmMedianMs.value * 100 <= current.warmMedianMs.value * 80)))
  }

  lemma {:induction false} GateMeaning(panel: NodeViewProjection, current: Facts, best: Facts)
    requires current.reachability.Some? && best.reachability.Some?
    ensures MaterialImprovement(panel, current, best) == Some(true) <==> WorthLeaving(panel, current, best)
    ensures MaterialImprovement(panel, current, best) == None <==>
              best.reachability == current.reachability &&
              current.node in panel.members && panel.members[current.node] == Included &&
              if panel.policy == Throughput then best.throughput.None? || current.throughput.None?
              else best.warmMedianMs.None? || current.warmMedianMs.None?
  {
  }

  /** The row that speaks for the current node, with its tier, and a row with a tier for every included node. */
  ghost predicate AllAssessed(r: Round, current: Facts) {
    current.node == r.scope.currentNode && Speaks(r.facts, current) && current.reachability.Some? &&
    forall n :: n in r.panel.members && r.panel.members[n] == Included ==> HasTier(r.facts, n)
  }

  ghost predicate HasTier(facts: seq<Facts>, node: string) {
    exists f :: f in facts && f.node == node && Speaks(facts, f) && f.reachability.Some?
  }

  lemma {:induction false} AssessedMeaning(facts: seq<Facts>, node: string)
    ensures Assessed(facts, node) <==> HasTier(facts, node)
    ensures forall f: Facts :: f.node == node && Speaks(facts, f) ==> FindFacts(facts, node) == Some(f)
  {
    FirstRowSpeaks(facts, node);
    forall f: Facts | f.node == node && Speaks(facts, f) ensures FindFacts(facts, node) == Some(f) {
      var i :| 0 <= i < |facts| && facts[i] == f && forall j :: 0 <= j < i ==> facts[j].node != f.node;
      var g := FindFacts(facts, node).value;
      var k :| 0 <= k < |facts| && facts[k] == g && forall j :: 0 <= j < k ==> facts[j].node != g.node;
      assert i == k;
    }
  }

  /** A round without all the assessments proves nothing. */
  lemma {:induction false} IncompleteMeaning(r: Round)
    ensures Judge(r) == Nothing(IncompleteCurrentAssessment) <==> !HasTier(r.facts, r.scope.currentNode)
    ensures HasTier(r.facts, r.scope.currentNode) && !Complete(r) ==> Judge(r) == Nothing(IncompletePanelAssessment)
    ensures Complete(r) ==> AllAssessed(r, Current(r))
    ensures forall current :: AllAssessed(r, current) ==> Complete(r) && current == Current(r)
  {
    AssessedMeaning(r.facts, r.scope.currentNode);
    FirstRowSpeaks(r.facts, r.scope.currentNode);
    forall n ensures Assessed(r.facts, n) <==> HasTier(r.facts, n) { AssessedMeaning(r.facts, n); }
    assert Complete(r) <==> Assessed(r.facts, r.scope.currentNode) && !PanelIncomplete(r.panel, r.facts);
    IncompleteJudged(r, Best(r));
  }

  lemma {:induction false} IncompleteJudged(r: Round, best: Option<Facts>)
    requires best.Some? ==> best.value.reachability.Some?
    ensures JudgeWith(r, best) == Nothing(IncompleteCurrentAssessment) <==> !Assessed(r.facts, r.scope.currentNode)
    ensures Assessed(r.facts, r.scope.currentNode) && PanelIncomplete(r.panel, r.facts) ==>
              JudgeWith(r, best) == Nothing(IncompletePanelAssessment)
  {
  }

  /** When exactly a round with all assessments speaks for a switch, for activating the route, or for an
      emergency. */
  lemma {:induction false} RoundMeaning(r: Round, current: Facts, c: string)
    requires AllAssessed(r, current)
    ensures Judge(r) == Win(c, false) <==>
            current.reachability != Some(Unreachable) && r.transfer.Idle? && Leads(r, c) &&
            c != r.scope.currentNode && WorthLeaving(r.panel, current, Best(r).value)
    ensures Judge(r) == Win(c, true) <==>
            current.reachability != Some(Unreachable) && r.transfer.Idle? && Leads(r, c) &&
            c == r.scope.currentNode && r.routeActivationRequired
    ensures Judge(r) == Outage(c) <==>
            current.reachability == Some(Unreachable) && r.transfer == Idle(0) && Leads(r, c)
  {
    RoundWins(r, current, c);
    RoundOutage(r, current, c);
  }

  lemma {:induction false} RoundWins(r: Round, current: Facts, c: string)
    requires AllAssessed(r, current)
    ensures Judge(r) == Win(c, false) <==>
            current.reachability != Some(Unreachable) && r.transfer.Idle? && Leads(r, c) &&
            c != r.scope.currentNode && WorthLeaving(r.panel, current, Best(r).value)
    ensures Judge(r) == Win(c, true) <==>
            current.reachability != Some(Unreachable) && r.transfer.Idle? && Leads(r, c) &&
            c == r.scope.currentNode && r.routeActivationRequired
  {
    IncompleteMeaning(r);
    CompleteJudged(r, Best(r));
    if Best(r).Some? { ReachableJudged(r, current, Best(r).value); }
  }

  lemma {:induction false} RoundOutage(r: Round, current: Facts, c: string)
    requires AllAssessed(r, current)
    ensures Judge(r) == Outage(c) <==>
            current.reachability == Some(Unreachable) && r.transfer == Idle(0) && Leads(r, c)
  {
    IncompleteMeaning(r);
    CompleteJudged(r, Best(r));
    if Best(r).Some? { ReachableJudged(r, current, Best(r).value); }
  }

  /** A complete round is judged on its current node's row, the best row and the transfer. */
  lemma {:induction false} CompleteJudged(r: Round, best: Option<Facts>)
    requires Complete(r) && (best.Some? ==> best.value.reachability.Some?)
    ensures JudgeWith(r, best) ==
            if best.None? then
              Nothing(if PanelUntested(r.panel) then IncompletePanelAssessment else NoEligibleCandidate)
            else if Current(r).reachability.value == Unreachable then JudgeOutage(best.value.node, r.transfer)
            else JudgeReachable(r, Current(r), best.value)
  {
  }

  lemma {:induction false} ReachableJudged(r: Round, current: Facts, best: Facts)
    requires current.reachability.Some? && best.reachability.Some?
    ensures var e := JudgeReachable(r, current, best);
      (forall c :: e == Win(c, false) <==>
         r.transfer.Idle? && best.node == c && c != current.node && WorthLeaving(r.panel, current, best)) &&
      (forall c :: e == Win(c, true) <==>
         r.transfer.Idle? && best.node == c && c == current.node && r.routeActivationRequired) &&
      !e.Outage?
  {
    GateMeaning(r.panel, current, best);
  }

  /** Why a round with all assessments proves nothing. */
  lemma {:induction false} QuietMeaning(r: Round, current: Facts)
    requires AllAssessed(r, current)
    ensures Best(r).None? ==>
              Judge(r) == Nothing(if SomeUntested(r.panel) then IncompletePanelAssessment else NoEligibleCandidate)
    ensures Best(r).Some? && current.reachability == Some(Unreachable) ==>
              match r.transfer
              case Idle(growth) => growth > 0 ==> Judge(r) == Nothing(ReachabilityTrafficAnomaly(growth))
              case Active(growth) => Judge(r) == Nothing(ReachabilityTrafficAnomaly(growth))
              case Warming(millis) => Judge(r) == Nothing(TransferWindowWarming(millis))
              case Unavailable(detail) => Judge(r) == Nothing(TransferUnavailable(detail))
    ensures Best(r).Some? && current.reachability != Some(Unreachable) ==>
              match r.transfer
              case Idle(_) => QuietWhenIdle(r, current, Best(r).value, Judge(r))
              case Active(growth) => Judge(r) == Nothing(ActiveTransfer(growth))
              case Warming(millis) => Judge(r) == Nothing(TransferWindowWarming(millis))
              case Unavailable(detail) => Judge(r) == Nothing(TransferUnavailable(detail))
  {
    IncompleteMeaning(r);
    CompleteJudged(r, Best(r));
    if Best(r).Some? && r.transfer.Idle? { IdleJudged(r, current, Best(r).value); }
  }

  predicate SomeUntested(panel: NodeViewProjection) {
    exists n :: n in panel.members && (panel.members[n] == Untested || panel.members[n] == Expired)
  }

  /** An idle round that proves nothing: the current node is best already, or the best one is not worth it, or
      the two cannot be compared. */
  predicate QuietWhenIdle(r: Round, current: Facts, best: Facts, e: Evidence) {
    if best.node == current.node then !r.routeActivationRequired ==> e == Nothing(CurrentPreferred)
    else if WorthLeaving(r.panel, current, best) then e == Win(best.node, false)
    else e == Nothing(if Unmeasured(r.panel.policy, current, best) && best.reachability == current.reachability
                      then IncompleteImprovementEvidence else InsufficientImprovement(best.node))
  }

  /** The measure that decides within a tier is missing for one of the two. */
  predicate Unmeasured(policy: RankingPolicy, current: Facts, best: Facts) {
    if policy == Throughput then best.throughput.None? || current.throughput.None?
    else best.warmMedianMs.None? || current.warmMedianMs.None?
  }

  lemma {:induction false} IdleJudged(r: Round, current: Facts, best: Facts)
    requires current.reachability.Some? && best.reachability.Some? && r.transfer.Idle?
    ensures QuietWhenIdle(r, current, best, JudgeReachable(r, current, best))
  {
    GateMeaning(r.panel, current, best);
  }

  /** Position `j` holds the latest earlier round that was not answered as a replay. */
  ghost predicate LatestAnswered(run: seq<Round>, j: nat)
    requires j < |run| - 1
  {
    !AnswerOf(run[..j + 1]).reason.DuplicateRound? &&
    forall k :: j + 1 < k < |run| ==> AnswerOf(run[..k]).reason.DuplicateRound?
  }

  lemma {:induction false} FreshIsAnswered(run: seq<Round>, j: nat)
    requires j < |run| - 1 && LatestFresh(Marks(run), j)
    ensures LatestAnswered(run, j)
  {
    forall k | j < k < |run| ensures AnswerOf(run[..k]).reason.DuplicateRound? <==> Replayed(Marks(run)[..k]) {
      AnswerOfPrefix(run, k);
    }
  }

  /** The first round of a scope never acts. */
  lemma {:induction false} RunInNewScope(run: seq<Round>, r: Round)
    requires run == [] || run[|run| - 1].scope != r.scope
    ensures AnswerOf(run + [r]) == FirstAnswer(Judge(r))
  {
    MarksAppend(run, r);
    AnswerInNewScope(Marks(run), MarkOf(r));
  }

  /** A later one of the scope is a duplicate, or acts exactly when the latest answer that was none waits for it. */
  lemma {:induction false} RunGoesOn(run: seq<Round>, r: Round) returns (j: nat)
    requires run != [] && run[|run| - 1].scope == r.scope
    ensures j < |run| && !AnswerOf(run[..j + 1]).reason.DuplicateRound? &&
            forall k :: j + 1 < k <= |run| ==> AnswerOf(run[..k]).reason.DuplicateRound?
    ensures r.roundId <= run[j].roundId ==> AnswerOf(run + [r]) == Decision(None, false, DuplicateRound(r.roundId))
    ensures r.roundId > run[j].roundId ==>
              AnswerOf(run + [r]) ==
              if WaitsFor(AnswerOf(run[..j + 1]), Judge(r)) then SecondAnswer(Judge(r)) else FirstAnswer(Judge(r))
  {
    MarksAppend(run, r);
    NoneAwaited(run);
    j := NextAnswer(Marks(run), MarkOf(r));
    forall k | 0 < k <= |run|
      ensures AnswerOf(run[..k]) == Answer(Marks(run)[..k]) &&
              (AnswerOf(run[..k]).reason.DuplicateRound? <==> Replayed(Marks(run)[..k]))
    {
      AnswerOfPrefix(run, k);
    }
  }

  lemma {:induction false} NoneAwaited(run: seq<Round>)
    ensures forall i :: 0 <= i < |run| ==> Unawaited(Marks(run)[i].evidence)
    ensures run != [] ==> Last(Marks(run)).scope == run[|run| - 1].scope
  {
    forall i | 0 <= i < |run| ensures Unawaited(Marks(run)[i].evidence) { UnawaitedMark(run[i]); }
    if run != [] { assert Marks(run)[|run| - 1] == MarkOf(run[|run| - 1]); }
  }

  lemma {:induction false} UnawaitedMark(r: Round)
    ensures Unawaited(MarkOf(r).evidence) && MarkOf(r).scope == r.scope
  {
    UnawaitedEvidence(r, Best(r));
  }

  lemma {:induction false} MarksOfPrefix(run: seq<Round>, k: nat)
    requires k <= |run|
    ensures Marks(run[..k]) == Marks(run)[..k]
  {
  }

  lemma {:induction false} AnswerOfPrefix(run: seq<Round>, k: nat)
    requires 0 < k <= |run|
    ensures AnswerOf(run[..k]) == Answer(Marks(run)[..k])
    ensures AnswerOf(run[..k]).reason.DuplicateRound? <==> Replayed(Marks(run)[..k])
  {
    MarksOfPrefix(run, k);
    PlainEvidence(run[k - 1]);
    DuplicateMeaning(Marks(run), k);
  }

  lemma {:induction false} DuplicateMeaning(h: seq<Mark>, k: nat)
    requires 0 < k <= |h| && Plain(h[k - 1].evidence)
    ensures Answer(h[..k]).reason.DuplicateRound? <==> Replayed(h[..k])
  {
    AnswerMeaning(h[..k], "");
  }

  lemma {:induction false} UnawaitedEvidence(r: Round, best: Option<Facts>)
    requires best.Some? ==> best.value.reachability.Some?
    ensures Unawaited(JudgeWith(r, best))
  {
  }

  /** `SwitchConfirmed(c)` is answered only when the latest earlier round that was not a replay had
      the same scope, a smaller id, and supported switching to the same `c`. */
  lemma {:induction false} SwitchNeedsTwoRounds(run: seq<Round>, c: string) returns (j: nat)
    requires run != [] && AnswerOf(run).reason == SwitchConfirmed(c)
    ensures AnswerOf(run).targetNode == Some(c)
    ensures j < |run| - 1 && LatestAnswered(run, j)
    ensures run[j].scope == run[|run| - 1].scope && run[j].roundId < run[|run| - 1].roundId
    ensures SupportsSwitch(run[j], c) && SupportsSwitch(run[|run| - 1], c)
  {
    PlainEvidence(run[|run| - 1]);
    EvidenceMeaning(run[|run| - 1], c);
    AnswerMeaning(Marks(run), c);
    j := ConfirmationHasPartner(Marks(run));
    FreshIsAnswered(run, j);
    PlainEvidence(run[j]);
    EvidenceMeaning(run[j], c);
  }

  /** `EmergencySwitch(c)` is answered only when that latest round, too, found the current node down
      with no traffic at all and some eligible node, not necessarily `c`. */
  lemma {:induction false} EmergencyNeedsTwoOutages(run: seq<Round>, c: string) returns (j: nat, c': string)
    requires run != [] && AnswerOf(run).reason == EmergencySwitch(c)
    ensures AnswerOf(run).targetNode == Some(c)
    ensures j < |run| - 1 && LatestAnswered(run, j)
    ensures run[j].scope == run[|run| - 1].scope && run[j].roundId < run[|run| - 1].roundId
    ensures SupportsEmergency(run[j], c') && SupportsEmergency(run[|run| - 1], c)
    ensures var r := run[|run| - 1];
            !EligibleNamesake(r.facts, r.panel.policy, r.scope.currentNode) || TierByName(r.facts) ==>
            c != r.scope.currentNode
  {
    PlainEvidence(run[|run| - 1]);
    EvidenceMeaning(run[|run| - 1], c);
    AnswerMeaning(Marks(run), c);
    j := ConfirmationHasPartner(Marks(run));
    FreshIsAnswered(run, j);
    c' := Judge(run[j]).candidate;
    EvidenceMeaning(run[j], c');
    EmergencyLeavesCurrent(run[|run| - 1], c);
  }

  /** Some row of the node itself is eligible; it need not be the first one, which speaks for the node. */
  predicate EligibleNamesake(facts: seq<Facts>, policy: RankingPolicy, node: string) {
    exists f :: f in facts && f.node == node && f.IsEligible(policy)
  }

  /** Rows of one name agree on reachability. The caller sets every row's tier by its name. */
  ghost predicate TierByName(facts: seq<Facts>) {
    forall f, g :: f in facts && g in facts && f.node == g.node ==> f.reachability == g.reachability
  }

  /** The current node's first row says it is down. */
  predicate CurrentIsDown(facts: seq<Facts>, node: string) {
    Assessed(facts, node) && FindFacts(facts, node).value.reachability == Some(Unreachable)
  }

  lemma {:induction false} EmergencyLeavesCurrent(r: Round, c: string)
    requires SupportsEmergency(r, c)
    ensures CurrentIsDown(r.facts, r.scope.currentNode)
    ensures c == r.scope.currentNode ==> EligibleNamesake(r.facts, r.panel.policy, c) && !TierByName(r.facts)
  {
    assert Current(r) in r.facts && Best(r).value in r.facts;
  }

  /** A run whose last round has these facts, policy and scope, and answers with an emergency switch to the
      very node that is down. */
  ghost predicate NamesCurrent(run: seq<Round>, facts: seq<Facts>, policy: RankingPolicy, scope: SelectionScope) {
    run != [] && AnswerOf(run).reason == EmergencySwitch(scope.currentNode) &&
    var r := run[|run| - 1];
    r.facts == facts && r.panel.policy == policy && r.scope == scope
  }

  /** An emergency can name the current node if and only if the current node's first row is down and some
      other row of its name is eligible. */
  lemma {:induction false} EmergencyNamesCurrentIff(facts: seq<Facts>, policy: RankingPolicy, scope: SelectionScope)
    ensures (exists run :: NamesCurrent(run, facts, policy, scope)) <==>
            CurrentIsDown(facts, scope.currentNode) && EligibleNamesake(facts, policy, scope.currentNode)
  {
    if run :| NamesCurrent(run, facts, policy, scope) {
      var _, _ := EmergencyNeedsTwoOutages(run, scope.currentNode);
      EmergencyLeavesCurrent(run[|run| - 1], scope.currentNode);
    }
    if CurrentIsDown(facts, scope.currentNode) && EligibleNamesake(facts, policy, scope.currentNode) {
      var run := NamesakeEmergency(facts, policy, scope);
    }
  }

  /** The panel of the current node alone makes its eligible namesake the best candidate. */
  lemma {:induction false} NamesakeRound(r: Round, node: string)
    requires r.scope.currentNode == node && r.panel.members == map[node := Included] && r.transfer == Idle(0)
    requires CurrentIsDown(r.facts, node) && EligibleNamesake(r.facts, r.panel.policy, node)
    ensures Judge(r) == Outage(node)
  {
    var f :| f in r.facts && f.node == node && f.IsEligible(r.panel.policy);
    LeaderDominates(r, f, r.facts);
    EvidenceMeaning(r, node);
  }

  lemma {:induction false} NamesakeEmergency(facts: seq<Facts>, policy: RankingPolicy, scope: SelectionScope)
    returns (run: seq<Round>)
    requires CurrentIsDown(facts, scope.currentNode) && EligibleNamesake(facts, policy, scope.currentNode)
    ensures NamesCurrent(run, facts, policy, scope)
  {
    var panel := NodeViewProjection("view", policy, 0, map[scope.currentNode := Included]);
    var first := Round(scope, 1, false, panel, facts, Idle(0));
    var second := first.(roundId := 2);
    NamesakeRound(first, scope.currentNode);
    NamesakeRound(second, scope.currentNode);
    run := [first, second];
    assert run == [first] + [second] && [] + [MarkOf(first)] == [MarkOf(first)];
    MarksAppend([first], second);
    MarksAppend([], first);
    assert Marks([first]) == [MarkOf(first)];
    TwoOutagesAct(MarkOf(first), MarkOf(second), scope.currentNode);
  }

  /** A concrete one: two rows of node `a`, the first down and the second up. */
  lemma {:induction false} RepeatedNameEmergency() returns (run: seq<Round>)
    ensures run != [] && AnswerOf(run).targetNode == Some(run[|run| - 1].scope.currentNode)
  {
    var down := Facts("a", Some(Unreachable), 0, 0, None, None, None, 0, 0, None, 0);
    var up := down.(reachability := Some(StableReachable), configOrder := 1);
    var facts, scope := [down, up], SelectionScope(0, "select", "view", 0, "a");
    assert up in facts && facts[0] == down;
    run := NamesakeEmergency(facts, Balanced, scope);
    var _, _ := EmergencyNeedsTwoOutages(run, "a");
  }

  // ---------------------------------------------------------------- closed loop

  /** A round of the loop: constant facts and panel, no traffic, no route activation asked for. */
  function LoopRound(scope: SelectionScope, roundId: U64, panel: NodeViewProjection, facts: seq<Facts>): Round {
    Round(scope, roundId, false, panel, facts, Idle(0))
  }

  /** Every eligible row is the first of its name, so what makes a node eligible also speaks for it. */
  ghost predicate EligibleFirst(facts: seq<Facts>, policy: RankingPolicy) {
    forall f :: f in facts && f.IsEligible(policy) ==> FindFacts(facts, f.node) == Some(f)
  }

  /** Switching to the best node leaves no cause to switch again. */
  lemma {:induction false} SwitchIsSettled(r: Round, next: Round)
    requires EligibleFirst(r.facts, r.panel.policy) && r.transfer == Idle(0) && !r.routeActivationRequired
    requires next == r.(scope := next.scope, roundId := next.roundId)
    requires !Judge(r).Nothing? ==> next.scope.currentNode == Judge(r).candidate
    ensures !Judge(r).Nothing? ==>
              (Judge(r).Win? ==> !Judge(r).routeOnly) && Judge(next) == Nothing(CurrentPreferred)
  {
    PlainEvidence(r);
    EvidenceMeaningWith(r, Best(r));
    if !Judge(r).Nothing? {
      var best := Best(r).value;
      SettledWith(r, next, best);
    }
  }

  lemma {:induction false} SettledWith(r: Round, next: Round, best: Facts)
    requires best.reachability.Some? && best.reachability.value.Eligible()
    requires FindFacts(r.facts, best.node) == Some(best)
    requires r.transfer == Idle(0) && !r.routeActivationRequired && !JudgeWith(r, Some(best)).Nothing?
    requires next == r.(scope := next.scope, roundId := next.roundId) && next.scope.currentNode == best.node
    ensures JudgeWith(next, Some(best)) == Nothing(CurrentPreferred)
    ensures JudgeWith(r, Some(best)).Win? ==> !JudgeWith(r, Some(best)).routeOnly
  {
  }

  /** On constant facts whose eligible rows come first, with fresh ids and every target adopted, a run entered in
      any state switches at most once, in its first two rounds (from the default state, in the
      second); after that no round ever switches. */
  lemma {:induction false} ClosedLoopIsStable(run: seq<Round>, p: nat, panel: NodeViewProjection, facts: seq<Facts>,
                                              i: nat, k: nat)
    requires EligibleFirst(facts, panel.policy)
    requires forall m :: p <= m < |run| ==> run[m] == LoopRound(run[m].scope, run[m].roundId, panel, facts)
    requires forall j, m :: 0 <= j < m < |run| && p <= m ==> run[j].roundId < run[m].roundId
    requires forall m :: p <= m < |run| - 1 ==> run[m + 1].scope == Follow(run[m].scope, AnswerOf(run[..m + 1]))
    requires p <= i < |run| && AnswerOf(run[..i + 1]).targetNode.Some?
    ensures i <= p + 1 && (p == 0 ==> i == 1)
    ensures p <= k < |run| && k != i ==> AnswerOf(run[..k + 1]).targetNode.None?
  {
    var h := Marks(run);
    assert forall m :: 0 <= m <= |run| ==> Marks(run[..m]) == h[..m];
    var base := run[p].scope;
    var judge := (n: string) => Judge(LoopRound(base.(currentNode := n), 0, panel, facts));
    forall n: string ensures !judge(n).Nothing? ==>
        (judge(n).Win? ==> !judge(n).routeOnly) && judge(judge(n).candidate).Nothing?
    {
      var r := LoopRound(base.(currentNode := n), 0, panel, facts);
      if !judge(n).Nothing? {
        SwitchIsSettled(r, LoopRound(base.(currentNode := judge(n).candidate), 0, panel, facts));
      }
    }
    forall m | p <= m < |h| ensures h[m].evidence == judge(h[m].scope.currentNode) {
      JudgeDependsOnNode(run[m], LoopRound(base.(currentNode := run[m].scope.currentNode), 0, panel, facts));
    }
    assert ClosedLoop(h, p, judge);
    LoopSwitchesEarly(h, p, judge, i);
    if i < k < |run| { LoopSwitchesOnce(h, p, judge, i, k); }
    if p <= k < i && SwitchesAt(h, k) { LoopSwitchesOnce(h, p, judge, k, i); }
  }

  lemma {:induction false} JudgeDependsOnNode(r: Round, r': Round)
    requires r' == r.(scope := r'.scope, roundId := r'.roundId) && r'.scope.currentNode == r.scope.currentNode
    ensures Judge(r') == Judge(r)
  {
    assert Best(r') == Best(r);
  }

  // ---------------------------------------------------------------- hysteresis

  /** A confirmed switch decided by the 20% gate itself: both nodes reachable at the same tier, the
      node left being in the panel. `left` and `taken` are the evidence for the two nodes. */
  ghost predicate GatedSwitch(run: seq<Round>, left: Facts, taken: Facts)
    requires run != []
  {
    var r := run[|run| - 1];
    AnswerOf(run).reason == SwitchConfirmed(taken.node) &&
    Assessed(r.facts, r.scope.currentNode) && Current(r) == left && Best(r) == Some(taken) &&
    left.reachability == taken.reachability && r.panel.Membership(left.node) == Included
  }

  lemma {:induction false} GateHeld(run: seq<Round>, left: Facts, taken: Facts)
    requires run != [] && GatedSwitch(run, left, taken)
    ensures MaterialImprovement(run[|run| - 1].panel, left, taken) == Some(true)
  {
    var j := SwitchNeedsTwoRounds(run, taken.node);
  }

  /** The gate between two nodes of one tier, the left one included. */
  ghost predicate IsWorthIt(policy: RankingPolicy, left: Facts, taken: Facts) {
    if policy == Throughput then
      left.throughput.Some? && taken.throughput.Some? && taken.throughput.value * 5 >= left.throughput.value * 6
    else
      left.warmMedianMs.Some? && taken.warmMedianMs.Some? && taken.warmMedianMs.value * 5 <= left.warmMedianMs.value * 4
  }

  lemma {:induction false} GateMeans(run: seq<Round>, i: nat, left: Facts, taken: Facts)
    requires i < |run| && GatedSwitch(run[..i + 1], left, taken)
    ensures IsWorthIt(run[i].panel.policy, left, taken)
  {
    GateHeld(run[..i + 1], left, taken);
    ImprovementMeans(run[i].panel, left, taken);
  }

  lemma {:induction false} ImprovementMeans(panel: NodeViewProjection, left: Facts, taken: Facts)
    requires left.reachability.Some? && left.reachability == taken.reachability
    requires panel.Membership(left.node) == Included && MaterialImprovement(panel, left, taken) == Some(true)
    ensures IsWorthIt(panel.policy, left, taken)
  {
  }

  lemma {:induction false} ProductLe(a: nat, b: nat, c: nat, d: nat)
    requires a <= b && c <= d
    ensures a * c <= b * d
  {
    ScaleLe(a, b, c);
    ScaleLe(c, d, b);
  }

  lemma {:induction false} SquareOut(k: nat, x: nat, y: nat)
    ensures (x * k) * (y * k) == (k * k) * (x * y)
  {
  }

  lemma {:induction false} ThroughputGatesCompound(a1: nat, b1: nat, a2: nat, b2: nat)
    requires b1 * 5 >= a1 * 6 && a2 * 5 >= b2 * 6
    ensures 25 * (b1 * a2) >= 36 * (a1 * b2)
  {
    ProductLe(a1 * 6, b1 * 5, b2 * 6, a2 * 5);
    SquareOut(6, a1, b2);
    SquareOut(5, b1, a2);
  }

  lemma {:induction false} LatencyGatesCompound(a1: nat, b1: nat, a2: nat, b2: nat)
    requires b1 * 5 <= a1 * 4 && a2 * 5 <= b2 * 4
    ensures 25 * (b1 * a2) <= 16 * (a1 * b2)
  {
    ProductLe(b1 * 5, a1 * 4, a2 * 5, b2 * 4);
    SquareOut(4, a1, b2);
    SquareOut(5, b1, a2);
  }

  /** Hysteresis: a gated switch from a to b and a later one from b back to a need the pair's
      evidence to have moved by at least 25/16 in latency, or 36/25 in throughput. */
  lemma {:induction false} Hysteresis(run: seq<Round>, i: nat, k: nat, a1: Facts, b1: Facts, a2: Facts, b2: Facts)
    requires i < k < |run| && a1.node == a2.node && b1.node == b2.node
    requires GatedSwitch(run[..i + 1], a1, b1) && GatedSwitch(run[..k + 1], b2, a2)
    requires run[i].panel.policy == run[k].panel.policy
    ensures Moved(run[i].panel.policy, a1, b1, a2, b2)
  {
    GateMeans(run, i, a1, b1);
    GateMeans(run, k, b2, a2);
    GatesMove(run[i].panel.policy, a1, b1, a2, b2);
  }

  /** Between the two switches the pair's throughput or latency ratio has moved that far. */
  ghost predicate Moved(policy: RankingPolicy, a1: Facts, b1: Facts, a2: Facts, b2: Facts) {
    if policy == Throughput then
      a1.throughput.Some? && b1.throughput.Some? && a2.throughput.Some? && b2.throughput.Some? &&
      25 * (b1.throughput.value * a2.throughput.value) >= 36 * (a1.throughput.value * b2.throughput.value)
    else
      a1.warmMedianMs.Some? && b1.warmMedianMs.Some? && a2.warmMedianMs.Some? && b2.warmMedianMs.Some? &&
      25 * (b1.warmMedianMs.value * a2.warmMedianMs.value) <= 16 * (a1.warmMedianMs.value * b2.warmMedianMs.value)
  }

  lemma {:induction false} GatesMove(policy: RankingPolicy, a1: Facts, b1: Facts, a2: Facts, b2: Facts)
    requires IsWorthIt(policy, a1, b1) && IsWorthIt(policy, b2, a2)
    ensures Moved(policy, a1, b1, a2, b2)
  {
    if policy == Throughput {
      ThroughputGatesCompound(a1.throughput.value, b1.throughput.value, a2.throughput.value, b2.throughput.value);
    } else {
      LatencyGatesCompound(a1.warmMedianMs.value, b1.warmMedianMs.value, a2.warmMedianMs.value, b2.warmMedianMs.value);
    }
  }
}
