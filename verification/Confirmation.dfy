/** The confirmation rule of automatic selection: which answer each round of a run deserves, given
    only the scope, the id and the evidence of the rounds so far. */
module Confirmation {
  import opened Prelude

  datatype SelectionScope = SelectionScope(
    qualityGeneration: U64, selector: string, panel: string, panelRevision: U64, currentNode: string)

  datatype Reason =
    | AwaitingConfirmation(candidate: string, wins: nat, required: nat)
    | SwitchConfirmed(candidate: string)
    | RouteActivationAwaiting(current: string, wins: nat, required: nat)
    | RouteActivationConfirmed(current: string)
    | EmergencyAwaitingConfirmation(candidate: string, failures: nat, required: nat)
    | EmergencySwitch(candidate: string)
    | CurrentPreferred
    | NoEligibleCandidate
    | IncompleteCurrentAssessment
    | IncompletePanelAssessment
    | IncompleteImprovementEvidence
    | DuplicateRound(roundId: U64)
    | InsufficientImprovement(candidate: string)
    | ActiveTransfer(growthBytes: U64)
    | TransferWindowWarming(observedMillis: U64)
    | TransferUnavailable(detail: string)
    | ReachabilityTrafficAnomaly(growthBytes: U64)

  datatype Decision = Decision(targetNode: Option<string>, activateRoute: bool, reason: Reason)

  function Defer(reason: Reason): Decision { Decision(None, false, reason) }

  /** What a round proves, whatever happened before it. `Win(c, true)` speaks for activating the
      route to the current node, `Win(c, false)` for switching to `c`. */
  datatype Evidence = Nothing(reason: Reason) | Outage(candidate: string) | Win(candidate: string, routeOnly: bool)

  /** What the confirmation rule sees of one round. */
  datatype Mark = Mark(scope: SelectionScope, roundId: U64, evidence: Evidence)

  function Last(h: seq<Mark>): Mark
    requires h != []
  {
    h[|h| - 1]
  }

  /** Every round from `j` on belongs to the scope of the last one. */
  ghost predicate SameScope(h: seq<Mark>, j: nat)
    requires j < |h|
  {
    forall k :: j <= k < |h| ==> h[k].scope == Last(h).scope
  }

  /** The last round is not newer than some earlier round of the same unbroken stretch of its scope. */
  ghost predicate Replayed(h: seq<Mark>)
    requires h != []
  {
    exists j :: 0 <= j < |h| - 1 && SameScope(h, j) && Last(h).roundId <= h[j].roundId
  }

  /** The run up to and including its latest round that was not a replay. */
  ghost function FreshPrefix(h: seq<Mark>): (p: seq<Mark>)
    ensures p <= h && (p != [] ==> !Replayed(p))
  {
    if h == [] || !Replayed(h) then h else FreshPrefix(h[..|h| - 1])
  }

  /** The fresh run that the last round of `h` builds on. */
  ghost function Before(h: seq<Mark>): (p: seq<Mark>)
    requires h != []
    ensures |p| < |h| && p <= h
  {
    FreshPrefix(h[..|h| - 1])
  }

  /** Whether evidence `b` carries on what evidence `a` began: the same candidate winning again, or
      the current node being down again whoever would replace it. */
  predicate Continues(a: Evidence, b: Evidence) {
    (a.Outage? && b.Outage?) || (a.Win? && b.Win? && a.candidate == b.candidate)
  }

  /** The number of consecutive fresh rounds, up to the last, with one and the same cause. */
  ghost function Streak(h: seq<Mark>): nat
    requires h != []
    decreases |h|
  {
    if Last(h).evidence.Nothing? then 0
    else if Before(h) != [] && Last(Before(h)).scope == Last(h).scope &&
            Continues(Last(Before(h)).evidence, Last(h).evidence)
    then 1 + Streak(Before(h)) else 1
  }

  /** Every second round of a streak acts on it. */
  ghost predicate Confirms(h: seq<Mark>)
    requires h != []
  {
    Streak(h) > 0 && Streak(h) % 2 == 0
  }

  function Awaiting(e: Evidence): Decision
    requires !e.Nothing?
  {
    match e
    case Outage(c) => Defer(EmergencyAwaitingConfirmation(c, 1, 2))
    case Win(c, routeOnly) =>
      Defer(if routeOnly then RouteActivationAwaiting(c, 1, 2) else AwaitingConfirmation(c, 1, 2))
  }

  function Acting(e: Evidence): Decision
    requires !e.Nothing?
  {
    match e
    case Outage(c) => Decision(Some(c), true, EmergencySwitch(c))
    case Win(c, routeOnly) =>
      if routeOnly then Decision(None, true, RouteActivationConfirmed(c))
      else Decision(Some(c), true, SwitchConfirmed(c))
  }

  /** The answer to the last round of a run, defined without any state. */
  ghost function Answer(h: seq<Mark>): Decision
    requires h != []
  {
    var e := Last(h).evidence;
    if Replayed(h) then Defer(DuplicateRound(Last(h).roundId))
    else if e.Nothing? then Defer(e.reason)
    else if Confirms(h) then Acting(e)
    else Awaiting(e)
  }

  /** The latest fresh round lies in the current stretch of scope and carries its greatest id, so
      remembering that one id is enough to recognise every replay. */
  lemma {:induction false} LatestIsNewest(h: seq<Mark>)
    requires h != []
    ensures var p := FreshPrefix(h);
            p != [] && SameScope(h, |p| - 1) &&
            forall j :: 0 <= j < |h| && SameScope(h, j) ==> h[j].roundId <= Last(p).roundId
  {
    if Replayed(h) {
      var h0 := h[..|h| - 1];
      var j :| 0 <= j < |h| - 1 && SameScope(h, j) && Last(h).roundId <= h[j].roundId;
      assert Last(h0).scope == h[j].scope == Last(h).scope;
      LatestIsNewest(h0);
      StretchGoesOn(h);
    }
  }

  lemma {:induction false} StretchGoesOn(h: seq<Mark>)
    requires |h| >= 2 && h[|h| - 2].scope == Last(h).scope
    ensures forall k :: 0 <= k < |h| - 1 ==> SameScope(h, k) == SameScope(h[..|h| - 1], k)
  {
  }

  /** The candidate whose win still waits for its second round. */
  ghost function Pending(h: seq<Mark>): Option<string> {
    var p := FreshPrefix(h);
    if p != [] && Last(p).evidence.Win? && !Confirms(p) then Some(Last(p).evidence.candidate) else None
  }

  ghost predicate OutagePending(h: seq<Mark>) {
    var p := FreshPrefix(h);
    p != [] && Last(p).evidence.Outage? && !Confirms(p)
  }

  /** A round in a new scope is fresh and starts from nothing. */
  lemma {:induction false} NewScope(h: seq<Mark>, m: Mark)
    requires h == [] || Last(h).scope != m.scope
    ensures var h' := h + [m];
            !Replayed(h') && FreshPrefix(h') == h' && !Confirms(h')
  {
    var h' := h + [m];
    assert h'[..|h|] == h;
    forall j | 0 <= j < |h| ensures !SameScope(h', j) { assert h'[|h| - 1] == Last(h); }
    if h != [] { LatestIsNewest(h); }
  }

  /** In an unchanged scope, one id recognises every replay. */
  lemma {:induction false} ReplayRule(h: seq<Mark>, m: Mark)
    requires h != [] && Last(h).scope == m.scope
    ensures var h', p := h + [m], FreshPrefix(h);
            p != [] && Last(p).scope == m.scope &&
            (Replayed(h') <==> m.roundId <= Last(p).roundId) &&
            FreshPrefix(h') == (if Replayed(h') then p else h')
  {
    var h', p := h + [m], FreshPrefix(h);
    assert h'[..|h|] == h;
    LatestIsNewest(h);
    assert Last(p) == h[|p| - 1];
    forall j | 0 <= j < |h| ensures SameScope(h', j) == SameScope(h, j) {
      if SameScope(h', j) { assert forall k :: j <= k < |h| ==> h[k] == h'[k]; }
    }
    if m.roundId <= Last(p).roundId {
      assert SameScope(h', |p| - 1) && h'[|p| - 1] == Last(p);
    }
  }

  lemma {:induction false} StreakParity(h: seq<Mark>)
    requires h != [] && Before(h) != [] && Last(Before(h)).scope == Last(h).scope
    ensures var p, e := Before(h), Last(h).evidence;
            Confirms(h) <==> Continues(Last(p).evidence, e) && !Confirms(p)
  {
  }

  /** In an unchanged scope, one pending cause decides whether a round confirms. */
  lemma {:induction false} ConfirmRule(h: seq<Mark>, m: Mark)
    requires h != [] && Last(h).scope == m.scope
    ensures var e := m.evidence;
            Confirms(h + [m]) <==>
            (e.Win? && Pending(h) == Some(e.candidate)) || (e.Outage? && OutagePending(h))
  {
    ReplayRule(h, m);
    assert (h + [m])[..|h|] == h;
    StreakParity(h + [m]);
  }

  /** What the five fields of the selection state say about the run so far. */
  datatype Summary = Summary(
    scope: Option<SelectionScope>, lastRoundId: Option<U64>,
    pendingCandidate: Option<string>, pendingWins: nat, emergencyFailures: nat)
  {
    /** The fields hold exactly what the latest fresh round leaves to be confirmed. */
    ghost predicate Of(h: seq<Mark>) {
      && (if h == [] then scope == None && lastRoundId == None
          else FreshPrefix(h) != [] && scope == Some(Last(h).scope) &&
               lastRoundId == Some(Last(FreshPrefix(h)).roundId))
      && pendingCandidate == Pending(h) && pendingWins == (if Pending(h).Some? then 1 else 0)
      && emergencyFailures == (if OutagePending(h) then 1 else 0)
    }

    /** The counters after a fresh round with evidence `e`, and the answer to it. */
    ghost predicate Settles(e: Evidence, after: Summary, d: Decision) {
      match e
      case Nothing(reason) =>
        d == Defer(reason) && after.pendingCandidate == None && after.pendingWins == 0 && after.emergencyFailures == 0
      case Win(c, _) =>
        after.emergencyFailures == 0 &&
        (if pendingCandidate == Some(c) then d == Acting(e) && after.pendingCandidate == None && after.pendingWins == 0
         else d == Awaiting(e) && after.pendingCandidate == Some(c) && after.pendingWins == 1)
      case Outage(_) =>
        after.pendingCandidate == None && after.pendingWins == 0 &&
        (if emergencyFailures == 1 then d == Acting(e) && after.emergencyFailures == 0
         else d == Awaiting(e) && after.emergencyFailures == 1)
    }

    function Reset(scope: SelectionScope): Summary { Summary(Some(scope), None, None, 0, 0) }
  }

  /** Normal and emergency progress are never both under way. */
  lemma {:induction false} OneCauseAtATime(h: seq<Mark>, s: Summary)
    requires s.Of(h)
    ensures s.pendingWins == 0 || s.emergencyFailures == 0
  {
  }

  /** A round with a remembered or older id in an unchanged scope is a replay and changes nothing. */
  lemma {:induction false} ReplayKeepsSummary(h: seq<Mark>, m: Mark, s: Summary)
    requires s.Of(h) && s.scope == Some(m.scope) && m.roundId <= s.lastRoundId.value
    ensures s.Of(h + [m]) && Answer(h + [m]) == Defer(DuplicateRound(m.roundId))
  {
    ReplayRule(h, m);
  }

  /** Every other round is fresh, and its answer follows from the counters, reset on a new scope. */
  lemma {:induction false} FreshRoundSettles(h: seq<Mark>, m: Mark, s: Summary, after: Summary, d: Decision)
    requires s.Of(h) && (s.scope == Some(m.scope) ==> m.roundId > s.lastRoundId.value)
    requires after.scope == Some(m.scope) && after.lastRoundId == Some(m.roundId)
    requires (if s.scope == Some(m.scope) then s else s.Reset(m.scope)).Settles(m.evidence, after, d)
    ensures after.Of(h + [m]) && Answer(h + [m]) == d
  {
    if s.scope == Some(m.scope) {
      ReplayRule(h, m);
      ConfirmRule(h, m);
    } else {
      NewScope(h, m);
    }
  }

  /** After the fresh prefix there are only replays. */
  lemma {:induction false} OnlyReplaysAfter(h: seq<Mark>, k: nat)
    requires |FreshPrefix(h)| < k <= |h|
    ensures Replayed(h[..k])
  {
    var h0 := h[..|h| - 1];
    if k < |h| {
      OnlyReplaysAfter(h0, k);
      assert h0[..k] == h[..k];
    } else {
      assert h[..k] == h;
    }
  }

  /** Position `j` holds the latest round before the last that is not a replay. */
  ghost predicate LatestFresh(h: seq<Mark>, j: nat)
    requires j < |h| - 1
  {
    !Replayed(h[..j + 1]) && forall k :: j + 1 < k < |h| ==> Replayed(h[..k])
  }

  /** A confirming round has a partner: the latest earlier fresh round, of the same scope, an older
      id, and evidence that the confirming round carries on. */
  lemma {:induction false} ConfirmationHasPartner(h: seq<Mark>) returns (j: nat)
    requires h != [] && !Replayed(h) && Confirms(h)
    ensures j < |h| - 1 && LatestFresh(h, j)
    ensures h[j].scope == Last(h).scope && h[j].roundId < Last(h).roundId
    ensures Continues(h[j].evidence, Last(h).evidence)
  {
    j := |Before(h)| - 1;
    PartnerCarriesOn(h);
    PartnerIsLatest(h);
  }

  lemma {:induction false} PartnerIsLatest(h: seq<Mark>)
    requires h != [] && Before(h) != []
    ensures LatestFresh(h, |Before(h)| - 1)
  {
    var h0, p := h[..|h| - 1], Before(h);
    assert p == h[..|p|];
    forall k | |p| < k < |h| ensures Replayed(h[..k]) {
      OnlyReplaysAfter(h0, k);
      assert h0[..k] == h[..k];
    }
  }

  lemma {:induction false} PartnerCarriesOn(h: seq<Mark>)
    requires h != [] && !Replayed(h) && Confirms(h)
    ensures Before(h) != []
    ensures var a, b := h[|Before(h)| - 1], Last(h);
            a.scope == b.scope && a.roundId < b.roundId && Continues(a.evidence, b.evidence)
  {
    var h0 := h[..|h| - 1];
    assert h0 + [Last(h)] == h;
    assert h0 != [] && Last(h0).scope == Last(h).scope by {
      if h0 == [] || Last(h0).scope != Last(h).scope { NewScope(h0, Last(h)); }
    }
    ReplayRule(h0, Last(h));
    StreakParity(h);
  }

  /** Two outages in one scope with rising ids act on the second. */
  lemma {:induction false} TwoOutagesAct(a: Mark, b: Mark, c: string)
    requires a.scope == b.scope && a.roundId < b.roundId && a.evidence == Outage(c) && b.evidence == Outage(c)
    ensures Answer([a] + [b]).reason == EmergencySwitch(c)
  {
    NewScope([], a);
    assert [] + [a] == [a];
    ReplayRule([a], b);
    ConfirmRule([a], b);
  }

  /** Evidence that proves nothing never carries a reason reserved for acting or for replays. */
  predicate Plain(e: Evidence) {
    e.Nothing? ==> !e.reason.DuplicateRound? && !e.reason.SwitchConfirmed? && !e.reason.EmergencySwitch?
  }

  /** How the special answers come about. */
  lemma {:induction false} AnswerMeaning(h: seq<Mark>, c: string)
    requires h != [] && Plain(Last(h).evidence)
    ensures Answer(h).reason.DuplicateRound? <==> Replayed(h)
    ensures Answer(h).reason == SwitchConfirmed(c) <==>
              !Replayed(h) && Confirms(h) && Last(h).evidence == Win(c, false)
    ensures Answer(h).reason == EmergencySwitch(c) <==>
              !Replayed(h) && Confirms(h) && Last(h).evidence == Outage(c)
    ensures Answer(h).targetNode == Some(c) <==> Answer(h).reason in {SwitchConfirmed(c), EmergencySwitch(c)}
  {
  }

  // ---------------------------------------------------------------- from one answer to the next

  /** The answer to evidence that nothing earlier supports. */
  function FirstAnswer(e: Evidence): Decision {
    match e
    case Nothing(reason) => Decision(None, false, reason)
    case Outage(c) => Decision(None, false, EmergencyAwaitingConfirmation(c, 1, 2))
    case Win(c, true) => Decision(None, false, RouteActivationAwaiting(c, 1, 2))
    case Win(c, false) => Decision(None, false, AwaitingConfirmation(c, 1, 2))
  }

  /** The answer to evidence that the latest answer was waiting for. */
  function SecondAnswer(e: Evidence): Decision {
    match e
    case Nothing(reason) => Decision(None, false, reason)
    case Outage(c) => Decision(Some(c), true, EmergencySwitch(c))
    case Win(c, true) => Decision(None, true, RouteActivationConfirmed(c))
    case Win(c, false) => Decision(Some(c), true, SwitchConfirmed(c))
  }

  /** The earlier answer waits for evidence like this: for the same node to win again, or for one more outage. */
  predicate WaitsFor(d: Decision, e: Evidence) {
    (e.Win? && (d.reason == AwaitingConfirmation(e.candidate, 1, 2) ||
                d.reason == RouteActivationAwaiting(e.candidate, 1, 2))) ||
    (e.Outage? && d.reason.EmergencyAwaitingConfirmation?)
  }

  /** Evidence that proves nothing never carries a reason that waits for a second round. */
  predicate Unawaited(e: Evidence) {
    e.Nothing? ==> !e.reason.AwaitingConfirmation? && !e.reason.RouteActivationAwaiting? &&
                   !e.reason.EmergencyAwaitingConfirmation?
  }

  /** In a new scope every round is a first one. */
  lemma {:induction false} AnswerInNewScope(h: seq<Mark>, m: Mark)
    requires h == [] || Last(h).scope != m.scope
    ensures Answer(h + [m]) == FirstAnswer(m.evidence)
  {
    NewScope(h, m);
  }

  /** In an unchanged scope an id that is not newer than the latest fresh one is a duplicate; any other round
      acts exactly when the answer to that latest fresh round waits for it. */
  lemma {:induction false} NextAnswer(h: seq<Mark>, m: Mark) returns (j: nat)
    requires h != [] && Last(h).scope == m.scope && forall i :: 0 <= i < |h| ==> Unawaited(h[i].evidence)
    ensures j < |h| && !Replayed(h[..j + 1]) && forall k :: j + 1 < k <= |h| ==> Replayed(h[..k])
    ensures m.roundId <= h[j].roundId ==> Answer(h + [m]) == Decision(None, false, DuplicateRound(m.roundId))
    ensures m.roundId > h[j].roundId ==>
              Answer(h + [m]) ==
              if WaitsFor(Answer(h[..j + 1]), m.evidence) then SecondAnswer(m.evidence) else FirstAnswer(m.evidence)
  {
    var p := FreshPrefix(h);
    ReplayRule(h, m);
    ConfirmRule(h, m);
    j := |p| - 1;
    assert h[..j + 1] == p;
    forall k | j + 1 < k <= |h| ensures Replayed(h[..k]) { OnlyReplaysAfter(h, k); }
    assert Unawaited(Last(p).evidence);
    WaitingMeaning(p, m.evidence);
  }

  lemma {:induction false} WaitingMeaning(p: seq<Mark>, e: Evidence)
    requires p != [] && !Replayed(p) && Unawaited(Last(p).evidence)
    ensures WaitsFor(Answer(p), e) <==>
            !Confirms(p) && Continues(Last(p).evidence, e)
  {
  }

  // ---------------------------------------------------------------- closed loop

  function Follow(scope: SelectionScope, d: Decision): SelectionScope {
    match d.targetNode
    case Some(node) => scope.(currentNode := node)
    case None => scope
  }

  /** From position `p` on, a round's evidence depends only on its current node, its id is fresh, and
      each target becomes the next current node. What happened before `p` is arbitrary. */
  ghost predicate ClosedLoop(h: seq<Mark>, p: nat, judge: string -> Evidence) {
    && (forall i :: p <= i < |h| ==> h[i].evidence == judge(h[i].scope.currentNode))
    && (forall j, i :: 0 <= j < i < |h| && p <= i ==> h[j].roundId < h[i].roundId)
    && (forall i :: p <= i < |h| - 1 ==> h[i + 1].scope == Follow(h[i].scope, Answer(h[..i + 1])))
  }

  /** Evidence only ever speaks for switching, and the node it speaks for gives no further cause. */
  ghost predicate Settling(judge: string -> Evidence) {
    forall n :: !judge(n).Nothing? ==>
      (judge(n).Win? ==> !judge(n).routeOnly) && judge(judge(n).candidate).Nothing?
  }

  ghost predicate SwitchesAt(h: seq<Mark>, i: nat)
    requires i < |h|
  {
    Answer(h[..i + 1]).targetNode.Some?
  }

  lemma {:induction false} LoopStep(h: seq<Mark>, p: nat, judge: string -> Evidence, i: nat)
    requires ClosedLoop(h, p, judge) && Settling(judge) && p <= i < |h|
    ensures !Replayed(h[..i + 1])
    ensures SwitchesAt(h, i) <==> !h[i].evidence.Nothing? && Confirms(h[..i + 1])
    ensures i + 1 < |h| && SwitchesAt(h, i) ==> h[i + 1].evidence.Nothing?
    ensures i + 1 < |h| && !SwitchesAt(h, i) ==> h[i + 1].scope == h[i].scope && h[i + 1].evidence == h[i].evidence
  {
  }

  lemma {:induction false} SecondRoundConfirms(h: seq<Mark>, p: nat, judge: string -> Evidence, i: nat)
    requires ClosedLoop(h, p, judge) && Settling(judge) && p <= i < |h| - 1
    requires !SwitchesAt(h, i) && !h[i].evidence.Nothing?
    ensures SwitchesAt(h, i + 1)
  {
    LoopStep(h, p, judge, i);
    LoopStep(h, p, judge, i + 1);
    assert h[..i + 2][..i + 1] == h[..i + 1];
    StreakParity(h[..i + 2]);
  }

  lemma {:induction false} QuietForever(h: seq<Mark>, p: nat, judge: string -> Evidence, i: nat, k: nat)
    requires ClosedLoop(h, p, judge) && Settling(judge) && p <= i <= k < |h|
    requires h[i].evidence.Nothing?
    ensures h[k].evidence.Nothing? && !SwitchesAt(h, k)
  {
    if i < k {
      QuietForever(h, p, judge, i, k - 1);
      LoopStep(h, p, judge, k - 1);
    }
    LoopStep(h, p, judge, k);
  }

  /** A closed loop, entered in any state, switches only in its first two rounds; entered in the
      default state, only in its second. */
  lemma {:induction false} LoopSwitchesEarly(h: seq<Mark>, p: nat, judge: string -> Evidence, i: nat)
    requires ClosedLoop(h, p, judge) && Settling(judge)
    requires p <= i < |h| && SwitchesAt(h, i)
    ensures i <= p + 1 && (p == 0 ==> i == 1)
  {
    if i > p {
      LateSwitch(h, p, judge, i);
    } else if p == 0 {
      LoopStep(h, p, judge, 0);
      FirstRoundWaits(h[..1]);
    }
  }

  /** ... and only once. */
  lemma {:induction false} LoopSwitchesOnce(h: seq<Mark>, p: nat, judge: string -> Evidence, i: nat, k: nat)
    requires ClosedLoop(h, p, judge) && Settling(judge)
    requires p <= i < k < |h| && SwitchesAt(h, i)
    ensures !SwitchesAt(h, k)
  {
    LoopStep(h, p, judge, i);
    QuietForever(h, p, judge, i + 1, k);
  }

  lemma {:induction false} FirstRoundWaits(h: seq<Mark>)
    requires |h| == 1
    ensures !Confirms(h)
  {
    assert Before(h) == [];
  }

  lemma {:induction false} LateSwitch(h: seq<Mark>, p: nat, judge: string -> Evidence, i: nat)
    requires ClosedLoop(h, p, judge) && Settling(judge)
    requires p < i < |h| && SwitchesAt(h, i)
    ensures i == p + 1 && !SwitchesAt(h, p)
  {
    if h[p].evidence.Nothing? {
      QuietForever(h, p, judge, p, i);
    } else if SwitchesAt(h, p) {
      LoopSwitchesOnce(h, p, judge, p, i);
    } else if i > p + 1 {
      SecondRoundConfirms(h, p, judge, p);
      LoopSwitchesOnce(h, p, judge, p + 1, i);
    }
  }
}
