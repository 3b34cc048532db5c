/** The rolling transfer guard: `ActiveNodeTrafficTracker` keeps a map of lifetime counters and a
    deque of recent growth, and answers as if it had kept every snapshot since its baseline. */
module Traffic {
  import opened Prelude
  import opened Confirmation
  import opened Selection

  const NANOS_PER_MILLI: nat := 1_000_000
  const WINDOW: nat := 10_000_000_000
  const STALE_AFTER: nat := 3_000_000_000
  const THRESHOLD_BYTES: U64 := 65536

  datatype Connection = Connection(id: string, upload: U64, download: U64, chains: seq<string>)

  datatype Row = Row(id: string, total: U64)

  datatype Growth = Growth(at: nat, bytes: U64)

  /** What reaches the tracker, in order. */
  datatype Event =
    | Observed(scope: SelectionScope, at: nat, snapshot: seq<Connection>)
    | Lost(detail: string)
    | Asked(scope: SelectionScope, at: nat)

  // ---------------------------------------------------------------- specification over the whole log

  /** The lifetime totals of the connections that run through the node. */
  function Rows(snapshot: seq<Connection>, node: string): seq<Row> {
    if snapshot == [] then []
    else
      var n := |snapshot| - 1;
      var c := snapshot[n];
      Rows(snapshot[..n], node) + if node in c.chains then [Row(c.id, SaturatingAdd(c.upload, c.download))] else []
  }

  function Totals(rows: seq<Row>): map<string, U64> {
    if rows == [] then map[]
    else
      var n := |rows| - 1;
      Totals(rows[..n])[rows[n].id := rows[n].total]
  }

  /** Growth of one counter: a counter that is new or went backwards counts in full. */
  function Delta(previous: map<string, U64>, row: Row): U64 {
    if row.id in previous && row.total >= previous[row.id] then row.total - previous[row.id] else row.total
  }

  function TotalDelta(previous: map<string, U64>, rows: seq<Row>): nat {
    if rows == [] then 0
    else
      var n := |rows| - 1;
      TotalDelta(previous, rows[..n]) + Delta(previous, rows[n])
  }

  function Saturate(n: nat): U64 { if n < U64_LIMIT then n else U64_LIMIT - 1 }

  datatype Sample = Sample(at: nat, rows: seq<Row>)

  /** An uninterrupted stretch of observation of one scope; its first sample is the baseline. */
  datatype Stretch = Stretch(scope: SelectionScope, samples: seq<Sample>)

  function SampleOf(scope: SelectionScope, at: nat, snapshot: seq<Connection>): Sample {
    Sample(at, Rows(snapshot, scope.currentNode))
  }

  function Watched(log: seq<Event>): (w: Option<Stretch>)
    ensures w.Some? ==> w.value.samples != []
  {
    if log == [] then None
    else
      var before := Watched(log[..|log| - 1]);
      match log[|log| - 1]
      case Asked(_, _) => before
      case Lost(_) => None
      case Observed(scope, at, snapshot) =>
        var sample := SampleOf(scope, at, snapshot);
        if before.Some? && before.value.scope == scope
        then Some(before.value.(samples := before.value.samples + [sample]))
        else Some(Stretch(scope, [sample]))
  }

  function Unreachability(log: seq<Event>): Option<string> {
    if log == [] then None
    else
      match log[|log| - 1]
      case Asked(_, _) => Unreachability(log[..|log| - 1])
      case Lost(detail) => Some(detail)
      case Observed(_, _, _) => None
  }

  /** What one more sample adds to the recorded growth. */
  function GrowthSince(totals: map<string, U64>, sample: Sample): seq<Growth> {
    var bytes := Saturate(TotalDelta(totals, sample.rows));
    if bytes > 0 then [Growth(sample.at, bytes)] else []
  }

  /** Every positive growth since the baseline, however old. */
  function AllGrowth(samples: seq<Sample>): seq<Growth> {
    if |samples| <= 1 then []
    else
      var n := |samples| - 1;
      AllGrowth(samples[..n]) + GrowthSince(Totals(samples[n - 1].rows), samples[n])
  }

  lemma {:induction false} GrowthStep(samples: seq<Sample>, sample: Sample)
    requires samples != []
    ensures AllGrowth(samples + [sample]) ==
            AllGrowth(samples) + GrowthSince(Totals(samples[|samples| - 1].rows), sample)
  {
    var more, n := samples + [sample], |samples|;
    assert more[..n] == samples && more[n - 1] == samples[n - 1] && more[n] == sample;
  }

  function Sum(growth: seq<Growth>): nat {
    if growth == [] then 0 else growth[0].bytes + Sum(growth[1..])
  }

  predicate Recent(g: Growth, now: nat) { Elapsed(now, g.at) <= WINDOW }

  function SumRecent(growth: seq<Growth>, now: nat): nat {
    if growth == [] then 0
    else (if Recent(growth[0], now) then growth[0].bytes else 0) + SumRecent(growth[1..], now)
  }

  /** The answer to `status`, computed from everything that happened. */
  function StatusFromLog(log: seq<Event>, scope: SelectionScope, now: nat): ActiveNodeTransfer {
    var w := Watched(log);
    if Unreachability(log).Some? then Unavailable(Unreachability(log).value)
    else if w.None? || w.value.scope != scope then Warming(0)
    else
      var samples := w.value.samples;
      var observed := Elapsed(now, samples[0].at);
      if Elapsed(now, samples[|samples| - 1].at) > STALE_AFTER then Unavailable("connection snapshot is stale")
      else if observed < WINDOW then Warming(observed / NANOS_PER_MILLI)
      else
        var bytes := Saturate(SumRecent(AllGrowth(samples), now));
        if bytes > THRESHOLD_BYTES then Active(bytes) else Idle(bytes)
  }

  /** The clock readings in the log never go back and end at or before `now`. */
  ghost predicate InOrder(log: seq<Event>, now: nat)
    decreases |log|
  {
    log == [] ||
    match log[|log| - 1]
    case Lost(_) => InOrder(log[..|log| - 1], now)
    case Observed(_, at, _) => at <= now && InOrder(log[..|log| - 1], at)
    case Asked(_, at) => at <= now && InOrder(log[..|log| - 1], at)
  }

  // ---------------------------------------------------------------- lemmas about the specification

  ghost predicate SortedUpTo(growth: seq<Growth>, now: nat) {
    (forall i, j :: 0 <= i < j < |growth| ==> growth[i].at <= growth[j].at) &&
    (forall i :: 0 <= i < |growth| ==> growth[i].at <= now)
  }

  lemma {:induction false} InOrderLater(log: seq<Event>, now: nat, later: nat)
    requires InOrder(log, now) && now <= later
    ensures InOrder(log, later)
  {
    if log != [] && log[|log| - 1].Lost? { InOrderLater(log[..|log| - 1], now, later); }
  }

  lemma {:induction false} GrowthIsSorted(log: seq<Event>, now: nat)
    requires InOrder(log, now) && Watched(log).Some?
    ensures SortedUpTo(AllGrowth(Watched(log).value.samples), now)
    decreases |log|
  {
    var log0, e := log[..|log| - 1], log[|log| - 1];
    match e
    case Lost(_) =>
    case Asked(_, at) =>
      GrowthIsSorted(log0, at);
      SortedLater(AllGrowth(Watched(log0).value.samples), [], at, now);
    case Observed(scope, at, snapshot) =>
      var before, sample := Watched(log0), SampleOf(scope, at, snapshot);
      if before.Some? && before.value.scope == scope {
        var samples := before.value.samples;
        GrowthIsSorted(log0, at);
        GrowthStep(samples, sample);
        SortedLater(AllGrowth(samples), GrowthSince(Totals(samples[|samples| - 1].rows), sample), at, now);
      }
  }

  lemma {:induction false} SortedLater(growth: seq<Growth>, added: seq<Growth>, at: nat, now: nat)
    requires SortedUpTo(growth, at) && at <= now && |added| <= 1 && forall g :: g in added ==> g.at == at
    ensures SortedUpTo(growth + added, now) && growth + [] == growth
  {
  }

  lemma {:induction false} SumSplits(growth: seq<Growth>, dropped: nat, now: nat)
    requires dropped <= |growth|
    requires forall i :: 0 <= i < dropped ==> !Recent(growth[i], now)
    requires forall i :: dropped <= i < |growth| ==> Recent(growth[i], now)
    ensures SumRecent(growth, now) == Sum(growth[dropped..])
  {
    if growth != [] {
      if dropped == 0 {
        SumSplits(growth[1..], 0, now);
        assert growth[0..] == growth && growth[1..][0..] == growth[1..];
      } else {
        SumSplits(growth[1..], dropped - 1, now);
        assert growth[1..][dropped - 1..] == growth[dropped..];
      }
    }
  }

  lemma {:induction false} SumAppend(growth: seq<Growth>, g: Growth)
    ensures Sum(growth + [g]) == Sum(growth) + g.bytes
  {
    if growth == [] {
      assert growth + [g] == [g];
    } else {
      SumAppend(growth[1..], g);
      assert (growth + [g])[1..] == growth[1..] + [g];
    }
  }

  // ---------------------------------------------------------------- the tracker

  /** The fields of the tracker. */
  datatype Tracked = Tracked(
    scope: Option<SelectionScope>, baselineAt: Option<nat>, lastObservedAt: Option<nat>,
    connectionTotals: map<string, U64>, growth: seq<Growth>, unavailable: Option<string>)
  {
    /** The fields are what the log calls for, except that a front part of the growth since the
        baseline may be missing; under an orderly clock that part has left the window for good. */
    ghost predicate Of(log: seq<Event>) {
      && unavailable == Unreachability(log)
      && match Watched(log)
         case None => this == Tracked(None, None, None, map[], [], unavailable)
         case Some(w) =>
           && scope == Some(w.scope)
           && baselineAt == Some(w.samples[0].at)
           && lastObservedAt == Some(w.samples[|w.samples| - 1].at)
           && connectionTotals == Totals(w.samples[|w.samples| - 1].rows)
           && WindowKept(log, AllGrowth(w.samples), growth)
    }
  }

  /** An observation of a new scope, or the first after a loss, becomes the baseline. */
  lemma {:induction false} NewBaseline(log: seq<Event>, e: Event, s: Tracked)
    requires s.Of(log) && e.Observed? && (s.scope != Some(e.scope) || s.baselineAt.None?)
    ensures Tracked(Some(e.scope), Some(e.at), Some(e.at), Totals(Rows(e.snapshot, e.scope.currentNode)), [], None)
            .Of(log + [e])
  {
    assert (log + [e])[..|log|] == log;
  }

  /** Any other observation extends the stretch by one sample, and its growth is kept. */
  lemma {:induction false} Extension(log: seq<Event>, e: Event, s: Tracked, rows: seq<Row>) returns (all: seq<Growth>)
    requires s.Of(log) && e.Observed? && s.scope == Some(e.scope) && s.baselineAt.Some?
    requires rows == Rows(e.snapshot, e.scope.currentNode)
    ensures Watched(log + [e]).Some? && all == AllGrowth(Watched(log + [e]).value.samples)
    ensures WindowKept(log + [e], all, s.growth + GrowthSince(s.connectionTotals, Sample(e.at, rows)))
    ensures forall t :: InOrder(log + [e], t) ==> e.at <= t
  {
    var samples, sample := Watched(log).value.samples, SampleOf(e.scope, e.at, e.snapshot);
    StretchExtends(log, e);
    all := AllGrowth(samples + [sample]);
    GrowthKept(log, e, samples, sample, s.growth, s.connectionTotals);
  }

  lemma {:induction false} GrowthKept(log: seq<Event>, e: Event, samples: seq<Sample>, sample: Sample,
                                      growth: seq<Growth>, totals: map<string, U64>)
    requires samples != [] && totals == Totals(samples[|samples| - 1].rows) &&
             WindowKept(log, AllGrowth(samples), growth) && !e.Lost?
    ensures WindowKept(log + [e], AllGrowth(samples + [sample]), growth + GrowthSince(totals, sample))
    ensures forall t :: InOrder(log + [e], t) ==> e.at <= t
  {
    GrowthStep(samples, sample);
    WindowGrows(log, e, AllGrowth(samples), growth, GrowthSince(totals, sample));
  }

  /** However the growth is then pruned, the fields fit the longer log. */
  lemma {:induction false} Extended(log: seq<Event>, e: Event, s: Tracked, rows: seq<Row>, growth: seq<Growth>)
    requires s.Of(log) && e.Observed? && s.scope == Some(e.scope) && s.baselineAt.Some?
    requires rows == Rows(e.snapshot, e.scope.currentNode)
    requires Watched(log + [e]).Some? && WindowKept(log + [e], AllGrowth(Watched(log + [e]).value.samples), growth)
    ensures Tracked(s.scope, s.baselineAt, Some(e.at), Totals(rows), growth, None).Of(log + [e])
  {
    var samples, sample := Watched(log).value.samples, SampleOf(e.scope, e.at, e.snapshot);
    StretchExtends(log, e);
    ExtendedFields(log + [e], Stretch(e.scope, samples + [sample]), samples, sample, growth);
  }

  lemma {:induction false} StretchExtends(log: seq<Event>, e: Event)
    requires e.Observed? && Watched(log).Some? && Watched(log).value.scope == e.scope
    ensures Watched(log + [e]) ==
            Some(Stretch(e.scope, Watched(log).value.samples + [SampleOf(e.scope, e.at, e.snapshot)]))
    ensures Unreachability(log + [e]) == None
  {
    assert (log + [e])[..|log|] == log;
  }

  lemma {:induction false} ExtendedFields(log: seq<Event>, w: Stretch, samples: seq<Sample>, sample: Sample,
                                          growth: seq<Growth>)
    requires Watched(log) == Some(w) && samples != [] && w.samples == samples + [sample] && Unreachability(log) == None
    requires WindowKept(log, AllGrowth(w.samples), growth)
    ensures Tracked(Some(w.scope), Some(samples[0].at), Some(sample.at), Totals(sample.rows), growth, None).Of(log)
  {
    assert w.samples[0] == samples[0] && w.samples[|w.samples| - 1] == sample;
  }

  class ActiveNodeTrafficTracker {
    var scope: Option<SelectionScope>
    var baselineAt: Option<nat>
    var lastObservedAt: Option<nat>
    var connectionTotals: map<string, U64>
    var growth: seq<Growth>
    var unavailable: Option<string>
    ghost var log: seq<Event>

    ghost predicate Valid()
      reads this
    {
      Fields().Of(log)
    }

    ghost function Fields(): Tracked
      reads this
    {
      Tracked(scope, baselineAt, lastObservedAt, connectionTotals, growth, unavailable)
    }

    constructor ()
      ensures Valid() && log == []
    {
      scope, baselineAt, lastObservedAt := None, None, None;
      connectionTotals, growth, unavailable, log := map[], [], None, [];
    }

    method MarkUnavailable(detail: string)
      requires Valid()
      modifies this
      ensures Valid() && log == old(log) + [Lost(detail)]
    {
      scope, baselineAt, lastObservedAt := None, None, None;
      connectionTotals, growth, unavailable := map[], [], Some(detail);
      log := log + [Lost(detail)];
    }

    method Observe(newScope: SelectionScope, observedAt: nat, snapshot: seq<Connection>)
      requires Valid()
      modifies this
      ensures Valid() && log == old(log) + [Observed(newScope, observedAt, snapshot)]
    {
      ghost var log0, e, s := log, Observed(newScope, observedAt, snapshot), Fields();
      log := log + [e];
      if scope != Some(newScope) || baselineAt.None? {
        ResetToBaseline(newScope, observedAt, snapshot);
        NewBaseline(log0, e, s);
        return;
      }
      ExtendWindow(newScope.currentNode, observedAt, snapshot, log0, e);
    }

    /** The part of `observe` for a scope that is already being watched. */
    method ExtendWindow(node: string, observedAt: nat, snapshot: seq<Connection>, ghost log0: seq<Event>,
                        ghost e: Event)
      requires Fields().Of(log0) && baselineAt.Some? && scope.Some? && scope.value.currentNode == node
      requires log == log0 + [e] && e == Observed(scope.value, observedAt, snapshot)
      modifies this`connectionTotals, this`growth, this`lastObservedAt, this`unavailable
      ensures Valid()
    {
      ghost var s := Fields();
      RecordSample(node, observedAt, snapshot);
      ghost var all := Extension(log0, e, s, Rows(snapshot, node));
      Prune(observedAt, log, all);
      Extended(log0, e, s, Rows(snapshot, node), growth);
      assert Fields() == Tracked(s.scope, s.baselineAt, Some(e.at), Totals(Rows(snapshot, node)), growth, None);
    }

    /** The counters and the growth of one more sample. */
    method RecordSample(node: string, observedAt: nat, snapshot: seq<Connection>)
      modifies this`connectionTotals, this`growth, this`lastObservedAt, this`unavailable
      ensures connectionTotals == Totals(Rows(snapshot, node)) && lastObservedAt == Some(observedAt) &&
              unavailable == None
      ensures growth == old(growth) + GrowthSince(old(connectionTotals), Sample(observedAt, Rows(snapshot, node)))
    {
      var positiveGrowth, observedTotals := MeasureGrowth(connectionTotals, snapshot, node);
      connectionTotals := observedTotals;
      if positiveGrowth > 0 {
        growth := growth + [Growth(observedAt, positiveGrowth)];
      }
      lastObservedAt := Some(observedAt);
      unavailable := None;
    }

    method Status(asked: SelectionScope, now: nat) returns (transfer: ActiveNodeTransfer)
      requires Valid()
      modifies this
      ensures Valid() && log == old(log) + [Asked(asked, now)]
      ensures InOrder(old(log), now) ==> transfer == StatusFromLog(old(log), asked, now)
      ensures transfer.Idle? || transfer.Active? <==>
                unavailable.None? && scope == Some(asked) &&
                Elapsed(now, lastObservedAt.value) <= STALE_AFTER && Elapsed(now, baselineAt.value) >= WINDOW
    {
      ghost var log0 := log;
      log := log + [Asked(asked, now)];
      assert log[..|log| - 1] == log0;
      if Watched(log).Some? {
        var all := AllGrowth(Watched(log).value.samples);
        WindowGrows(log0, Asked(asked, now), all, growth, []);
        assert all + [] == all && growth + [] == growth;
      }
      if unavailable.Some? {
        return Unavailable(unavailable.value);
      }
      if baselineAt.None? || scope != Some(asked) {
        return Warming(0);
      }
      if lastObservedAt.None? || Elapsed(now, lastObservedAt.value) > STALE_AFTER {
        return Unavailable("connection snapshot is stale");
      }
      var observed := Elapsed(now, baselineAt.value);
      if observed < WINDOW {
        return Warming(observed / NANOS_PER_MILLI);
      }
      ghost var all := AllGrowth(Watched(log0).value.samples);
      Prune(now, log, all);
      var growthBytes := SumGrowth(growth);
      if InOrder(log0, now) {
        GrowthIsSorted(log0, now);
        assert InOrder(log, now);
        AfterPruning(all, growth, now);
      }
      transfer := if growthBytes > THRESHOLD_BYTES then Active(growthBytes) else Idle(growthBytes);
    }

    method ResetToBaseline(newScope: SelectionScope, observedAt: nat, snapshot: seq<Connection>)
      modifies this`scope, this`baselineAt, this`lastObservedAt, this`connectionTotals, this`growth, this`unavailable
      ensures scope == Some(newScope) && baselineAt == Some(observedAt) && lastObservedAt == Some(observedAt)
      ensures connectionTotals == Totals(Rows(snapshot, newScope.currentNode))
      ensures growth == [] && unavailable == None
    {
      connectionTotals := map[];
      for i := 0 to |snapshot|
        invariant connectionTotals == Totals(Rows(snapshot[..i], newScope.currentNode))
      {
        RowsStep(snapshot, newScope.currentNode, i);
        if newScope.currentNode in snapshot[i].chains {
          var total := SaturatingAdd(snapshot[i].upload, snapshot[i].download);
          connectionTotals := connectionTotals[snapshot[i].id := total];
        }
      }
      assert snapshot[..|snapshot|] == snapshot;
      scope, baselineAt, lastObservedAt := Some(newScope), Some(observedAt), Some(observedAt);
      growth, unavailable := [], None;
    }

    /** Drops expired growth from the front only. */
    method Prune(now: nat, ghost log: seq<Event>, ghost all: seq<Growth>)
      requires WindowKept(log, all, growth) && forall t :: InOrder(log, t) ==> now <= t
      modifies this`growth
      ensures WindowKept(log, all, growth) && |growth| <= |old(growth)|
      ensures growth != [] ==> Recent(growth[0], now)
    {
      while growth != [] && Elapsed(now, growth[0].at) > WINDOW
        invariant WindowKept(log, all, growth) && |growth| <= |old(growth)|
      {
        assert growth[1..] == all[|all| - |growth| + 1..];
        growth := growth[1..];
      }
    }
  }

  /** The loop of `observe`: the saturating growth of all counters, and the new counter map. */
  method MeasureGrowth(previous: map<string, U64>, snapshot: seq<Connection>, node: string)
    returns (positiveGrowth: U64, observedTotals: map<string, U64>)
    ensures positiveGrowth == Saturate(TotalDelta(previous, Rows(snapshot, node)))
    ensures observedTotals == Totals(Rows(snapshot, node))
  {
    positiveGrowth, observedTotals := 0, map[];
    for i := 0 to |snapshot|
      invariant positiveGrowth == Saturate(TotalDelta(previous, Rows(snapshot[..i], node)))
      invariant observedTotals == Totals(Rows(snapshot[..i], node))
    {
      var c := snapshot[i];
      RowsStep(snapshot, node, i);
      if node in c.chains {
        var total := SaturatingAdd(c.upload, c.download);
        var delta := if c.id in previous && total >= previous[c.id] then total - previous[c.id] else total;
        positiveGrowth := SaturatingAdd(positiveGrowth, delta);
        observedTotals := observedTotals[c.id := total];
      }
    }
    assert snapshot[..|snapshot|] == snapshot;
  }

  /** The saturating fold of `status`. */
  method SumGrowth(growth: seq<Growth>) returns (bytes: U64)
    ensures bytes == Saturate(Sum(growth))
  {
    bytes := 0;
    for i := 0 to |growth|
      invariant bytes == Saturate(Sum(growth[..i]))
    {
      assert growth[..i + 1] == growth[..i] + [growth[i]];
      SumAppend(growth[..i], growth[i]);
      bytes := SaturatingAdd(bytes, growth[i].bytes);
    }
    assert growth[..|growth|] == growth;
  }

  /** What is left in the deque is the rear part of all growth. */
  ghost predicate Kept(all: seq<Growth>, growth: seq<Growth>) {
    |growth| <= |all| && growth == all[|all| - |growth|..]
  }

  ghost predicate DroppedAreOld(all: seq<Growth>, kept: nat, now: nat) {
    forall i :: 0 <= i < |all| - kept ==> i < |all| && !Recent(all[i], now)
  }

  ghost predicate WindowKept(log: seq<Event>, all: seq<Growth>, growth: seq<Growth>) {
    Kept(all, growth) && forall now :: InOrder(log, now) ==> DroppedAreOld(all, |growth|, now)
  }

  /** Time only makes growth older, so what was rightly dropped stays dropped. */
  lemma {:induction false} WindowGrows(log: seq<Event>, e: Event, all: seq<Growth>, growth: seq<Growth>,
                                       added: seq<Growth>)
    requires WindowKept(log, all, growth) && !e.Lost?
    ensures WindowKept(log + [e], all + added, growth + added)
    ensures forall t :: InOrder(log + [e], t) ==> e.at <= t
  {
    assert (log + [e])[..|log|] == log;
    forall now | InOrder(log + [e], now) ensures DroppedAreOld(all + added, |growth + added|, now) {
      assert DroppedAreOld(all, |growth|, e.at);
    }
  }

  lemma {:induction false} RowsStep(snapshot: seq<Connection>, node: string, i: nat)
    requires i < |snapshot|
    ensures var rows, rows', c := Rows(snapshot[..i], node), Rows(snapshot[..i + 1], node), snapshot[i];
            var row := Row(c.id, SaturatingAdd(c.upload, c.download));
            if node in c.chains then
              rows' == rows + [row] && Totals(rows') == Totals(rows)[row.id := row.total] &&
              forall previous :: TotalDelta(previous, rows') == TotalDelta(previous, rows) + Delta(previous, row)
            else rows' == rows
  {
    assert snapshot[..i + 1][..i] == snapshot[..i];
    var rows, c := Rows(snapshot[..i], node), snapshot[i];
    var row := Row(c.id, SaturatingAdd(c.upload, c.download));
    assert (rows + [row])[..|rows|] == rows;
  }

  lemma {:induction false} AfterPruning(all: seq<Growth>, growth: seq<Growth>, now: nat)
    requires Kept(all, growth) && SortedUpTo(all, now) && DroppedAreOld(all, |growth|, now)
    requires growth != [] ==> Recent(growth[0], now)
    ensures Sum(growth) == SumRecent(all, now)
  {
    SumSplits(all, |all| - |growth|, now);
  }

  // ---------------------------------------------------------------- telescoping

  ghost predicate UniqueIds(rows: seq<Row>) {
    forall i, j :: 0 <= i < j < |rows| ==> rows[i].id != rows[j].id
  }

  function SumRows(rows: seq<Row>): nat {
    if rows == [] then 0 else SumRows(rows[..|rows| - 1]) + rows[|rows| - 1].total
  }

  ghost predicate HasGrown(row: Row, rows: seq<Row>) {
    exists k :: 0 <= k < |rows| && rows[k].id == row.id && rows[k].total >= row.total
  }

  /** Between two samples no connection disappears and no counter goes back. */
  ghost predicate Monotone(previous: seq<Row>, next: seq<Row>) {
    UniqueIds(previous) && UniqueIds(next) && forall i :: 0 <= i < |previous| ==> HasGrown(previous[i], next)
  }

  /** From each sample to the next. */
  ghost predicate AllMonotone(samples: seq<Sample>) {
    var n := |samples| - 1;
    n <= 0 || (AllMonotone(samples[..n]) && Monotone(samples[n - 1].rows, samples[n].rows))
  }

  lemma {:induction false} TotalsKeys(rows: seq<Row>, id: string)
    ensures id in Totals(rows) <==> exists i :: 0 <= i < |rows| && rows[i].id == id
  {
    if rows != [] {
      var n := |rows| - 1;
      TotalsKeys(rows[..n], id);
      if i :| 0 <= i < |rows| && rows[i].id == id { if i < n { assert rows[..n][i].id == id; } }
      if id in Totals(rows[..n]) {
        var i :| 0 <= i < n && rows[..n][i].id == id;
        assert rows[i].id == id;
      }
    }
  }

  lemma {:induction false} DeltaOfOthers(m: map<string, U64>, row: Row, rows: seq<Row>)
    requires forall i :: 0 <= i < |rows| ==> rows[i].id != row.id
    ensures TotalDelta(m[row.id := row.total], rows) == TotalDelta(m, rows)
  {
    if rows != [] { DeltaOfOthers(m, row, rows[..|rows| - 1]); }
  }

  /** Knowing one more previous total lowers the growth by exactly that total. */
  lemma {:induction false} DeltaDropsByTotal(m: map<string, U64>, row: Row, rows: seq<Row>)
    requires row.id !in m && UniqueIds(rows) && HasGrown(row, rows)
    ensures TotalDelta(m[row.id := row.total], rows) == TotalDelta(m, rows) - row.total
  {
    var n := |rows| - 1;
    if rows[n].id == row.id {
      DeltaOfOthers(m, row, rows[..n]);
    } else {
      var k :| 0 <= k < |rows| && rows[k].id == row.id && rows[k].total >= row.total;
      assert rows[..n][k] == rows[k];
      DeltaDropsByTotal(m, row, rows[..n]);
    }
  }

  lemma {:induction false} DeltaFromNothing(rows: seq<Row>)
    ensures TotalDelta(map[], rows) == SumRows(rows)
  {
    if rows != [] { DeltaFromNothing(rows[..|rows| - 1]); }
  }

  lemma {:induction false} DeltaIsDifference(previous: seq<Row>, next: seq<Row>)
    requires Monotone(previous, next)
    ensures TotalDelta(Totals(previous), next) == SumRows(next) - SumRows(previous)
  {
    if previous == [] {
      DeltaFromNothing(next);
    } else {
      var n := |previous| - 1;
      var rest, row := previous[..n], previous[n];
      DeltaIsDifference(rest, next);
      TotalsKeys(rest, row.id);
      DeltaDropsByTotal(Totals(rest), row, next);
    }
  }

  /** For monotone counters, all recorded growth telescopes: whatever the sampling times, it is the
      last total less the baseline total. */
  lemma {:induction false} GrowthTelescopes(samples: seq<Sample>)
    requires samples != [] && SumRows(samples[|samples| - 1].rows) < U64_LIMIT && AllMonotone(samples)
    ensures Sum(AllGrowth(samples)) == SumRows(samples[|samples| - 1].rows) - SumRows(samples[0].rows)
  {
    var n := |samples| - 1;
    if n > 0 {
      var rest := samples[..n];
      SplitLast(samples);
      TelescopeStep(rest, samples[n]);
      GrowthTelescopes(rest);
    }
  }

  lemma {:induction false} TelescopeStep(rest: seq<Sample>, sample: Sample)
    requires rest != [] && Monotone(rest[|rest| - 1].rows, sample.rows) && SumRows(sample.rows) < U64_LIMIT
    ensures var before := SumRows(rest[|rest| - 1].rows);
            before <= SumRows(sample.rows) &&
            Sum(AllGrowth(rest + [sample])) == Sum(AllGrowth(rest)) + SumRows(sample.rows) - before
  {
    DeltaIsDifference(rest[|rest| - 1].rows, sample.rows);
    SumStep(rest, sample);
  }

  /** One more sample adds its growth to the sum. */
  lemma {:induction false} SumStep(samples: seq<Sample>, sample: Sample)
    requires samples != []
    ensures Sum(AllGrowth(samples + [sample])) ==
            Sum(AllGrowth(samples)) + Saturate(TotalDelta(Totals(samples[|samples| - 1].rows), sample.rows))
  {
    var bytes := Saturate(TotalDelta(Totals(samples[|samples| - 1].rows), sample.rows));
    GrowthStep(samples, sample);
    if bytes > 0 { SumAppend(AllGrowth(samples), Growth(sample.at, bytes)); }
    else { assert AllGrowth(samples) + [] == AllGrowth(samples); }
  }

  // ---------------------------------------------------------------- counters that go back or disappear

  /** The totals of the previous rows whose connection is still there and whose counter did not go back. */
  function Carried(previous: seq<Row>, next: seq<Row>): nat {
    if previous == [] then 0
    else
      var n := |previous| - 1;
      Carried(previous[..n], next) +
      if exists k :: 0 <= k < |next| && next[k].id == previous[n].id && next[k].total >= previous[n].total
      then previous[n].total else 0
  }

  /** Knowing the total of a counter that went back or disappeared changes nothing. */
  lemma {:induction false} DeltaIgnores(m: map<string, U64>, row: Row, rows: seq<Row>)
    requires row.id !in m && UniqueIds(rows) && !HasGrown(row, rows)
    ensures TotalDelta(m[row.id := row.total], rows) == TotalDelta(m, rows)
  {
    if rows != [] {
      var n := |rows| - 1;
      assert forall k :: 0 <= k < n ==> rows[..n][k] == rows[k];
      DeltaIgnores(m, row, rows[..n]);
    }
  }

  /** Between any two samples the growth is the new total less the previous totals of exactly those
      connections that are still there and did not go back: a counter that went back, or is new, or appears
      again, counts in full, and one that disappeared counts nothing. */
  lemma {:induction false} GrowthBetween(previous: seq<Row>, next: seq<Row>)
    requires UniqueIds(previous) && UniqueIds(next)
    ensures Carried(previous, next) <= SumRows(next)
    ensures TotalDelta(Totals(previous), next) == SumRows(next) - Carried(previous, next)
  {
    if previous == [] {
      DeltaFromNothing(next);
    } else {
      var n := |previous| - 1;
      var rest, row := previous[..n], previous[n];
      GrowthBetween(rest, next);
      TotalsKeys(rest, row.id);
      if HasGrown(row, next) {
        DeltaDropsByTotal(Totals(rest), row, next);
      } else {
        DeltaIgnores(Totals(rest), row, next);
      }
    }
  }

  ghost predicate AllUnique(samples: seq<Sample>) {
    forall k :: 0 <= k < |samples| ==> UniqueIds(samples[k].rows) && SumRows(samples[k].rows) < U64_LIMIT
  }

  /** What the samples after the baseline add, of those taken at most ten seconds before `now`. */
  function GrownWithin(samples: seq<Sample>, now: nat): int {
    if |samples| <= 1 then 0
    else
      var n := |samples| - 1;
      GrownWithin(samples[..n], now) +
      if now <= samples[n].at + 10_000_000_000
      then SumRows(samples[n].rows) - Carried(samples[n - 1].rows, samples[n].rows) else 0
  }

  lemma {:induction false} SumRecentAppend(growth: seq<Growth>, more: seq<Growth>, now: nat)
    ensures SumRecent(growth + more, now) == SumRecent(growth, now) + SumRecent(more, now)
  {
    if growth == [] {
      assert growth + more == more;
    } else {
      SumRecentAppend(growth[1..], more, now);
      assert (growth + more)[1..] == growth[1..] + more;
    }
  }

  /** The recorded growth within the window, whatever the counters did. */
  lemma {:induction false} RecentGrowth(samples: seq<Sample>, now: nat)
    requires AllUnique(samples)
    ensures SumRecent(AllGrowth(samples), now) == GrownWithin(samples, now)
  {
    if |samples| > 1 {
      var n := |samples| - 1;
      var previous, sample := samples[n - 1], samples[n];
      RecentGrowth(samples[..n], now);
      assert samples[..n][n - 1] == previous;
      GrowthBetween(previous.rows, sample.rows);
      SumRecentAppend(AllGrowth(samples[..n]), GrowthSince(Totals(previous.rows), sample), now);
      OneGrowth(Totals(previous.rows), sample, now);
    }
  }

  lemma {:induction false} OneGrowth(totals: map<string, U64>, sample: Sample, now: nat)
    requires TotalDelta(totals, sample.rows) < U64_LIMIT
    ensures SumRecent(GrowthSince(totals, sample), now) ==
            if now <= sample.at + 10_000_000_000 then TotalDelta(totals, sample.rows) else 0
  {
    var bytes := TotalDelta(totals, sample.rows);
    if bytes > 0 {
      assert GrowthSince(totals, sample) == [Growth(sample.at, bytes)];
      assert SumRecent([], now) == 0;
    }
  }

  // ---------------------------------------------------------------- what is counted

  /** The lifetime bytes of a connection, as far as a word can hold them. */
  function Bytes(c: Connection): U64 {
    if c.upload + c.download >= U64_LIMIT then U64_LIMIT - 1 else c.upload + c.download
  }

  /** Exactly the connections that run through the node are counted, each with all its bytes. */
  lemma {:induction false} RowsMeaning(snapshot: seq<Connection>, node: string, row: Row)
    ensures row in Rows(snapshot, node) <==>
            exists c :: c in snapshot && node in c.chains && row == Row(c.id, Bytes(c))
    ensures |Rows(snapshot, node)| <= |snapshot|
  {
    if snapshot != [] {
      var n := |snapshot| - 1;
      RowsMeaning(snapshot[..n], node, row);
      SplitLast(snapshot);
      assert snapshot[n] in snapshot;
    }
  }

  lemma {:induction false} RowsUnique(snapshot: seq<Connection>, node: string)
    requires forall i, j :: 0 <= i < j < |snapshot| ==> snapshot[i].id != snapshot[j].id
    ensures UniqueIds(Rows(snapshot, node))
  {
    if snapshot != [] {
      var n := |snapshot| - 1;
      var rows := Rows(snapshot[..n], node);
      RowsUnique(snapshot[..n], node);
      forall i | 0 <= i < |rows| ensures rows[i].id != snapshot[n].id {
        RowsMeaning(snapshot[..n], node, rows[i]);
      }
    }
  }

  /** The samples of the observations in a stretch of the log. */
  function Observations(log: seq<Event>): seq<Sample> {
    if log == [] then []
    else
      var n := |log| - 1;
      Observations(log[..n]) +
      match log[n]
      case Observed(scope, at, snapshot) => [Sample(at, Rows(snapshot, scope.currentNode))]
      case _ => []
  }

  /** From position `b` on nothing was lost and nothing but `scope` was observed; before it, it was otherwise. */
  ghost predicate Starts(log: seq<Event>, b: nat, scope: SelectionScope) {
    b < |log| && log[b].Observed? &&
    (forall i :: b <= i < |log| ==> !log[i].Lost? && (log[i].Observed? ==> log[i].scope == scope)) &&
    forall k :: 0 <= k < b && OnlyAsked(log, k, b) ==> !log[k].Observed? || log[k].scope != scope
  }

  /** Between the two positions the tracker was only asked. */
  ghost predicate OnlyAsked(log: seq<Event>, k: nat, n: nat) {
    forall i :: k < i < n && i < |log| ==> log[i].Asked?
  }

  /** What is being watched, told from the events. */
  lemma {:induction false} WatchedMeaning(log: seq<Event>) returns (b: nat)
    ensures Watched(log).None? ==> forall i :: 0 <= i < |log| && log[i].Observed? ==>
              exists k :: i < k < |log| && log[k].Lost?
    ensures Watched(log).Some? ==>
              Starts(log, b, Watched(log).value.scope) && Watched(log).value.samples == Observations(log[b..])
  {
    b := 0;
    if log != [] {
      var n := |log| - 1;
      var log0, e := log[..n], log[n];
      b := WatchedMeaning(log0);
      match e
      case Lost(_) =>
      case Asked(_, _) =>
        if Watched(log0).Some? {
          assert log[b..][..n - b] == log0[b..];
        } else {
          forall i | 0 <= i < |log| && log[i].Observed? ensures exists k :: i < k < |log| && log[k].Lost? {
            assert log0[i].Observed?;
            var k :| i < k < n && log0[k].Lost?;
            assert log[k].Lost?;
          }
        }
      case Observed(scope, at, snapshot) =>
        if Watched(log0).Some? && Watched(log0).value.scope == scope {
          assert log[b..][..n - b] == log0[b..];
        } else {
          StartsAnew(log, b);
          b := n;
          assert log[n..] == [e] && [e][..0] == [];
        }
    }
  }

  lemma {:induction false} StartsAnew(log: seq<Event>, b: nat)
    requires log != [] && log[|log| - 1].Observed?
    requires var log0 := log[..|log| - 1];
             if Watched(log0).None? then
               forall i :: 0 <= i < |log0| && log0[i].Observed? ==> exists k :: i < k < |log0| && log0[k].Lost?
             else Starts(log0, b, Watched(log0).value.scope) && Watched(log0).value.scope != log[|log| - 1].scope
    ensures Starts(log, |log| - 1, log[|log| - 1].scope)
  {
    var n, log0 := |log| - 1, log[..|log| - 1];
    assert forall i :: 0 <= i < n ==> log0[i] == log[i];
    forall k | 0 <= k < n && OnlyAsked(log, k, n) ensures !log[k].Observed? || log[k].scope != log[n].scope {
    }
  }

  /** The answer of `status`: after a loss its detail; without an uninterrupted stretch in the scope, nothing
      observed yet; else by the age of the last snapshot (three seconds), of the first (ten seconds), and the
      growth within the last ten seconds (more than 64 KiB, or not). */
  lemma {:induction false} StatusMeaning(log: seq<Event>, scope: SelectionScope, now: nat)
    ensures Unreachability(log).Some? ==> StatusFromLog(log, scope, now) == Unavailable(Unreachability(log).value)
    ensures Unreachability(log).None? && (Watched(log).None? || Watched(log).value.scope != scope) ==>
              StatusFromLog(log, scope, now) == Warming(0)
    ensures Unreachability(log).None? && Watched(log).Some? && Watched(log).value.scope == scope ==>
              StretchAnswer(Watched(log).value.samples, now, StatusFromLog(log, scope, now))
  {
    if Watched(log).Some? && AllUnique(Watched(log).value.samples) { RecentGrowth(Watched(log).value.samples, now); }
  }

  ghost predicate StretchAnswer(samples: seq<Sample>, now: nat, answer: ActiveNodeTransfer)
    requires samples != []
  {
    var first, last := samples[0].at, samples[|samples| - 1].at;
    if now > last + 3_000_000_000 then answer == Unavailable("connection snapshot is stale")
    else if now < first + 10_000_000_000 then answer == Warming(Elapsed(now, first) / 1_000_000)
    else AllUnique(samples) ==>
      var bytes := GrownWithin(samples, now);
      if bytes >= U64_LIMIT then answer == Active(U64_LIMIT - 1)
      else if bytes > 65536 then answer == Active(bytes)
      else bytes >= 0 && answer == Idle(bytes)
  }

  /** The detail of the loss after which nothing was observed. */
  lemma {:induction false} UnreachabilityMeaning(log: seq<Event>, detail: string)
    ensures Unreachability(log) == Some(detail) <==>
            exists k :: 0 <= k < |log| && log[k] == Lost(detail) && OnlyAsked(log, k, |log|)
    ensures Unreachability(log).None? <==> forall k :: 0 <= k < |log| && OnlyAsked(log, k, |log|) ==> !log[k].Lost?
  {
    if log != [] {
      var n := |log| - 1;
      var log0 := log[..n];
      UnreachabilityMeaning(log0, detail);
      assert forall k :: 0 <= k < n ==> log0[k] == log[k];
      if log[n].Asked? {
        forall k | 0 <= k < n ensures OnlyAsked(log, k, |log|) <==> OnlyAsked(log0, k, n) {}
        if Unreachability(log0) == Some(detail) {
          var k :| 0 <= k < n && log0[k] == Lost(detail) && OnlyAsked(log0, k, n);
          assert log[k] == Lost(detail) && OnlyAsked(log, k, |log|);
        }
      } else {
        assert OnlyAsked(log, n, |log|);
        assert forall k :: 0 <= k < n && OnlyAsked(log, k, |log|) ==> log[n].Asked?;
      }
    }
  }
}
