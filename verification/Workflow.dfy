/** The generation-fenced quality workflow. Worker events are consumed while other processes may
    reconcile the shared database between any two of this process's accesses to it; whatever the
    interleaving, only results of the generation and runtime a job was spawned for are published. */
module Workflow {
  import opened Prelude

  /** The shared node-quality database: its identity generation, the two durable markers, and
      whether this process holds the cross-process lock. */
  datatype Database = Database(
    generation: nat, initialized: bool, writesBlocked: bool, reloadFence: bool, locked: bool)
  {
    /** `quality_session_current_while_locked` for a session opened at `session`. */
    predicate SessionCurrent(session: nat) {
      !writesBlocked && !reloadFence && initialized && generation == session
    }
  }

  /** The session of the store, if it is current. */
  function SessionIn(db: Database, store: Option<nat>): (r: Option<nat>)
    ensures r.Some? <==> store.Some? && Unfenced(db, store.value)
    ensures r.Some? ==> r == store
  {
    if store.Some? && db.SessionCurrent(store.value) then store else None
  }

  /** The receipt, if it proves the session of the store. */
  function ReceiptIn(db: Database, store: Option<nat>, receipt: Option<Receipt>, controller: string)
      : (r: Option<Receipt>)
    ensures r.Some? <==>
              receipt.Some? && store == Some(receipt.value.generation) && Unfenced(db, receipt.value.generation) &&
              receipt.value.controller == controller
    ensures r.Some? ==> r == receipt
  {
    if receipt.Some? && store == Some(receipt.value.generation) && db.SessionCurrent(store.value) &&
       receipt.value.controller == controller
    then receipt else None
  }

  /** What any number of steps of other processes may do: nothing while the lock is held here; else
      the generation never decreases and the markers may change. */
  predicate Interference(d: Database, d': Database) {
    d'.locked == d.locked && (d.locked ==> d' == d) && d.generation <= d'.generation
  }

  /** `QualityRuntimeReceipt`. */
  datatype Receipt = Receipt(config: string, database: string, controller: string, generation: nat, pid: Option<nat>)
  {
    /** It is a receipt for this config, database and controller, of a process. */
    predicate Names(config: string, database: string, controller: string) {
      this.config == config && this.database == database && this.controller == controller &&
      pid.Some? && pid.value != 0
    }
  }

  datatype QuickKind = Group | AutoSelect | SingleNode(node: string)

  datatype QuickJob = QuickJob(
    id: nat, group: string, nodes: seq<string>, kind: QuickKind, roundId: Option<nat>,
    assessments: map<string, string>, receipt: Option<Receipt>, current: bool)

  /** An event of a reachability worker. `writable` says whether the database accepts the row for
      reasons outside this model: the node is bound and no I/O error occurs. */
  datatype QuickEvent =
    | AttemptProgress(node: string, assessment: string)
    | ReachabilityProgress(node: string, assessment: string, writable: bool)
    | Finished
    | Disconnected
  {
    predicate IsProgress() { AttemptProgress? || ReachabilityProgress? }
  }

  datatype SustainedKind = Automatic | OneNode

  datatype SustainedJob = SustainedJob(
    group: string, outstanding: set<string>, target: string, generation: nat, kind: SustainedKind,
    cancelled: bool, persistenceFailed: bool)

  datatype SustainedEvent =
    | Progress(node: string, result: string, attributable: bool, writable: bool)
    | SustainedFinished
    | SustainedDisconnected

  /** `BenchmarkCompletion`. */
  datatype Completion =
    | GroupDone(group: string, assessments: map<string, string>, current: bool)
    | AutoSelectDone(group: string, roundId: nat, assessments: map<string, string>, current: bool)
    | SingleNodeDone(group: string, node: string, assessment: Option<string>, current: bool)
    | SustainedDone(group: string, kind: SustainedKind)

  /** `BenchmarkUpdate`, without the progress labels. */
  datatype Update =
    | Announced(completion: Completion)
    | Transferred(group: string, node: string, result: string)
    | WorkerLost(group: string)

  /** `completion`: an automatic round without its id announces nothing. */
  function CompletionOf(job: QuickJob, current: bool): Option<Completion> {
    match job.kind
    case Group => Some(GroupDone(job.group, job.assessments, current))
    case AutoSelect =>
      if job.roundId.None? then None else Some(AutoSelectDone(job.group, job.roundId.value, job.assessments, current))
    case SingleNode(node) =>
      var assessment := if node in job.assessments then Some(job.assessments[node]) else None;
      Some(SingleNodeDone(job.group, node, assessment, current))
  }

  function Announcement(job: QuickJob, current: bool): seq<Update> {
    match CompletionOf(job, current) case Some(c) => [Announced(c)] case None => []
  }

  // ---------------------------------------------------------------- publications

  type Projection = map<(string, string), string>

  /** The runtime receipt and database generation found when a quick job was spawned. */
  datatype Spawn = Spawn(receipt: Option<Receipt>, generation: nat)

  /** What was published or loaded, and what the world looked like then. */
  datatype Publication =
    | QuickBatch(quickJob: QuickJob, current: bool, receipt: Option<Receipt>, db: Database)
    | SustainedResult(job: SustainedJob, node: string, result: string, attributable: bool, target: string, db: Database)
    | SustainedBatch(job: SustainedJob, target: string, db: Database)
    | Loss(group: string)
    | StoreLoaded(session: Option<nat>, quick: Projection, sustained: Projection, db: Database)
    | TargetLoaded(target: string, sustained: Projection)

  /** A batch marked current was published under the receipt and the generation its job was spawned
      for, with no fence up; a batch not so marked carries no assessment. */
  ghost predicate QuickSound(p: Publication, spawns: seq<Spawn>)
    requires p.QuickBatch?
  {
    p.quickJob.id < |spawns| &&
    if p.current then
      p.receipt.Some? && spawns[p.quickJob.id] == Spawn(p.receipt, p.db.generation) &&
      p.receipt.value.generation == p.db.generation && p.db.SessionCurrent(p.db.generation)
    else p.quickJob.assessments == map[]
  }

  /** A sustained result or completion is published only for the active target, in the generation of its
      job; projections are loaded only for a current session. */
  ghost predicate Sound(p: Publication, spawns: seq<Spawn>) {
    match p
    case QuickBatch(_, _, _, _) => QuickSound(p, spawns)
    case SustainedResult(job, _, _, _, target, db) =>
      job.target == target && job.generation == db.generation && db.SessionCurrent(db.generation)
    case SustainedBatch(job, target, db) =>
      job.target == target && job.generation == db.generation && db.SessionCurrent(db.generation)
    case StoreLoaded(session, quick, sustained, db) =>
      quick == sustained == map[] || (session.Some? && db.SessionCurrent(session.value))
    case Loss(_) => true
    case TargetLoaded(_, _) => true
  }

  /** What a publication tells the caller of `poll`. */
  function UpdateOf(p: Publication): seq<Update> {
    match p
    case QuickBatch(job, current, _, _) => Announcement(job, current)
    case SustainedResult(job, node, result, _, _, _) => [Transferred(job.group, node, result)]
    case SustainedBatch(job, _, _) => [Announced(SustainedDone(job.group, job.kind))]
    case Loss(group) => [WorkerLost(group)]
    case StoreLoaded(_, _, _, _) => []
    case TargetLoaded(_, _) => []
  }

  /** What it makes of the reachability projection, and of the sustained one. */
  function StepQuick(before: Projection, p: Publication): Projection {
    match p
    case QuickBatch(job, _, _, _) => before + Keyed(job.group, job.assessments)
    case StoreLoaded(_, quick, _, _) => quick
    case _ => before
  }

  function StepSustained(before: Projection, p: Publication): Projection {
    match p
    case SustainedResult(job, node, result, true, _, _) => before[(job.group, node) := result]
    case StoreLoaded(_, _, sustained, _) => sustained
    case TargetLoaded(_, sustained) => sustained
    case _ => before
  }

  /** The projection entries of one group. */
  function Keyed(group: string, assessments: map<string, string>): Projection {
    map n | n in assessments :: (group, n) := assessments[n]
  }

  /** A publication, what it told, and the projections it found. */
  datatype Entry = Entry(p: Publication, told: seq<Update>, quick: Projection, sustained: Projection)

  /** Everything published was sound and told as it should be, and the projections are what the publications
      made of empty ones, each in turn. */
  ghost predicate Honest(trace: seq<Entry>, spawns: seq<Spawn>, quick: Projection, sustained: Projection)
    decreases |trace|, 1
  {
    if trace == [] then quick == map[] && sustained == map[] else LastIsHonest(trace, spawns, quick, sustained)
  }

  ghost predicate LastIsHonest(trace: seq<Entry>, spawns: seq<Spawn>, quick: Projection, sustained: Projection)
    requires trace != []
    decreases |trace|, 0
  {
    var n := |trace| - 1;
    Follows(trace[n], spawns, quick, sustained) && Honest(trace[..n], spawns, trace[n].quick, trace[n].sustained)
  }

  /** The entry is sound, and leads to these projections from the ones it found. */
  ghost predicate Follows(e: Entry, spawns: seq<Spawn>, quick: Projection, sustained: Projection) {
    Sound(e.p, spawns) && e.told == UpdateOf(e.p) &&
    quick == StepQuick(e.quick, e.p) && sustained == StepSustained(e.sustained, e.p)
  }

  ghost function Recorded(p: Publication, quick: Projection, sustained: Projection): Entry {
    Entry(p, UpdateOf(p), quick, sustained)
  }

  lemma {:induction false} RecordIsHonest(trace: seq<Entry>, spawns: seq<Spawn>, quick: Projection,
                                          sustained: Projection, p: Publication)
    requires Honest(trace, spawns, quick, sustained) && Sound(p, spawns)
    ensures Honest(trace + [Recorded(p, quick, sustained)], spawns, StepQuick(quick, p), StepSustained(sustained, p))
  {
    var longer := trace + [Recorded(p, quick, sustained)];
    assert longer[..|trace|] == trace && longer[|trace|] == Recorded(p, quick, sustained);
    assert LastIsHonest(longer, spawns, StepQuick(quick, p), StepSustained(sustained, p));
  }

  lemma {:induction false} MoreSpawns(trace: seq<Entry>, spawns: seq<Spawn>, quick: Projection, sustained: Projection,
                                      spawn: Spawn)
    requires Honest(trace, spawns, quick, sustained)
    ensures Honest(trace, spawns + [spawn], quick, sustained)
  {
    if trace != [] {
      var n := |trace| - 1;
      assert LastIsHonest(trace, spawns, quick, sustained);
      MoreSpawns(trace[..n], spawns, trace[n].quick, trace[n].sustained, spawn);
      assert LastIsHonest(trace, spawns + [spawn], quick, sustained);
    }
  }

  /** What honesty means for each publication. */
  lemma {:induction false} HonestMeaning(trace: seq<Entry>, spawns: seq<Spawn>, quick: Projection,
                                         sustained: Projection, i: nat)
    requires Honest(trace, spawns, quick, sustained) && i < |trace|
    ensures Sound(trace[i].p, spawns) && trace[i].told == UpdateOf(trace[i].p)
    ensures Honest(trace[..i], spawns, trace[i].quick, trace[i].sustained)
    ensures Honest(trace[..i + 1], spawns, StepQuick(trace[i].quick, trace[i].p),
                   StepSustained(trace[i].sustained, trace[i].p))
  {
    var n := |trace| - 1;
    assert LastIsHonest(trace, spawns, quick, sustained);
    if i < n {
      HonestMeaning(trace[..n], spawns, trace[n].quick, trace[n].sustained, i);
      assert trace[..n][..i] == trace[..i] && trace[..n][..i + 1] == trace[..i + 1];
    } else {
      assert trace[..n + 1] == trace;
    }
  }

  // ---------------------------------------------------------------- what a publication is, field by field

  /** The announcement of a quick job of each kind; an automatic round without its id announces nothing. */
  predicate Announces(told: seq<Update>, job: QuickJob, assessments: map<string, string>, current: bool) {
    match job.kind
    case Group => told == [Announced(GroupDone(job.group, assessments, current))]
    case AutoSelect =>
      told == if job.roundId == None then []
              else [Announced(AutoSelectDone(job.group, job.roundId.value, assessments, current))]
    case SingleNode(n) =>
      var assessment := if n in assessments then Some(assessments[n]) else None;
      told == [Announced(SingleNodeDone(job.group, n, assessment, current))]
  }

  /** The database is in generation `g`, bound, not blocked and not fenced. */
  predicate Unfenced(db: Database, g: nat) {
    db.generation == g && db.initialized && !db.writesBlocked && !db.reloadFence
  }

  /** The batch was published while its job's spawn receipt and generation held. */
  ghost predicate UnderSpawn(p: Publication, spawns: seq<Spawn>)
    requires p.QuickBatch?
  {
    p.quickJob.id < |spawns| && p.receipt.Some? && spawns[p.quickJob.id].receipt == p.receipt &&
    spawns[p.quickJob.id].generation == p.receipt.value.generation &&
    Unfenced(p.db, spawns[p.quickJob.id].generation)
  }

  /** The publication is in order, and this is what it tells. */
  ghost predicate TellsRightly(p: Publication, spawns: seq<Spawn>, told: seq<Update>) {
    match p
    case QuickBatch(job, current, _, _) =>
      Announces(told, job, job.assessments, current) &&
      if current then UnderSpawn(p, spawns) else job.assessments == map[]
    case SustainedResult(job, node, result, _, target, db) =>
      told == [Transferred(job.group, node, result)] && job.target == target && Unfenced(db, job.generation)
    case SustainedBatch(job, target, db) =>
      told == [Announced(SustainedDone(job.group, job.kind))] && job.target == target && Unfenced(db, job.generation)
    case Loss(group) => told == [WorkerLost(group)]
    case StoreLoaded(session, quick, sustained, db) =>
      told == [] && (session.None? || !Unfenced(db, session.value) ==> quick == map[] && sustained == map[])
    case TargetLoaded(_, _) => told == []
  }

  lemma {:induction false} SoundTellsRightly(p: Publication, spawns: seq<Spawn>)
    requires Sound(p, spawns)
    ensures TellsRightly(p, spawns, UpdateOf(p))
  {
  }

  /** The news since position `n` of an honest history. */
  lemma {:induction false} NewsTellRightly(trace: seq<Entry>, spawns: seq<Spawn>, quick: Projection,
                                           sustained: Projection, n: nat)
    requires Honest(trace, spawns, quick, sustained) && n <= |trace|
    ensures forall k :: n <= k < |trace| ==> TellsRightly(trace[k].p, spawns, trace[k].told)
  {
    forall k | n <= k < |trace| ensures TellsRightly(trace[k].p, spawns, trace[k].told) {
      HonestMeaning(trace, spawns, quick, sustained, k);
      SoundTellsRightly(trace[k].p, spawns);
    }
  }

  /** Which assessment a projection holds for a group's node after a publication. */
  lemma {:induction false} QuickProjectionMeaning(before: Projection, p: Publication, group: string, node: string)
    ensures var after := StepQuick(before, p);
      match p
      case QuickBatch(job, _, _, _) =>
        if group == job.group && node in job.assessments
        then (group, node) in after && after[(group, node)] == job.assessments[node]
        else SameEntry(before, after, group, node)
      case StoreLoaded(_, quick, _, _) => after == quick
      case _ => SameEntry(before, after, group, node)
  {
  }

  lemma {:induction false} SustainedProjectionMeaning(before: Projection, p: Publication, group: string, node: string)
    ensures var after := StepSustained(before, p);
      match p
      case SustainedResult(job, n, result, attributable, _, _) =>
        if attributable && group == job.group && node == n
        then (group, node) in after && after[(group, node)] == result
        else SameEntry(before, after, group, node)
      case StoreLoaded(_, _, sustained, _) => after == sustained
      case TargetLoaded(_, sustained) => after == sustained
      case _ => SameEntry(before, after, group, node)
  {
  }

  predicate SameEntry(before: Projection, after: Projection, group: string, node: string) {
    ((group, node) in after <==> (group, node) in before) &&
    ((group, node) in before ==> after[(group, node)] == before[(group, node)])
  }

  /** An announcement among the updates, and the publication behind it. */
  ghost predicate RightlyAnnounced(c: Completion, p: Publication, spawns: seq<Spawn>) {
    match c
    case GroupDone(group, assessments, current) =>
      p.QuickBatch? && p.quickJob.kind == Group && group == p.quickJob.group &&
      assessments == p.quickJob.assessments && if current then UnderSpawn(p, spawns) else assessments == map[]
    case AutoSelectDone(group, roundId, assessments, current) =>
      p.QuickBatch? && p.quickJob.kind == AutoSelect && group == p.quickJob.group &&
      p.quickJob.roundId == Some(roundId) && assessments == p.quickJob.assessments &&
      if current then UnderSpawn(p, spawns) else assessments == map[]
    case SingleNodeDone(group, node, assessment, current) =>
      p.QuickBatch? && p.quickJob.kind == SingleNode(node) && group == p.quickJob.group &&
      (assessment.Some? <==> node in p.quickJob.assessments) &&
      (assessment.Some? ==> assessment.value == p.quickJob.assessments[node]) &&
      if current then UnderSpawn(p, spawns) else assessment == None
    case SustainedDone(group, kind) =>
      p.SustainedBatch? && group == p.job.group && kind == p.job.kind && p.job.target == p.target &&
      Unfenced(p.db, p.job.generation)
  }

  lemma {:induction false} AnnouncedRightly(p: Publication, spawns: seq<Spawn>, told: seq<Update>, c: Completion)
    requires TellsRightly(p, spawns, told) && Announced(c) in told
    ensures RightlyAnnounced(c, p, spawns)
  {
  }

  lemma {:induction false} ToldMembers(news: seq<Entry>, u: Update) returns (k: nat)
    requires u in Told(news)
    ensures k < |news| && u in news[k].told
  {
    var n := |news| - 1;
    if u in news[n].told { k := n; } else { k := ToldMembers(news[..n], u); }
  }

  /** The news appended to a history that stays honest are told rightly, and so is what was announced. */
  lemma {:induction false} AppendedTellRightly(before: seq<Entry>, after: seq<Entry>, news: seq<Entry>,
                                               updates: seq<Update>, spawns: seq<Spawn>, quick: Projection,
                                               sustained: Projection)
    requires Published(before, after, news, updates) && Honest(after, spawns, quick, sustained)
    ensures AllToldRightly(news, updates, spawns)
  {
    NewsTellRightly(after, spawns, quick, sustained, |before|);
    forall k | 0 <= k < |news| ensures TellsRightly(news[k].p, spawns, news[k].told) {
      assert after[|before| + k] == news[k];
    }
    AllAnnouncedRightly(news, spawns);
  }

  /** Each publication is in order and told as it should be, and each announced completion, field by field, is
      that of one of them. */
  ghost predicate AllToldRightly(news: seq<Entry>, updates: seq<Update>, spawns: seq<Spawn>) {
    (forall k :: 0 <= k < |news| ==> TellsRightly(news[k].p, spawns, news[k].told)) &&
    forall c :: Announced(c) in updates ==> exists k :: 0 <= k < |news| && RightlyAnnounced(c, news[k].p, spawns)
  }

  /** Everything announced among updates that tell of rightly told news is announced rightly. */
  lemma {:induction false} AllAnnouncedRightly(news: seq<Entry>, spawns: seq<Spawn>)
    requires forall k :: 0 <= k < |news| ==> TellsRightly(news[k].p, spawns, news[k].told)
    ensures forall c :: Announced(c) in Told(news) ==>
              exists k :: 0 <= k < |news| && RightlyAnnounced(c, news[k].p, spawns)
  {
    forall c | Announced(c) in Told(news)
      ensures exists k :: 0 <= k < |news| && RightlyAnnounced(c, news[k].p, spawns)
    {
      var k := ToldMembers(news, Announced(c));
      AnnouncedRightly(news[k].p, spawns, news[k].told, c);
    }
  }

  /** Everything the entries told, in order. */
  function Told(news: seq<Entry>): seq<Update> {
    if news == [] then [] else Told(news[..|news| - 1]) + news[|news| - 1].told
  }

  /** `news` were published, and `updates` tells of them in order. */
  ghost predicate Published(before: seq<Entry>, after: seq<Entry>, news: seq<Entry>, updates: seq<Update>) {
    after == before + news && updates == Told(news)
  }

  lemma {:induction false} ToldAppend(a: seq<Entry>, b: seq<Entry>)
    ensures Told(a + b) == Told(a) + Told(b)
  {
    if b == [] {
      assert a + b == a;
    } else {
      var n := |b| - 1;
      ToldAppend(a, b[..n]);
      assert (a + b)[..|a| + n] == a + b[..n];
      Regroup(Told(a), Told(b[..n]), b[n].told);
    }
  }

  lemma {:induction false} ToldOne(e: Entry)
    ensures Told([e]) == e.told && Told([]) == []
  {
    assert [e][..0] == [];
  }

  lemma {:induction false} PublishedThen(t0: seq<Entry>, t1: seq<Entry>, t2: seq<Entry>, n1: seq<Entry>, n2: seq<Entry>,
                                         u1: seq<Update>, u2: seq<Update>)
    requires Published(t0, t1, n1, u1) && Published(t1, t2, n2, u2)
    ensures Published(t0, t2, n1 + n2, u1 + u2)
  {
    Regroup(t0, n1, n2);
    ToldAppend(n1, n2);
  }

  lemma {:induction false} PublishedNothing(trace: seq<Entry>)
    ensures Published(trace, trace, [], [])
  {
  }

  lemma {:induction false} PublishedOne(trace: seq<Entry>, e: Entry)
    ensures Published(trace, trace + [e], [e], e.told)
  {
    assert [e][..0] == [];
  }

  // ---------------------------------------------------------------- jobs and their events

  /** A job keeps the receipt it was spawned with, which then matched the database. */
  ghost predicate Linked(job: QuickJob, spawns: seq<Spawn>) {
    job.id < |spawns| && job.receipt == spawns[job.id].receipt &&
    (job.receipt.Some? ==> job.receipt.value.generation == spawns[job.id].generation) &&
    (!job.current ==> job.assessments == map[])
  }

  ghost predicate AllLinked(jobs: seq<QuickJob>, spawns: seq<Spawn>) {
    forall i :: 0 <= i < |jobs| ==> Linked(jobs[i], spawns)
  }

  /** The job had this assessment, or one of the events brought it. */
  ghost predicate Heard(job: QuickJob, events: seq<QuickEvent>, node: string, assessment: string) {
    (node in job.assessments && job.assessments[node] == assessment) ||
    AttemptProgress(node, assessment) in events || ReachabilityProgress(node, assessment, true) in events
  }

  /** A quick job after events: the same job, never current again, with nothing but what was heard. */
  ghost predicate Advanced(job: QuickJob, events: seq<QuickEvent>, job': QuickJob) {
    job' == job.(current := job'.current, assessments := job'.assessments) && (job'.current ==> job.current) &&
    forall n :: n in job'.assessments ==> Heard(job, events, n, job'.assessments[n])
  }

  lemma {:induction false} AdvancedMore(job: QuickJob, events: seq<QuickEvent>, k: nat, job': QuickJob)
    requires k <= |events| && Advanced(job, events[..k], job')
    ensures Advanced(job, events, job')
  {
    forall n | n in job'.assessments ensures Heard(job, events, n, job'.assessments[n]) {
      assert Heard(job, events[..k], n, job'.assessments[n]);
    }
  }

  /** A sustained job after events: the same job with fewer outstanding nodes, perhaps cancelled. */
  ghost predicate Narrowed(job: SustainedJob, job': SustainedJob) {
    job' == job.(outstanding := job'.outstanding, cancelled := job'.cancelled,
                 persistenceFailed := job'.persistenceFailed) &&
    job'.outstanding <= job.outstanding && (job.cancelled ==> job'.cancelled)
  }

  /** The publication comes from this quick job and its events. */
  ghost predicate QuickOrigin(p: Publication, job: QuickJob, events: seq<QuickEvent>) {
    match p
    case QuickBatch(done, _, _, _) => Advanced(job, events, done) && Finished in events
    case Loss(group) => group == job.group && Disconnected in events
    case _ => false
  }

  /** The publication comes from this sustained job and its events. */
  ghost predicate SustainedOrigin(p: Publication, job: SustainedJob, events: seq<SustainedEvent>) {
    match p
    case SustainedResult(done, node, result, attributable, _, _) =>
      Narrowed(job, done) && Progress(node, result, attributable, true) in events
    case SustainedBatch(done, _, _) => Narrowed(job, done) && SustainedFinished in events
    case Loss(group) => group == job.group && SustainedDisconnected in events
    case _ => false
  }

  /** At most this result of this job was published. */
  ghost predicate OnlyResult(news: seq<Entry>, job: SustainedJob, node: string, result: string, attributable: bool) {
    |news| <= 1 &&
    (news != [] ==>
       news[0].p.SustainedResult? && news[0].p.job == job && news[0].p.node == node && news[0].p.result == result &&
       news[0].p.attributable == attributable)
  }

  ghost predicate SustainedFrom(news: seq<Entry>, job: SustainedJob, events: seq<SustainedEvent>) {
    forall k :: 0 <= k < |news| ==> SustainedOrigin(news[k].p, job, events)
  }

  lemma {:induction false} SustainedFromMore(news: seq<Entry>, added: seq<Entry>, job: SustainedJob,
                                             events: seq<SustainedEvent>, k: nat)
    requires k < |events| && SustainedFrom(news, job, events) && SustainedFrom(added, job, [events[k]])
    ensures SustainedFrom(news + added, job, events)
  {
    forall i | 0 <= i < |added| ensures SustainedOrigin(added[i].p, job, events) {
      assert SustainedOrigin(added[i].p, job, [events[k]]);
      assert events[k] in events;
    }
  }

  lemma {:induction false} EndsAt(events: seq<SustainedEvent>, k: nat)
    requires k < |events| && !Ended(events[..k])
    ensures events[k].Progress? ==> !Ended(events[..k + 1])
    ensures !events[k].Progress? ==> Ended(events)
  {
    assert events[..k + 1] == events[..k] + [events[k]];
    assert events[k] in events;
  }

  ghost predicate QuickFrom(news: seq<Entry>, job: QuickJob, events: seq<QuickEvent>) {
    forall k :: 0 <= k < |news| ==> QuickOrigin(news[k].p, job, events)
  }

  // ---------------------------------------------------------------- with other processes at rest

  /** A quick job after a progress event; `open` says whether the database takes rows under its receipt. */
  function Taken(job: QuickJob, event: QuickEvent, open: bool): QuickJob
    requires event.AttemptProgress? || event.ReachabilityProgress?
  {
    if job.current && (event.ReachabilityProgress? ==> open && event.writable)
    then job.(assessments := job.assessments[event.node := event.assessment])
    else job.(current := event.AttemptProgress? && job.current, assessments := map[])
  }

  function Dropped(job: QuickJob): QuickJob { job.(current := false, assessments := map[]) }

  /** A quick job after all its events, and what they tell, when nobody interferes. */
  function QuickRun(job: QuickJob, events: seq<QuickEvent>, open: bool): (QuickJob, seq<Update>)
    decreases |events|
  {
    if events == [] then (job, [])
    else match events[0]
      case Finished =>
        if job.current && open then (job, Announcement(job, true))
        else (Dropped(job), Announcement(Dropped(job), false))
      case Disconnected => (job, [WorkerLost(job.group)])
      case _ => QuickRun(Taken(job, events[0], open), events[1..], open)
  }

  /** After `k` events the job is on its way to what they all lead to. */
  ghost predicate OnCourse(first: QuickJob, events: seq<QuickEvent>, k: nat, open: bool, job: QuickJob)
    requires k <= |events|
  {
    QuickRun(job, events[k..], open) == QuickRun(first, events, open)
  }

  /** A reading of one quick job's events; `first` is the job before them. */
  datatype Hearing = Hearing(first: QuickJob, events: seq<QuickEvent>, open: bool, quiet: bool)
  {
    /** After `k` events, none of them an end, the job is `job`. */
    ghost predicate At(k: nat, job: QuickJob) {
      k <= |events| && !Done(events[..k]) && Advanced(first, events[..k], job) &&
      (quiet ==> OnCourse(first, events, k, open, job))
    }

    /** When nothing more is read, the job is `job`, and this was published and told. */
    ghost predicate Over(finished: bool, job: QuickJob, told: seq<Update>, news: seq<Entry>) {
      (finished <==> Done(events)) && Advanced(first, events, job) && QuickFrom(news, first, events) &&
      (quiet ==> QuickRun(first, events, open) == (job, told))
    }
  }

  lemma {:induction false} HearingStarts(h: Hearing)
    ensures h.At(0, h.first)
  {
    assert h.events[0..] == h.events;
  }

  lemma {:induction false} HearingEnds(h: Hearing, job: QuickJob)
    requires h.At(|h.events|, job)
    ensures h.Over(false, job, [], [])
  {
    assert h.events[..|h.events|] == h.events && h.events[|h.events|..] == [];
  }

  /** One more progress event: the job takes it or drops everything. */
  lemma {:induction false} HearingGoesOn(h: Hearing, k: nat, job: QuickJob, next: QuickJob)
    requires h.At(k, job) && k < |h.events| && h.events[k].IsProgress()
    requires next == Taken(job, h.events[k], true) || next == Taken(job, h.events[k], false)
    requires h.quiet ==> next == Taken(job, h.events[k], h.open)
    ensures h.At(k + 1, next)
  {
    var events := h.events;
    assert events[..k + 1] == events[..k] + [events[k]] && events[k..][1..] == events[k + 1..];
    forall n | n in next.assessments ensures Heard(h.first, events[..k + 1], n, next.assessments[n]) {
      if n in job.assessments && next.assessments[n] == job.assessments[n] {
        assert Heard(h.first, events[..k], n, job.assessments[n]);
      } else {
        assert events[k] in events[..k + 1];
      }
    }
  }

  /** The last event: a batch published or dropped, or a lost worker. */
  lemma {:induction false} HearingCloses(h: Hearing, k: nat, job: QuickJob, next: QuickJob, told: seq<Update>,
                                         entry: Entry)
    requires h.At(k, job) && k < |h.events| && !h.events[k].IsProgress()
    requires h.events[k].Finished? ==>
               entry.p.QuickBatch? && entry.p.quickJob == next &&
               next == (if entry.p.current then job else Dropped(job)) && told == Announcement(next, entry.p.current)
    requires h.events[k].Finished? && h.quiet ==> (entry.p.current <==> job.current && h.open)
    requires h.events[k].Disconnected? ==> next == job && entry.p == Loss(job.group) && told == [WorkerLost(job.group)]
    ensures h.Over(true, next, told, [entry])
  {
    assert h.events[k] in h.events;
    AdvancedMore(h.first, h.events, k, job);
  }

  /** The last assessment that progress events bring for each node. */
  function LastHeard(events: seq<QuickEvent>): map<string, string> {
    if events == [] then map[]
    else
      var n := |events| - 1;
      match events[n]
      case AttemptProgress(node, assessment) => LastHeard(events[..n])[node := assessment]
      case ReachabilityProgress(node, assessment, _) => LastHeard(events[..n])[node := assessment]
      case _ => LastHeard(events[..n])
  }

  /** Events that a database which takes rows does not refuse. */
  ghost predicate Welcome(events: seq<QuickEvent>) {
    forall e :: e in events ==> e.AttemptProgress? || (e.ReachabilityProgress? && e.writable)
  }

  lemma {:induction false} LastHeardFirst(event: QuickEvent, events: seq<QuickEvent>)
    requires Welcome([event] + events)
    ensures LastHeard([event] + events) == map[event.node := event.assessment] + LastHeard(events)
  {
    assert event in [event] + events;
    var all := [event] + events;
    var n := |all| - 1;
    if events == [] {
      assert all[..n] == [] && all[n] == event;
    } else {
      assert all[..n] == [event] + events[..n - 1] && all[n] == events[n - 1];
      assert events[n - 1] in all;
      LastHeardFirst(event, events[..n - 1]);
    }
  }

  lemma {:induction false} OverwrittenFirst(m: map<string, string>, key: string, value: string,
                                            later: map<string, string>)
    ensures m[key := value] + later == m + (map[key := value] + later)
  {
  }

  /** When nobody interferes and every row is accepted, a current job publishes, as current, the last
      assessment it heard for every node. */
  lemma {:induction false} UndisturbedBatchIsComplete(job: QuickJob, events: seq<QuickEvent>)
    requires job.current && Welcome(events)
    ensures var run, all := QuickRun(job, events + [Finished], true), job.assessments + LastHeard(events);
            run.0 == job.(assessments := all) && Announces(run.1, job, all, true)
    decreases |events|
  {
    var all := events + [Finished];
    if events == [] {
      assert all[0] == Finished && job.assessments + map[] == job.assessments;
    } else {
      assert events[0] in events;
      var next := Taken(job, events[0], true);
      assert all[1..] == events[1..] + [Finished] && all[0] == events[0];
      UndisturbedBatchIsComplete(next, events[1..]);
      assert events == [events[0]] + events[1..];
      LastHeardFirst(events[0], events[1..]);
      OverwrittenFirst(job.assessments, events[0].node, events[0].assessment, LastHeard(events[1..]));
    }
  }

  /** In every other case the batch is dropped: a job that is not current, or has lost its receipt, or had a row
      refused, announces nothing but that it is not current. */
  lemma {:induction false} ClosedBatchIsDropped(job: QuickJob, events: seq<QuickEvent>, open: bool)
    requires forall e :: e in events ==> e.IsProgress()
    requires !(job.current && open && Welcome(events))
    ensures var run := QuickRun(job, events + [Finished], open);
            run.0 == job.(current := false, assessments := map[]) && Announces(run.1, job, map[], false)
    decreases |events|
  {
    var all := events + [Finished];
    if events != [] {
      assert events[0] in events;
      assert all[1..] == events[1..] + [Finished] && all[0] == events[0];
      var next := Taken(job, events[0], open);
      ClosedBatchIsDropped(next, events[1..], open);
    } else {
      assert all[0] == Finished;
    }
  }

  /** A job whose worker is lost tells just that. */
  lemma {:induction false} LostBatchIsTold(job: QuickJob, events: seq<QuickEvent>, open: bool)
    requires forall e :: e in events ==> e.IsProgress()
    ensures QuickRun(job, events + [Disconnected], open).1 == [WorkerLost(job.group)]
    decreases |events|
  {
    var all := events + [Disconnected];
    if events != [] {
      assert events[0] in events;
      assert all[1..] == events[1..] + [Disconnected] && all[0] == events[0];
      LostBatchIsTold(Taken(job, events[0], open), events[1..], open);
    } else {
      assert all[0] == Disconnected;
    }
  }

  /** The node's last progress event decides what was last heard of it. */
  lemma {:induction false} LastHeardMeaning(events: seq<QuickEvent>, node: string)
    ensures node in LastHeard(events) <==> exists i :: 0 <= i < |events| && Reports(events[i], node)
    ensures node in LastHeard(events) ==>
              exists i :: 0 <= i < |events| && Reports(events[i], node) &&
                          LastHeard(events)[node] == events[i].assessment &&
                          forall k :: i < k < |events| ==> !Reports(events[k], node)
  {
    if events != [] {
      var n := |events| - 1;
      var rest := events[..n];
      LastHeardMeaning(rest, node);
      assert forall k :: 0 <= k < n ==> rest[k] == events[k];
      if !Reports(events[n], node) && node in LastHeard(rest) {
        var i :| 0 <= i < n && Reports(rest[i], node) && LastHeard(rest)[node] == rest[i].assessment &&
                 forall k :: i < k < n ==> !Reports(rest[k], node);
        assert Reports(events[i], node);
      }
    }
  }

  predicate Reports(event: QuickEvent, node: string) { event.IsProgress() && event.node == node }

  /** What all quick jobs come to, in order, under the receipt that proves the session. */
  function QuickRuns(jobs: seq<QuickJob>, arrivals: seq<seq<QuickEvent>>, receipt: Option<Receipt>)
      : (seq<QuickJob>, seq<Update>)
    requires |jobs| == |arrivals|
  {
    if jobs == [] then ([], [])
    else
      var n := |jobs| - 1;
      var before := QuickRuns(jobs[..n], arrivals[..n], receipt);
      var last := QuickRun(jobs[n], arrivals[n], receipt.Some? && jobs[n].receipt == receipt);
      (before.0 + [last.0], before.1 + last.1)
  }

  /** The first `n` quick jobs have come to what they should. */
  ghost predicate QuickSoFar(before: seq<QuickJob>, arrivals: seq<seq<QuickEvent>>, receipt: Option<Receipt>, n: nat,
                             after: seq<QuickJob>, told: seq<Update>) {
    |after| == |before| == |arrivals| && n <= |before| &&
    QuickRuns(before[..n], arrivals[..n], receipt) == (after[..n], told)
  }

  lemma {:induction false} OneMoreQuick(before: seq<QuickJob>, arrivals: seq<seq<QuickEvent>>, receipt: Option<Receipt>,
                                        n: nat, after: seq<QuickJob>, told: seq<Update>, job: QuickJob,
                                        more: seq<Update>)
    requires QuickSoFar(before, arrivals, receipt, n, after, told) && n < |before|
    requires (job, more) == QuickRun(before[n], arrivals[n], receipt.Some? && before[n].receipt == receipt)
    ensures QuickSoFar(before, arrivals, receipt, n + 1, after[n := job], told + more)
  {
    assert before[..n + 1][..n] == before[..n] && arrivals[..n + 1][..n] == arrivals[..n];
    assert after[n := job][..n + 1] == after[..n] + [job];
  }

  lemma {:induction false} AllQuick(before: seq<QuickJob>, arrivals: seq<seq<QuickEvent>>, receipt: Option<Receipt>,
                                    after: seq<QuickJob>, told: seq<Update>)
    requires QuickSoFar(before, arrivals, receipt, |before|, after, told)
    ensures QuickRuns(before, arrivals, receipt) == (after, told)
  {
    assert before[..|before|] == before && arrivals[..|before|] == arrivals && after[..|before|] == after;
  }

  /** A sustained job after an event; `open` says whether its generation is the current one. */
  function Transferring(job: SustainedJob, event: SustainedEvent, open: bool): SustainedJob {
    if event.Progress? then
      var less := job.(outstanding := job.outstanding - {event.node});
      if open && event.writable then less else GivenUp(less)
    else job
  }

  function GivenUp(job: SustainedJob): SustainedJob { job.(cancelled := true, persistenceFailed := true) }

  /** A job of another generation is given up before its events are read. */
  function Checked(job: SustainedJob, open: bool): SustainedJob { if open then job else GivenUp(job) }

  /** What one event of it tells; `active` says whether its target is still the active one. */
  function TransferTold(job: SustainedJob, event: SustainedEvent, open: bool, active: bool): seq<Update> {
    match event
    case Progress(node, result, _, writable) =>
      if open && writable && active then [Transferred(job.group, node, result)] else []
    case SustainedFinished =>
      if open && !job.persistenceFailed && active then [Announced(SustainedDone(job.group, job.kind))] else []
    case SustainedDisconnected => if !job.persistenceFailed && active then [WorkerLost(job.group)] else []
  }

  /** A sustained job after all its events, and what they tell, when nobody interferes. */
  function SustainedRun(job: SustainedJob, events: seq<SustainedEvent>, open: bool, active: bool)
      : (SustainedJob, seq<Update>)
    decreases |events|
  {
    if events == [] then (job, [])
    else
      var next := Transferring(job, events[0], open);
      var told := TransferTold(job, events[0], open, active);
      if !events[0].Progress? then (next, told)
      else
        var rest := SustainedRun(next, events[1..], open, active);
        (rest.0, told + rest.1)
  }

  /** After `k` events the job and what was told are on their way to what all the events lead to. */
  ghost predicate OnTransfer(first: SustainedJob, events: seq<SustainedEvent>, k: nat, open: bool, active: bool,
                             job: SustainedJob, told: seq<Update>)
    requires k <= |events|
  {
    var rest := SustainedRun(job, events[k..], open, active);
    SustainedRun(first, events, open, active) == (rest.0, told + rest.1)
  }

  /** A reading of one sustained job's events: `first` is the job before the check of its session, `start`
      after it; `before` is what had been published. */
  datatype Reading = Reading(first: SustainedJob, start: SustainedJob, events: seq<SustainedEvent>, open: bool,
                             active: bool, quiet: bool, before: seq<Entry>)
  {
    /** After `k` events, none of them an end, the job is `job`, and `news` were published and told. */
    ghost predicate At(k: nat, job: SustainedJob, told: seq<Update>, news: seq<Entry>, after: seq<Entry>) {
      k <= |events| && !Ended(events[..k]) && Published(before, after, news, told) &&
      SustainedFrom(news, first, events) && (quiet ==> OnTransfer(start, events, k, open, active, job, told))
    }

    /** The same when nothing more is read. */
    ghost predicate Over(finished: bool, job: SustainedJob, told: seq<Update>, news: seq<Entry>, after: seq<Entry>) {
      (finished <==> Ended(events)) && Published(before, after, news, told) && SustainedFrom(news, first, events) &&
      (quiet ==> SustainedRun(start, events, open, active) == (job, told))
    }
  }

  lemma {:induction false} ReadingStarts(r: Reading)
    ensures r.At(0, r.start, [], [], r.before)
  {
    assert r.events[0..] == r.events;
    var run := SustainedRun(r.start, r.events, r.open, r.active);
    assert [] + run.1 == run.1;
    PublishedNothing(r.before);
  }

  lemma {:induction false} ReadingEnds(r: Reading, job: SustainedJob, told: seq<Update>, news: seq<Entry>,
                                       after: seq<Entry>)
    requires r.At(|r.events|, job, told, news, after)
    ensures r.Over(false, job, told, news, after)
  {
    assert r.events[..|r.events|] == r.events && r.events[|r.events|..] == [] && told + [] == told;
  }

  /** One more event, with what it made of the job and what was published and told of it. */
  lemma {:induction false} ReadingGoesOn(r: Reading, k: nat, job: SustainedJob, told: seq<Update>, news: seq<Entry>,
                                         mid: seq<Entry>, next: SustainedJob, more: seq<Update>, added: seq<Entry>,
                                         after: seq<Entry>)
    requires r.At(k, job, told, news, mid) && k < |r.events|
    requires Published(mid, after, added, more) && SustainedFrom(added, r.first, [r.events[k]])
    requires r.quiet ==> next == Transferring(job, r.events[k], r.open) &&
                         more == TransferTold(job, r.events[k], r.open, r.active)
    ensures r.events[k].Progress? ==> r.At(k + 1, next, told + more, news + added, after)
    ensures !r.events[k].Progress? ==> r.Over(true, next, told + more, news + added, after)
  {
    PublishedThen(r.before, mid, after, news, added, told, more);
    SustainedFromMore(news, added, r.first, r.events, k);
    EndsAt(r.events, k);
    if r.quiet { StaysOnTransfer(r.start, r.events, k, r.open, r.active, job, told, next, more); }
  }

  lemma {:induction false} StaysOnTransfer(first: SustainedJob, events: seq<SustainedEvent>, k: nat, open: bool,
                                           active: bool, job: SustainedJob, told: seq<Update>,
                                           next: SustainedJob, more: seq<Update>)
    requires k < |events| && OnTransfer(first, events, k, open, active, job, told)
    requires next == Transferring(job, events[k], open) && more == TransferTold(job, events[k], open, active)
    ensures events[k].Progress? ==> OnTransfer(first, events, k + 1, open, active, next, told + more)
    ensures !events[k].Progress? ==> SustainedRun(first, events, open, active) == (next, told + more)
  {
    if events[k].Progress? {
      assert events[k..][1..] == events[k + 1..];
      Regroup(told, more, SustainedRun(next, events[k + 1..], open, active).1);
    }
  }

  /** What all sustained jobs come to, in order. */
  function SustainedRuns(jobs: seq<SustainedJob>, arrivals: seq<seq<SustainedEvent>>, session: Option<nat>,
                         target: string)
      : (seq<SustainedJob>, seq<Update>)
    requires |jobs| == |arrivals|
  {
    if jobs == [] then ([], [])
    else
      var n := |jobs| - 1;
      var before := SustainedRuns(jobs[..n], arrivals[..n], session, target);
      var open := session == Some(jobs[n].generation);
      var last := SustainedRun(Checked(jobs[n], open), arrivals[n], open, jobs[n].target == target);
      (before.0 + [last.0], before.1 + last.1)
  }

  /** The first `n` sustained jobs have come to what they should. */
  ghost predicate SustainedSoFar(before: seq<SustainedJob>, arrivals: seq<seq<SustainedEvent>>, session: Option<nat>,
                                 target: string, n: nat, after: seq<SustainedJob>, told: seq<Update>) {
    |after| == |before| == |arrivals| && n <= |before| &&
    SustainedRuns(before[..n], arrivals[..n], session, target) == (after[..n], told)
  }

  lemma {:induction false} OneMoreSustained(before: seq<SustainedJob>, arrivals: seq<seq<SustainedEvent>>,
                                            session: Option<nat>, target: string, n: nat, after: seq<SustainedJob>,
                                            told: seq<Update>, job: SustainedJob, more: seq<Update>)
    requires SustainedSoFar(before, arrivals, session, target, n, after, told) && n < |before|
    requires var open := session == Some(before[n].generation);
             (job, more) ==
             SustainedRun(Checked(before[n], open), arrivals[n], open, before[n].target == target)
    ensures SustainedSoFar(before, arrivals, session, target, n + 1, after[n := job], told + more)
  {
    assert before[..n + 1][..n] == before[..n] && arrivals[..n + 1][..n] == arrivals[..n];
    assert after[n := job][..n + 1] == after[..n] + [job];
  }

  lemma {:induction false} AllSustained(before: seq<SustainedJob>, arrivals: seq<seq<SustainedEvent>>,
                                        session: Option<nat>, target: string, after: seq<SustainedJob>,
                                        told: seq<Update>)
    requires SustainedSoFar(before, arrivals, session, target, |before|, after, told)
    ensures SustainedRuns(before, arrivals, session, target) == (after, told)
  {
    assert before[..|before|] == before && arrivals[..|before|] == arrivals && after[..|before|] == after;
  }

  predicate AllAccepted(events: seq<SustainedEvent>) { forall e :: e in events ==> e.Progress? && e.writable }

  /** When nobody interferes, a transfer of the current generation for the active target reports every result
      whose row is accepted, in order, and then its end if no row was refused. */
  lemma {:induction false} UndisturbedTransferIsTold(job: SustainedJob, events: seq<SustainedEvent>)
    requires forall e :: e in events ==> e.Progress?
    ensures var run, whole := SustainedRun(job, events + [SustainedFinished], true, true), AllAccepted(events);
            run.0 == job.(outstanding := job.outstanding - Reported(events), cancelled := job.cancelled || !whole,
                          persistenceFailed := job.persistenceFailed || !whole) &&
            run.1 == Results(job.group, events) +
                     if whole && !job.persistenceFailed then [Announced(SustainedDone(job.group, job.kind))] else []
    decreases |events|
  {
    var all := events + [SustainedFinished];
    if events == [] {
      assert all[0] == SustainedFinished && job.outstanding - Reported(events) == job.outstanding;
      var last := TransferTold(job, all[0], true, true);
      assert Results(job.group, events) + last == last;
    } else {
      assert events[0] in events;
      assert all[1..] == events[1..] + [SustainedFinished] && all[0] == events[0];
      var next := Transferring(job, events[0], true);
      UndisturbedTransferIsTold(next, events[1..]);
      assert next.outstanding - Reported(events[1..]) == job.outstanding - Reported(events);
      AcceptedFirst(events);
      var end := if AllAccepted(events[1..]) && !next.persistenceFailed
                 then [Announced(SustainedDone(job.group, job.kind))] else [];
      Regroup(TransferTold(job, events[0], true, true), Results(job.group, events[1..]), end);
    }
  }

  lemma {:induction false} AcceptedFirst(events: seq<SustainedEvent>)
    requires events != [] && events[0].Progress?
    ensures AllAccepted(events) <==> events[0].writable && AllAccepted(events[1..])
  {
    assert events == [events[0]] + events[1..];
  }

  /** A transfer of another generation or another target tells no result and no end. */
  lemma {:induction false} ClosedTransferIsSilent(job: SustainedJob, events: seq<SustainedEvent>, open: bool,
                                                  active: bool)
    requires (forall e :: e in events ==> e.Progress?) && !(open && active)
    ensures SustainedRun(job, events + [SustainedFinished], open, active).1 == []
    ensures SustainedRun(job, events + [SustainedFinished], open, active).0.outstanding ==
            job.outstanding - Reported(events)
    decreases |events|
  {
    var all := events + [SustainedFinished];
    if events == [] {
      assert all[0] == SustainedFinished && job.outstanding - Reported(events) == job.outstanding;
    } else {
      assert events[0] in events;
      assert all[1..] == events[1..] + [SustainedFinished] && all[0] == events[0];
      var next := Transferring(job, events[0], open);
      ClosedTransferIsSilent(next, events[1..], open, active);
      assert next.outstanding - Reported(events[1..]) == job.outstanding - Reported(events);
    }
  }

  /** The nodes that progress events report. */
  function Reported(events: seq<SustainedEvent>): (nodes: set<string>)
    ensures forall n :: n in nodes <==> exists i :: 0 <= i < |events| && events[i].Progress? && events[i].node == n
  {
    if events == [] then {}
    else
      assert forall i :: 0 < i < |events| ==> events[i] == events[1..][i - 1];
      (if events[0].Progress? then {events[0].node} else {}) + Reported(events[1..])
  }

  /** What is told of the results whose rows are accepted. */
  function Results(group: string, events: seq<SustainedEvent>): seq<Update> {
    if events == [] then []
    else (if events[0].Progress? && events[0].writable
          then [Transferred(group, events[0].node, events[0].result)] else []) + Results(group, events[1..])
  }

  /** With all rows accepted, each result is told at its place, with its node and the job's group. */
  lemma {:induction false} ResultsMeaning(group: string, events: seq<SustainedEvent>)
    ensures AllAccepted(events) ==>
              |Results(group, events)| == |events| &&
              forall i :: 0 <= i < |events| ==>
                Results(group, events)[i] == Transferred(group, events[i].node, events[i].result)
    ensures forall u :: u in Results(group, events) <==>
              exists i :: 0 <= i < |events| && events[i].Progress? && events[i].writable &&
                          u == Transferred(group, events[i].node, events[i].result)
  {
    if events != [] {
      var rest := events[1..];
      ResultsMeaning(group, rest);
      assert forall i :: 0 < i < |events| ==> events[i] == rest[i - 1];
      if AllAccepted(events) {
        assert events[0] in events && forall e :: e in rest ==> e in events;
      }
    }
  }

  /** The jobs up to `n` have taken their events, the others are as they were. */
  ghost predicate AllAdvanced(before: seq<QuickJob>, arrivals: seq<seq<QuickEvent>>, after: seq<QuickJob>, n: nat) {
    |after| == |before| == |arrivals| && n <= |before| &&
    (forall i :: 0 <= i < n ==> Advanced(before[i], arrivals[i], after[i])) &&
    (forall i :: n <= i < |before| ==> after[i] == before[i])
  }

  /** The first `n` quick jobs are polled: so they are now, these finished, and this was published. */
  ghost predicate QuickPolled(before: seq<QuickJob>, arrivals: seq<seq<QuickEvent>>, n: nat, after: seq<QuickJob>,
                              finished: seq<nat>, news: seq<Entry>) {
    AllAdvanced(before, arrivals, after, n) && finished == DoneIndexes(arrivals[..n]) &&
    AllQuickOrigin(news, before, arrivals)
  }

  lemma {:induction false} OneMorePolled(before: seq<QuickJob>, arrivals: seq<seq<QuickEvent>>, n: nat,
                                         after: seq<QuickJob>, finished: seq<nat>, news: seq<Entry>, job: QuickJob,
                                         added: seq<Entry>)
    requires QuickPolled(before, arrivals, n, after, finished, news) && n < |before|
    requires Advanced(before[n], arrivals[n], job) && QuickFrom(added, before[n], arrivals[n])
    ensures QuickPolled(before, arrivals, n + 1, after[n := job],
                        finished + if Done(arrivals[n]) then [n] else [], news + added)
  {
    assert arrivals[..n + 1][..n] == arrivals[..n];
    forall k | 0 <= k < |news + added|
      ensures exists i :: 0 <= i < |before| && QuickOrigin((news + added)[k].p, before[i], arrivals[i])
    {
      if k < |news| {
        var i :| 0 <= i < |before| && QuickOrigin(news[k].p, before[i], arrivals[i]);
      } else {
        assert QuickOrigin(added[k - |news|].p, before[n], arrivals[n]);
      }
    }
  }

  /** The same for sustained jobs. */
  ghost predicate AllNarrowed(before: seq<SustainedJob>, after: seq<SustainedJob>, n: nat) {
    |after| == |before| && n <= |before| && (forall i :: 0 <= i < n ==> Narrowed(before[i], after[i])) &&
    (forall i :: n <= i < |before| ==> after[i] == before[i])
  }

  lemma {:induction false} NarrowedTwice(jobs: seq<SustainedJob>, index: nat, first: SustainedJob, second: SustainedJob)
    requires index < |jobs| && Narrowed(jobs[index], first) && Narrowed(first, second)
    ensures Narrowed(jobs[index], second) && jobs[index := first][index := second] == jobs[index := second]
  {
  }

  ghost predicate SustainedPolled(before: seq<SustainedJob>, arrivals: seq<seq<SustainedEvent>>, n: nat,
                                  after: seq<SustainedJob>, finished: seq<nat>, news: seq<Entry>) {
    |arrivals| == |before| && AllNarrowed(before, after, n) && finished == EndedIndexes(arrivals[..n]) &&
    AllSustainedOrigin(news, before, arrivals)
  }

  lemma {:induction false} OneMoreTransferred(before: seq<SustainedJob>, arrivals: seq<seq<SustainedEvent>>, n: nat,
                                              after: seq<SustainedJob>, finished: seq<nat>, news: seq<Entry>,
                                              job: SustainedJob, added: seq<Entry>)
    requires SustainedPolled(before, arrivals, n, after, finished, news) && n < |before|
    requires Narrowed(before[n], job) && SustainedFrom(added, before[n], arrivals[n])
    ensures SustainedPolled(before, arrivals, n + 1, after[n := job],
                            finished + if Ended(arrivals[n]) then [n] else [], news + added)
  {
    assert arrivals[..n + 1][..n] == arrivals[..n];
    forall k | 0 <= k < |news + added|
      ensures exists i :: 0 <= i < |before| && SustainedOrigin((news + added)[k].p, before[i], arrivals[i])
    {
      if k < |news| {
        var i :| 0 <= i < |before| && SustainedOrigin(news[k].p, before[i], arrivals[i]);
      } else {
        assert SustainedOrigin(added[k - |news|].p, before[n], arrivals[n]);
      }
    }
  }

  /** A poll of all quick jobs; `before` is what had been published. */
  datatype QuickSweep = QuickSweep(jobs: seq<QuickJob>, arrivals: seq<seq<QuickEvent>>, receipt: Option<Receipt>,
                                   quiet: bool, before: seq<Entry>)
  {
    /** After `n` jobs: so they are now, these finished, and this was published and told. */
    ghost predicate At(n: nat, now: seq<QuickJob>, finished: seq<nat>, told: seq<Update>, news: seq<Entry>,
                       after: seq<Entry>) {
      QuickPolled(jobs, arrivals, n, now, finished, news) && Published(before, after, news, told) &&
      (quiet ==> QuickSoFar(jobs, arrivals, receipt, n, now, told))
    }
  }

  lemma {:induction false} QuickSweepStarts(s: QuickSweep)
    requires |s.jobs| == |s.arrivals|
    ensures s.At(0, s.jobs, [], [], [], s.before)
  {
    PublishedNothing(s.before);
  }

  lemma {:induction false} QuickSweepGoesOn(s: QuickSweep, n: nat, now: seq<QuickJob>, finished: seq<nat>,
                                          told: seq<Update>, news: seq<Entry>, mid: seq<Entry>, job: QuickJob,
                                          more: seq<Update>, added: seq<Entry>, after: seq<Entry>)
    requires s.At(n, now, finished, told, news, mid) && n < |s.jobs|
    requires Advanced(s.jobs[n], s.arrivals[n], job) && QuickFrom(added, s.jobs[n], s.arrivals[n])
    requires Published(mid, after, added, more)
    requires s.quiet ==>
               (job, more) == QuickRun(s.jobs[n], s.arrivals[n], s.receipt.Some? && s.jobs[n].receipt == s.receipt)
    ensures s.At(n + 1, now[n := job], finished + if Done(s.arrivals[n]) then [n] else [], told + more,
                 news + added, after)
  {
    PublishedThen(s.before, mid, after, news, added, told, more);
    OneMorePolled(s.jobs, s.arrivals, n, now, finished, news, job, added);
    if s.quiet { OneMoreQuick(s.jobs, s.arrivals, s.receipt, n, now, told, job, more); }
  }

  /** A poll of all sustained jobs; `before` is what had been published. */
  datatype SustainedSweep = SustainedSweep(jobs: seq<SustainedJob>, arrivals: seq<seq<SustainedEvent>>,
                                           session: Option<nat>, target: string, quiet: bool, before: seq<Entry>)
  {
    /** After `n` jobs: so they are now, these finished, and this was published and told. */
    ghost predicate At(n: nat, now: seq<SustainedJob>, finished: seq<nat>, told: seq<Update>, news: seq<Entry>,
                       after: seq<Entry>) {
      SustainedPolled(jobs, arrivals, n, now, finished, news) && Published(before, after, news, told) &&
      (quiet ==> SustainedSoFar(jobs, arrivals, session, target, n, now, told))
    }
  }

  lemma {:induction false} SustainedSweepStarts(s: SustainedSweep)
    requires |s.jobs| == |s.arrivals|
    ensures s.At(0, s.jobs, [], [], [], s.before)
  {
    PublishedNothing(s.before);
  }

  lemma {:induction false} SustainedSweepGoesOn(s: SustainedSweep, n: nat, now: seq<SustainedJob>, finished: seq<nat>,
                                          told: seq<Update>, news: seq<Entry>, mid: seq<Entry>, job: SustainedJob,
                                          more: seq<Update>, added: seq<Entry>, after: seq<Entry>)
    requires s.At(n, now, finished, told, news, mid) && n < |s.jobs|
    requires Narrowed(s.jobs[n], job) && SustainedFrom(added, s.jobs[n], s.arrivals[n])
    requires Published(mid, after, added, more)
    requires s.quiet ==>
               var open := s.session == Some(s.jobs[n].generation);
               (job, more) ==
               SustainedRun(Checked(s.jobs[n], open), s.arrivals[n], open, s.jobs[n].target == s.target)
    ensures s.At(n + 1, now[n := job], finished + if Ended(s.arrivals[n]) then [n] else [], told + more,
                 news + added, after)
  {
    PublishedThen(s.before, mid, after, news, added, told, more);
    OneMoreTransferred(s.jobs, s.arrivals, n, now, finished, news, job, added);
    if s.quiet { OneMoreSustained(s.jobs, s.arrivals, s.session, s.target, n, now, told, job, more); }
  }

  lemma {:induction false} RearrangedLinked(jobs: seq<QuickJob>, spawns: seq<Spawn>, removed: seq<nat>,
                                            rest: seq<QuickJob>,
                                            origin: seq<nat>)
    requires AllLinked(jobs, spawns) && Rearranged(jobs, removed, rest, origin)
    ensures AllLinked(rest, spawns)
  {
  }

  /** A batch published under the job's own lease is sound, and so is a dropped one. */
  lemma {:induction false} BatchIsSound(job: QuickJob, spawns: seq<Spawn>, db: Database)
    requires Linked(job, spawns) && job.receipt.Some?
    requires db.SessionCurrent(db.generation) && db.generation == job.receipt.value.generation
    ensures Sound(QuickBatch(job, true, job.receipt, db), spawns)
  {
  }

  lemma {:induction false} DroppedIsSound(job: QuickJob, spawns: seq<Spawn>, receipt: Option<Receipt>, db: Database)
    requires Linked(job, spawns) && job.assessments == map[]
    ensures Sound(QuickBatch(job, false, receipt, db), spawns)
  {
  }

  lemma {:induction false} LoadIsSound(session: Option<nat>, quick: Projection, sustained: Projection, db: Database,
                                       spawns: seq<Spawn>)
    requires (quick == map[] && sustained == map[]) || (session.Some? && db.SessionCurrent(session.value))
    ensures Sound(StoreLoaded(session, quick, sustained, db), spawns)
    ensures forall before :: StepQuick(before, StoreLoaded(session, quick, sustained, db)) == quick
    ensures forall before :: StepSustained(before, StoreLoaded(session, quick, sustained, db)) == sustained
  {
  }

  lemma {:induction false} ResultIsSound(job: SustainedJob, node: string, result: string, attributable: bool,
                                         db: Database,
                                         spawns: seq<Spawn>)
    requires job.generation == db.generation && db.SessionCurrent(db.generation)
    ensures Sound(SustainedResult(job, node, result, attributable, job.target, db), spawns)
    ensures Sound(SustainedBatch(job, job.target, db), spawns)
  {
  }

  lemma {:induction false} NothingKeyed(projection: Projection, group: string)
    ensures projection + Keyed(group, map[]) == projection
  {
  }

  lemma {:induction false} LinkedUpdate(jobs: seq<QuickJob>, spawns: seq<Spawn>, index: nat, job: QuickJob)
    requires AllLinked(jobs, spawns) && index < |jobs| && Linked(job, spawns)
    ensures AllLinked(jobs[index := job], spawns)
  {
  }

  ghost predicate AllQuickOrigin(news: seq<Entry>, jobs: seq<QuickJob>, arrivals: seq<seq<QuickEvent>>)
    requires |jobs| == |arrivals|
  {
    forall k :: 0 <= k < |news| ==> exists i :: 0 <= i < |jobs| && QuickOrigin(news[k].p, jobs[i], arrivals[i])
  }

  ghost predicate AllSustainedOrigin(news: seq<Entry>, jobs: seq<SustainedJob>, arrivals: seq<seq<SustainedEvent>>)
    requires |jobs| == |arrivals|
  {
    forall k :: 0 <= k < |news| ==> exists i :: 0 <= i < |jobs| && SustainedOrigin(news[k].p, jobs[i], arrivals[i])
  }

  /** What a poll makes of the quick jobs: each has taken its events and is then `polled`, what was published
      comes from them, and exactly the ones that neither finished nor lost their worker remain. */
  ghost predicate QuickOutcome(jobs: seq<QuickJob>, arrivals: seq<seq<QuickEvent>>, news: seq<Entry>,
                               polled: seq<QuickJob>, rest: seq<QuickJob>, origin: seq<nat>) {
    AllAdvanced(jobs, arrivals, polled, |polled|) && AllQuickOrigin(news, jobs, arrivals) &&
    Rearranged(polled, DoneIndexes(arrivals), rest, origin)
  }

  /** The same for sustained jobs. */
  ghost predicate SustainedOutcome(jobs: seq<SustainedJob>, arrivals: seq<seq<SustainedEvent>>, news: seq<Entry>,
                                   polled: seq<SustainedJob>, rest: seq<SustainedJob>, origin: seq<nat>) {
    |jobs| == |arrivals| && AllNarrowed(jobs, polled, |polled|) && AllSustainedOrigin(news, jobs, arrivals) &&
    Rearranged(polled, EndedIndexes(arrivals), rest, origin)
  }

  /** No node of a group is transferred twice at once. */
  ghost predicate Exclusive(a: SustainedJob, b: SustainedJob) {
    !a.cancelled && !b.cancelled && a.group == b.group ==> a.outstanding !! b.outstanding
  }

  ghost predicate SustainedInvariant(jobs: seq<SustainedJob>, target: string) {
    (forall i :: 0 <= i < |jobs| && !jobs[i].cancelled ==> jobs[i].target == target) &&
    (forall i, j :: 0 <= i < j < |jobs| ==> Exclusive(jobs[i], jobs[j]))
  }

  /** The observation a reload callback reports. */
  datatype Observation = Observation(config: string, controller: string, pid: Option<nat>)

  /** A cleared fence and the configuration and controller it was cleared for. */
  datatype FenceClear = FenceClear(config: string, controller: string, seen: Observation)

  /** How writing or removing a durable marker ends: done, failed without effect, or failed after it took
      effect, when the directory could not be synced. */
  datatype MarkerStep = Made | Failed | Unsynced

  /** What fails of a confirmation: binding stops on the way, the fence cannot be raised, or not cleared. */
  datatype Faults = Faults(bind: Option<nat>, raise: MarkerStep, clear: MarkerStep)
  {
    /** The fence is up before the reload runs. */
    predicate Fencing() { bind.None? && raise != Failed }

    /** It comes down: the reload ran under the fence and was observed to match. */
    predicate Clearing(config: string, controller: string, seen: Option<Observation>) {
      bind.None? && raise == Made && clear != Failed && seen.Some? && Proven(FenceClear(config, controller, seen.value))
    }

    function Cleared(config: string, controller: string, seen: Option<Observation>): seq<FenceClear> {
      if Clearing(config, controller, seen) then [FenceClear(config, controller, seen.value)] else []
    }
  }

  predicate Proven(c: FenceClear) {
    c.seen.config == c.config && c.seen.controller == c.controller && c.seen.pid.Some? && c.seen.pid.value != 0
  }

  /** How often the reload fence went up, and how often another process took it down. */
  datatype Fences = Fences(raised: nat, lowered: nat)

  /** How often the fence came down otherwise. */
  ghost function Balance(up: bool, fences: Fences): int {
    fences.raised - fences.lowered - if up then 1 else 0
  }

  /** The record after the fence went from `before` to `after`, lowered by another process if at all. */
  ghost function Moved(fences: Fences, before: bool, after: bool): (r: Fences)
    ensures Balance(after, r) == Balance(before, fences)
    ensures fences.raised <= r.raised && fences.lowered <= r.lowered
    ensures after || !before ==> r.lowered == fences.lowered
  {
    if before == after then fences
    else if after then fences.(raised := fences.raised + 1)
    else fences.(lowered := fences.lowered + 1)
  }

  /** Moves the last element into the hole, as `Vec::swap_remove` does. */
  function SwapRemove<T>(s: seq<T>, i: nat): (r: seq<T>)
    requires i < |s|
    ensures |r| == |s| - 1
  {
    var n := |s| - 1;
    if i == n then s[..n] else s[..n][i := s[n]]
  }

  ghost predicate Distinct<T>(s: seq<T>) {
    forall i, j :: 0 <= i < j < |s| ==> s[i] != s[j]
  }

  lemma {:induction false} SwapRemoveMembers<T>(s: seq<T>, i: nat, x: T)
    requires i < |s| && Distinct(s)
    ensures Distinct(SwapRemove(s, i))
    ensures x in SwapRemove(s, i) <==> x in s && x != s[i]
  {
    var n, r := |s| - 1, SwapRemove(s, i);
    if x in s && x != s[i] {
      var k :| 0 <= k < |s| && s[k] == x;
      assert r[if k == n then i else k] == x;
    }
  }

  ghost predicate Ascending(indexes: seq<nat>, limit: nat) {
    (forall i, j :: 0 <= i < j < |indexes| ==> indexes[i] < indexes[j]) &&
    (forall i :: 0 <= i < |indexes| ==> indexes[i] < limit)
  }

  /** Element `i` of `r` is element `origin[i]` of `s`, and `origin` lists exactly the positions of
      `s` that are not in `removed`, each once. */
  ghost predicate Rearranged<T>(s: seq<T>, removed: seq<nat>, r: seq<T>, origin: seq<nat>) {
    |origin| == |r| && Distinct(origin) &&
    (forall i :: 0 <= i < |r| ==> origin[i] < |s| && r[i] == s[origin[i]]) &&
    (forall p: nat :: p < |s| ==> (p in origin <==> p !in removed))
  }

  /** The clean-up pass of `poll`: swap-removing the finished indexes from the last to the first
      removes exactly the finished elements, although each removal moves another one. */
  method RemoveFinished<T>(s: seq<T>, finished: seq<nat>) returns (r: seq<T>, ghost origin: seq<nat>)
    requires Ascending(finished, |s|)
    ensures Rearranged(s, finished, r, origin) && |r| == |s| - |finished|
    ensures forall p :: 0 <= p < |s| && p !in finished ==> s[p] in r
    ensures forall i :: 0 <= i < |r| ==> exists p :: 0 <= p < |s| && p !in finished && s[p] == r[i]
  {
    r, origin := s, seq(|s|, i => i);
    assert finished[|finished|..] == [];
    forall p: nat | p < |s| ensures p in origin { assert origin[p] == p; }
    for k := |finished| downto 0
      invariant |r| == |s| - (|finished| - k)
      invariant Rearranged(s, finished[k..], r, origin)
      invariant forall i :: 0 <= i < |origin| && (k > 0 ==> i <= finished[k - 1]) && k > 0 ==> origin[i] == i
      invariant k > 0 ==> finished[k - 1] < |r|
    {
      var i := finished[k];
      assert origin[i] == i;
      forall p: nat | p < |s| ensures p in SwapRemove(origin, i) <==> p !in finished[k..] {
        SwapRemoveMembers(origin, i, p);
      }
      SwapRemoveMembers(origin, i, i);
      r, origin := SwapRemove(r, i), SwapRemove(origin, i);
    }
    assert finished[0..] == finished;
    forall p: nat | p < |s| && p !in finished ensures s[p] in r {
      var i :| 0 <= i < |origin| && origin[i] == p;
      assert r[i] == s[p];
    }
    forall i | 0 <= i < |r| ensures exists p :: 0 <= p < |s| && p !in finished && s[p] == r[i] {
      assert origin[i] in origin;
    }
  }

  class BenchmarkWorkflow {
    const controller: string
    /** Whether other processes rest. Safety holds either way; when they do rest, every change of the
        database is this process's own, and what is published is exactly what the events call for. */
    const quiet: bool
    var db: Database
    var store: Option<nat>
    var runtimeReceipt: Option<Receipt>
    var projection: Projection
    var jobs: seq<QuickJob>
    var nextRoundId: nat
    var sustainedTarget: string
    var sustainedProjection: Projection
    var sustainedJobs: seq<SustainedJob>
    var spawned: nat
    ghost var spawns: seq<Spawn>
    ghost var trace: seq<Entry>
    ghost var fences: Fences
    /** The database as binding left it last, under the lock. */
    ghost var bound: Database
    ghost var fenceClears: seq<FenceClear>

    /** What holds between any two operations, whatever other processes did. */
    ghost predicate Valid()
      reads this
    {
      !db.locked && Consistent()
    }

    /** Everything published is sound, and the projections show exactly what was published. */
    ghost predicate Consistent()
      reads this
    {
      QuickPart() && Ledger() && TransferPart() && FencePart()
    }

    ghost predicate QuickPart()
      reads this`spawned, this`spawns, this`jobs
    {
      spawned == |spawns| && AllLinked(jobs, spawns)
    }

    ghost predicate Ledger()
      reads this`trace, this`spawns, this`projection, this`sustainedProjection
    {
      Honest(trace, spawns, projection, sustainedProjection)
    }

    ghost predicate TransferPart()
      reads this`sustainedJobs, this`sustainedTarget
    {
      SustainedInvariant(sustainedJobs, sustainedTarget)
    }

    /** Each time the fence went up it came down by another process, or by a proven confirmation, or is up still. */
    ghost predicate FencePart()
      reads this`db, this`fences, this`fenceClears
    {
      Balance(db.reloadFence, fences) == |fenceClears| &&
      forall i :: 0 <= i < |fenceClears| ==> Proven(fenceClears[i])
    }

    /** Only other processes lowered the fence meanwhile, each time on record. */
    twostate predicate FenceKept()
      reads this`db, this`fences
    {
      Balance(db.reloadFence, fences) == Balance(old(db.reloadFence), old(fences)) &&
      old(fences).raised <= fences.raised
    }

    /** Nothing but other processes' steps changed the database. */
    twostate predicate OthersOnly()
      reads this`db, this`fences
    {
      (quiet ==> db == old(db) && fences == old(fences)) && FenceKept()
    }

    /** Rises of the fence went on record, and without others' steps nothing but rises. */
    twostate predicate FenceCounted()
      reads this`fences
    {
      old(fences).raised <= fences.raised && (quiet ==> fences.lowered == old(fences).lowered)
    }

    /** A reload fence that was up is down only if another process lowered it, or after a proven confirmation. */
    twostate predicate FenceGuarded()
      reads this
    {
      FenceCounted() &&
      (old(db.reloadFence) && !db.reloadFence ==>
         old(fences).lowered < fences.lowered ||
         (old(fenceClears) < fenceClears && Proven(fenceClears[|fenceClears| - 1])))
    }

    constructor (controller: string, quiet: bool, db: Database, target: string)
      requires !db.locked
      ensures Valid() && trace == [] && fenceClears == [] && jobs == [] && sustainedJobs == []
    {
      this.controller, this.quiet, this.db, store, runtimeReceipt := controller, quiet, db, None, None;
      projection, jobs, nextRoundId, spawned := map[], [], 1, 0;
      sustainedTarget, sustainedProjection, sustainedJobs := target, map[], [];
      spawns, trace, fenceClears := [], [], [];
      fences, bound := Fences(if db.reloadFence then 1 else 0, 0), db;
    }

    /** Other processes run. */
    method Interfere()
      modifies this`db, this`fences
      ensures Interference(old(db), db) && OthersOnly()
      ensures db == old(db) ==> fences == old(fences)
    {
      assert Interference(db, db);
      var next :| Interference(db, next);
      if !quiet {
        fences := Moved(fences, db.reloadFence, next.reloadFence);
        db := next;
      }
    }

    /** `runtime_receipt()`: the stored receipt, if it still proves the present session. */
    function CurrentReceipt(): (r: Option<Receipt>)
      reads this`db, this`store, this`runtimeReceipt
      ensures r.Some? ==>
                r == runtimeReceipt && store == Some(r.value.generation) && db.SessionCurrent(r.value.generation)
      ensures r.Some? <==>
                runtimeReceipt.Some? && store == Some(runtimeReceipt.value.generation) &&
                Unfenced(db, runtimeReceipt.value.generation) && runtimeReceipt.value.controller == controller
    {
      ReceiptIn(db, store, runtimeReceipt, controller)
    }

    /** Whether the receipt is the one that proves the present session. */
    predicate Open(receipt: Option<Receipt>)
      reads this`db, this`store, this`runtimeReceipt
    {
      receipt.Some? && CurrentReceipt() == receipt
    }

    /** Whether the session is current, and at this generation. */
    predicate OpenAt(generation: nat)
      reads this`db, this`store
    {
      SessionIn(db, store) == Some(generation)
    }

    /** `quality_session_current`, with the session it is. */
    function CurrentSession(): Option<nat>
      reads this`db, this`store
    {
      SessionIn(db, store)
    }

    /** Puts a publication on record; the projections must show it already. */
    ghost method Record(p: Publication, quick: Projection, sustained: Projection) returns (entry: Entry)
      requires Honest(trace, spawns, quick, sustained) && Sound(p, spawns)
      requires projection == StepQuick(quick, p) && sustainedProjection == StepSustained(sustained, p)
      modifies this`trace
      ensures Ledger()
      ensures entry.p == p && entry.told == UpdateOf(p) && Published(old(trace), trace, [entry], entry.told)
    {
      entry := Recorded(p, quick, sustained);
      RecordIsHonest(trace, spawns, quick, sustained, p);
      PublishedOne(trace, entry);
      trace := trace + [entry];
    }

    // -------------------------------------------------------------- quick jobs

    /** `spawn`: the job takes the receipt that proves the session now, if there is one. */
    method SpawnJob(group: string, nodes: seq<string>, kind: QuickKind)
      requires Valid()
      modifies this`db, this`fences, this`jobs, this`spawned, this`spawns, this`nextRoundId
      ensures Valid() && |jobs| == |old(jobs)| + 1 && jobs[..|jobs| - 1] == old(jobs) && FenceGuarded()
      ensures spawns == old(spawns) + [Spawn(CurrentReceipt(), db.generation)]
      ensures jobs[|jobs| - 1] ==
                QuickJob(|old(spawns)|, group, nodes, kind, if kind == AutoSelect then Some(old(nextRoundId)) else None,
                         map[], CurrentReceipt(), CurrentReceipt().Some?)
      ensures kind == AutoSelect && old(nextRoundId) + 1 < U64_LIMIT ==> nextRoundId == old(nextRoundId) + 1
    {
      Interfere();
      var receipt := CurrentReceipt();
      var roundId := NextRoundId(kind);
      AddJob(QuickJob(spawned, group, nodes, kind, roundId, map[], receipt, receipt.Some?));
    }

    method AddJob(job: QuickJob)
      requires QuickPart() && Ledger() && job.id == spawned && job.assessments == map[]
      requires job.receipt.Some? ==> job.receipt.value.generation == db.generation
      modifies this`jobs, this`spawned, this`spawns
      ensures QuickPart() && Ledger()
      ensures jobs == old(jobs) + [job] && spawns == old(spawns) + [Spawn(job.receipt, db.generation)]
    {
      MoreSpawns(trace, spawns, projection, sustainedProjection, Spawn(job.receipt, db.generation));
      jobs := jobs + [job];
      spawned, spawns := spawned + 1, spawns + [Spawn(job.receipt, db.generation)];
    }

    /** Automatic rounds are numbered, the counter saturating. */
    method NextRoundId(kind: QuickKind) returns (roundId: Option<nat>)
      modifies this`nextRoundId
      ensures roundId == if kind == AutoSelect then Some(old(nextRoundId)) else None
      ensures kind == AutoSelect && old(nextRoundId) + 1 < U64_LIMIT ==> nextRoundId == old(nextRoundId) + 1
    {
      roundId := None;
      if kind == AutoSelect {
        roundId := Some(nextRoundId);
        nextRoundId := if nextRoundId + 1 < U64_LIMIT then nextRoundId + 1 else nextRoundId;
      }
    }

    /** `record_reachability_assessment`: the row is written only under the job's own receipt. */
    method RecordAssessment(expected: Option<Receipt>, writable: bool) returns (persisted: bool)
      modifies this`db, this`fences
      ensures Interference(old(db), db) && OthersOnly()
      ensures persisted ==> expected.Some? && runtimeReceipt == expected && db.SessionCurrent(expected.value.generation)
      ensures persisted ==> writable
      ensures quiet ==> (persisted <==> writable && Open(expected))
    {
      if expected.None? { return false; }
      Interfere();
      if CurrentReceipt() != expected || store.None? { return false; }
      Interfere();
      persisted := db.SessionCurrent(store.value) && writable;
    }

    /** `quick_projection_lease`: when granted, the lock is held and the database generation, the
        session and the runtime receipt are those of the job. */
    method QuickProjectionLease(job: QuickJob) returns (granted: bool)
      requires !db.locked
      modifies this`db, this`fences
      ensures db.locked == granted && (quiet ==> db == old(db).(locked := granted) && fences == old(fences))
      ensures FenceKept()
      ensures granted ==>
                job.current && job.receipt.Some? && runtimeReceipt == job.receipt &&
                db.SessionCurrent(db.generation) && db.generation == job.receipt.value.generation
      ensures quiet ==> (granted <==> job.current && Open(job.receipt))
    {
      if !job.current || job.receipt.None? { return false; }
      Interfere();
      if CurrentReceipt() != job.receipt || store.None? { return false; }
      Interfere();
      if !db.SessionCurrent(store.value) { return false; }
      db := db.(locked := true);
      if store.value != job.receipt.value.generation || runtimeReceipt != job.receipt {
        db := db.(locked := false);
        return false;
      }
      granted := true;
    }

    /** A completed job: its batch is published under the lease, or dropped. */
    method FinishJob(index: nat) returns (updates: seq<Update>, ghost entry: Entry)
      requires !db.locked && QuickPart() && Ledger() && index < |jobs|
      modifies this`db, this`fences, this`jobs, this`projection, this`trace
      ensures !db.locked && QuickPart() && Ledger() && OthersOnly() &&
              Published(old(trace), trace, [entry], updates)
      ensures entry.p.QuickBatch? && jobs == old(jobs)[index := entry.p.quickJob]
      ensures entry.p.quickJob ==
                if entry.p.current then old(jobs[index]) else Dropped(old(jobs[index]))
      ensures quiet ==> (entry.p.current <==> old(jobs[index]).current && Open(old(jobs[index]).receipt))
      ensures updates == Announcement(jobs[index], entry.p.current)
      ensures Announces(updates, jobs[index], jobs[index].assessments, entry.p.current)
    {
      var current := QuickProjectionLease(jobs[index]);
      if current {
        updates, entry := PublishBatch(index);
      } else {
        updates, entry := DropBatch(index);
      }
    }

    /** Under the lease: the batch goes into the projection and is announced as current. */
    method PublishBatch(index: nat) returns (updates: seq<Update>, ghost entry: Entry)
      requires QuickPart() && Ledger() && db.locked && index < |jobs| && runtimeReceipt == jobs[index].receipt &&
               runtimeReceipt.Some?
      requires db.SessionCurrent(db.generation) && db.generation == runtimeReceipt.value.generation
      modifies this`db, this`fences, this`projection, this`trace
      ensures QuickPart() && Ledger() && db == old(db).(locked := false) && fences == old(fences) &&
              Published(old(trace), trace, [entry], updates)
      ensures entry.p == QuickBatch(jobs[index], true, runtimeReceipt, db) && updates == Announcement(jobs[index], true)
    {
      var job := jobs[index];
      assert Linked(job, spawns);
      projection := projection + Keyed(job.group, job.assessments);
      Interfere();
      updates := Announcement(job, true);
      db := db.(locked := false);
      BatchIsSound(job, spawns, db);
      entry := Record(QuickBatch(job, true, runtimeReceipt, db), old(projection), sustainedProjection);
    }

    /** Without it: the batch is dropped and announced as not current. */
    method DropBatch(index: nat) returns (updates: seq<Update>, ghost entry: Entry)
      requires QuickPart() && Ledger() && index < |jobs|
      modifies this`jobs, this`trace
      ensures QuickPart() && Ledger() && Published(old(trace), trace, [entry], updates)
      ensures jobs == old(jobs)[index := Dropped(old(jobs[index]))]
      ensures entry.p == QuickBatch(jobs[index], false, runtimeReceipt, db)
      ensures updates == Announcement(jobs[index], false)
    {
      assert Linked(jobs[index], spawns);
      var job := Dropped(jobs[index]);
      LinkedUpdate(jobs, spawns, index, job);
      jobs := jobs[index := job];
      updates := Announcement(job, false);
      DroppedIsSound(job, spawns, runtimeReceipt, db);
      NothingKeyed(projection, job.group);
      entry := Record(QuickBatch(job, false, runtimeReceipt, db), projection, sustainedProjection);
    }

    /** The event loop of `poll` for one quick job; `events` is what its channel yields. */
    method PollJob(index: nat, events: seq<QuickEvent>, ghost open: bool)
      returns (finished: bool, updates: seq<Update>, ghost news: seq<Entry>)
      requires !db.locked && QuickPart() && Ledger() && index < |jobs|
      requires quiet ==> open == Open(jobs[index].receipt)
      modifies this`db, this`fences, this`jobs, this`projection, this`trace
      ensures !db.locked && QuickPart() && Ledger() && OthersOnly() && OnlyHeard(index) &&
              Published(old(trace), trace, news, updates)
      ensures AllToldRightly(news, updates, spawns)
      ensures quiet ==> CurrentReceipt() == old(CurrentReceipt())
      ensures Hearing(old(jobs[index]), events, open, quiet).Over(finished, jobs[index], updates, news)
    {
      updates, news := [], [];
      ghost var h := Hearing(jobs[index], events, open, quiet);
      HearingStarts(h);
      for k := 0 to |events|
        invariant !db.locked && QuickPart() && Ledger() && OthersOnly() && OnlyHeard(index) && trace == old(trace) &&
                  projection == old(projection)
        invariant h.At(k, jobs[index])
        invariant quiet ==> open == Open(h.first.receipt)
        invariant updates == [] && news == []
      {
        if !events[k].IsProgress() {
          updates, news := EndJob(index, events[k], h, k);
          AppendedTellRightly(old(trace), trace, news, updates, spawns, projection, sustainedProjection);
          finished := true;
          return;
        }
        TakeEvent(index, events[k], h, k);
      }
      HearingEnds(h, jobs[index]);
      PublishedNothing(trace);
      finished := false;
    }

    /** No quick job but this one changed. */
    twostate predicate OnlyHeard(index: nat)
      requires index < |old(jobs)|
      reads this`jobs
    {
      |jobs| == |old(jobs)| && jobs == old(jobs)[index := jobs[index]]
    }

    /** The last event of a quick job. */
    method EndJob(index: nat, event: QuickEvent, ghost h: Hearing, ghost k: nat)
      returns (updates: seq<Update>, ghost news: seq<Entry>)
      requires !db.locked && QuickPart() && Ledger() && index < |jobs| && k < |h.events| && event == h.events[k]
      requires !event.IsProgress() && h.At(k, jobs[index])
      requires h.quiet == quiet && (quiet ==> h.open == Open(h.first.receipt))
      modifies this`db, this`fences, this`jobs, this`projection, this`trace
      ensures !db.locked && QuickPart() && Ledger() && OthersOnly() && OnlyHeard(index)
      ensures Published(old(trace), trace, news, updates) && h.Over(true, jobs[index], updates, news)
    {
      ghost var entry;
      if event.Finished? {
        updates, entry := FinishJob(index);
      } else {
        updates, entry := LoseJob(index);
      }
      HearingCloses(h, k, old(jobs[index]), jobs[index], updates, entry);
      news := [entry];
    }

    method LoseJob(index: nat) returns (updates: seq<Update>, ghost entry: Entry)
      requires Ledger() && index < |jobs|
      modifies this`trace
      ensures Ledger() && Published(old(trace), trace, [entry], updates) && entry.p == Loss(jobs[index].group)
      ensures updates == [WorkerLost(jobs[index].group)]
    {
      updates := [WorkerLost(jobs[index].group)];
      entry := Record(Loss(jobs[index].group), projection, sustainedProjection);
    }

    /** One progress event: kept while the job is current and the database takes it, else everything is
        dropped. */
    method TakeEvent(index: nat, event: QuickEvent, ghost h: Hearing, ghost k: nat)
      requires !db.locked && QuickPart() && Ledger() && index < |jobs| && k < |h.events| && event == h.events[k]
      requires event.IsProgress() && h.At(k, jobs[index])
      requires h.quiet == quiet && (quiet ==> h.open == Open(h.first.receipt))
      modifies this`db, this`fences, this`jobs
      ensures !db.locked && QuickPart() && Ledger() && OthersOnly() && OnlyHeard(index)
      ensures h.At(k + 1, jobs[index])
    {
      var job := jobs[index];
      assert Linked(job, spawns);
      var persisted := job.current;
      if persisted && event.ReachabilityProgress? {
        persisted := RecordAssessment(job.receipt, event.writable);
      }
      var next;
      if persisted {
        next := job.(assessments := job.assessments[event.node := event.assessment]);
      } else {
        next := job.(current := event.AttemptProgress? && job.current, assessments := map[]);
      }
      HearingGoesOn(h, k, job, next);
      LinkedUpdate(jobs, spawns, index, next);
      jobs := jobs[index := next];
    }

    // -------------------------------------------------------------- sustained jobs

    /** `activate_sustained_target`: a new target cancels every transfer of the old one. */
    method ActivateTarget(target: string, persisted: Projection)
      requires Valid()
      modifies this`sustainedJobs, this`sustainedTarget, this`sustainedProjection, this`trace
      ensures Valid() && sustainedTarget == target && |sustainedJobs| == |old(sustainedJobs)|
      ensures target == old(sustainedTarget) ==> sustainedJobs == old(sustainedJobs) && trace == old(trace)
      ensures target != old(sustainedTarget) ==>
                |trace| == |old(trace)| + 1 && old(trace) <= trace &&
                trace[|old(trace)|].p == TargetLoaded(target, persisted) && sustainedProjection == persisted &&
                forall i :: 0 <= i < |sustainedJobs| ==> sustainedJobs[i] == old(sustainedJobs[i]).(cancelled := true)
    {
      if target == sustainedTarget { return; }
      sustainedJobs := CancelAll(sustainedJobs);
      sustainedTarget, sustainedProjection := target, persisted;
      ghost var _ := Record(TargetLoaded(target, persisted), projection, old(sustainedProjection));
    }

    /** `start_sustained`: under a lease on the confirmed runtime's generation, start what is not
        already in flight. */
    method StartSustained(selector: string, nodes: seq<string>, kind: SustainedKind, target: string,
                          config: string, bound: set<string>, persisted: Projection)
      returns (start: Start)
      requires Valid()
      modifies this`db, this`fences, this`sustainedJobs, this`sustainedTarget, this`sustainedProjection, this`trace
      ensures Valid() && OthersOnly() && sustainedTarget == target && FenceGuarded()
      ensures target == old(sustainedTarget) ==> trace == old(trace)
      ensures target != old(sustainedTarget) ==>
                |trace| == |old(trace)| + 1 && old(trace) <= trace &&
                trace[|old(trace)|].p == TargetLoaded(target, persisted)
      ensures var kept := if target == old(sustainedTarget) then old(sustainedJobs) else CancelAll(old(sustainedJobs));
              Launched(start, kept, sustainedJobs, selector, Wanted(nodes, bound), kind, target)
      ensures start != Refused ==> runtimeReceipt.Some? && runtimeReceipt.value.config == config
      ensures start == Started ==> sustainedJobs[|sustainedJobs| - 1].generation == runtimeReceipt.value.generation
      ensures quiet ==> (start == Refused <==> !(Open(runtimeReceipt) && runtimeReceipt.value.config == config))
    {
      ActivateTarget(target, persisted);
      start := Launch(selector, nodes, kind, config, bound);
    }

    /** The part of it after the target is active. */
    method Launch(selector: string, nodes: seq<string>, kind: SustainedKind, config: string, bound: set<string>)
      returns (start: Start)
      requires !db.locked && TransferPart()
      modifies this`db, this`fences, this`sustainedJobs
      ensures !db.locked && TransferPart() && OthersOnly()
      ensures Launched(start, old(sustainedJobs), sustainedJobs, selector, Wanted(nodes, bound), kind,
                       sustainedTarget)
      ensures start != Refused ==> runtimeReceipt.Some? && runtimeReceipt.value.config == config
      ensures start == Started ==> sustainedJobs[|sustainedJobs| - 1].generation == runtimeReceipt.value.generation
      ensures quiet ==> (start == Refused <==> !(Open(runtimeReceipt) && runtimeReceipt.value.config == config))
    {
      if store.None? { return Refused; }
      Interfere();
      var receipt := CurrentReceipt();
      if receipt.None? || receipt.value.config != config { return Refused; }
      Interfere();
      if !db.SessionCurrent(store.value) || store.value != receipt.value.generation { return Refused; }
      var wanted := Wanted(nodes, bound);
      if wanted == {} { return NoCandidates; }
      var flying := InFlight(sustainedJobs, selector, sustainedTarget);
      if kind == OneNode {
        if !(wanted !! flying) { return AlreadyRunning; }
      } else {
        NothingLeft(wanted, flying);
        wanted := wanted - flying;
        if wanted == {} { return AlreadyRunning; }
      }
      assert wanted !! flying by { assert forall n :: n in wanted ==> n !in flying; }
      assert Wanted(nodes, bound) - flying == wanted;
      var job := SustainedJob(selector, wanted, sustainedTarget, store.value, kind, false, false);
      StartKeepsInvariant(sustainedJobs, sustainedTarget, job);
      sustainedJobs := sustainedJobs + [job];
      start := Started;
    }

    /** Only job `index` changed, and only by narrowing; and the database only by other processes. */
    twostate predicate OnlyNarrowed(index: nat)
      requires index < |old(sustainedJobs)|
      reads this
    {
      |sustainedJobs| == |old(sustainedJobs)| && OthersOnly() &&
      Narrowed(old(sustainedJobs[index]), sustainedJobs[index]) &&
      sustainedJobs == old(sustainedJobs)[index := sustainedJobs[index]]
    }

    /** The event loop of `poll` for one sustained job. */
    method PollSustainedJob(index: nat, events: seq<SustainedEvent>)
      returns (finished: bool, updates: seq<Update>, ghost news: seq<Entry>)
      requires !db.locked && TransferPart() && Ledger() && index < |sustainedJobs|
      modifies this`db, this`fences, this`sustainedJobs, this`sustainedProjection, this`trace
      ensures !db.locked && TransferPart() && Ledger() && OnlyNarrowed(index) &&
              Published(old(trace), trace, news, updates)
      ensures quiet ==> CurrentSession() == old(CurrentSession())
      ensures finished <==> Ended(events)
      ensures SustainedFrom(news, old(sustainedJobs[index]), events)
      ensures quiet ==>
                var job := old(sustainedJobs[index]);
                var open := OpenAt(job.generation);
                (sustainedJobs[index], updates) ==
                SustainedRun(Checked(job, open), events, open, job.target == sustainedTarget)
    {
      Interfere();
      var sessionCurrent := store.Some? && db.SessionCurrent(store.value) &&
          store.value == sustainedJobs[index].generation;
      if !sessionCurrent { GiveUp(index); }
      ghost var jobs0 := sustainedJobs;
      ghost var r := Reading(old(sustainedJobs[index]), sustainedJobs[index], events, sessionCurrent,
                             sustainedJobs[index].target == sustainedTarget, quiet, trace);
      finished, updates, news := ReadTransfers(index, sessionCurrent, events, r);
      NarrowedTwice(old(sustainedJobs), index, jobs0[index], sustainedJobs[index]);
    }

    /** The part of it after the check of the session. */
    method ReadTransfers(index: nat, sessionCurrent: bool, events: seq<SustainedEvent>, ghost r: Reading)
      returns (finished: bool, updates: seq<Update>, ghost news: seq<Entry>)
      requires !db.locked && TransferPart() && Ledger() && index < |sustainedJobs| &&
               Narrowed(r.first, sustainedJobs[index])
      requires quiet ==> sessionCurrent == OpenAt(r.first.generation)
      requires r == Reading(r.first, sustainedJobs[index], events, sessionCurrent, r.first.target == sustainedTarget,
                            quiet, trace)
      modifies this`db, this`fences, this`sustainedJobs, this`sustainedProjection, this`trace
      ensures !db.locked && TransferPart() && Ledger() && OnlyNarrowed(index)
      ensures r.Over(finished, sustainedJobs[index], updates, news, trace)
    {
      updates, news := [], [];
      ReadingStarts(r);
      for k := 0 to |events|
        invariant !db.locked && TransferPart() && Ledger() && OnlyNarrowed(index)
        invariant quiet ==> sessionCurrent == OpenAt(r.first.generation)
        invariant r.At(k, sustainedJobs[index], updates, news, trace)
      {
        ghost var before, job := trace, sustainedJobs[index];
        var more, added := TakeSustained(index, sessionCurrent, events[k], r.first);
        ReadingGoesOn(r, k, job, updates, news, before, sustainedJobs[index], more, added, trace);
        updates, news := updates + more, news + added;
        if !events[k].Progress? {
          finished := true;
          return;
        }
      }
      ReadingEnds(r, sustainedJobs[index], updates, news, trace);
      finished := false;
    }

    /** One event of a sustained job. */
    method TakeSustained(index: nat, sessionCurrent: bool, event: SustainedEvent, ghost first: SustainedJob)
      returns (updates: seq<Update>, ghost news: seq<Entry>)
      requires !db.locked && TransferPart() && Ledger() && index < |sustainedJobs| &&
               Narrowed(first, sustainedJobs[index])
      modifies this`db, this`fences, this`sustainedJobs, this`sustainedProjection, this`trace
      ensures !db.locked && TransferPart() && Ledger() && OnlyNarrowed(index) &&
              Published(old(trace), trace, news, updates)
      ensures SustainedFrom(news, first, [event])
      ensures quiet && sessionCurrent == OpenAt(first.generation) ==>
                sustainedJobs[index] == Transferring(old(sustainedJobs[index]), event, sessionCurrent) &&
                updates ==
                TransferTold(old(sustainedJobs[index]), event, sessionCurrent, first.target == sustainedTarget)
    {
      match event
      case Progress(node, result, attributable, writable) =>
        updates, news := TakeResult(index, sessionCurrent, node, result, attributable, writable);
      case SustainedFinished =>
        updates, news := CompleteSustained(index);
      case SustainedDisconnected =>
        updates, news := LoseSustained(index);
    }

    /** One progress event: the node is no longer outstanding, and its result is recorded and, if the
        database took it, published. */
    method TakeResult(index: nat, sessionCurrent: bool, node: string, result: string, attributable: bool,
                      writable: bool)
      returns (updates: seq<Update>, ghost news: seq<Entry>)
      requires !db.locked && TransferPart() && Ledger() && index < |sustainedJobs|
      modifies this`db, this`fences, this`sustainedJobs, this`sustainedProjection, this`trace
      ensures !db.locked && TransferPart() && Ledger() && OnlyNarrowed(index) &&
              Published(old(trace), trace, news, updates)
      ensures var taken := old(sustainedJobs[index]).(outstanding := old(sustainedJobs[index]).outstanding - {node});
              OnlyResult(news, taken, node, result, attributable) && (news != [] ==> writable)
      ensures quiet && sessionCurrent == OpenAt(old(sustainedJobs[index]).generation) ==>
                var job, event := old(sustainedJobs[index]), Progress(node, result, attributable, writable);
                sustainedJobs[index] == Transferring(job, event, sessionCurrent) &&
                updates == TransferTold(job, event, sessionCurrent, job.target == sustainedTarget)
    {
      ReplaceJob(index, sustainedJobs[index].(outstanding := sustainedJobs[index].outstanding - {node}));
      ghost var jobs0 := sustainedJobs;
      Interfere();
      var persisted := sessionCurrent && store.Some? && db.SessionCurrent(store.value) && writable;
      updates, news := SettleResult(index, persisted, node, result, attributable);
      NarrowedTwice(old(sustainedJobs), index, jobs0[index], sustainedJobs[index]);
    }

    /** A result that the database took is published, else the transfer is given up. */
    method SettleResult(index: nat, persisted: bool, node: string, result: string, attributable: bool)
      returns (updates: seq<Update>, ghost news: seq<Entry>)
      requires !db.locked && TransferPart() && Ledger() && index < |sustainedJobs|
      modifies this`db, this`fences, this`sustainedJobs, this`sustainedProjection, this`trace
      ensures !db.locked && TransferPart() && Ledger() && OnlyNarrowed(index) &&
              Published(old(trace), trace, news, updates)
      ensures OnlyResult(news, old(sustainedJobs[index]), node, result, attributable) && (news != [] ==> persisted)
      ensures !persisted ==> sustainedJobs[index] == GivenUp(old(sustainedJobs[index])) && updates == []
      ensures quiet && persisted && OpenAt(old(sustainedJobs[index]).generation) ==>
                var job := old(sustainedJobs[index]);
                sustainedJobs[index] == job &&
                updates == if job.target == sustainedTarget then [Transferred(job.group, node, result)] else []
    {
      updates, news := [], [];
      PublishedNothing(trace);
      if persisted {
        updates, news := PublishSustained(index, node, result, attributable);
      } else {
        GiveUp(index);
      }
    }

    method ReplaceJob(index: nat, job: SustainedJob)
      requires TransferPart() && index < |sustainedJobs| && Narrowed(sustainedJobs[index], job)
      modifies this`sustainedJobs
      ensures TransferPart() && sustainedJobs == old(sustainedJobs)[index := job]
    {
      NarrowingKeepsInvariant(sustainedJobs, sustainedTarget, index, job);
      sustainedJobs := sustainedJobs[index := job];
    }

    method GiveUp(index: nat)
      requires TransferPart() && index < |sustainedJobs|
      modifies this`sustainedJobs
      ensures TransferPart()
      ensures sustainedJobs == old(sustainedJobs)[index := GivenUp(old(sustainedJobs[index]))]
    {
      ReplaceJob(index, GivenUp(sustainedJobs[index]));
    }

    /** The re-acquired lease of a persisted result: projections and progress only under it. */
    method PublishSustained(index: nat, node: string, result: string, attributable: bool)
      returns (updates: seq<Update>, ghost news: seq<Entry>)
      requires !db.locked && TransferPart() && Ledger() && index < |sustainedJobs|
      modifies this`db, this`fences, this`sustainedJobs, this`sustainedProjection, this`trace
      ensures !db.locked && TransferPart() && Ledger() && OnlyNarrowed(index) &&
              Published(old(trace), trace, news, updates)
      ensures OnlyResult(news, old(sustainedJobs[index]), node, result, attributable)
      ensures quiet && OpenAt(old(sustainedJobs[index]).generation) ==>
                var job := old(sustainedJobs[index]);
                sustainedJobs == old(sustainedJobs) &&
                updates == if job.target == sustainedTarget then [Transferred(job.group, node, result)] else []
    {
      var job := sustainedJobs[index];
      updates, news := [], [];
      PublishedNothing(trace);
      Interfere();
      if store.None? || !db.SessionCurrent(store.value) || store.value != job.generation {
        GiveUp(index);
        return;
      }
      updates, news := ShowUnderLease(job, node, result, attributable);
    }

    /** Under the lease, a result for the active target is shown. */
    method ShowUnderLease(job: SustainedJob, node: string, result: string, attributable: bool)
      returns (updates: seq<Update>, ghost news: seq<Entry>)
      requires Ledger() && !db.locked && db.SessionCurrent(db.generation) && job.generation == db.generation
      modifies this`db, this`fences, this`sustainedProjection, this`trace
      ensures Ledger() && db == old(db) && fences == old(fences) && Published(old(trace), trace, news, updates)
      ensures OnlyResult(news, job, node, result, attributable)
      ensures updates == if job.target == sustainedTarget then [Transferred(job.group, node, result)] else []
    {
      updates, news := [], [];
      PublishedNothing(trace);
      db := db.(locked := true);
      if job.target == sustainedTarget { updates, news := ShowResult(job, node, result, attributable); }
      db := db.(locked := false);
    }

    /** Under the lease: an attributable result goes into the projection, and every result is reported. */
    method ShowResult(job: SustainedJob, node: string, result: string, attributable: bool)
      returns (updates: seq<Update>, ghost news: seq<Entry>)
      requires Ledger() && db.locked && job.target == sustainedTarget
      requires db.SessionCurrent(db.generation) && job.generation == db.generation
      modifies this`db, this`fences, this`sustainedProjection, this`trace
      ensures Ledger() && db == old(db) && fences == old(fences) && Published(old(trace), trace, news, updates)
      ensures |news| == 1 && news[0].p == SustainedResult(job, node, result, attributable, sustainedTarget, db)
      ensures updates == [Transferred(job.group, node, result)]
    {
      Interfere();
      if attributable { sustainedProjection := sustainedProjection[(job.group, node) := result]; }
      updates := [Transferred(job.group, node, result)];
      ResultIsSound(job, node, result, attributable, db, spawns);
      ghost var entry :=
        Record(SustainedResult(job, node, result, attributable, sustainedTarget, db), projection,
               old(sustainedProjection));
      news := [entry];
    }

    /** A finished transfer is announced only for the active target, in its own generation. */
    method CompleteSustained(index: nat) returns (updates: seq<Update>, ghost news: seq<Entry>)
      requires !db.locked && Ledger() && index < |sustainedJobs|
      modifies this`db, this`fences, this`trace
      ensures !db.locked && Ledger() && OthersOnly() && Published(old(trace), trace, news, updates)
      ensures forall k :: 0 <= k < |news| ==> news[k].p.SustainedBatch? && news[k].p.job == sustainedJobs[index]
      ensures quiet ==>
                var job := sustainedJobs[index];
                updates ==
                TransferTold(job, SustainedFinished, OpenAt(job.generation), job.target == sustainedTarget)
    {
      var job := sustainedJobs[index];
      updates, news := [], [];
      PublishedNothing(trace);
      Interfere();
      if store.Some? && db.SessionCurrent(store.value) && !job.persistenceFailed &&
         job.target == sustainedTarget && store.value == job.generation {
        updates := [Announced(SustainedDone(job.group, job.kind))];
        ResultIsSound(job, "", "", false, db, spawns);
        ghost var entry := Record(SustainedBatch(job, sustainedTarget, db), projection, sustainedProjection);
        news := [entry];
      }
    }

    /** A lost worker is reported unless the job was given up or its target is no longer active. */
    method LoseSustained(index: nat) returns (updates: seq<Update>, ghost news: seq<Entry>)
      requires Ledger() && index < |sustainedJobs|
      modifies this`trace
      ensures Ledger() && Published(old(trace), trace, news, updates)
      ensures forall k :: 0 <= k < |news| ==> news[k].p == Loss(sustainedJobs[index].group)
      ensures var job := sustainedJobs[index];
              updates == TransferTold(job, SustainedDisconnected, false, job.target == sustainedTarget)
    {
      var job := sustainedJobs[index];
      updates, news := [], [];
      PublishedNothing(trace);
      if !job.persistenceFailed && job.target == sustainedTarget {
        ghost var entry := Record(Loss(job.group), projection, sustainedProjection);
        updates, news := [WorkerLost(job.group)], [entry];
      }
    }

    // -------------------------------------------------------------- poll

    /** `poll`: `arrivals` and `sustainedArrivals` are what the job channels yield. The updates tell, in
        order, of everything published meanwhile, each announcement is, field by field, that of a publication
        made in order, and everything published comes from a job and its events. `polled` and
        `polledSustained` are the jobs after their events and before the clean-up. */
    method Poll(arrivals: seq<seq<QuickEvent>>, sustainedArrivals: seq<seq<SustainedEvent>>)
      returns (updates: seq<Update>, ghost quickNews: seq<Entry>, ghost sustainedNews: seq<Entry>,
               ghost polled: seq<QuickJob>, ghost origin: seq<nat>,
               ghost polledSustained: seq<SustainedJob>, ghost sustainedOrigin: seq<nat>)
      requires Valid() && |arrivals| == |jobs| && |sustainedArrivals| == |sustainedJobs|
      modifies this`db, this`fences, this`jobs, this`projection, this`trace, this`sustainedJobs,
               this`sustainedProjection
      ensures Valid() && OthersOnly() && FenceGuarded()
      ensures Published(old(trace), trace, quickNews + sustainedNews, updates)
      ensures AllToldRightly(quickNews + sustainedNews, updates, spawns)
      ensures QuickOutcome(old(jobs), arrivals, quickNews, polled, jobs, origin)
      ensures SustainedOutcome(old(sustainedJobs), sustainedArrivals, sustainedNews, polledSustained, sustainedJobs,
                               sustainedOrigin)
      ensures quiet ==> AsCalledFor(arrivals, sustainedArrivals, polled, polledSustained, updates)
    {
      updates, quickNews, sustainedNews, polled, origin, polledSustained, sustainedOrigin :=
        PollJobs(arrivals, sustainedArrivals);
      AppendedTellRightly(old(trace), trace, quickNews + sustainedNews, updates, spawns, projection,
                          sustainedProjection);
    }

    /** With other processes at rest, jobs and updates are exactly what the events call for. */
    twostate predicate AsCalledFor(arrivals: seq<seq<QuickEvent>>, sustainedArrivals: seq<seq<SustainedEvent>>,
                                   polled: seq<QuickJob>, polledSustained: seq<SustainedJob>, updates: seq<Update>)
      requires |arrivals| == |old(jobs)| && |sustainedArrivals| == |old(sustainedJobs)|
      reads this
    {
      var quick := QuickRuns(old(jobs), arrivals, old(CurrentReceipt()));
      var sustained := SustainedRuns(old(sustainedJobs), sustainedArrivals, old(CurrentSession()), sustainedTarget);
      polled == quick.0 && polledSustained == sustained.0 && updates == quick.1 + sustained.1
    }

    /** The two halves of it: first the quick jobs, then the sustained ones. */
    method PollJobs(arrivals: seq<seq<QuickEvent>>, sustainedArrivals: seq<seq<SustainedEvent>>)
      returns (updates: seq<Update>, ghost quickNews: seq<Entry>, ghost sustainedNews: seq<Entry>,
               ghost polled: seq<QuickJob>, ghost origin: seq<nat>,
               ghost polledSustained: seq<SustainedJob>, ghost sustainedOrigin: seq<nat>)
      requires !db.locked && QuickPart() && Ledger() && TransferPart()
      requires |arrivals| == |jobs| && |sustainedArrivals| == |sustainedJobs|
      modifies this`db, this`fences, this`jobs, this`projection, this`trace, this`sustainedJobs,
               this`sustainedProjection
      ensures !db.locked && QuickPart() && Ledger() && TransferPart() && OthersOnly()
      ensures Published(old(trace), trace, quickNews + sustainedNews, updates)
      ensures QuickOutcome(old(jobs), arrivals, quickNews, polled, jobs, origin)
      ensures SustainedOutcome(old(sustainedJobs), sustainedArrivals, sustainedNews, polledSustained, sustainedJobs,
                               sustainedOrigin)
      ensures quiet ==> AsCalledFor(arrivals, sustainedArrivals, polled, polledSustained, updates)
    {
      ghost var session := CurrentSession();
      updates, quickNews, polled, origin := PollQuick(arrivals);
      ghost var between, kept, told := trace, jobs, updates;
      assert quiet ==> QuickRuns(old(jobs), arrivals, old(CurrentReceipt())) == (polled, told);
      assert sustainedJobs == old(sustainedJobs);
      var more;
      more, sustainedNews, polledSustained, sustainedOrigin := PollSustained(sustainedArrivals);
      assert jobs == kept && QuickPart();
      assert quiet ==>
          SustainedRuns(old(sustainedJobs), sustainedArrivals, session, sustainedTarget) == (polledSustained, more);
      PublishedThen(old(trace), between, trace, quickNews, sustainedNews, updates, more);
      updates := updates + more;
    }

    /** The first half of `poll`: the events of the quick jobs, and their clean-up. */
    method PollQuick(arrivals: seq<seq<QuickEvent>>)
      returns (updates: seq<Update>, ghost news: seq<Entry>, ghost polled: seq<QuickJob>, ghost origin: seq<nat>)
      requires !db.locked && QuickPart() && Ledger() && |arrivals| == |jobs|
      modifies this`db, this`fences, this`jobs, this`projection, this`trace
      ensures !db.locked && QuickPart() && Ledger() && OthersOnly()
      ensures Published(old(trace), trace, news, updates)
      ensures QuickOutcome(old(jobs), arrivals, news, polled, jobs, origin)
      ensures quiet ==> QuickRuns(old(jobs), arrivals, old(CurrentReceipt())) == (polled, updates)
      ensures quiet ==> CurrentSession() == old(CurrentSession())
    {
      var finished;
      updates, finished, news := QuickEvents(arrivals, CurrentReceipt());
      polled := jobs;
      origin := DropFinished(finished);
    }

    method DropFinished(finished: seq<nat>) returns (ghost origin: seq<nat>)
      requires QuickPart() && Ascending(finished, |jobs|)
      modifies this`jobs
      ensures QuickPart() && Rearranged(old(jobs), finished, jobs, origin)
    {
      var rest;
      rest, origin := RemoveFinished(jobs, finished);
      RearrangedLinked(jobs, spawns, finished, rest, origin);
      jobs := rest;
    }

    method QuickEvents(arrivals: seq<seq<QuickEvent>>, ghost receipt: Option<Receipt>)
      returns (updates: seq<Update>, finished: seq<nat>, ghost news: seq<Entry>)
      requires !db.locked && QuickPart() && Ledger() && |arrivals| == |jobs|
      requires quiet ==> receipt == CurrentReceipt()
      modifies this`db, this`fences, this`jobs, this`projection, this`trace
      ensures !db.locked && QuickPart() && Ledger() && OthersOnly()
      ensures Published(old(trace), trace, news, updates) && AllQuickOrigin(news, old(jobs), arrivals)
      ensures finished == DoneIndexes(arrivals) && AllAdvanced(old(jobs), arrivals, jobs, |jobs|)
      ensures quiet ==> QuickRuns(old(jobs), arrivals, receipt) == (jobs, updates)
    {
      updates, finished, news := [], [], [];
      ghost var s := QuickSweep(jobs, arrivals, receipt, quiet, trace);
      QuickSweepStarts(s);
      for index := 0 to |arrivals|
        invariant !db.locked && QuickPart() && Ledger() && OthersOnly()
        invariant s.At(index, jobs, finished, updates, news, trace)
        invariant quiet ==> receipt == CurrentReceipt()
      {
        ghost var before, jobs0 := trace, jobs;
        var done, more, added := PollJob(index, arrivals[index], Open(jobs[index].receipt));
        QuickSweepGoesOn(s, index, jobs0, finished, updates, news, before, jobs[index], more, added, trace);
        updates, news := updates + more, news + added;
        if done { finished := finished + [index]; }
      }
      assert arrivals[..|arrivals|] == arrivals;
      if quiet { AllQuick(old(jobs), arrivals, receipt, jobs, updates); }
    }

    /** The second half: the events of the sustained jobs, and their clean-up. */
    method PollSustained(arrivals: seq<seq<SustainedEvent>>)
      returns (updates: seq<Update>, ghost news: seq<Entry>, ghost polled: seq<SustainedJob>, ghost origin: seq<nat>)
      requires !db.locked && TransferPart() && Ledger() && |arrivals| == |sustainedJobs|
      modifies this`db, this`fences, this`sustainedJobs, this`sustainedProjection, this`trace
      ensures !db.locked && TransferPart() && Ledger() && OthersOnly()
      ensures Published(old(trace), trace, news, updates)
      ensures SustainedOutcome(old(sustainedJobs), arrivals, news, polled, sustainedJobs, origin)
      ensures quiet ==>
                SustainedRuns(old(sustainedJobs), arrivals, old(CurrentSession()), sustainedTarget) == (polled, updates)
    {
      var finished;
      updates, finished, news := SustainedEvents(arrivals, CurrentSession());
      polled := sustainedJobs;
      var rest;
      rest, origin := RemoveFinished(sustainedJobs, finished);
      RearrangedKeepsInvariant(sustainedJobs, sustainedTarget, finished, rest, origin);
      sustainedJobs := rest;
    }

    method SustainedEvents(arrivals: seq<seq<SustainedEvent>>, ghost session: Option<nat>)
      returns (updates: seq<Update>, finished: seq<nat>, ghost news: seq<Entry>)
      requires !db.locked && TransferPart() && Ledger() && |arrivals| == |sustainedJobs|
      requires quiet ==> session == CurrentSession()
      modifies this`db, this`fences, this`sustainedJobs, this`sustainedProjection, this`trace
      ensures !db.locked && TransferPart() && Ledger() && OthersOnly()
      ensures Published(old(trace), trace, news, updates) && AllSustainedOrigin(news, old(sustainedJobs), arrivals)
      ensures finished == EndedIndexes(arrivals) && AllNarrowed(old(sustainedJobs), sustainedJobs, |sustainedJobs|)
      ensures quiet ==>
                SustainedRuns(old(sustainedJobs), arrivals, session, sustainedTarget) == (sustainedJobs, updates)
    {
      updates, finished, news := [], [], [];
      ghost var s := SustainedSweep(sustainedJobs, arrivals, session, sustainedTarget, quiet, trace);
      SustainedSweepStarts(s);
      for index := 0 to |arrivals|
        invariant !db.locked && TransferPart() && Ledger() && OthersOnly()
        invariant s.At(index, sustainedJobs, finished, updates, news, trace)
        invariant quiet ==> session == CurrentSession()
      {
        ghost var before, jobs0 := trace, sustainedJobs;
        var done, more, added := PollSustainedJob(index, arrivals[index]);
        SustainedSweepGoesOn(s, index, jobs0, finished, updates, news, before, sustainedJobs[index], more, added,
                             trace);
        updates, news := updates + more, news + added;
        if done { finished := finished + [index]; }
      }
      assert arrivals[..|arrivals|] == arrivals;
      if quiet { AllSustained(old(sustainedJobs), arrivals, session, sustainedTarget, sustainedJobs, updates); }
    }

    // -------------------------------------------------------------- runtime confirmation

    /** `install_store`: every job and the old receipt go with the old session, and the projections are
        loaded anew. */
    method InstallStore(session: Option<nat>, persisted: Projection, persistedSustained: Projection)
      requires Valid()
      modifies this`db, this`fences, this`store, this`runtimeReceipt, this`jobs, this`sustainedJobs, this`projection,
               this`sustainedProjection, this`trace
      ensures Valid() && OthersOnly() && Interference(old(db), db) && FenceGuarded()
      ensures store == session && runtimeReceipt == None && jobs == [] && sustainedJobs == []
      ensures CurrentSession().Some? ==> projection == persisted && sustainedProjection == persistedSustained
      ensures CurrentSession().None? ==> projection == map[] && sustainedProjection == map[]
      ensures |trace| == |old(trace)| + 1 && old(trace) <= trace
      ensures trace[|old(trace)|].p == StoreLoaded(session, projection, sustainedProjection, db) &&
              trace[|old(trace)|].told == []
    {
      Forget();
      Interfere();
      var current := session.Some? && db.SessionCurrent(session.value);
      Load(session, if current then persisted else map[], if current then persistedSustained else map[]);
    }

    /** The receipt and every job go. */
    method Forget()
      requires QuickPart()
      modifies this`runtimeReceipt, this`jobs, this`sustainedJobs
      ensures QuickPart() && TransferPart() && runtimeReceipt == None && jobs == [] && sustainedJobs == []
    {
      runtimeReceipt := None;
      jobs, sustainedJobs := [], [];
    }

    method Load(session: Option<nat>, quick: Projection, sustained: Projection)
      requires Ledger() && ((quick == map[] && sustained == map[]) ||
                            (session.Some? && db.SessionCurrent(session.value)))
      modifies this`store, this`projection, this`sustainedProjection, this`trace
      ensures Ledger() && store == session && projection == quick && sustainedProjection == sustained
      ensures |trace| == |old(trace)| + 1 && old(trace) <= trace
      ensures trace[|old(trace)|].p == StoreLoaded(session, quick, sustained, db) && trace[|old(trace)|].told == []
    {
      store, projection, sustainedProjection := session, quick, sustained;
      LoadIsSound(session, quick, sustained, db, spawns);
      ghost var _ := Record(StoreLoaded(session, quick, sustained, db), old(projection), old(sustainedProjection));
    }

    /** `confirm_managed_runtime_reload`: bind the config, raise the fence, run the reload, and clear
        the fence only for a matching observation. `ready` tells whether everything up to opening
        the database succeeded, `changed` whether binding found new identities, `faults` what failed on
        the way, and `seen` is what the callback observed, if it succeeded. */
    method ConfirmManagedRuntimeReload(config: string, database: string, ready: bool, changed: bool, faults: Faults,
                                       seen: Option<Observation>, persisted: Projection, persistedSustained: Projection)
      returns (confirmed: bool)
      requires Valid()
      modifies this`db, this`fences, this`bound, this`store, this`runtimeReceipt, this`jobs, this`sustainedJobs,
               this`projection, this`sustainedProjection, this`trace, this`fenceClears
      ensures Valid() && FenceGuarded() && old(trace) <= trace && Silent(trace, |old(trace)|)
      ensures confirmed <==> ready && faults.Clearing(config, controller, seen) && faults.clear.Made?
      ensures fenceClears ==
              old(fenceClears) + if ready then faults.Cleared(config, controller, seen) else []
      ensures confirmed <==>
                ready && faults == Faults(None, Made, Made) && seen.Some? && seen.value.config == config &&
                seen.value.controller == controller && seen.value.pid.Some? && seen.value.pid.value > 0
      ensures fenceClears != old(fenceClears) ==>
                ready && seen.Some? && seen.value.config == config && seen.value.controller == controller &&
                seen.value.pid.Some? && seen.value.pid.value > 0
      ensures confirmed ==>
                bound.locked && store == Some(bound.generation) &&
                runtimeReceipt == Some(Receipt(config, database, controller, bound.generation, seen.value.pid)) &&
                (quiet ==> CurrentReceipt() == runtimeReceipt)
      ensures !confirmed ==> runtimeReceipt == None && store == None && jobs == [] && projection == map[]
      ensures ready && faults.Fencing() && !faults.Clearing(config, controller, seen) ==> db.reloadFence
      ensures quiet && !ready ==> db == old(db)
    {
      InstallStore(None, map[], map[]);
      if !ready { return false; }
      confirmed := Reload(config, database, changed, faults, seen, persisted, persistedSustained);
    }

    /** The part of it under the database lock. */
    method Reload(config: string, database: string, changed: bool, faults: Faults, seen: Option<Observation>,
                  persisted: Projection, persistedSustained: Projection)
      returns (confirmed: bool)
      requires Valid() && store == None && runtimeReceipt == None && jobs == [] && projection == map[]
      modifies this`db, this`fences, this`bound, this`store, this`runtimeReceipt, this`jobs, this`sustainedJobs,
               this`projection, this`sustainedProjection, this`trace, this`fenceClears
      ensures Valid() && FenceCounted() && old(trace) <= trace && Silent(trace, |old(trace)|)
      ensures confirmed <==> faults.Clearing(config, controller, seen) && faults.clear.Made?
      ensures fenceClears == old(fenceClears) + faults.Cleared(config, controller, seen)
      ensures confirmed ==>
                bound.locked && store == Some(bound.generation) &&
                runtimeReceipt == Some(Receipt(config, database, controller, bound.generation, seen.value.pid)) &&
                (quiet ==> CurrentReceipt() == runtimeReceipt)
      ensures !confirmed ==> runtimeReceipt == None && store == None && jobs == [] && projection == map[]
      ensures faults.Fencing() && !faults.Clearing(config, controller, seen) ==> db.reloadFence
    {
      var done := BindUnderLock(changed, faults.bind);
      if done {
        confirmed := ReloadFenced(config, database, faults, seen, persisted, persistedSustained);
      } else {
        db := db.(locked := false);
        confirmed := false;
      }
    }

    /** The part of it after binding: the fence goes up before the reload runs. */
    method ReloadFenced(config: string, database: string, faults: Faults, seen: Option<Observation>,
                        persisted: Projection, persistedSustained: Projection)
      returns (confirmed: bool)
      requires Consistent() && db.locked && bound == db && db.initialized && !db.writesBlocked && faults.bind.None?
      requires store == None && runtimeReceipt == None && jobs == [] && projection == map[]
      modifies this`db, this`fences, this`store, this`runtimeReceipt, this`jobs, this`sustainedJobs, this`projection,
               this`sustainedProjection, this`trace, this`fenceClears
      ensures Valid() && FenceCounted() && old(trace) <= trace && Silent(trace, |old(trace)|)
      ensures confirmed <==> faults.Clearing(config, controller, seen) && faults.clear.Made?
      ensures fenceClears == old(fenceClears) + faults.Cleared(config, controller, seen)
      ensures confirmed ==>
                store == Some(bound.generation) &&
                runtimeReceipt == Some(Receipt(config, database, controller, bound.generation, seen.value.pid)) &&
                (quiet ==> CurrentReceipt() == runtimeReceipt)
      ensures !confirmed ==> runtimeReceipt == None && store == None && jobs == [] && projection == map[]
      ensures faults.Fencing() && !faults.Clearing(config, controller, seen) ==> db.reloadFence
    {
      RaiseFence(faults.raise);
      if faults.raise == Made && seen.Some? && seen.value.config == config && seen.value.controller == controller &&
         seen.value.pid.Some? && seen.value.pid.value != 0 && faults.clear != Failed
      {
        var receipt := Receipt(config, database, controller, db.generation, seen.value.pid);
        confirmed := Lift(FenceClear(config, controller, seen.value), faults.clear, receipt, persisted,
                          persistedSustained);
      } else {
        db := db.(locked := false);
        confirmed := false;
      }
    }

    /** The fence comes down, and the receipt is installed unless the removal was reported as failed. */
    method Lift(clear: FenceClear, outcome: MarkerStep, receipt: Receipt, persisted: Projection,
                persistedSustained: Projection)
      returns (confirmed: bool)
      requires Consistent() && db.locked && db.reloadFence && Proven(clear) && outcome != Failed
      requires store == None && runtimeReceipt == None && jobs == [] && projection == map[]
      modifies this`db, this`fences, this`store, this`runtimeReceipt, this`jobs, this`sustainedJobs, this`projection,
               this`sustainedProjection, this`trace, this`fenceClears
      ensures Valid() && FenceCounted() && old(trace) <= trace && Silent(trace, |old(trace)|)
      ensures confirmed <==> outcome.Made?
      ensures fenceClears == old(fenceClears) + [clear]
      ensures confirmed ==> store == Some(receipt.generation) && runtimeReceipt == Some(receipt)
      ensures quiet ==> db == old(db).(reloadFence := false, locked := false)
      ensures !confirmed ==> runtimeReceipt == None && store == None && jobs == [] && projection == map[]
    {
      ClearFence(clear);
      confirmed := outcome == Made;
      if confirmed { Trust(receipt, persisted, persistedSustained); }
    }

    /** `ensure_runtime_reload_required`: whatever it reports, other processes wait for the lock. */
    method RaiseFence(outcome: MarkerStep)
      requires Consistent() && db.locked
      modifies this`db, this`fences
      ensures Consistent() && FenceCounted() && FenceKept()
      ensures db == if outcome == Failed then old(db) else old(db).(reloadFence := true)
    {
      if outcome != Failed {
        fences := Moved(fences, db.reloadFence, true);
        db := db.(reloadFence := true);
      }
      Interfere();
    }

    /** Installs the bound database together with the receipt that proves its session. */
    method Trust(receipt: Receipt, persisted: Projection, persistedSustained: Projection)
      requires Valid()
      modifies this`db, this`fences, this`store, this`runtimeReceipt, this`jobs, this`sustainedJobs, this`projection,
               this`sustainedProjection, this`trace
      ensures Valid() && OthersOnly() && FenceCounted() && old(trace) <= trace && Silent(trace, |old(trace)|)
      ensures store == Some(receipt.generation) && runtimeReceipt == Some(receipt)
    {
      InstallStore(Some(receipt.generation), persisted, persistedSustained);
      runtimeReceipt := Some(receipt);
    }

    /** Takes the lock and binds the config's identities, or stops on the way. */
    method BindUnderLock(changed: bool, stop: Option<nat>) returns (done: bool)
      requires Valid()
      modifies this`db, this`fences, this`bound
      ensures Consistent() && db.locked && bound == db && FenceCounted() && FenceKept()
      ensures done <==> stop.None?
      ensures done ==> db.initialized && !db.writesBlocked
      ensures quiet ==>
                var locked := old(db).(locked := true);
                db == if done then Bind(locked, changed) else Stopped(locked, changed, stop.value)
    {
      Interfere();
      db := db.(locked := true);
      done := stop.None?;
      bound := if done then Bind(db, changed) else Stopped(db, changed, stop.value);
      fences := Moved(fences, db.reloadFence, bound.reloadFence);
      db := if done then Bind(db, changed) else Stopped(db, changed, stop.value);
    }

    /** Clears the fence for a matching observation and gives the lock back. */
    method ClearFence(clear: FenceClear)
      requires Consistent() && db.locked && db.reloadFence && Proven(clear)
      modifies this`db, this`fenceClears
      ensures Valid() && db == old(db).(reloadFence := false, locked := false)
      ensures fenceClears == old(fenceClears) + [clear]
    {
      fenceClears := fenceClears + [clear];
      db := db.(reloadFence := false, locked := false);
    }

    /** `adopt_runtime_receipt`: a receipt of another process is taken over only if it matches this
        config, database and controller and the unfenced generation; the fence is never cleared. */
    method AdoptRuntimeReceipt(config: string, database: string, receipt: Receipt, ready: bool, changed: bool,
                               stop: Option<nat>, persisted: Projection, persistedSustained: Projection)
      returns (adopted: bool)
      requires Valid()
      modifies this`db, this`fences, this`bound, this`store, this`runtimeReceipt, this`jobs, this`sustainedJobs,
               this`projection, this`sustainedProjection, this`trace
      ensures Valid() && FenceGuarded() && FenceKept()
      ensures old(trace) <= trace && Silent(trace, |old(trace)|)
      ensures adopted ==>
                ready && receipt.config == config && receipt.database == database && receipt.controller == controller &&
                receipt.pid.Some? && receipt.pid.value > 0 && stop.None? &&
                bound.locked && Unfenced(bound, receipt.generation) &&
                runtimeReceipt == Some(receipt) && store == Some(receipt.generation)
      ensures !adopted ==> runtimeReceipt == None && store == None && jobs == [] && projection == map[]
      ensures quiet && ready && stop.None? && receipt.config == config && receipt.database == database &&
              receipt.controller == controller && receipt.pid.Some? && receipt.pid.value > 0 ==>
                var d := Bind(old(db), changed);
                db == d && (adopted <==> !d.reloadFence && d.generation == receipt.generation)
    {
      InstallStore(None, map[], map[]);
      if !ready || !receipt.Names(config, database, controller) { return false; }
      adopted := Adopt(receipt, changed, stop, persisted, persistedSustained);
    }

    /** The part of it under the database lock. */
    method Adopt(receipt: Receipt, changed: bool, stop: Option<nat>, persisted: Projection,
                 persistedSustained: Projection)
      returns (adopted: bool)
      requires Valid() && store == None && runtimeReceipt == None && jobs == [] && projection == map[]
      modifies this`db, this`fences, this`bound, this`store, this`runtimeReceipt, this`jobs, this`sustainedJobs,
               this`projection, this`sustainedProjection, this`trace
      ensures Valid() && FenceCounted() && FenceKept() && old(trace) <= trace && Silent(trace, |old(trace)|)
      ensures adopted ==>
                stop.None? && bound.locked && bound.SessionCurrent(receipt.generation) &&
                runtimeReceipt == Some(receipt) && store == Some(receipt.generation)
      ensures !adopted ==> runtimeReceipt == None && store == None && jobs == [] && projection == map[]
      ensures quiet && stop.None? ==>
                var d := Bind(old(db), changed);
                db == d && (adopted <==> !d.reloadFence && d.generation == receipt.generation)
    {
      var done := BindUnderLock(changed, stop);
      var valid := done && !db.reloadFence && db.generation == receipt.generation;
      db := db.(locked := false);
      if !valid { return false; }
      Trust(receipt, persisted, persistedSustained);
      adopted := true;
    }
  }

  /** Nothing was told since position `n`. */
  ghost predicate Silent(trace: seq<Entry>, n: nat) {
    forall i :: n <= i < |trace| ==> trace[i].told == []
  }

  /** The durable states that binding a config's identities goes through: writes blocked, then the fence
      raised for new identities, then the new generation, then writes free again. */
  function BindSteps(db: Database, changed: bool): seq<Database> {
    var identitiesChanged := changed || !db.initialized;
    var blocked := db.(writesBlocked := true);
    var fenced := if identitiesChanged then blocked.(reloadFence := true) else blocked;
    var generation := if identitiesChanged then db.generation + 1 else db.generation;
    var committed := fenced.(generation := generation, initialized := true);
    [blocked, fenced, committed, committed.(writesBlocked := false)]
  }

  /** Where binding stops when it fails: in a state before the last, or after undoing all but a raised fence. */
  function Stopped(db: Database, changed: bool, at: nat): (r: Database)
    ensures r.locked == db.locked && db.generation <= r.generation && (db.reloadFence ==> r.reloadFence)
    ensures forall session :: r.SessionCurrent(session) ==> db == r
  {
    if at < 3 then BindSteps(db, changed)[at]
    else if at == 3 && (changed || !db.initialized) then db.(reloadFence := true)
    else db
  }

  function Bind(db: Database, changed: bool): (r: Database)
    ensures r.generation > db.generation ==> r.reloadFence
    ensures db.reloadFence ==> r.reloadFence
    ensures r.initialized && !r.writesBlocked && r.locked == db.locked && db.generation <= r.generation
    ensures if changed || !db.initialized then r.generation == db.generation + 1 && r.reloadFence
            else r.generation == db.generation && r.reloadFence == db.reloadFence
  {
    BindSteps(db, changed)[3]
  }

  /** Wherever binding is interrupted, no session is current unless binding is complete and found nothing
      new; the fence is up in every state that shows the new generation. */
  lemma {:induction false} InterruptedBindIsFenced(db: Database, changed: bool, i: nat, session: nat)
    requires i < |BindSteps(db, changed)|
    ensures var d := BindSteps(db, changed)[i];
            (d.generation > db.generation ==> d.reloadFence) && (db.reloadFence ==> d.reloadFence) &&
            (d.SessionCurrent(session) ==> i == 3 && !changed && session == db.generation)
  {
  }

  predicate Done(events: seq<QuickEvent>) { Finished in events || Disconnected in events }

  predicate Ended(events: seq<SustainedEvent>) {
    SustainedFinished in events || SustainedDisconnected in events
  }

  /** The positions `poll` collects as finished, in the order it visits them. */
  function DoneIndexes(arrivals: seq<seq<QuickEvent>>): (f: seq<nat>)
    ensures Ascending(f, |arrivals|)
    ensures forall i: nat :: i in f <==> i < |arrivals| && Done(arrivals[i])
  {
    if arrivals == [] then []
    else
      var n := |arrivals| - 1;
      DoneIndexes(arrivals[..n]) + if Done(arrivals[n]) then [n] else []
  }

  function EndedIndexes(arrivals: seq<seq<SustainedEvent>>): (f: seq<nat>)
    ensures Ascending(f, |arrivals|)
    ensures forall i: nat :: i in f <==> i < |arrivals| && Ended(arrivals[i])
  {
    if arrivals == [] then []
    else
      var n := |arrivals| - 1;
      EndedIndexes(arrivals[..n]) + if Ended(arrivals[n]) then [n] else []
  }

  lemma {:induction false} RearrangedKeepsInvariant(jobs: seq<SustainedJob>, target: string, removed: seq<nat>,
                                 rest: seq<SustainedJob>, origin: seq<nat>)
    requires SustainedInvariant(jobs, target) && Rearranged(jobs, removed, rest, origin)
    ensures SustainedInvariant(rest, target)
  {
    forall i, j | 0 <= i < j < |rest| ensures Exclusive(rest[i], rest[j]) {
      var a, b := origin[i], origin[j];
      assert a != b;
      if a < b { assert Exclusive(jobs[a], jobs[b]); } else { assert Exclusive(jobs[b], jobs[a]); }
    }
  }

  lemma {:induction false} NothingLeft(wanted: set<string>, flying: set<string>)
    ensures wanted - flying == {} ==> wanted <= flying
  {
    if n :| n in wanted && n !in flying { assert n in wanted - flying; }
  }

  /** The asked nodes that are bound. */
  function Wanted(nodes: seq<string>, bound: set<string>): set<string> { set n | n in nodes && n in bound }

  datatype Start = Started | AlreadyRunning | NoCandidates | Refused

  /** What a start that was so answered did: it opens a job, over the wanted nodes that no job transfers yet;
      for a single node it does not join a transfer. */
  ghost predicate Launched(start: Start, before: seq<SustainedJob>, after: seq<SustainedJob>, group: string,
                           wanted: set<string>, kind: SustainedKind, target: string) {
    var flying := InFlight(before, group, target);
    match start
    case Refused => after == before
    case NoCandidates => after == before && wanted == {}
    case AlreadyRunning =>
      after == before && wanted != {} && if kind == OneNode then !(wanted !! flying) else wanted <= flying
    case Started =>
      |after| == |before| + 1 && after[..|before|] == before && wanted - flying != {} &&
      (kind == OneNode ==> wanted !! flying) &&
      var job := after[|before|];
      job == SustainedJob(group, wanted - flying, target, job.generation, kind, false, false)
  }

  lemma {:induction false} NarrowingKeepsInvariant(jobs: seq<SustainedJob>, target: string, index: nat,
                                                   job: SustainedJob)
    requires SustainedInvariant(jobs, target) && index < |jobs| && Narrowed(jobs[index], job)
    ensures SustainedInvariant(jobs[index := job], target)
  {
    var jobs' := jobs[index := job];
    forall i, j | 0 <= i < j < |jobs'| ensures Exclusive(jobs'[i], jobs'[j]) {
      assert Exclusive(jobs[i], jobs[j]);
    }
  }

  function CancelAll(jobs: seq<SustainedJob>): (r: seq<SustainedJob>)
    ensures |r| == |jobs| && forall i :: 0 <= i < |r| ==> r[i] == jobs[i].(cancelled := true)
  {
    seq(|jobs|, i requires 0 <= i < |jobs| => jobs[i].(cancelled := true))
  }

  predicate Transfers(job: SustainedJob, group: string, target: string, node: string) {
    job.group == group && job.target == target && !job.cancelled && node in job.outstanding
  }

  /** The nodes of the group that some uncancelled job of the target still has to report. */
  function InFlight(jobs: seq<SustainedJob>, group: string, target: string): (flying: set<string>)
    ensures forall n :: n in flying <==> exists i :: 0 <= i < |jobs| && Transfers(jobs[i], group, target, n)
  {
    if jobs == [] then {}
    else
      var n := |jobs| - 1;
      InFlight(jobs[..n], group, target) +
      if jobs[n].group == group && jobs[n].target == target && !jobs[n].cancelled then jobs[n].outstanding else {}
  }

  lemma {:induction false} InFlightCovers(jobs: seq<SustainedJob>, group: string, target: string, i: nat)
    requires i < |jobs| && jobs[i].group == group && jobs[i].target == target && !jobs[i].cancelled
    ensures jobs[i].outstanding <= InFlight(jobs, group, target)
  {
    if i < |jobs| - 1 { InFlightCovers(jobs[..|jobs| - 1], group, target, i); }
  }

  lemma {:induction false} StartKeepsInvariant(jobs: seq<SustainedJob>, target: string, job: SustainedJob)
    requires SustainedInvariant(jobs, target) && job.target == target
    requires job.outstanding !! InFlight(jobs, job.group, target)
    ensures SustainedInvariant(jobs + [job], target)
  {
    var jobs' := jobs + [job];
    forall i, j | 0 <= i < j < |jobs'| ensures Exclusive(jobs'[i], jobs'[j]) {
      if j < |jobs| {
        assert Exclusive(jobs[i], jobs[j]);
      } else if !jobs[i].cancelled && jobs[i].group == job.group {
        InFlightCovers(jobs, job.group, target, i);
      }
    }
  }
}
