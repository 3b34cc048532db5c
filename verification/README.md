# A verified model of sing-box-tui

sing-box-tui is a terminal front end that edits a sing-box configuration, measures the quality of its proxy
nodes and switches between them on its own. This project models the parts of it where a mistake is hardest to
see by reading one function, and proves what they keep:

* **Automatic node selection** (`src/automatic_selection.rs`): the ranking of nodes, the confirmation rule, the
  active-transfer tracker, and the driver that joins them. A run is any sequence of rounds; the answer to each
  round is first defined from the history alone (`Confirmation.Answer`, `Traffic.StatusFromLog`), and the classes
  that keep only a few fields are proved to give exactly those answers.
* **The generation-fenced quality workflow** (`src/benchmark_workflow.rs`, over the database of `src/storage.rs`):
  worker events interleaved with steps of other processes that may change the shared database between any two
  accesses of this one.
* **Config rewriting** (`src/config.rs`): JSONC normalisation, the TUN toggle, China split routing, the Private
  Access baseline and route table, the Tailscale toggle, and the merge of imported nodes and providers. A
  `ConfigFile` performs any sequence of these edits.
* **Two byte codecs**: the TLS ClientHello patch of `scripts/sonicwall_tls_probe.py` and the WebSocket framing of
  `scripts/get-airtcp-singbox-url.py`.

| files | contents |
|---|---|
| `Prelude`, `Json`, `Bytes` | optional values, machine words, JSON values and vector operations, big-endian numbers and exclusive-or |
| `Ranking`, `Confirmation`, `Selection`, `SelectionRuns`, `Traffic`, `Guard` | automatic selection |
| `Workflow` | the quality workflow |
| `Jsonc`, `JsoncTokens`, `JsoncCuts` | JSONC normalisation: the loops, what a JSON reader sees of the result, and what becomes of any text at all |
| `Outbounds`, `Tun`, `TunMeaning`, `ChinaRouting`, `ChinaMeaning`, `Tailscale`, `TailscaleMeaning` | the toggles |
| `Cidr`, `Domains`, `Placement`, `RulePass`, `PrivateRules`, `PrivateAccess`, `RouteTable` | Private Access |
| `Provider`, `ProviderGraph`, `ProviderNodes`, `ProviderSpecials`, `Merge`, `MergeMeaning` | the merge of imported nodes and providers |
| `ConfigRuns` | runs of edits of the config file |
| `TlsHello`, `HelloLayout`, `WebSocket`, `FrameLayout` | the codecs, and their bytes one by one |

## How the model is built

* Structs whose methods update fields are classes with those fields and, where a run matters, a ghost history;
  `Valid()` says what the fields mean in terms of the history. Loops are loops. Pure helpers are functions.
* The config code edits nested JSON maps and vectors in place. Here each edit is a function from the old config to
  the new one or to an error, `ConfigRuns.ConfigFile` holds the config and replaces it, and the loops inside
  (`Jsonc`, `Merge.StripLegacyFields`, `Cidr.NormalizeIpv4Cidrs`, `Provider`) are methods proved against functions.
  The program writes the file only after an edit succeeded, so a refused edit leaves the config as it was.
* JSON objects are maps, because the program compares configs without regard to key order; numbers are integers.
* `u64` and `usize` are bounded types with explicit saturation; IPv4 networks are 32-bit vectors. Clocks count
  nanoseconds. Strings are sequences of Unicode characters.
* Laws that relate an edit to itself (idempotence, round trips, refinement of a history) hold of many wrong edits too.
  So each main operation is also told from outside, by the fields of what goes in and what comes out, in terms that
  share nothing with the functions that compute it: the modules and lemmas named `Meaning`, `Layout`, `Written`,
  `OfTag` or `Outcome`.
* Channel contents, masking keys, the way `recv` splits a stream, the steps of other processes and whether a row can
  be written are parameters or arbitrary choices, so every result holds for all of them. Results that say `when
  other processes rest` are the other half: then nothing is dropped without cause.
* Every lemma is marked so that no induction happens unseen: each induction is written out.

## Where the obvious claim is false

* One trailing-comma pass is not idempotent on `[1,,]`; `CommasIdempotentIff` says exactly when it is.
* The China toggle drops rules without a listed matcher (`BareActionRuleIsDropped`); `RulesSurviveIff` and
  `DnsRulesSurviveIff` say exactly when the existing rules survive.
* Switching the TUN on and off again leaves an empty `inbounds` list in a config that had none
  (`ToggleLeavesEmptyInbounds`); `ToggleRestoresIff` gives the exact condition.
* Re-applying a Private Access route table can change the config when carrier and target domains overlap and both go
  to the direct outbound. `ReapplyAlwaysIff` says exactly for which tables (`Table.Apart`): a carrier rule may then
  pass for a target rule, or a target rule for the carrier rule. `Confused` gives rules that change.
* It can change the config even with disjoint domains: when the carrier rule
  borrowed a node because there was no selector, group or direct outbound, the direct outbound added by the first
  application captures the carrier rule in the second. `BorrowedNodeExample` is such a config, `ReapplyIff` says
  exactly when the config stays.
* Switching Tailscale on and off again can drop rules that switching it off alone keeps: those that look like the
  program's own although its endpoint or server was not there. `RulesComeBackIff` says exactly when.
* `compare_ratio_desc` saturates: `SaturationAgreesIff` says when it still agrees with exact ratios, and
  `SaturatedTiesBreak` shows that beyond that point its ties are not transitive.
* If two facts rows share one name, an emergency switch can name the current node (`RepeatedNameEmergency`);
  `EmergencyNamesCurrentIff` says exactly when: its first row is down and another row of the name is eligible. The
  caller sets reachability by name, so that facts it builds never do (`src/tui_benchmark_workflow.rs:408-412`).

## Model

| member | source | states |
|---|---|---|
| `Ranking.CompareIsTotalPreorder` | src/automatic_selection.rs:790-864 | for every policy the node comparison is antisymmetric and transitive, through zero-guarded cross-multiplied ratios, and ties only on equal config order |
| `Ranking.RatioChain` | src/automatic_selection.rs:846-855 | cross-multiplied ratios with positive denominators chain, with equality exactly when both links are equal |
| `Ranking.ProductsFitU128` | src/automatic_selection.rs:846-896 | no product of two counters, and no product of the 20% gate, leaves 128 bits |
| `Ranking.MaxDominates` | src/automatic_selection.rs:599-606 | under any total preorder the element that `max_by` picks is at least as good as every other |
| `Ranking.WinnerDominates` | src/automatic_selection.rs:599-606 | the chosen candidate dominates every candidate under the panel's policy |
| `Ranking.WinnerIgnoresOrder` | src/automatic_selection.rs:599-606 | with distinct config orders the choice depends on which facts there are, not on their order |
| `Ranking.GreaterIsBetter` | src/automatic_selection.rs:790-864 | for every policy the comparison finds a node greater if and only if it is the better one by its fields: a higher tier, else under LowLatency a smaller warm median, p95 and cold start and then a larger success share, with the other policies' criteria in theirs; a present value beats an absent one, and the lower config order wins a full tie |
| `Ranking.NoneIsBetter` | src/automatic_selection.rs:599-606 | no candidate is better, in that sense, than the chosen one |
| `Ranking.SaturationAgreesIff` | src/benchmark_workflow.rs:1990-2001 | the saturating ratio order agrees with the exact one if and only if the cross products are equal or one is below the word limit |
| `Ranking.SaturatedTiesBreak` | src/benchmark_workflow.rs:1990-2001 | three ratios for which the saturating order ties twice and yet ranks the outer two |
| `Confirmation.LatestIsNewest` | src/automatic_selection.rs:564-577 | the latest round that was not a replay lies in the current stretch of scope and has its greatest id |
| `Confirmation.ReplayRule` | src/automatic_selection.rs:564-577 | in an unchanged scope one remembered id recognises exactly the replays |
| `Confirmation.ConfirmRule` | src/automatic_selection.rs:675-767 | in an unchanged scope one pending cause decides exactly whether a round confirms |
| `Confirmation.ReplayKeepsSummary` | src/automatic_selection.rs:564-577 | a replay is answered as a duplicate and changes no field's meaning |
| `Confirmation.FreshRoundSettles` | src/automatic_selection.rs:555-780 | the counters after a fresh round summarise the longer run, and the answer is the one the history calls for |
| `Confirmation.ConfirmationHasPartner` | src/automatic_selection.rs:675-767 | a confirming round builds on the latest earlier non-replayed round, of the same scope, an older id and the same cause |
| `Confirmation.AnswerMeaning` | src/automatic_selection.rs:555-767 | when exactly an answer is a duplicate, a confirmed switch or an emergency switch, and which answers carry a target |
| `Confirmation.NextAnswer` | src/automatic_selection.rs:564-767 | the answer to the next round of a scope from the latest answer that was no duplicate: a duplicate for an id not above its round's, the second answer if it waits for this very cause, else the first |
| `Confirmation.OneCauseAtATime` | src/automatic_selection.rs:621-627 | normal and emergency progress are never both nonzero |
| `Confirmation.LoopSwitchesEarly` | src/automatic_selection.rs:599-747 | a closed loop entered in any state switches only in its first two rounds, from the default state only in its second |
| `Confirmation.LoopSwitchesOnce` | src/automatic_selection.rs:599-747 | after a switch a closed loop never switches again |
| `Selection.AutomaticSelectionState.constructor` | src/automatic_selection.rs:546-552 | the default state stands for the empty run |
| `Selection.AutomaticSelectionState.Evaluate` | src/automatic_selection.rs:555-673 | whatever the run so far, the fields keep summarising it and the decision is the history's answer; normal and emergency progress exclude each other |
| `Selection.AutomaticSelectionState.EvaluateFresh` | src/automatic_selection.rs:579-673 | the branches after the replay test give the answer and counters that the round's own evidence calls for |
| `Selection.AutomaticSelectionState.EvaluateReachable` | src/automatic_selection.rs:628-673 | the same for a reachable current node: transfer state, current preferred, 20% gate, confirmation |
| `Selection.AutomaticSelectionState.ConfirmCandidate` | src/automatic_selection.rs:675-719 | acts when the pending candidate is the same one, else starts waiting for it |
| `Selection.AutomaticSelectionState.EvaluateEmergency` | src/automatic_selection.rs:721-767 | counts outages with no growth, acts on the second, and resets on anything else |
| `Selection.AutomaticSelectionState.ResetRounds` | src/automatic_selection.rs:775-780 | all progress is forgotten |
| `Selection.CandidatesExact` | src/automatic_selection.rs:599-606 | the candidates are exactly the included and eligible facts |
| `SelectionRuns.EvidenceMeaning` | src/automatic_selection.rs:579-673 | a round speaks for switching, or for an emergency, if and only if the stated conditions on assessments, transfer and best node hold |
| `SelectionRuns.LeaderDominates` | src/automatic_selection.rs:599-606 | the best node is an included eligible node that dominates all others, whatever the order of the facts |
| `SelectionRuns.LeaderMeaning` | src/automatic_selection.rs:599-606 | the best node is included and eligible and no other such node is better by its fields; there is none exactly when no node qualifies |
| `SelectionRuns.LeaderIsFirst` | src/automatic_selection.rs:790-864 | no qualifying node has a higher tier than the best one, and none of its tier a smaller warm median under LowLatency, more throughput under Throughput or a larger success share under Balanced |
| `SelectionRuns.GateMeaning` | src/automatic_selection.rs:866-896 | the gate opens exactly for a higher tier, for a current node outside the panel, or for at most 80% of the latency or at least 120% of the throughput, and lacks evidence exactly when the values to compare are missing |
| `SelectionRuns.RoundMeaning` | src/automatic_selection.rs:579-673 | a round with all assessments speaks for a switch, a route activation or an emergency if and only if current tier, transfer, best node and gate say so, told by their fields |
| `SelectionRuns.QuietMeaning` | src/automatic_selection.rs:579-673 | and otherwise which reason it gives |
| `SelectionRuns.RunInNewScope` | src/automatic_selection.rs:564-577 | the first round of a scope never acts |
| `SelectionRuns.RunGoesOn` | src/automatic_selection.rs:555-767 | a later round is a duplicate if its id is not above that of the latest answered one, and acts exactly when that answer waits for its cause |
| `SelectionRuns.SwitchNeedsTwoRounds` | src/automatic_selection.rs:555-719 | in every run a confirmed switch has an earlier round, the latest not answered as a duplicate, with the same scope, a smaller id, an idle transfer and the same materially better best node |
| `SelectionRuns.EmergencyNeedsTwoOutages` | src/automatic_selection.rs:721-780 | in every run an emergency switch follows an earlier outage with no growth in the same scope; its target is not the current node when no eligible row bears that node's name, nor when rows of one name agree on reachability, as the caller makes them |
| `SelectionRuns.EmergencyNamesCurrentIff` | src/automatic_selection.rs:579-767 | for given facts, policy and scope some run ends with an emergency switch to the current node if and only if the first row of that node is assessed and down and another row of its name is eligible |
| `SelectionRuns.RepeatedNameEmergency` | src/automatic_selection.rs:721-767 | a concrete such run |
| `SelectionRuns.ClosedLoopIsStable` | src/automatic_selection.rs:599-672 | on constant facts whose eligible rows are the first of their names, constant panel, idle transfer, fresh ids and each target becoming current, any start makes at most one switch, at the latest in the second round |
| `SelectionRuns.Hysteresis` | src/automatic_selection.rs:656-672 | two gated switches from a to b and back force the pair's latency or throughput ratio to have moved by 25/16 or 36/25 |
| `Traffic.ActiveNodeTrafficTracker.constructor` | src/automatic_selection.rs:208-216 | the default tracker stands for the empty log |
| `Traffic.ActiveNodeTrafficTracker.Observe` | src/automatic_selection.rs:219-266 | the fields keep standing for everything observed: a new scope resets, the same scope adds the sample's growth |
| `Traffic.ActiveNodeTrafficTracker.ExtendWindow` | src/automatic_selection.rs:233-266 | one more sample of the watched scope, recorded and pruned, leaves the fields standing for the longer log |
| `Traffic.ActiveNodeTrafficTracker.MarkUnavailable` | src/automatic_selection.rs:268-275 | a loss of the controller ends the stretch |
| `Traffic.ActiveNodeTrafficTracker.Status` | src/automatic_selection.rs:277-312 | under a clock that does not go back the reported transfer is the one computed from the whole log, despite incremental pruning |
| `Traffic.ActiveNodeTrafficTracker.ResetToBaseline` | src/automatic_selection.rs:314-341 | the counters of the new baseline, and no growth |
| `Traffic.ActiveNodeTrafficTracker.Prune` | src/automatic_selection.rs:343-351 | only growth that has left the window for good is dropped |
| `Traffic.MeasureGrowth` | src/automatic_selection.rs:233-257 | the loop computes the saturated sum of all counter deltas and the new counter map |
| `Traffic.SumGrowth` | src/automatic_selection.rs:302-311 | the saturating sum of the kept growth is the saturated total |
| `Traffic.AfterPruning` | src/automatic_selection.rs:302-351 | after pruning, what is kept sums to exactly the growth of the whole history aged at most the window |
| `Traffic.GrowthIsSorted` | src/automatic_selection.rs:258-266 | under an orderly clock recorded growth is in time order, which front-only pruning relies on |
| `Traffic.GrowthTelescopes` | src/automatic_selection.rs:219-266 | for monotone counters all recorded growth sums to last total minus baseline total, whatever the sampling times |
| `Traffic.GrowthBetween` | src/automatic_selection.rs:241-252 | whatever the counters do, the growth between two samples with unique ids is the sum of the new totals less the old totals of exactly those connections that are still there and did not go back |
| `Traffic.RecentGrowth` | src/automatic_selection.rs:302-351 | summed over a whole stretch: the recorded growth within ten seconds is that difference over the samples of the last ten seconds, resets, disappearances and reappearances included |
| `Traffic.RowsMeaning` | src/automatic_selection.rs:233-240 | exactly the connections that run through the node are counted, each with its upload and download bytes |
| `Traffic.WatchedMeaning` | src/automatic_selection.rs:219-275 | what is being watched, told from the events: the observations since the last change of scope or loss |
| `Traffic.StatusMeaning` | src/automatic_selection.rs:277-312 | the status by the age of the last snapshot (three seconds), of the first (ten seconds) and the growth within ten seconds (more than 64 KiB, or not), that growth told by the totals |
| `Guard.AutoSelector.Observe` | src/tui_connections.rs:161-170 | the driver's observation step keeps tracker and history in step |
| `Guard.AutoSelector.MarkUnavailable` | src/tui_connections.rs:161-170 | the driver's loss step keeps tracker and history in step |
| `Guard.AutoSelector.Decide` | src/tui_benchmark_workflow.rs:445-453 | the decision is the selection rule applied to the transfer the log calls for |
| `Guard.ConfirmedSwitchIsGuarded` | src/automatic_selection.rs:218-351 | both rounds behind a confirmed switch saw ten seconds of uninterrupted same-scope observation, a snapshot at most three seconds old and at most 64 KiB of growth |
| `Guard.EmergencySwitchIsGuarded` | src/automatic_selection.rs:721-767 | both rounds behind an emergency switch were so guarded and saw no growth at all |
| `Workflow.RemoveFinished` | src/benchmark_workflow.rs:1446-1453 | swap-removing several indexes from last to first removes exactly those elements and keeps every other once |
| `Workflow.BenchmarkWorkflow.CurrentReceipt` | src/benchmark_workflow.rs:473-482 | a receipt is handed out only while it proves the present session |
| `Workflow.BenchmarkWorkflow.SpawnJob` | src/benchmark_workflow.rs:1564-1594 | a job captures the receipt that proves the session now, and is current exactly when there is one |
| `Workflow.BenchmarkWorkflow.RecordAssessment` | src/benchmark_workflow.rs:1631-1658 | a row counts as persisted only under the job's own receipt in an unfenced session of its generation; exactly then, and if it is writable, when other processes rest |
| `Workflow.BenchmarkWorkflow.QuickProjectionLease` | src/benchmark_workflow.rs:1660-1687 | a granted lease holds the lock with generation, session and receipt equal to the job's; when other processes rest it is granted exactly to a current job whose receipt proves the session |
| `Workflow.BenchmarkWorkflow.FinishJob` | src/benchmark_workflow.rs:1242-1283 | a finished batch is published under the lease with its own assessments, or published empty and not current; when other processes rest it is published exactly if the job is current and its receipt proves the session; the completion told is that of the job's kind, group, round and node, and says current exactly if it was so published |
| `Workflow.BenchmarkWorkflow.PollJob` | src/benchmark_workflow.rs:1180-1302 | whatever other processes do, every update tells of one publication: a completion is marked current only if the receipt and generation of the job's spawn held when it was published, and carries no assessment otherwise; its group, round id, node and assessments are the job's; a batch holds only assessments heard from the worker; when other processes rest, job and updates are exactly those of `QuickRun` |
| `Workflow.UndisturbedBatchIsComplete` | src/benchmark_workflow.rs:1186-1283 | with a proven receipt, and every row accepted, a current job announces, marked current, the last assessment heard for every node |
| `Workflow.ClosedBatchIsDropped` | src/benchmark_workflow.rs:1207-1283 | in every other case, the job not current, its receipt no longer proving the session or a row refused, it announces an empty completion that is not current, whatever was heard |
| `Workflow.LastHeardMeaning` | src/benchmark_workflow.rs:1186-1206 | what was last heard of a node is what its last progress event says |
| `Workflow.LostBatchIsTold` | src/benchmark_workflow.rs:1285-1302 | a job whose worker is lost tells just that |
| `Workflow.SoundTellsRightly` | src/benchmark_workflow.rs:1596-1619 | what each publication tells, field by field: completion of the kind, group, round, node, assessments and current flag of its job |
| `Workflow.QuickProjectionMeaning` | src/benchmark_workflow.rs:1242-1283 | which assessment the projection holds for a group's node after a publication: the batch's own under its group and that node, all other entries unchanged |
| `Workflow.SustainedProjectionMeaning` | src/benchmark_workflow.rs:1304-1445 | the same for transfer results |
| `Workflow.BenchmarkWorkflow.ActivateTarget` | src/benchmark_workflow.rs:885-922 | a new target cancels every transfer of the old one, the same target cancels none |
| `Workflow.BenchmarkWorkflow.StartSustained` | src/benchmark_workflow.rs:965-1076 | a started job runs for the active target over exactly the bound nodes asked for that no transfer of the group has outstanding, and every other answer starts nothing, with its exact reason; when other processes rest a start is refused exactly without a receipt that proves the session for that config |
| `Workflow.BenchmarkWorkflow.PollSustainedJob` | src/benchmark_workflow.rs:1304-1445 | a job's outstanding nodes only shrink, results and completions are published only for the active target in the job's generation and only when the database took the row, and the updates tell of exactly that; when other processes rest, job and updates are exactly those of `SustainedRun` |
| `Workflow.UndisturbedTransferIsTold` | src/benchmark_workflow.rs:1304-1445 | with a current session and the active target, exactly the results whose rows are accepted are reported, in order, then the end if no row was refused; the reported nodes are no longer outstanding |
| `Workflow.ResultsMeaning` | src/benchmark_workflow.rs:1304-1445 | each accepted result is told with its own node and value and the job's group |
| `Workflow.ClosedTransferIsSilent` | src/benchmark_workflow.rs:1304-1445 | a transfer of another generation or another target tells no result and no end |
| `Workflow.BenchmarkWorkflow.Poll` | src/benchmark_workflow.rs:1180-1455 | in every interleaving the updates tell, in order, of everything published and of nothing else, and each tells it rightly by its fields: a quick completion says current only if its job's spawn receipt and generation held, else it carries no assessment; both projections hold exactly what the publications made; exactly the unfinished jobs remain; the reload fence comes down only if another process lowers it; when other processes rest, updates and jobs are exactly the ones the events call for |
| `Workflow.HonestMeaning` | src/benchmark_workflow.rs:1180-1445 | in every honest history each publication was sound and told as it should be, and the projections before and after it are those the publications up to it made of empty ones |
| `Workflow.BenchmarkWorkflow.InstallStore` | src/benchmark_workflow.rs:1742-1782 | jobs and the old receipt go with the old session, and projections are loaded exactly when the new session is current |
| `Workflow.BenchmarkWorkflow.ConfirmManagedRuntimeReload` | src/benchmark_workflow.rs:321-404 | the confirmation holds exactly when binding, raising the fence and clearing it succeed and config, controller and a nonzero pid were observed to match; in every interleaving a fence that was up is down only if another process lowered it or such an observation was made; each rise of the fence has exactly one such fall, or the fence is up; a reload under the fence that is not observed to match leaves it up |
| `Workflow.BenchmarkWorkflow.AdoptRuntimeReceipt` | src/benchmark_workflow.rs:406-471 | in every interleaving a receipt is adopted only if it matches config, database and controller and was bound, under the lock, in a current unfenced session of its generation, and adoption never lowers the fence; when other processes rest a matching receipt is adopted exactly if binding leaves no fence and the receipt's generation |
| `Workflow.Bind` | src/storage.rs:843-895 | binding keeps a raised fence, and a generation that grew comes with a raised fence |
| `Workflow.InterruptedBindIsFenced` | src/storage.rs:843-895 | wherever binding is interrupted, no session is current unless binding was complete and found nothing new, and the fence is up before the new generation shows |
| `Workflow.Stopped` | src/storage.rs:843-895 | wherever binding fails, a raised fence stays, the generation does not fall, and no session is current that was not before |
| `Workflow.StartKeepsInvariant` | src/benchmark_workflow.rs:965-1076 | adding a job over nodes not in flight keeps uncancelled jobs on the active target and pairwise disjoint |
| `Workflow.NarrowingKeepsInvariant` | src/benchmark_workflow.rs:1304-1323 | taking a node from a job, or cancelling it, keeps that invariant |
| `Workflow.RearrangedKeepsInvariant` | src/benchmark_workflow.rs:1446-1453 | removing finished jobs keeps that invariant |
| `Jsonc.StripJsonComments` | src/config.rs:219-269 | the index loop computes the comment-free text defined by structural recursion |
| `Jsonc.StripJsonTrailingCommas` | src/config.rs:271-306 | the index loop computes the comma-free text defined by structural recursion |
| `Jsonc.NormalizeJsonc` | src/config.rs:215-217 | comments first, then trailing commas |
| `Jsonc.CodeIdempotent` | src/config.rs:219-269 | stripping comments is idempotent on every input |
| `Jsonc.CodeKeepsNewlines` | src/config.rs:219-269 | stripping comments keeps the number of newlines on every input |
| `Jsonc.CommasIdempotentIff` | src/config.rs:271-306 | stripping trailing commas is idempotent if and only if no two commas are stacked before a closer |
| `Jsonc.StackedCommasNeedTwoPasses` | src/config.rs:294-300 | the input `[1,,]` needs two passes |
| `JsoncTokens.CommentsAreStripped` | src/config.rs:219-269 | on any sequence of well-formed pieces before any text, comment stripping leaves the same pieces with each comment's line breaks and goes on with that text |
| `JsoncTokens.ExtrasAreStripped` | src/config.rs:271-306 | on a comment-free decorated document, exactly the extra commas disappear |
| `JsoncTokens.NormalizationUndoesDecoration` | src/config.rs:215-306 | normalising any token sequence decorated with white space, comments and trailing commas, a line comment at the very end of the file included, gives text that reads back as exactly those tokens, strings untouched |
| `JsoncCuts.EveryTextIsCut` | src/config.rs:219-269 | every text at all falls into plain characters, strings, line comments and block comments, the last of which may be left open at the end |
| `JsoncCuts.NotesAreStripped` | src/config.rs:219-269 | of any text so cut, comment stripping keeps characters and strings and of the comments their line breaks, unterminated strings, escapes and comments included |
| `JsoncCuts.EveryTextIsQuoted` | src/config.rs:271-306 | every text falls into characters and strings |
| `JsoncCuts.TrailingCommasAreStripped` | src/config.rs:271-306 | of any text so cut, exactly the commas outside strings go whose next character that is no Unicode white space closes an array or object |
| `Tun.EnableProtects` | src/config.rs:488-560 | enabling leaves exactly one managed inbound, no other TUN and the route flag set |
| `Tun.DisableRestoresFlag` | src/config.rs:659-692 | disabling with a saved state removes every managed inbound and adds no other TUN; with another TUN the flag stays, without one it is the saved state again, exactly unless a route table that was missing has been filled meanwhile |
| `Tun.DisableRemoves` | src/config.rs:525-534 | disabling removes every managed inbound whatever was saved |
| `Tun.ToggleRestoresIff` | src/config.rs:488-692 | enabling and then disabling with the saved state gives the exact config back if and only if it had an inbound list without managed TUN |
| `Tun.ToggleLeavesEmptyInbounds` | src/config.rs:517-524 | an empty config comes back with an empty inbound list |
| `TunMeaning.AcceptedIff` | src/config.rs:488-531 | the toggle is refused exactly for a config whose parts have the wrong kind, and enabling also unless TUN inbounds and the reserved tag coincide and the tag is borne once |
| `TunMeaning.EnablingAddsOne` | src/config.rs:432-443 | enabling keeps all inbounds in order and adds the managed one, with exactly its eight fields, if it is not there |
| `TunMeaning.DisablingDropsOurs` | src/config.rs:525-534 | disabling drops exactly the managed inbounds |
| `TunMeaning.FlagOutcome` | src/config.rs:536-548 | the route flag afterwards, in every case: enabled, another TUN left, a saved state, or none with and without the managed baseline |
| `TunMeaning.RouteStaysIff` | src/config.rs:659-692 | a route table that was missing goes again exactly if it holds nothing else |
| `TunMeaning.NothingElseChanges` | src/config.rs:488-560 | nothing else in the config changes |
| `ChinaRouting.EnableIsIdempotent` | src/config.rs:1352-1429 | enabling twice equals enabling once on every config it accepts |
| `ChinaRouting.DisableUndoesEnable` | src/config.rs:1352-1429 | enabling and then disabling equals disabling alone, up to the DNS servers |
| `ChinaRouting.RulesSurviveIff` | src/config.rs:1291-1331 | the existing route rules survive the toggle if and only if each has a listed matcher and names no China tag |
| `ChinaRouting.BareActionRuleIsDropped` | src/config.rs:1325-1331 | a rule with an action and no listed matcher is dropped either way |
| `ChinaRouting.InsertIndexMeaning` | src/config.rs:795-808 | new rules go before the first rule-mode entry and after everything before it |
| `ChinaRouting.EnablingPreservesMeaning` | src/config.rs:1352-1429 | under first-match evaluation with any meaning of matchers, enabling changes the outcome only for requests undecided before the first rule-mode entry that match a China tag, and sends those direct |
| `ChinaRouting.EnabledVersusDisabled` | src/config.rs:1352-1429 | on every config that enabling accepts, enabled and disabled routing give one outcome except for requests undecided before the first rule-mode entry that match a China tag, which go direct |
| `ChinaMeaning.AcceptedIff` | src/config.rs:1352-1429 | when exactly the toggle accepts a config, told by the kinds of its parts and the presence of a direct outbound |
| `ChinaMeaning.RouteRuleMeaning` | src/config.rs:1291-1331 | a route rule loses exactly its China tags, and goes if it then selects by none of the listed fields |
| `ChinaMeaning.DnsRuleMeaning` | src/config.rs:1333-1350 | a DNS rule loses exactly its China tags and the nested rules that name one, and goes if it then selects by none of the listed fields |
| `ChinaMeaning.CleanDnsIsKept` | src/config.rs:1333-1350 | a DNS rule is kept as it is if and only if it selects by a listed field and names no China tag, at the top or nested |
| `ChinaMeaning.DnsRulesSurviveIff` | src/config.rs:1333-1350 | the existing DNS rules survive the toggle, on or off, if and only if all of them are such |
| `ChinaMeaning.RouteOutcome` | src/config.rs:1352-1429 | under first-match evaluation, with China routing on a request that no override decides and that a China rule set matches goes to the direct outbound, and every other is decided as with it off |
| `ChinaMeaning.DnsOutcome` | src/config.rs:1333-1429 | the same for names: the local server answers those of the China lists, the remote one on behalf of a China subnet those outside with a China address, and every other request is answered as with the toggle off |
| `ChinaMeaning.OffMeansStripped` | src/config.rs:1352-1429 | with the toggle off the rules are the existing ones without their China tags |
| `ChinaMeaning.RuleSetsMeaning` | src/config.rs:727-741 | other rule sets stay in order; the China ones are the four local files when enabling, and none otherwise |
| `ChinaMeaning.ServersMeaning` | src/config.rs:1192-1265 | every DNS server stays in place, the program's own remote one brought up to date, and missing ones are added at the end |
| `ChinaMeaning.DirectMeaning` | src/config.rs:1177-1190 | the direct outbound is the first of one of its two names, else the first of its type |
| `ChinaMeaning.OnlyChinaPartsChange` | src/config.rs:1352-1429 | whatever is no rule, rule set or server stays as it was |
| `Cidr.OverlapIsExact` | src/config.rs:2529-2534 | blocks overlap if and only if some 32-bit address lies in both |
| `Cidr.OverlapIsNesting` | src/config.rs:2529-2534 | blocks overlap if and only if one contains the other |
| `Cidr.ParseIsCanonical` | src/config.rs:2509-2527 | a parsed block has no bit set beyond its prefix |
| `Cidr.ShowParses` | src/config.rs:2509-2540 | printing a block and parsing it again gives the block |
| `Cidr.NormalizeIpv4Cidrs` | src/config.rs:2550-2560 | the list of the named blocks, each once, in order of first appearance, or nothing when one is malformed |
| `Cidr.AddressMeaning` | src/config.rs:2509-2527 | only four decimal numbers up to 255, without leading zeros and with dots between, are read as an address, the first being the leading byte |
| `Cidr.BlockMeaning` | src/config.rs:2509-2527 | a text is read as the block of an address and a length up to 32, and that block holds the address |
| `Cidr.LeadIsEnough` | src/config.rs:2529-2534 | a block holds every address that agrees with its network on the leading bits |
| `Cidr.NormalizedMeaning` | src/config.rs:2550-2560 | each named block is there once, unless some text names none |
| `Domains.SortDedupSorts` | src/config.rs:2898-2901 | sorting and removing repeats gives a strictly ascending list of the same strings |
| `Domains.AscendingIsUnique` | src/config.rs:2898-2901 | such a list is determined by its members |
| `Domains.NormalizeIsIdempotent` | src/config.rs:2873-2901 | normalised domains are lower case and ascending, and normalising them again changes nothing |
| `Domains.NormalizeMeaning` | src/config.rs:2873-2901 | the list holds exactly the cleaned forms of the values that have one |
| `Domains.OrdinaryDomainIsKept` | src/config.rs:2873-2901 | an ordinary domain, with white space, wildcards and dots around it, is kept as itself in lower case |
| `Placement.CarrierSettles` | src/config.rs:2697-2751 | one pass leaves a merged carrier rule before the bypass rule, else right after DNS hijacking, else first, and everything else in order |
| `Placement.PlacedIsFixed` | src/config.rs:2697-2751 | a carrier rule so placed stays where it is |
| `Placement.PlacedOverAdded` | src/config.rs:2697-2751 | a carrier rule that steps over freshly inserted rules disturbs nothing else |
| `RulePass.PassIsStable` | src/config.rs:1452-1568 | a second pass of carrier, private-address and managed steps changes nothing, given that the steps leave one another's rules alone |
| `RulePass.OnlyManagedRemain` | src/config.rs:1518-1568 | after a pass of any edit that recognises its own rules and has a managed block, that block is all that is left of the managed shape |
| `RulePass.BystandersKeepOrder` | src/config.rs:1518-1568 | rules of none of the three kinds keep their order, none lost or added, domains disjoint or not |
| `PrivateRules.BlockIsManaged` | src/config.rs:2766-2844 | every rule the table writes is later recognised as managed, in bridge and TUN mode |
| `PrivateRules.BlockIsNotCarrier` | src/config.rs:2708-2728 | in a table that keeps carriers and targets apart no managed rule is taken for the carrier rule |
| `PrivateRules.CarrierIsNotManaged` | src/config.rs:2766-2844 | in such a table with targets a settled carrier rule is not taken for a managed one |
| `PrivateRules.EditIsSound` | src/config.rs:2562-2844 | that is all the three steps need to leave one another's rules alone |
| `PrivateRules.StableIffApart` | src/config.rs:1452-1568 | passes are stable on all rule lists if and only if the carrier outbound is not the direct one, or there are no carriers or no targets, or there is a proxy, or neither the target domains without suffixes meet the carriers nor the former target domains without suffixes hold them all |
| `PrivateRules.EditIsBasic` | src/config.rs:2562-2844 | for every table, overlapping domains included, the steps recognise their own rules and the carrier rule settles |
| `PrivateAccess.WriteSettles` | src/config.rs:2562-2629 | what an application writes can be read back, inbounds are untouched, and writing it again, baseline flag and DNS server included, changes nothing |
| `PrivateAccess.ReapplyChangesNothing` | src/config.rs:1452-1568 | applying the same table again changes nothing when it keeps carriers and targets apart and no node is borrowed |
| `PrivateAccess.ReapplyAlwaysIff` | src/config.rs:1452-1568 | on outbounds of which no node is borrowed, re-applying a table changes no config if and only if the table keeps carriers and targets apart |
| `PrivateAccess.ReapplyIff` | src/config.rs:1452-1568 | when carriers and targets are apart, re-applying changes nothing if and only if the first application borrowed no node or the rules hold a placed carrier rule for the direct outbound as well |
| `PrivateAccess.ReapplyChangesNothingIff` | src/config.rs:2645-2680 | then, on rules without a carrier rule for the direct outbound, the first condition alone decides |
| `PrivateAccess.BorrowedNodeExample` | src/config.rs:2645-2680 | a config of one node and a table of one carrier domain for which the second application changes the config |
| `PrivateAccess.ReapplyOptions` | src/config.rs:1452-1471 | the same for the option record a caller gives |
| `PrivateAccess.ReapplyBaseline` | src/config.rs:2562-2629 | applying the TUN baseline again changes nothing when no node is borrowed |
| `PrivateAccess.OthersKeepOrder` | src/config.rs:1452-1568 | in the whole config every rule outside the managed, carrier and private-address shapes keeps its relative order, for every normalised table |
| `PrivateAccess.ManagedIsTheBlock` | src/config.rs:1518-1568 | in the whole config the rules of managed shape are exactly the freshly written block, for every normalised table |
| `RouteTable.TableIff` | src/config.rs:1452-1471 | when exactly the options make a table: a profile name that is not blank, and blocks that can be read |
| `RouteTable.AppliedIff` | src/config.rs:1472-1517 | when exactly it is applied, told by the kinds of the config's parts |
| `RouteTable.OptionsWritten` | src/config.rs:1452-1568 | after an application that asks for targets, the rules are other rules around one block that resolves and routes exactly the domains and suffixes and routes exactly the blocks the caller asked for, with the proxy's address and port exactly when one is given; outside it no rule of the table's shape is left |
| `RouteTable.OwnMeaning` | src/config.rs:2766-2844 | which rules count as the table's own, field by field |
| `RouteTable.FormerAreGone` | src/config.rs:1518-1568 | no rule that was written for the former targets is left outside the new block |
| `RouteTable.CarrierTagMeaning` | src/config.rs:2645-2680 | carrier traffic goes to the selector, else to the first group, else to the direct outbound, else to the first node, else to a direct outbound added for it |
| `RouteTable.CarriersWritten` | src/config.rs:2697-2751 | with carriers asked for, and tables that keep them apart from the targets, a rule carries all of them to that outbound |
| `RouteTable.PrivateIsThere` | src/config.rs:2562-2629 | without a proxy some rule keeps private addresses direct |
| `RouteTable.OutboundsStay` | src/config.rs:1481-1491 | outbounds stay in place; at most one direct outbound is added, or typed when it had no type |
| `RouteTable.FlagMeaning` | src/config.rs:2562-2629 | the route flag without a proxy: on beside the managed TUN, off when there is no TUN and no earlier set-up, else as it was |
| `RouteTable.ServersStay` | src/config.rs:2846-2871 | DNS servers stay in place, and the system server is made local or added |
| `RouteTable.OnlyTableChanges` | src/config.rs:1452-1568 | whatever is no outbound, route rule, route flag or DNS server stays as it was |
| `Outbounds.DirectSettles` | src/config.rs:1481-1491 | ensuring the direct outbound is idempotent and keeps the preferred tag |
| `Provider.WithLeadingMembers` | src/config.rs:3083-3097 | the loop lists the leading and then the other members, each once |
| `Provider.GroupLoop` | src/config.rs:2118-2128 | one group per provider that has nodes, with the names and node tags collected on the way |
| `Provider.AddMultipleProviderGroups` | src/config.rs:2100-2184 | the loops give the outbound list defined by the group, selector and auto edits |
| `Provider.UpsertLookup` | src/config.rs:3022-3038 | an upsert changes what is found under its own tag and nothing else |
| `ProviderGraph.NodesKeep` | src/config.rs:1957-1959 | adding imported nodes keeps tags unique and makes each imported tag an imported node |
| `ProviderGraph.GroupIsThere` | src/config.rs:2186-2207 | after the loop every provider with nodes has a group that lists exactly its nodes |
| `ProviderGraph.RefreshIsWhole` | src/config.rs:1633-1662 | a refresh leaves unique tags, an auto group of exactly all nodes, root members that all exist, every node reachable from the root directly or through a listed provider group, and provider groups of existing nodes |
| `ProviderGraph.StaleNodesAreGone` | src/config.rs:2319-2360 | in any outbound list, nodes that refreshed providers listed are gone unless imported again |
| `ProviderNodes.MergeKeepsOthers` | src/config.rs:1905-1975 | a merge keeps, unchanged and in order, all outbounds whose tags are neither special nor imported, nodes too unless they are replaced |
| `ProviderNodes.RefreshKeepsOthers` | src/config.rs:1633-1662 | so does a refresh, but for provider selectors, notices and nodes that a refreshed provider listed |
| `ProviderNodes.MergedOfTag` | src/config.rs:1905-1975 | a merge seen through any one tag that is not special: the outbounds of that tag are the old ones, without nodes when they are replaced, the first giving way to the node imported last |
| `ProviderNodes.RefreshedOfTag` | src/config.rs:1633-1662 | the same for a refresh and any tag that is neither special nor a provider's name, for all outbound lists |
| `ProviderNodes.ReplacedNodes` | src/config.rs:1918-1920 | with replacement the nodes of the result are exactly the imported ones, each as it was imported last, notices excepted |
| `ProviderNodes.MergedNodes` | src/config.rs:1918-1975 | without it a node that is not imported is in the result if and only if it was in the list, no refreshed provider listed it and it is no notice |
| `ProviderNodes.UntaggedOutbounds` | src/config.rs:2111-2117 | an outbound without a tag stays exactly if it is no node |
| `ProviderSpecials.NamesMeaning` | src/config.rs:1874-1903 | the root selector, the auto group, the direct and the block outbound go by the first of their two names that is there; the short names come together with the short root name |
| `ProviderSpecials.MergedSelectorMeaning` | src/config.rs:1922-1946 | a merge writes the root selector: the auto group and the imported tags, after the members it had unless nodes are replaced; type and default only where they were missing |
| `ProviderSpecials.MergedAutoMeaning` | src/config.rs:1948-1971 | the same for the auto group, with its test URL and interval |
| `ProviderSpecials.DirectOfTag` | src/config.rs:1905-1920 | the direct outbound is added only if there is none, and otherwise as it was |
| `ProviderSpecials.RefreshedGroup` | src/config.rs:2186-2207 | a refresh writes a group for every provider with nodes, listing their tags in order; new unless an outbound of that name was left |
| `ProviderSpecials.RefreshedRoots` | src/config.rs:2119-2184 | after a refresh the root selector lists, each once and in this order, the auto group, the providers with nodes and the nodes of none, the auto group all nodes; their other fields are those they had, or the usual ones |
| `Merge.StripLegacyFields` | src/config.rs:2225-2256 | the loop removes the legacy fields of every inbound and reports whether any sniffed and the first timeout and strategy |
| `Merge.MergedOutbounds` | src/config.rs:1857-1975 | the merge of a whole config merges its outbound list |
| `Merge.RefreshedConfigIsWhole` | src/config.rs:1633-1662 | a refresh that goes through leaves a whole outbound graph in the config |
| `Merge.RefreshedConfigHasNoStale` | src/config.rs:2319-2360 | in any config a refresh that goes through leaves no node that refreshed providers listed, unless imported again |
| `ProviderNodes.RefreshedConfigNodes` | src/config.rs:1633-1662 | the nodes of a refreshed config, exactly, with and without replacement |
| `ProviderNodes.RefreshedConfigOfTag` | src/config.rs:1633-1662 | the outbounds of a refreshed config, tag by tag |
| `MergeMeaning.MergeAcceptedIff` | src/config.rs:1857-2017 | a merge is refused exactly when some part of the config has the wrong kind or a node has no tag |
| `MergeMeaning.InboundsMeaning` | src/config.rs:2213-2258 | inbounds keep their order; off Linux the old auto-redirect TUN goes, and of the others exactly the five legacy fields |
| `MergeMeaning.ActionsMeaning` | src/config.rs:2260-2278 | which sniff and resolve rules take the place of those fields |
| `MergeMeaning.PrependMeaning` | src/config.rs:2280-2298 | they go to the front, in order, unless they are there already |
| `MergeMeaning.SubscriptionMeaning` | src/config.rs:2374-2400 | the subscription rule stands once, right behind the last action, and all other rules stay |
| `MergeMeaning.BypassMeaning` | src/config.rs:2402-2431 | the first bypass rule goes direct, or a new one is put first, or second behind DNS hijacking |
| `MergeMeaning.CgnatMeaning` | src/config.rs:2463-2501 | the first overlay rule goes direct, or a new one is put behind the first bypass rule, or behind the last action |
| `MergeMeaning.RouteMeaning` | src/config.rs:1977-1986 | the merged route: these three rules in turn, the final outbound where there was none, and all other keys as they were |
| `MergeMeaning.ExperimentalMeaning` | src/config.rs:1988-2016 | cache and controller get defaults where nothing is set, and all else stays |
| `MergeMeaning.DnsMeaning` | src/config.rs:1192-1229 | of the DNS section only the first remote server changes, and only if it is one of the program's own |
| `MergeMeaning.RefreshIsMerge` | src/config.rs:1633-1662 | a refresh is a merge but for the outbounds |
| `TailscaleMeaning.OnAcceptedIff` | src/config.rs:914-944 | when exactly the Tailscale toggle can be switched on |
| `TailscaleMeaning.OffMeaning` | src/config.rs:1021-1064 | switched off: exactly the program's own endpoints and servers go, and of the rules those that look like its own if such an endpoint or server was there |
| `TailscaleMeaning.OnMeaning` | src/config.rs:934-1019 | switched on: endpoint, server, name rules and, right behind DNS hijacking, route rules are added to what switching off leaves |
| `TailscaleMeaning.OnAndOff` | src/config.rs:914-1064 | switched on and off again: the lists of switching off alone, with the remote server that was added, and without any rule that looks like the program's own |
| `TailscaleMeaning.RulesComeBackIff` | src/config.rs:1021-1064 | so the rules come back if and only if switching off alone leaves none that looks like the program's own |
| `ConfigRuns.ConfigFile.Perform` | src/config.rs:833-850 | an edit that fails leaves the config as it was, `changed` is reported exactly, and TUN loop protection is kept |
| `ConfigRuns.ConfigFile.SetInternetTun` | src/config.rs:488-560 | the toggle reports the flag found before it, and leaves the managed TUN on or off as asked |
| `ConfigRuns.StepFrame` | src/config.rs:488-560 | every edit keeps loop protection and none brings in another TUN |
| `ConfigRuns.ChinaIsAside` | src/config.rs:1352-1429 | the China toggle leaves inbounds and route flag alone |
| `ConfigRuns.TailscaleIsAside` | src/config.rs:914-1064 | the Tailscale toggle leaves inbounds and route flag alone |
| `ConfigRuns.ApplyIsFramed` | src/config.rs:2562-2629 | baseline and route table add no TUN and never unset the flag that protects one |
| `ConfigRuns.MergeIsSpared` | src/config.rs:1857-2017 | the node merge adds no TUN and leaves the flag alone |
| `ConfigRuns.RefreshIsSpared` | src/config.rs:1633-1662 | the provider refresh adds no TUN and leaves the flag alone |
| `ConfigRuns.LoopProtection` | src/config.rs:636-657 | in every run of edits from a protected config, the managed TUN is there only with `route.auto_detect_interface` true |
| `ConfigRuns.FlagComesBack` | src/config.rs:488-692 | whatever edits come between enabling and disabling with the saved state, the TUN is gone and the flag is back, exactly unless a route table that was missing has been filled meanwhile |
| `TlsHello.InjectEvpnZ` | scripts/sonicwall_tls_probe.py:15-43 | succeeds exactly on a parsable hello with room; the result parses to the same hello and trailing bytes with the method prepended unless offered already |
| `TlsHello.Rewrite` | scripts/sonicwall_tls_probe.py:34-43 | one byte inserted and three length fields overwritten in place, every other byte kept |
| `TlsHello.ParseIsExact` | scripts/sonicwall_tls_probe.py:15-33 | a buffer that parses is exactly the encoding of what was parsed, followed by the rest |
| `TlsHello.EncodeParses` | scripts/sonicwall_tls_probe.py:15-33 | every well-formed hello followed by any bytes parses back (sections 6.2.1 and 7.4.1.2 of RFC 5246) |
| `TlsHello.InjectTwice` | scripts/sonicwall_tls_probe.py:15-43 | patching a patched record changes nothing |
| `HelloLayout.ParsableIff` | scripts/sonicwall_tls_probe.py:15-33 | a buffer is parsed exactly when it holds, byte for byte, a handshake record whose ClientHello fills it |
| `HelloLayout.ParseMeaning` | scripts/sonicwall_tls_probe.py:15-33 | and then each field is these bytes |
| `HelloLayout.PatchMeaning` | scripts/sonicwall_tls_probe.py:34-43 | the patch offers method 236 first unless it is offered, keeps all other fields, and has room exactly while the method count and the record length can still be counted |
| `HelloLayout.PatchedBytes` | scripts/sonicwall_tls_probe.py:34-43 | the patched bytes: one more in front of the methods, one counted in each of the three big-endian lengths, all others unchanged |
| `WebSocket.CdpConnection.SendFrame` | scripts/get-airtcp-singbox-url.py:178-193 | exactly the encoding of one masked frame is written |
| `WebSocket.CdpConnection.ReadExact` | scripts/get-airtcp-singbox-url.py:242-251 | however `recv` splits the stream, exactly the next bytes are taken |
| `WebSocket.CdpConnection.RecvFrame` | scripts/get-airtcp-singbox-url.py:195-228 | the next message of the stream is delivered and each skipped ping is answered by one pong with its payload |
| `WebSocket.MaskUndoes` | scripts/get-airtcp-singbox-url.py:178-193 | masking twice with one key gives the payload back (section 5.3 of RFC 6455) |
| `WebSocket.FrameRoundTrip` | scripts/get-airtcp-singbox-url.py:178-228 | one frame of any length, masked or not, before any bytes, is read back (section 5.2 of RFC 6455) |
| `WebSocket.StreamRoundTrip` | scripts/get-airtcp-singbox-url.py:195-228 | successive reads of any concatenated frames deliver the message payloads in order, pings and pongs skipped |
| `FrameLayout.EncodeMeaning` | scripts/get-airtcp-singbox-url.py:178-193 | a frame on the wire, byte by byte: final bit and opcode, mask bit, the shortest length form big-endian, the key and the payload with each bit flipped where the key has one |
| `FrameLayout.DecodeMeaning` | scripts/get-airtcp-singbox-url.py:195-217 | a frame is read from any stream exactly when the stream holds it to the end, in any length form, and opcode, key, payload and rest are these bytes |
| `FrameLayout.ReadingMeaning` | scripts/get-airtcp-singbox-url.py:219-228 | a message is delivered, a close or a truncated frame ends the reading, every other frame is passed by and pings are noted |
| `FrameLayout.FramesAreSkipped` | scripts/get-airtcp-singbox-url.py:219-228 | any run of frames that are neither messages nor a close is skipped, with the pings among them in order |
| `Bytes.BigWeights` | scripts/get-airtcp-singbox-url.py:186-189 | the first byte of a length field is the most significant one |
| `Bytes.XorMeaning` | scripts/get-airtcp-singbox-url.py:192 | exclusive-or, bit by bit |

## Left out

- `src/auto_pick.rs`, `src/builtin_usability_probe.rs`, `src/atomic_file.rs`, `src/process_inspection.rs`, `src/ruleset.rs`: processes, files and network.
- `src/cli.rs`, `src/main.rs`, `src/clash.rs`, `src/process_command.rs`: flag parsing and field copying, which would only add easy members.
- SQLite, file locks and threads behind the store: the database is its generation, markers and lock; other processes are arbitrary steps that respect the lock and never lower the generation.
- Controller address normalisation (`normalize_controller_base_url`): controllers are compared as already normalised strings.
- Automatic sustained scope, history caches, usability runs and debouncing in `src/benchmark_workflow.rs`: they feed displays and schedules, not publication.
- The result counters in a sustained completion and the progress labels among the updates: they are display only.
- Labels, explanation text, status strings and their truncation.
- `AutomaticSelectionState`: the route plan that follows a decision is applied by the caller and is not part of this model.
- Parsing and printing of JSON text around the edits: the edits start from parsed values; `Jsonc` covers the normalisation that precedes parsing.
- Fractional JSON numbers: no edit reads one.
- `build_default_config_with_options` and the two-provider variant `add_provider_groups`: the first is one literal, the second repeats the general group code.
- Updates in place of nested JSON: the edits are functions on values, so aliasing inside one config is not modelled; the source has none.
- `ensure_cgnat_direct_route` redirecting Tailscale's own CGNAT rule: the edit is modelled, no claim is made about the interplay.
- ReapplyIff: speaks of tables that keep carriers and targets apart; for the others `ReapplyAlwaysIff` says that some config changes, not which ones do.
- RefreshIsWhole: requires unique tags and no name shared among nodes, providers and special outbounds, because an upsert finds entries by tag alone.
- Receive time limits and reassembly of continuation frames in the WebSocket client, which the script does not do.
- The page scripting, URL scraping and the other two copies of the WebSocket class in `scripts/`.
