# Verified models of the LEXA hub

The hub is a set of small state machines that must survive crashes, lost acknowledgements and arbitrary
interleavings, together with a few exact transformations. This project models them in Dafny and proves what they
promise over every input and every run. `dafny verify dfyconfig.toml` checks all of it.

Where the source changes state, the model is a class or a method with loops, proved against a pure step function;
the properties are then lemmas about that function and about its runs. History that the program does not keep (all
frames ever fired, which publishes were acknowledged) is carried along in ghost fields or in the specification state.

| file | component |
|---|---|
| `Migrate.dfy` | crash-safe versioned config migration (`cmd/lexa-migrate`) |
| `Lanes.dfy`, `Segments.dfy`, `Recovery.dfy`, `Spool.dfy` | the disk spool: the contract of a priority class, and segments, cursor file and recovery implementing it (`internal/spool`) |
| `Frames.dfy`, `Uplink.dfy`, `UplinkRuns.dfy`, `UplinkRestarts.dfy`, `UplinkDedupe.dfy`, `UplinkKeys.dfy`, `Drain.dfy` | store-and-forward uplink: the machine, evictions, restarts, the deduplicating receiver, one whole drain (`cmd/cloudlink/batch.go`) |
| `Publisher.dfy`, `SelfHealing.dfy`, `Dersite.dfy` | optimistic retained-document publishers and the broker behind them (`cmd/hub/desired.go`, `adv.go`, `dersite.go`) |
| `EpisodeId.dfy`, `Episodes.dfy`, `EpisodeRuns.dfy`, `EpisodeRestart.dfy`, `AlarmEdges.dfy`, `AlarmRuns.dfy` | breach episodes, restart recovery, alarm edges (`cmd/hub/breach.go`, `snapshot.go`, `logevent.go`) |
| `Tariff.dfy` | tariff compiler and the cost model that reads its output (`cmd/hub/tariff.go`, `internal/orchestrator/costmodel.go`) |
| `Intent.dfy`, `Downlink.dfy` | charge-now override with its generation-guarded timer, command rate limit (`cmd/hub/intent.go`, `cmd/cloudlink/downlink.go`) |
| `Grid.dfy`, `Watts.dfy` | projection onto the 288-step grid, fixed-point watts (`cmd/hub/main.go`, `openadr_adopt.go`, `state.go`, `cmd/modbus/main.go`) |

## Where the code does less than its comments say

Each of these is proved: a counterexample, and beside it the exact condition under which the claim holds.

- A `.pre-vN` backup whose write was cut half way is kept for good, so the pre-migration original is lost
  (`Migrate.TornBackupIsKept`; every other backup is exact, `Migrate.BackupsOk`). A file refused as too new is not
  always untouched: recovery runs first, so a parsable `.staged` replaces it (`Migrate.ProcessFile`). A run that is
  not cut panics if and only if a step is due on the literal document `null` and does not refuse it, as the shipped
  step does not (`Migrate.CommitStep`, `Migrate.ProcessFile`).
- The spool unlocks between Peek and Commit. If eviction moves the cursor meanwhile, Commit consumes records nobody
  sent; if it empties the class, Commit falls on another class, even on an event (`UplinkRuns.EvictionSkipsAnEvent`).
  `Uplink.CommitSkipsNothingIff` is the exact condition.
- Opening the spool is said never to skip, and a committed offset never to point past durable bytes. Both fail.
  Once a class with a cursor file has lost its last segment, numbering restarts below the file's number, and the Open
  after next deletes or passes over what was appended between (`Spool.StaleCursorSkips`). And a process that found
  records but has not written to the class since syncs only the cursor file when it commits
  (`Spool.CommitsUnsynced`): a power cut may take the records, Open clamps its own cursor but leaves the file, and
  what is appended up to the file's offset is passed over at the Open after that (`Spool.UnsyncedCommitSkips`). An Open
  skips if and only if, since the last commit, an Open found the file beside no segment or pointing past the end of
  its own, and the file lies behind a record that is there and was not durably consumed (`Recovery.SkipsIffStale`,
  `Spool.Fifo.Reopen`). In the whole uplink nothing is left behind along a run and its continuations if and only if no
  restart meets a cursor file without a segment and no power cut takes durably consumed records
  (`UplinkRestarts.OverrunsNothingIff`), and the latter cannot happen if and only if every commit is by a process that
  has written to the class since opening it, or of records already synced (`UplinkRestarts.CutsSpareIff`).
- A retry is said to send the same records under the same seq. It peeks again, so it may add records, which a
  receiver that deduplicates drops while the hub commits them (`UplinkDedupe.LostAckLosesAnEvent`). Records lost with
  the power are said never to have been peeked, but Peek does not sync: such a record may have arrived, and then the
  next event goes out under its seq and is dropped (`UplinkDedupe.PowerCutLosesTheNextEvent`). With one class per
  stream and no eviction, restart or oversized record, the receiver misses a consumed record if and only if under
  each key it arrived with, the first frame to arrive was too short to reach it (`UplinkKeys.MissingIff`).
- A publish fired over an unresolved one abandons it; when the newer one fails the belief goes back to the abandoned
  one, which nobody acknowledged (`Publisher.AbandonedPublishIsBelieved`; `Publisher.BeliefAccuracy` is the exact
  condition).
- A meter breach with an empty mRID during an episode begins an alert that no end closes
  (`EpisodeRuns.UnnamedBreachIsNeverClosed`); with no episode open it begins nothing (`EpisodeRuns.UnnamedBreachFails`).
  Breaches and alerts agree along a run and in its named continuations if and only if every assessed plan breach has
  an mRID (`EpisodeRuns.FollowsIffNamed`). The mRID chosen never depends on map order, but the issue time inside the
  episode ID does (`Episodes.IssueTimeDependsOnOrder`, if and only if).
- Episode IDs stay distinct over a restart, whatever comes next, if and only if nothing had begun or the accepted
  snapshot names the latest episode (`EpisodeRestart.IdsStayDistinctIff`), and over any number of restarts if and only
  if each restored the counter (`EpisodeRestart.IdsStayDistinctOverLives`); a snapshot of a closed episode does not
  carry the counter (`EpisodeRestart.ClosedSnapshotForgetsCounter`). A standing episode does not always survive: a
  plan that arrives before the retained report ends it (`EpisodeRestart.PlanBeforeRetainedReport`). The first assessed
  event is silent if and only if it is a breach or a report for the restored control
  (`EpisodeRestart.FirstEventIff`), and a run is silent if and only if what was delivered supports that control at
  every assessed event (`EpisodeRestart.SameEvidenceIsSilent`).
- The snapshot's age check multiplies in 64 bits and wraps, on both sides: an age of 9223372037 s passes under every
  smaller limit (`Episodes.AncientSnapshotPasses`) and a limit of that size rejects fresh snapshots
  (`Episodes.LimitWraps`). `Episodes.LoadGate` gives the exact accepted set, wrapped ages included. A charge-now
  request of more than 292 years is cut short the same way (`Intent.LongRequestIsCutShort`, if and only if).
- The hub's watt encoder does not clamp: outside the range its value is no int16 (`Watts.HubEncodeInRange`, if and
  only if).

## Model

| member | source | states |
|---|---|---|
| Migrate.CheckRegistry | cmd/lexa-migrate/migrations.go:70-80 | accepts a registry exactly when its versions are 1, 2, 3, ... |
| Migrate.MaxKnownVersion | cmd/lexa-migrate/migrations.go:54-62 | the greatest registered version, which for a contiguous registry is its length |
| Migrate.SteppedVersion | cmd/lexa-migrate/migrate.go:97-100 | the document a step yields reads back as that step's version, whatever the step did to the version entry |
| Migrate.Disk.WriteStaged | cmd/lexa-migrate/migrate.go:172-183 | writes the whole staged file, or leaves nothing or a torn one when cut |
| Migrate.Disk.BackupOnce | cmd/lexa-migrate/migrate.go:140-151 | an existing backup is never touched; a new one is the live file, or torn when cut |
| Migrate.BackupKeepsSafe | cmd/lexa-migrate/migrate.go:140-151 | a backup, whole or torn, keeps every state of the disk that interrupted runs may reach |
| Migrate.CommitKeepsSafe | cmd/lexa-migrate/migrate.go:172-183 | renaming the staged file over the live one moves the live document exactly one step on |
| Migrate.RecoverStaged | cmd/lexa-migrate/migrate.go:240-262 | a leftover that parses becomes the live file, any other is thrown away; the disk stays safe under a cut; a dry run changes nothing |
| Migrate.CommitStep | cmd/lexa-migrate/migrate.go:87-105 | one step: backup, stage, rename; either committed in full or the live file is unchanged; safe at every cut; on a null live file the step's error or the panic, unless cut before it |
| Migrate.RunSteps | cmd/lexa-migrate/migrate.go:82-107 | without a cut the loop ends with the crash-free document, or on a null file as its first due step does; with a cut the disk stays safe |
| Migrate.ProcessFile | cmd/lexa-migrate/migrate.go:30-108 | safe before and after whatever is cut; an uncut run ends where the crash-free run does: the original, taken through the steps one by one, with every key that no step owns as it was; each refusal if and only if there is cause for it, and what it leaves; it panics if and only if a step is due on a null file and does not refuse it |
| Migrate.CleanRunResumes | cmd/lexa-migrate/migrate.go:82-107 | resuming from any document on the way ends where the crash-free run from the original does |
| Migrate.MigrateUnderCuts | cmd/lexa-migrate/migrate.go:82-107 | any number of runs cut between any two file operations, then one complete run, equals one crash-free run, and every key that no step owns is as it was |
| Migrate.CutsLeaveOthers | cmd/lexa-migrate/migrations.go:12-15 | at every cut, on the live file and in every whole backup, each key that no step owns is as it was in the original |
| Migrate.ShippedStepOnlyStamps | cmd/lexa-migrate/migrations.go:21-30 | migrating with the shipped registry adds the version and changes nothing else |
| Migrate.TornBackupIsKept | cmd/lexa-migrate/migrate.go:140-151 | counterexample: after a torn backup the migration completes and the original is gone |
| Lanes.CommitConsumes | internal/spool/spool.go:406-459 | a commit moves one class's cursor over exactly the records it consumes and nothing else |
| Lanes.CommitTakesExactly | internal/spool/spool.go:406-459 | it takes exactly n records off the front of the class last peeked, or of the top one when that is empty, or all there are |
| Spool.Fifo.Append | internal/spool/spool.go:339-366 | the record ends the last segment, or a new one when it does not fit, with a sync on rotation; no position moves |
| Spool.Fifo.EvictOldest | internal/spool/internal.go:59-87 | drops exactly the oldest segment and moves the read position to that segment's end if it was before it |
| Spool.Fifo.PendingCount | internal/spool/internal.go:28-43 | the per-segment sum equals what lies past the read position |
| Spool.Fifo.Peek | internal/spool/spool.go:373-400 | the oldest pending records, greedily up to both limits, consuming nothing |
| Spool.Fifo.Walk | internal/spool/internal.go:161-212 | steps over the oldest n pending records, or all of them, across segment boundaries |
| Spool.Fifo.Commit | internal/spool/spool.go:406-459 | consumes the n oldest pending records, durably only if the cursor file was written; syncs them only if a segment is open for writing; says what each failure leaves |
| Spool.Fifo.GcConsumed | internal/spool/internal.go:138-154 | deletes exactly the segments numbered below the cursor and moves no position |
| Spool.Fifo.Reopen | internal/spool/spool.go:234-296 | after any power cut or process death the class is what the contract's Open says; it skips an unconsumed record it finds if and only if the class is stale and its cursor file lies behind one; it is stale if and only if, since the last commit, an Open found the file beside no segment or past the end of its own |
| Recovery.SkipsIffStale | internal/spool/spool.go:253-296 | dropping below the loaded cursor and normalising skips a record that was not durably consumed if and only if the class is stale and the cursor's number and offset lie behind one |
| Recovery.StaleFrom | internal/spool/spool.go:271-296 | Open makes a class stale if and only if it finds the cursor file beside no segment, or pointing past the end of its segment |
| Recovery.PastEndIff | internal/spool/spool.go:271-296 | while the file means the durable position, it points past the end of its segment after a loss if and only if the loss took durably consumed records |
| Recovery.LoadClass | internal/spool/spool.go:253-268 | dropping segments below the loaded cursor and normalising it restores a sound class, for stale cursor files and for ones past the end of their segment too |
| Recovery.NextNumber | internal/spool/segment.go:329-351 | the next segment number follows the newest on disk and restarts at 1 when none is |
| Spool.StaleCursorSkips | internal/spool/spool.go:253-296 | counterexample, for any saved cursor: two restarts of either kind after the last segment was evicted skip the record appended between |
| Spool.CommitsUnsynced | internal/spool/spool.go:441-452 | counterexample: append, process death, Open, commit; the record is durably consumed and not synced |
| Spool.UnsyncedCommitSkips | internal/spool/spool.go:271-296 | counterexample, for any class in that state: a power cut takes the newest record, and the next one appended to its segment is skipped by the Open after it |
| Frames.TakeLeadingRun | cmd/cloudlink/batch.go:175-180 | the longest prefix of one stream: the next record is of another |
| Frames.BuildFrame | cmd/cloudlink/batch.go:235-251 | for any size function: the first fitting prefix of the halving chain, or the drop of one record |
| Frames.FirstFitIsLargest | cmd/cloudlink/batch.go:235-251 | the result lies on the halving chain and no larger point of the chain fits |
| Frames.SeqStore.Bump | cmd/cloudlink/batch.go:357-366 | a written advance adds one for its stream alone; a failed write changes neither memory nor file |
| Uplink.CommitKeepsInv | cmd/cloudlink/batch.go:210-219 | every record a commit consumes was acknowledged, dropped as too large, or is counted as skipped |
| Uplink.FireKeepsInv | cmd/cloudlink/batch.go:167-199 | a fired frame holds the oldest pending records, all of its own stream |
| Uplink.EvictKeepsInv | internal/spool/internal.go:59-87 | eviction loses only what it counts as evicted |
| Uplink.StepKeepsInv | cmd/cloudlink/batch.go:167-219 | every step, including lost acknowledgements, failed writes, power cuts and process restarts, keeps the account complete |
| Uplink.Final | cmd/cloudlink/batch.go:134-219 | over every run each consumed record was in an acknowledged frame of its stream, dropped as too large, evicted, skipped by a commit, or left behind by an Open |
| Uplink.DurableRecordsAreAccounted | internal/spool/spool.go:20-35 | a synced record is at any later time still in its place and pending or in one of those five accounts |
| Uplink.ConsumedNeverReturns | internal/spool/spool.go:23-27 | a durably consumed record of any class is never pending again, synced or not |
| Uplink.CommittedNeverReturns | cmd/cloudlink/batch.go:210-219 | whatever a completed commit consumed is never pending again, in any later state of the run |
| Uplink.CommitSkipsNothingIff | internal/spool/spool.go:413-432 | a commit consumes only its frame's records if and only if nothing moved the cursor, nothing follows the frame, or nothing is pending anywhere |
| UplinkRuns.CalmRunsSkipNothing | cmd/cloudlink/batch.go:167-219 | in runs without eviction from the class of the frame in flight nothing is ever skipped |
| UplinkRuns.EvictionSkipsAnEvent | internal/spool/spool.go:413-419 | counterexample: an event is durably consumed and was in no frame |
| UplinkRestarts.SafeRunsOverrunNothing | internal/spool/spool.go:271-296 | while no restart meets a cursor file without a segment and no power cut takes durably consumed records, Open leaves nothing behind |
| UplinkRestarts.UnsafeRestartGoesStale | internal/spool/spool.go:234-296 | the first restart of any other kind leaves nothing behind itself but makes a class stale |
| UplinkRestarts.OverrunsNothingIff | internal/spool/spool.go:234-296 | along a run and every safe continuation of its parts nothing is left behind if and only if every restart of the run is of the first kind |
| UplinkRestarts.CutsSpareIff | internal/spool/spool.go:441-452 | at no point of a run can a power cut take durably consumed records if and only if every commit is by a process that has written to the class since opening it, or of records already synced |
| UplinkRestarts.FirmRunsAreSafe | internal/spool/spool.go:234-296 | with such commits it is enough that no restart meets a cursor file without a segment |
| UplinkDedupe.RunKeepsCount | cmd/cloudlink/batch.go:357-366 | seqs never decrease over any run and equal the number of successful advances |
| UplinkDedupe.SharedSeqIff | cmd/cloudlink/batch.go:182-219 | two frames of a stream share a seq if and only if no advance succeeded between them |
| UplinkDedupe.DedupeLosesNothing | cmd/cloudlink/batch.go:131-155 | for all runs: when no acknowledged frame holds a record that the frame kept for its key lacks, a receiver keeping the first frame of each key holds every consumed record outside the other four accounts |
| UplinkDedupe.LostAckLosesAnEvent | cmd/cloudlink/batch.go:168-199 | counterexample: an acknowledged, committed event that such a receiver does not hold |
| UplinkDedupe.PowerCutLosesTheNextEvent | internal/spool/spool.go:29-32 | counterexample: an unsynced record was sent and arrived, the power goes, and the next event under its seq is committed but not held |
| UplinkKeys.TameRunIsKeyed | cmd/cloudlink/batch.go:167-219 | with one class per stream and no eviction, restart or oversized record, frames that share a key start at the same record, over every run |
| UplinkKeys.FrameIsKeptIff | cmd/cloudlink/batch.go:182-219 | then the frame kept for a key holds all of another frame of that key if and only if that one is not longer |
| UplinkKeys.MissingIff | cmd/cloudlink/batch.go:131-155 | then every consumed record was acknowledged, and the receiver misses it if and only if under each key it arrived with the first frame to arrive ends before it |
| UplinkKeys.LosesIffLonger | cmd/cloudlink/batch.go:131-155 | a frame whose records arrived under no other key loses one of them if and only if it is longer than the first frame of its key |
| Drain.Store.Peek | internal/spool/spool.go:373-400 | the oldest records of the most urgent class with any, as many as both limits allow |
| Drain.Store.Commit | internal/spool/spool.go:406-459 | consumes from the class last peeked, or from the top one when that is empty |
| Drain.CommitTakesFront | cmd/cloudlink/batch.go:167-219 | committing after a peek takes records off the front of the whole backlog |
| Drain.Batcher.SendRun | cmd/cloudlink/batch.go:182-219 | records leave only in an acknowledged frame whose seq was advanced first, or alone when no frame can carry them; the frame is the largest point of the halving chain that fits; they do leave once published and advanced, unless the sync fails |
| Drain.Batcher.DrainOne | cmd/cloudlink/batch.go:167-219 | the frame offers the oldest records of the most urgent class, all of one stream, up to 500 and 256 KiB; no progress without error exactly on an empty spool; what it took is the front of the backlog |
| Drain.Batcher.DrainAll | cmd/cloudlink/batch.go:134-155 | whatever fails, what left is a prefix of the backlog in order; it stops early only without a connection or on an empty spool, and with an always-acknowledging cloud the spool ends empty |
| Publisher.HarvestKeepsInv | cmd/hub/desired.go:223-245 | resolving a publish either way keeps belief, seq and history consistent |
| Publisher.ApplyKeepsInv | cmd/hub/desired.go:253-341 | one evaluation keeps them consistent, also when it fires over an unresolved publish |
| Publisher.SeqDiscipline | cmd/hub/desired.go:253-341 | fired seqs never decrease, grow by at most one, and repeat only after a rollback of the earlier use |
| Publisher.FiresExactly | cmd/hub/desired.go:253-341 | the last call of any run fires exactly one document, its own, when nothing is believed, another content is, or the believed document is 150 s old; otherwise none |
| Publisher.BeliefFollowsCall | cmd/hub/desired.go:289-318 | after any call not rolled back at once the believed document has that call's content and is younger than 150 s |
| Publisher.AcknowledgedIsSettled | cmd/hub/desired.go:223-245 | the call that finds an acknowledgement records it, and no later call of any run rolls that publish back |
| Publisher.RollbackIsRetried | cmd/hub/desired.go:44-57 | the call that finds a rollback fires the same content again if its clock has not gone back, over every run |
| Publisher.BeliefAccuracy | cmd/hub/desired.go:151-164 | with nothing pending the belief is the last acknowledged publish if and only if no stacked publish was rolled back since |
| Publisher.UnstackedBeliefIsAcked | cmd/hub/desired.go:305-318 | on runs that never fire over an unresolved publish the belief is always the last acknowledged one |
| Publisher.AbandonedPublishIsBelieved | cmd/hub/desired.go:305-318 | counterexample: a stacked rollback restores an abandoned publish and its content is not resent before the heartbeat |
| Publisher.DesiredActuator.HarvestPending | cmd/hub/desired.go:223-245 | refines the harvest of the machine that BeliefAccuracy and AcknowledgedIsSettled are about: only what is in flight stays pending, and failure or timeout alone restores belief and seq from before the publish |
| Publisher.DesiredActuator.ApplyCommand | cmd/hub/desired.go:253-341 | refines that machine's evaluation; it fires a document with the command's content and time exactly when nothing is believed, another content is, or the believed document is 150 s old |
| Publisher.AdvDocState.HarvestDevice | cmd/hub/adv.go:715-742 | the per-device copy, which keeps only a key and a time, refines the same harvest; failure or timeout alone restores them |
| Publisher.AdvDocState.PublishDevice | cmd/hub/adv.go:747-787 | the per-device copy refines the same publish step and fires under the same three conditions, so all its run properties hold of it |
| SelfHealing.StableInvariant | cmd/hub/desired.go:253-341 | once the intent is stable every evaluation is within a heartbeat of a document fired with it |
| SelfHealing.StableIntentIsRetained | cmd/hub/desired.go:44-57 | from any reachable state, after heartbeat + gap + latency the broker retains the intent, never older than that bound |
| SelfHealing.ChangedIntentIsRetained | cmd/hub/desired.go:289-297 | an intent that differs from the belief, and would still after a rollback, is retained by the broker after gap + latency, without waiting for a heartbeat |
| SelfHealing.RetainedIsNeverStale | cmd/hub/desired.go:44-57 | hence a consumer's staleness bound is never reached while gap and latency stay within one heartbeat |
| Dersite.DersiteAggregator.HarvestLocked | cmd/hub/dersite.go:669-689 | refines the harvest of the machine that SiteBeliefIsAcked is about: only what is in flight stays pending, failure or timeout alone restores hash and time |
| Dersite.DersiteAggregator.PublishWhenDue | cmd/hub/dersite.go:608-663 | refines the tick of that machine; it fires exactly when nothing is in flight and the believed report is missing, 60 s old with another hash, or 300 s old |
| Dersite.SiteBeliefIsAcked | cmd/hub/dersite.go:608-689 | in every run the belief with nothing pending is the last acknowledged report; acknowledged reports are at least 60 s apart, and 300 s when the later repeats the earlier |
| Dersite.TickFiresExactly | cmd/hub/dersite.go:608-663 | the last tick of any run fires exactly one report, its own, under those conditions; otherwise none |
| Dersite.BeliefFollowsTick | cmd/hub/dersite.go:608-663 | after a tick that nothing in flight blocks and that is not rolled back, the believed report is that tick's or younger than 60 s, and in any case younger than 300 s |
| Dersite.RollbackIsResent | cmd/hub/dersite.go:665-689 | the tick that finds a rollback sends the same report again if its clock has not gone back, over every run |
| EpisodeId.CounterIsUnique | cmd/hub/breach.go:289-329 | IDs with different counters differ as strings, whatever the mRIDs contain |
| Episodes.ScanIsLeast | cmd/hub/breach.go:372-403 | the scan with its early break finds the active mRID or the least one |
| Episodes.ArbitrationIgnoresOrder | cmd/hub/breach.go:372-403 | every enumeration of the device map yields the same mRID |
| Episodes.IssueTimeDependsOnOrder | cmd/hub/breach.go:372-403 | the issue time is independent of the order if and only if all holders of the chosen mRID share it |
| Episodes.BeginSaysWhy | cmd/hub/breach.go:289-329 | a begin names the new episode and gives the plan's breach figure for figure, or else a device that holds the mRID with its issue time |
| Episodes.SnapshotOnEveryEdge | cmd/hub/breach.go:162-207 | while writes succeed the file is written at every edge and on demand during an episode, with that moment and identity, and at no other time |
| Episodes.BreachEpisodes.EffectiveBreach | cmd/hub/breach.go:372-403 | the loop with its early exit finds the mRID that ArbitrationIgnoresOrder characterises |
| Episodes.BreachEpisodes.EmitEdge | cmd/hub/breach.go:289-329 | refines the edge step that the run lemmas of EpisodeRuns are about |
| Episodes.BreachEpisodes.PlanArrives | cmd/hub/breach.go:240-248 | a plan replaces the evidence and emits the specified edge; safety plans change nothing |
| Episodes.BreachEpisodes.ReportArrives | cmd/hub/breach.go:255-274 | report handling is the specified step; other kinds change nothing |
| Episodes.BreachEpisodes.RestoreIdentity | cmd/hub/breach.go:147-158 | restores exactly the saved identity; the counter becomes the greater of its own and the saved one |
| Episodes.LoadGate | cmd/hub/snapshot.go:144-162 | the exact accepted set for every age and every configured limit: up to 292 years a non-negative age within the limit, beyond it exactly when the wrapped product is |
| Episodes.AncientSnapshotPasses | cmd/hub/snapshot.go:144-162 | counterexample: an age of 9223372037 s passes as fresh under every limit of up to 292 years |
| Episodes.LimitWraps | cmd/hub/snapshot.go:54-59 | a configured limit accepts a snapshot of age zero if and only if its own product does not wrap negative; one of 9223372037 s rejects it |
| EpisodeRuns.StreamIsPaired | cmd/hub/breach.go:289-329 | over every run each end carries the mRID and episode ID of the begin just before it |
| EpisodeRuns.PairedByPosition | cmd/hub/breach.go:289-329 | no end without its begin, no two ends adjacent |
| EpisodeRuns.FollowsIffNamed | cmd/hub/breach.go:289-329 | along a run and in every named continuation of its parts breaches and open alerts agree at each assessed step if and only if every assessed plan breach of the run has an mRID |
| EpisodeRuns.UnnamedBreachFails | cmd/hub/breach.go:289-329 | in every state that named events reach, an unnamed plan breach fails at that step with no episode open, and at a following clear during one |
| EpisodeRuns.UnnamedBreachIsNeverClosed | cmd/hub/breach.go:289-329 | counterexample: an empty mRID begins an alert that is never ended |
| EpisodeRuns.UnassessedEventsChangeNothing | cmd/hub/breach.go:240-274 | safety plans, other report kinds and unnamed faults change nothing and emit nothing |
| EpisodeRuns.PipelineAlternates | cmd/hub/logevent.go:257-277 | episodes fed into the site alarm give strictly alternating alarm and return to normal, even across re-alerts |
| EpisodeRuns.BeginsAreNumbered | cmd/hub/breach.go:289-329 | the begins of a run carry consecutive counters |
| EpisodeRuns.NumberedAreDistinct | cmd/hub/breach.go:289-329 | hence no two of them print the same episode ID |
| EpisodeRestart.SnapshotTracksIdentity | cmd/hub/breach.go:182-207 | while no write fails the snapshot names the current episode and counter |
| EpisodeRestart.IdsStayDistinctIff | cmd/hub/breach.go:147-158 | every second life keeps episode IDs distinct if and only if the restart restored the counter: nothing had begun, or the accepted snapshot names the latest episode |
| EpisodeRestart.IdsStayDistinctOverLives | cmd/hub/breach.go:147-158 | over any number of lives, after every part of them IDs stay distinct whatever the next life brings, if and only if every restart restored the counter |
| EpisodeRestart.RestartContinuity | cmd/hub/snapshot.go:144-162 | a crash with an open episode: the identity is back if and only if the snapshot is accepted and current; then no ID begins twice over both lives and the streams join |
| EpisodeRestart.EvidenceIsDelivered | cmd/hub/breach.go:240-274 | the evidence held is the latest plan and each device's latest report |
| EpisodeRestart.FirstEventIff | cmd/hub/breach.go:289-329 | after a restart with an open episode the first assessed event is silent if and only if it is a plan breach or a device report for the restored mRID |
| EpisodeRestart.SameEvidenceIsSilent | cmd/hub/breach.go:147-158 | a run after such a restart emits nothing if and only if at every assessed event the plans and reports delivered so far support the restored mRID |
| EpisodeRestart.VanishedEvidenceEndsOnce | cmd/hub/breach.go:289-329 | after a supported run the next event emits exactly the restored episode's end if and only if the delivered plans and reports leave nothing breaching |
| EpisodeRestart.ClosedSnapshotForgetsCounter | cmd/hub/breach.go:162-172 | counterexample: an episode ID is reused after a restart with no open episode |
| EpisodeRestart.PlanBeforeRetainedReport | cmd/hub/breach.go:289-329 | counterexample: a plan before the retained report ends a standing episode |
| AlarmEdges.EdgesAlternate | cmd/hub/logevent.go:188-230 | a bit's events alternate and the reported bit is the baseline flipped once per event |
| AlarmEdges.EdgesSpaced | cmd/hub/logevent.go:188-230 | a bit's events are at least the floor apart |
| AlarmEdges.LagIsBoundedByFloor | cmd/hub/logevent.go:188-230 | the reported bit differs from the measured one only within the floor of the last event |
| AlarmEdges.PersistentChangeEmittedOnce | cmd/hub/logevent.go:188-230 | a change that lasts past the floor is emitted exactly once |
| AlarmEdges.DevAlarmState.ObserveBits | cmd/hub/logevent.go:188-230 | every mapped bit steps on its own and yields the specified events; every other bit follows the measurement |
| AlarmEdges.LogEventDetector.MeasurementArrives | cmd/hub/logevent.go:178-230 | refines the step that AlarmRuns is about: the first measurement is the silent baseline, any other steps that device alone and advances the counter by one per event |
| AlarmEdges.LogEventDetector.BreachAlertArrives | cmd/hub/logevent.go:257-277 | refines the alert step: a second begin is absorbed and an end always posts the return |
| AlarmRuns.PostsAreEdges | cmd/hub/logevent.go:178-277 | over every interleaving, the events posted for a mapped bit of a device are exactly that bit's edge sequence, so the four run lemmas above hold of them |
| AlarmRuns.PostsAreNumbered | cmd/hub/logevent.go:279-300 | over every interleaving of measurements and alerts the k-th posted event has the number (count + k + 1) mod 65536 |
| AlarmRuns.NumbersDiffer | cmd/hub/logevent.go:279-300 | any two of fewer than 65536 events in a row have different numbers |
| AlarmRuns.PostsAreLabelled | cmd/hub/logevent.go:188-230 | every device event is keyed by its own device, code, time and number, and says alarm exactly under an alarm code |
| AlarmRuns.KeysDiffer | cmd/hub/logevent.go:208-230 | no two device events among them print the same key, whatever the devices are called |
| AlarmRuns.SitePostsFollowAlerts | cmd/hub/logevent.go:257-277 | over every interleaving the site's events are those the alerts call for, each under its episode's ID, whatever is measured in between |
| Tariff.TilingLookup | internal/orchestrator/costmodel.go:54-62 | runs that tile a range give every hour the one run that holds it |
| Tariff.UniqueOwner | cmd/hub/tariff.go:115-235 | a cell covered once has one covering period |
| Tariff.FillGrid | cmd/hub/tariff.go:115-235 | fails exactly on a malformed period or a cell claimed twice, a repeated day counting twice |
| Tariff.CheckDays | cmd/hub/tariff.go:115-235 | accepts exactly when every day prices like Sunday |
| Tariff.BuildModel | cmd/hub/tariff.go:244-288 | the runs tile the day, neighbours differ in rate or label, every hour keeps both |
| Tariff.ModelMeaning | cmd/hub/tariff.go:244-288 | an hour reaches the peak threshold exactly if it has the top rate and there are at least two rates |
| Tariff.CompileTariff | cmd/hub/tariff.go:115-235 | accepts exactly the well-formed, once-covered, day-invariant specs and gives every hour of every day the rate, delivery rate and label of its unique covering period; both models' runs tile the day and neighbours differ |
| Intent.IntentAdopter.ApplyEVGoal | cmd/hub/intent.go:238-289 | accepts exactly a goal of zero up to the capacity with a departure to come; engine and standing goal become the message's own fields, the timer stops and a new generation opens; a rejected one changes nothing |
| Intent.IntentAdopter.ApplyChargeNow | cmd/hub/intent.go:452-482 | accepts exactly a live request over a standing goal; the engine departs when it runs out and a new timer carries the standing goal; a rejected one changes nothing |
| Intent.LongRequestIsCutShort | cmd/hub/intent.go:452-482 | an accepted request is honoured at the second it names if and only if it is of at most 292 years; a longer one is cut short |
| Intent.IntentAdopter.RevertChargeNow | cmd/hub/intent.go:491-499 | a timer of the current generation restores its goal, any other leaves the goal alone, for timers stopped too late as well |
| Intent.IntentAdopter.AdoptEVGoal | cmd/hub/intent.go:186-216 | a repeated ID changes nothing, any other is judged and remembered |
| Intent.IntentAdopter.AdoptChargeNow | cmd/hub/intent.go:186-216 | a repeated ID changes nothing, any other is judged and remembered |
| Intent.GenerationGuard | cmd/hub/intent.go:452-499 | over every interleaving, late timers included, the goal is the standing one or an accelerated one whose current timer is pending |
| Intent.TimersInReachableStates | cmd/hub/intent.go:491-499 | a superseded timer changes nothing and the pending one restores exactly the standing goal |
| Downlink.TokenBucket.TryTake | cmd/cloudlink/downlink.go:204-219 | refines the bucket that WindowBound and RefusedIff are about |
| Downlink.PerKindLimiter.TryTake | cmd/cloudlink/downlink.go:233-242 | only the bucket of the called kind changes |
| Downlink.Potential | cmd/cloudlink/downlink.go:204-219 | what is taken was there or was refilled since |
| Downlink.WindowBound | cmd/cloudlink/downlink.go:198-219 | in every window, also one after the clock stepped back, at most 3 acceptances plus one per 10 s; a clock running backwards earns nothing |
| Downlink.RefusedIff | cmd/cloudlink/downlink.go:204-219 | over every run of call times a call is refused if and only if some earlier call opens a window ending with it in which more calls were accepted than 2 and one per 10 s |
| Downlink.FirstThreeAreAccepted | cmd/cloudlink/downlink.go:204-242 | the first three calls of a kind are accepted, whenever they come |
| Downlink.TenSecondsLaterIsAccepted | cmd/cloudlink/downlink.go:204-219 | a call 10 s or more after the latest time seen is accepted |
| Downlink.KindsAreIndependent | cmd/cloudlink/downlink.go:233-242 | a kind's acceptances do not depend on other kinds' calls |
| Downlink.CallIsRefusedIff | cmd/cloudlink/downlink.go:233-242 | with all kinds on one limiter a call is refused if and only if its own kind's calls have spent that budget |
| Downlink.Process | cmd/cloudlink/downlink.go:335-394 | only a message that passes every other check costs its kind a token; each reason is given if and only if its check is the first to fail |
| Downlink.ForwardedBound | cmd/cloudlink/downlink.go:372-393 | forwarded commands of a kind obey the same bound in every window of every run |
| Grid.LatestMeaning | cmd/hub/main.go:1260-1334 | overwriting in list order gives each step the last listed span that holds it |
| Grid.IndexRange | cmd/hub/main.go:1260-1334 | truncating division and clamping select exactly the steps i with start < ws + 300(i+1) <= end |
| Grid.DerConstraintsFromSchedule | cmd/hub/main.go:1260-1334 | step i has the limits of the last listed slot with start < ws + 300(i+1) <= end and is unconstrained otherwise |
| Grid.PricesFromPricingUpdate | cmd/hub/main.go:1345-1399 | step i has the price of the last listed interval with start <= ws + 300i < end, else the fallback rate |
| Grid.FillOpenADRIntervals | cmd/hub/openadr_adopt.go:113-124 | the same for OpenADR intervals, one without a duration being unbounded |
| Grid.PricesFromOpenADR | cmd/hub/openadr_adopt.go:73-107 | import prices over the fallback rate, export prices over zero, from the first series of each kind |
| Watts.WattsToActivePower | cmd/hub/state.go:892-899 | the scaling loop ends at the least fitting multiplier with the rounded value |
| Watts.ActivePowerFromWatts | cmd/modbus/main.go:677-693 | the same loop with clamps: always an int16 |
| Watts.MultiplierIsLeast | cmd/hub/state.go:892-899 | no smaller multiplier fits |
| Watts.HubEncodeError | cmd/hub/state.go:892-899 | value times 10^multiplier is within half of 10^multiplier of the watts |
| Watts.HubEncodeInRange | cmd/hub/state.go:892-899 | the value is an int16 if and only if the watts round into range at the last multiplier |
| Watts.EncodersAgree | cmd/modbus/main.go:677-693 | the two encoders agree on every non-negative value in range |
| Watts.BattCommandToControl | cmd/modbus/main.go:558-572 | a setpoint up to the range gives export for discharge or import for charge, and export minus import recovers it within half of its unit |

## Left out

- Floating point: watts, rates, prices and tokens are reals; an absent (NaN) value is an option type. JSON, gzip,
  hashes and the MQTT client are abstract: a frame's size is any function of its stream, seq and records, a publish
  is in flight, acknowledged, failed or timed out, and reading back what was written gives the same value.
- Rename is taken to be atomic and durable, and fsync to mean what it says. File modes, ownership and directory
  syncs are not modelled.
- Spool offsets count records where the source counts bytes; torn bytes of a last record are removed with it. The byte
  budget and the choice of the class to evict are replaced by eviction of any oldest segment at any time, which only
  allows more. A clean Close, which rewrites the cursor files, is not modelled, nor are read errors.
- Recovery.SkipsIffStale: only offsets between records. The byte offset of a stale cursor file may also fall inside a
  record of another size, from where on the source reads arbitrary bytes.
- Spool.Fifo.Append: takes a segment as synced when it starts the next one. The source does not sync a segment of
  256 KiB or more that it found on opening and has not written to; a power cut may then take records out of the middle
  of a class.
- A record of more than 16 MiB, which the spool accepts within its budget and every read takes for a torn tail, so that
  Peek returns nothing while its class still counts as pending.
- In the uplink machine an eviction takes any number of oldest records, and whether a record appended to a stale class
  falls under the cursor file is left open; both only allow more runs. Spool.Fifo decides both as the segments do.
- Drain.Store.Peek: works on the contract of the three classes, not on three Fifo objects.
- UplinkDedupe.DedupeLosesNothing: sufficient only, over all runs; the exact condition is UplinkKeys.MissingIff, for
  runs with one class per stream and no eviction, restart or oversized record.
- An unreadable seq file that restarts a stream at 0, and the backoff delays between retries.
- Publishing of alerts and log events after they are decided: a begin may be lost if the process dies between the
  snapshot write and the publish. The publish queue of log events is not part of this model.
- Publisher.RollbackIsRetried: standing-intent folding inside the three actuators and marshalling errors are not
  modelled; content is any type with equality.
- Episodes.BreachEpisodes.EmitEdge: an episode is identified by mRID, issue time and counter; that printing keeps
  different counters apart is EpisodeId.CounterIsUnique.
- Downlink.PerKindLimiter.TryTake: the creation of a bucket and its first check use one clock reading.
- The other intents (reserve, tariff adoption, solar forecast, load profile, mode), the diagnostics path of the
  downlink, and the precedence of OpenADR over other price sources.
- HTTP handlers, TLS and certificates, mDNS, event streams, health probes, metrics, journals and logging.
