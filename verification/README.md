# bbkar, verified

bbkar turns btrbk snapshots into compressed archives at a backup location and restores them. This
project models how it plans, sends, commits and restores, in Dafny, and proves exactly when what was sent
can be restored. `dafny verify dfyconfig.toml` checks all of it.

## What is modelled

A destination holds chunk objects and one metadata object for each volume. A run plans which source
snapshots to send, full or against a parent; each step writes numbered chunks, extends the metadata in
memory and then replaces the stored metadata. It can stop at any point between two of these. Sources
gain and lose snapshots between runs. A restore merges the parent chains of its targets, sorts them by
timestamp, skips what the receive root holds, and receives the rest.

| files | what they hold |
|---|---|
| `Prelude`, `Order`, `Decimals` | optional values, string order and stable sorting, decimal numerals |
| `Timestamps`, `Dates` | snapshot suffixes and their derived order; the approximate day count against the Gregorian calendar |
| `Forest`, `Archives` | parent links with depth, chain and root; archives, metadata, `DestMeta` |
| `Planner`, `PlanProperties`, `ChainAge` | the send planner, its policy over the parent forest, and what plans guarantee |
| `Storage`, `Chunks`, `ChunkReader` | the destination, the chunk writer and the chunk stream reader |
| `Tools`, `Restore`, `Receiving` | the outside programs and their laws; targets, merged plans, the receive loop |
| `Protocol`, `ProtocolProperties`, `Scenarios` | runs, crashes and source changes as a state machine, what holds over every history, and concrete histories |
| `EndToEnd` | from histories to what can be restored |
| `Stats`, `Run`, `Measure`, `Dryrun`, `Sync` | the statistics; the imperative run of a volume, refining the protocol; measuring and the dry run; both over a whole sync |
| `Wildcard` | the wildcard matcher |

How the parts fit together: `Run.RunVolume` executes the step loop over a mutable destination and is
shown to be a sequence of protocol events, failures included. `Protocol.TraceInv` shows that every
state such events reach is well formed and that every committed archive holds the stream that was sent.
`EndToEnd.RestoreReachable` restores from any of these states.

Planning compares snapshot names only, and a source may be changed in any way between runs, so a snapshot
that is used as a parent may no longer be what was sent under its name. None of the results on metadata,
chunks, crashes, planning and statistics depends on that. What can be restored does, and `EndToEnd` says
how, if and only if at each level: for one archive (`StoredExactly`), for one run, by a condition on
its plan and its source (`RunStoresAsSent`), for a history (`HistoryStoresAsSent`), and for the targets of a
restore (`RestoreReachable`). `Scenarios.ReplacedParentIsLost` is a history in which the condition
fails.

What the outside programs do is stated as laws of a `Programs` record: a full stream carries name and
content, an incremental stream does so for whoever holds the content of the parent, and decompression
undoes compression (`Lawful`). Where something is shown to be impossible to receive, it is used besides
that an incremental stream is refused by who holds other content of the parent (`Discerning`).
`Tools.LawsCanBeMet` gives functions that satisfy these laws. A SHA-256 digest stands for the bytes it
was computed from.

Where the code and its documentation differ, the model follows the code:

- An incremental is sent only when the depth of its parent plus one is below `max_incremental_depth`
  (`src/service/planner/mod.rs:87-89`), so a full carries at most one incremental less than the limit;
  `doc/terms-config.md:63` describes the limit as the number of incrementals.
- `*` and `?` also match `/` (`src/utils/wildcard.rs:52`), although the header of that function says
  otherwise.
- Reading a chunk stream with an empty buffer opens one chunk after the other and drops all but the
  last (`src/service/executor/read_dest.rs:71-85`). Callers pass non-empty buffers; for those the
  reader is the inverse of the writer.
- A crash between two commits can change the rest of the plan when a run back-fills snapshots older
  than the newest archived full: the retry measures the interval from that newer full
  (`Scenarios.BackfillReplansDifferently`). `ProtocolProperties.ResumeAfterStop` says what stays the
  same in every case, and exactly when nothing changes.

## Model

| member | source | states |
|---|---|---|
| EndToEnd.RestoreReachable | src/cli/restore.rs:162-226 | from an empty destination, after any sequence of runs, crashes and source changes: restoring from any reached state into an empty root fails before it begins only on a request for what is not archived; it is done if and only if it is not cut off and every incremental on the way to its targets was sent against what its parent had been sent with; then the root holds exactly the ancestors of the targets that the request selects, each with the content its source had when it was sent; otherwise it holds the part before the cut or before the first incremental that was not. When every run began with agreeing parents there is no such incremental |
| EndToEnd.RestoreIntoEmpty | src/cli/restore.rs:84-88 | the same for any destination whose archives hold what was sent; no metadata is an error |
| EndToEnd.StoredExactly | src/service/executor/impl.rs:112-125 | an archive is stored as the stream of its snapshot against its parent, both as they were sent, exactly when it was sent against what its parent had been sent with |
| EndToEnd.RunStoresAsSent | src/service/planner/mod.rs:212-225 | whatever a run has committed, its whole plan or the part before a stop: every archive is stored as sent if and only if every archive was so before and the source holds, of the archived snapshots that these steps use as parents, what was sent; a caller can check this before the run |
| EndToEnd.HistoryStoresAsSent | src/cli/run.rs:59-161 | in any history every archive is stored as sent if and only if at each commit so far the source held the parent as it had been sent |
| EndToEnd.BeginsThenCommits | src/cli/run.rs:36-52 | when at the beginning of every run the source held the parents of its plan as they had been sent, then so it did at each commit |
| EndToEnd.AgreesOnSource | src/cli/run.rs:61-92 | an archived incremental agrees with its parent exactly when the source held the same content for the parent at the moment of the one commit and of the other |
| Protocol.NextInv | src/cli/run.rs:59-161 | every event of a run, over whatever source, a crash at any point, and any change of the source keep the invariant: metadata sorted, duplicate free and closed under strictly older parents, every committed archive stored complete as the stream that was sent and with its digests, a running plan in step with what is committed |
| Protocol.TraceInv | src/model/dest.rs:11-21 | hence the invariant holds at every point of every history that starts with an empty destination |
| Protocol.StepIsSendable | src/service/planner/mod.rs:79-81 | whenever a run reaches a step, its snapshot is new and on the source, and its parent is committed, strictly older and on the source |
| Protocol.TransferInv | src/cli/run.rs:65-71 | chunk writes of the current snapshot, complete or cut off, leave every committed archive readable as it was |
| Protocol.CommitExtends | src/cli/run.rs:90-92 | a commit extends the metadata by exactly the planned link and keeps all committed archives |
| Protocol.ReachesInv | src/cli/run.rs:59-161 | whatever protocol events lead to from a state in the invariant is in the invariant |
| ProtocolProperties.NextPreserves | src/service/planner/mod.rs:73-77 | no event, a retry after orphan parts included, changes a committed archive or writes an object in its directory |
| ProtocolProperties.TracePreserves | src/service/planner/mod.rs:73-77 | committed archives, their objects and what was sent stay the same through every later part of a history, and the log of created objects only grows |
| ProtocolProperties.ListsOwnAttempt | src/cli/run.rs:65-92 | every committed archive comes right behind one attempt, and what was created on the destination between the beginning of that attempt and the commit is exactly the parts that the archive lists, from one on; nothing else in its directory changed, so higher-numbered parts left by an earlier attempt stay as they are and are not listed |
| ProtocolProperties.RecordedInHistory | src/service/executor/write_dest.rs:200-206 | in any history every chunk that metadata lists is there, and its entry has the digest and the length in 32 bits of the object that is stored |
| ProtocolProperties.SentWasOnSource | src/cli/run.rs:61-92 | the contents attributed to a committed snapshot, its own and that of its parent, are what the source held under these names at the moment of its one commit |
| ProtocolProperties.ResumeAfterStop | src/cli/run.rs:37-52 | after a stop behind any number of commits, planning again yields the same remaining snapshots in the same order, nothing after a complete run, and exactly the remaining steps if and only if the interval, measured from the newest full now archived, gives the snapshots up to the next full the same verdicts; it does when the committed fulls are newer than the newest full before the run |
| ProtocolProperties.NewerMissingResumes | src/service/planner/mod.rs:54-59 | all missing snapshots being newer than the newest archived full is enough for exactly the remaining steps |
| ProtocolProperties.DepthNeverExceeded | src/service/planner/mod.rs:86-89 | under a fixed limit no archive of any history ever needs more than that many restore steps |
| ProtocolProperties.ChainsStayYoung | src/service/planner/mod.rs:83-126 | when each run misses only snapshots newer than all archives and the newest archive is still on the source, the newest archive builds on the newest full, and every incremental has parsable dates fewer days after its own full than the interval |
| Scenarios.RunPossible | src/cli/run.rs:59-161 | no run gets stuck: from its beginning every prefix of its plan can be committed |
| Scenarios.ReplacedParentIsLost | src/service/planner/mod.rs:212-225 | planning compares names only: when a sent snapshot is replaced on the source by other content, the next run sends against it, and this leads to a volume at rest with a committed archive that cannot be received on its parent as the parent was sent |
| Tools.ParentMustAgree | src/service/executor/impl.rs:112-125 | an incremental archive can be received exactly where the parent has the content it was sent against |
| Tools.OneBase | src/service/executor/impl.rs:112-125 | the chunks of one archive cannot be taken for streams against two different parent contents |
| Run.TransferStep | src/cli/run.rs:61-85 | one transfer creates the parts from one on and changes no other object; the archive it returns lists exactly these, reads back as the compressed stream of the step and, within the validated limits, has its exact size; it succeeds when nothing fails on either side |
| Run.StepEvents | src/cli/run.rs:64-92 | a written, recorded and committed step is three protocol events |
| Run.SendStep | src/cli/run.rs:59-161 | wherever one iteration fails, the destination is in a state that protocol events lead to and the metadata is as it was; when nothing fails, one more step is committed with an archive of exactly the parts just created, and both the sent statistics and the metadata gained its entry |
| Run.RunSteps | src/cli/run.rs:59-161 | the loop commits the plan in order, all of it when nothing fails; the bytes counted, the sent statistics and the metadata gain exactly one entry for each step, of its kind |
| Run.RunPlan | src/cli/run.rs:54-166 | loading or creating the metadata, sending all steps, and counting remote usage from the final metadata; succeeds when nothing fails; the time of the first sync is the stored one or, without metadata, now |
| Run.LoadOrCreate | src/cli/run.rs:55-57 | stored metadata is extended with its own first sync time, and only new metadata takes the clock |
| Run.RunVolume | src/cli/run.rs:36-167 | a run refines the protocol whether it completes or fails, and completes when no input, output or commit fails; however it ends, metadata that was stored keeps its time of the first sync, and metadata written for the first time has the time of this run; a completed run leaves nothing to plan, records the time of its last commit, and its statistics are the entries of what was sent and of everything that is stored |
| Sync.RunNth | src/cli/run.rs:27-167 | running one volume leaves the other volumes of the sync at rest and keeps the accounts |
| Sync.RunSync | src/cli/run.rs:27-178 | wherever a sync stops, every volume is at rest in a reachable state and has kept its time of the first sync; it completes when nothing fails, and then the remote entries are those stored before plus those sent, one for each planned step of each volume |
| Sync.RemoteIsStoredPlusSent | src/cli/run.rs:163-165 | each of the six counters of remote usage is the counter of the old metadata plus the counter of what was sent |
| Measure.CountingWriter.Write | src/service/executor/compress.rs:49-53 | the sink takes every byte, and its count is the length of what it took |
| Measure.MeasureSubvolume | src/service/executor/measure.rs:13-36 | however reads and writes interleave, a measurement that gets through counts exactly the raw stream and exactly the encoder output; it gets through when no read fails, and a failing read is an error |
| Dryrun.DryrunVolume | src/cli/dryrun.rs:33-108 | a dry run counts what is stored and, when measuring, one entry for each planned step with the length of its compressed stream, without measuring nothing else; it ends with an error at a stream that cannot be read, and completes otherwise |
| Sync.DryrunSync | src/cli/dryrun.rs:24-126 | over all volumes of a sync the dry run counts what is stored and what it measured, and changes no destination |
| Sync.SyncProjected | src/cli/dryrun.rs:24-126 | over a whole sync, equal sizes make the measured entries the sent entries, and the remote entries of dry run and run agree up to order |
| Sync.DryrunThenRun | src/cli/dryrun.rs:24-126 | a measuring dry run of a sync followed by the run: whenever the sizes agree, and so whenever the run stays within the validated limits, all six counters of both statistics are the same |
| Dryrun.MeasuredIsSent | src/cli/dryrun.rs:53-63 | when recorded sizes are exact, as `Run.RunVolume` shows them to be within the validated limits, the measured sizes are the sent sizes |
| Stats.KindsAddUp | src/cli/mod.rs:65-75 | all archives are the full ones plus the incremental ones, in count and in size |
| Stats.CountMeans | src/cli/mod.rs:65-75 | the counters of the two kinds are the numbers of positions with and without a parent |
| Stats.SizeMeans | src/cli/mod.rs:65-75 | the sizes of the two kinds are the sums over these positions |
| Stats.CountPermuted | src/cli/mod.rs:50-59 | the counters do not depend on the order of the archives |
| Stats.EntriesOfAdded | src/model/dest.rs:50-53 | sorting a new archive in adds its entry and changes no other |
| Stats.ArchiveStats.AddSize | src/cli/mod.rs:65-75 | the overall count and size and those of the archive's own kind grow by one and by its size, the other kind is as before, and the six counters stay those of the counted archives |
| Stats.ArchiveStats.AddArchive | src/cli/mod.rs:61-63 | counts the archive with its total size, among the incremental ones if it has a parent and among the full ones otherwise |
| Stats.ArchiveStats.Merge | src/cli/mod.rs:77-84 | each of the six counters grows by that of the other side, and everything that either side counted is counted |
| Stats.ArchiveStats.Balanced | src/cli/mod.rs:41-48 | the counters always satisfy all = full + incremental |
| Stats.StatsFromMeta | src/cli/mod.rs:51-59 | the statistics of metadata count each archive once; without metadata nothing |
| Stats.SameEntriesSameCounters | src/cli/mod.rs:41-48 | statistics that counted the same archives in any order agree in all six counters |
| Planner.BuildPlan | src/service/planner/mod.rs:19-132 | the loop over set, cache and last full computes the plan stated over the parent forest |
| Planner.PlanStep | src/service/planner/mod.rs:79-127 | one iteration decides as the policy says and keeps the cache equal to the depths of the grown forest |
| Planner.ComputeDepth | src/service/planner/mod.rs:190-208 | whatever was asked before, the memoised depth is the depth of the chain, and the cache stays right |
| Planner.CacheDepths | src/service/planner/mod.rs:40-44 | every archive has its depth in the cache afterwards |
| Planner.CacheAfterGrow | src/service/planner/mod.rs:111-127 | the depth stored for a planned snapshot is its depth in the forest after sending it, and no other depth changes |
| Planner.ParentIsPredecessor | src/service/planner/mod.rs:210-225 | the reverse scan with set lookups yields the immediate predecessor on the source, and nothing only for the first snapshot |
| PlanProperties.PlanCoversMissing | src/service/planner/mod.rs:73-77 | a plan sends exactly the snapshots that the destination lacks, oldest first |
| PlanProperties.PlanIsSound | src/service/planner/mod.rs:79-127 | every step of a plan can be sent when its turn comes |
| PlanProperties.AfterSound | src/service/planner/mod.rs:115-127 | committing sound steps keeps the forest well formed and every link in it |
| PlanProperties.StepReasons | src/service/planner/mod.rs:83-97 | a step is incremental exactly when there is a predecessor on the source, its depth plus one stays below the limit, and the most recent full and the snapshot have readable dates fewer days apart than the interval; its parent is that predecessor |
| PlanProperties.PlanAscends | src/service/planner/mod.rs:73 | steps come in strictly ascending order of their snapshots |
| PlanProperties.PlanSuffix | src/service/planner/mod.rs:73-128 | after any number of steps the rest of the plan is what the planner would still do from there |
| PlanProperties.LastFullTracksNewest | src/service/planner/mod.rs:54-59 | when planned fulls are newer than the archived ones, the loop variable is the newest full of the grown forest |
| PlanProperties.ReplanSnapshots | src/service/planner/mod.rs:28-34 | planning again over what is committed leaves the same snapshots in the same order |
| PlanProperties.ReplanExact | src/service/planner/mod.rs:54-59 | planning again gives the same kinds and parents when the committed fulls are newer than the newest full before |
| PlanProperties.ReplanExactly | src/service/planner/mod.rs:83-113 | planning again gives exactly the remaining steps if and only if, measured from the newest archived full, every incremental before the next full is still allowed and that full is still asked for or forced |
| PlanProperties.PlansAgree | src/service/planner/mod.rs:90-95 | two values of the last full lead to the same plan exactly when their verdicts agree up to the next full |
| PlanProperties.ReplanEmpty | src/service/planner/mod.rs:73-77 | after a complete plan there is nothing left to plan |
| PlanProperties.NewChainsBounded | src/service/planner/mod.rs:86-89 | whatever was archived before, each newly sent snapshot restores in at most the limit of steps |
| PlanProperties.PlanKeepsChainsBounded | src/service/planner/mod.rs:86-89 | a fixed limit keeps all restore chains within it, at every crash point of a plan |
| ChainAge.PredecessorIsNewest | src/service/planner/mod.rs:212-225 | when only newer snapshots are missing, the parent candidate is the newest archive |
| ChainAge.StepKeepsYoung | src/service/planner/mod.rs:83-126 | one step then keeps every incremental within the interval of its own full |
| ChainAge.PlanKeepsYoung | src/service/planner/mod.rs:83-126 | so does every committed prefix of a plan |
| Scenarios.BackfillReplansDifferently | src/service/planner/mod.rs:234-242 | back-filling snapshots older than the newest full: a run that a history reaches, stopped after its first commit, for which planning again under the same valid policy chooses other steps than the remaining ones |
| Forest.ChainShape | src/service/planner/mod.rs:153-170 | the restore chain has depth + 1 members, starts at a full, ends at the target, and each member is the strictly older parent of the next |
| Forest.ChainIsAncestry | src/service/planner/mod.rs:155-168 | the chain holds exactly the ancestors of the target |
| Forest.AncestorsClosed | src/cli/restore.rs:115-116 | the parent of an ancestor is an ancestor |
| Forest.GrowWellFormed | src/service/planner/mod.rs:127 | a new name with a present older parent keeps the forest well formed |
| Forest.GrowKeeps | src/service/planner/mod.rs:111-127 | growing the forest changes no depth, chain or root that was there |
| Dates.TextOrderIsDayOrder | src/service/planner/mod.rs:245-258 | later YYYYMMDD text never has a smaller approximate day count |
| Dates.DistanceWithinFiveDays | src/service/planner/mod.rs:256-257 | the Gregorian distance of two dates without the leap days between them is within five days of the approximate distance |
| Dates.FiveDaysOccur | src/service/planner/mod.rs:256-257 | the bound is reached, from 1 March to 1 November of any year |
| Dates.WrittenDateParses | src/service/planner/mod.rs:249-257 | a written date is read back with its approximate day count |
| Dates.UnreadableDate | src/service/planner/mod.rs:245-258 | there is no day count, which forces a full, exactly for text shorter than eight characters or with a year, month or day that is no number |
| Dates.ParseIntReads | src/service/planner/mod.rs:254-256 | a field is read exactly when it is an optional sign and at least one digit, as the number it writes |
| Timestamps.ParseKeepsAll | src/model/source.rs:55-75 | parsing fails only on the empty suffix, loses nothing, and splits off only an underscore and a number |
| Timestamps.ParseFindsNumber | src/model/source.rs:52-69 | a number after the last underscore is always split off |
| Timestamps.DerivedOrderIsRawOrder | src/model/source.rs:42-47 | the derived order is string order of the raw suffix, which `Order.LessMeans` spells out, and equal raw suffixes are equal timestamps |
| Order.LessMeans | src/model/source.rs:42-47 | a name comes before another exactly when it is a proper prefix of it, or has the smaller character where they first differ |
| Order.SortIsStable | src/model/source.rs:12-18 | whatever is sorted, no later element has a smaller key, and elements with equal keys keep their order |
| Timestamps.NumberedComesLater | src/service/executor/inspect_source.rs:147-149 | a snapshot with a sequence number comes after the one of the same date without |
| Timestamps.Series.constructor | src/model/source.rs:12-18 | a series holds exactly the given snapshots, none before a smaller one; distinct ones are strictly ascending |
| Archives.AddedKeeps | src/model/dest.rs:50-53 | adding a new archive keeps the others, keeps the order strict, and grows the forest by its link |
| Archives.RawSizeMissing | src/model/dest.rs:116-121 | there is no total of raw sizes exactly when some chunk records none |
| Archives.NewestFullIsNewest | src/service/planner/mod.rs:54-59 | the reverse scan finds the most recent full of the forest, and nothing only when there is none |
| Archives.DestMeta.constructor | src/model/dest.rs:24-35 | exactly the given archives, none before a smaller one, and left as they are when they are in order |
| Archives.DestMeta.AddArchive | src/model/dest.rs:50-53 | the archives afterwards are the old ones and the new one, in strict order |
| Archives.DestMeta.SetLastSync | src/model/dest.rs:55-57 | only the time of the last sync changes |
| Restore.BuildRestorePlan | src/service/planner/mod.rs:136-187 | on reachable metadata the walk ends, fails only for a target that is not archived, and yields the chain of the target, full first |
| Restore.WalkToFull | src/service/planner/mod.rs:153-168 | no parent is ever missing, and the collected archives are the chain backwards |
| Restore.StepsOf | src/service/planner/mod.rs:172-184 | each step is the archived link of its snapshot |
| Restore.MergePlans | src/cli/restore.rs:97-125 | the merged plan is strictly ascending, holds each snapshot once, is exactly the ancestor closure of the targets, and each step is its archived link |
| Restore.AppendUnseen | src/cli/restore.rs:104-112 | the steps seen so far and the new ones, each snapshot once |
| Restore.ParentsFirst | src/cli/restore.rs:115-116 | in a merged plan every incremental comes after its parent |
| Restore.NewestArchive | src/cli/restore.rs:288-295 | without a request the maximum of the archives |
| Restore.NamedTargets | src/cli/restore.rs:297-311 | the named snapshots once each; a name that is not archived is an error |
| Restore.AddRange | src/cli/restore.rs:313-331 | the union with the archives that equal a bound or lie between the bounds |
| Restore.SortTargets | src/cli/restore.rs:333-340 | the same targets in strict order; none is an error |
| Restore.ResolveTargets | src/cli/restore.rs:279-341 | the targets are the strictly ascending union of named and in-range archives, or the single maximum; an execution error exactly for an unknown name or an empty selection |
| Restore.ResolvedMeans | src/cli/restore.rs:320-331 | a snapshot is a target exactly when it is archived and is named, or a bound is given and it equals or lies after the lower and equals or lies before the upper one; each archived bound is a target itself unless the bounds contradict each other |
| Receiving.PrepareRestore | src/cli/restore.rs:84-125 | succeeds exactly on a request that names archived snapshots only and selects at least one; then it is the merged plan of exactly the selected targets |
| Receiving.RestoreArchive | src/service/executor/impl.rs:174-227 | an archive is received exactly when its chunks are there, decompress and apply; otherwise the root is as before |
| Receiving.NextReceive | src/cli/restore.rs:195-220 | with everything before it in place, a step is either held already or finds its parent in the root as the parent was sent; it adds its snapshot as sent when it was sent against that, and otherwise a receiver that looks at the parent refuses it |
| Receiving.ReceiveAll | src/cli/restore.rs:187-222 | on valid data the loop receives exactly the snapshots not held, in order, up to the cut or to the first that was sent against something else than what its parent had been sent with, where it fails; the root holds them as sent beside what it held |
| Receiving.TodoResumes | src/cli/restore.rs:143-150 | with the first ones received, what is left is the rest of the list |
| Receiving.RestoreResumes | src/cli/restore.rs:143-150 | after a stop the root can be restored into again; the second restore does exactly the rest and ends in the same root; a third has nothing to do |
| Receiving.RestoreVolume | src/cli/restore.rs:162-226 | on archives that hold what was sent and a valid root, outcome and root are fixed by the list of what is to do, the first snapshot on it that does not agree with its parent, and the cut; done, the root gained exactly the ancestors of the selected targets as they were sent and keeps everything else |
| Tools.ReceiveAdds | src/service/executor/impl.rs:189-226 | an archive applied where its parent has the content it was sent against adds exactly its snapshot as sent |
| Chunks.ChunkedWriter.constructor | src/service/executor/write_dest.rs:94-122 | a new writer has accepted nothing |
| Chunks.ChunkedWriter.OpenNextChunk | src/service/executor/write_dest.rs:124-146 | creates or truncates the one named object |
| Chunks.ChunkedWriter.RecordCurrent | src/service/executor/write_dest.rs:173-206 | the new entry records the name, the size in 32 bits, the compression, the raw bytes counted since the last roll and the digest of exactly the bytes of the chunk; the joined parts are the accepted bytes |
| Chunks.ChunkedWriter.FinalizeCurrent | src/service/executor/write_dest.rs:170-210 | closes the open chunk, if any, with all parts accounted for; fails exactly when closing fails |
| Chunks.ChunkedWriter.OpenPart | src/service/executor/write_dest.rs:150-167 | the next chunk gets a fresh name and disturbs no finished part |
| Chunks.ChunkedWriter.RollNext | src/service/executor/write_dest.rs:148-168 | rolling keeps the accepted bytes, finishes the open chunk as it was left, and starts an empty one |
| Chunks.ChunkedWriter.EnsureOpen | src/service/executor/write_dest.rs:224-227 | rolls exactly when no chunk is open or the open one is full |
| Chunks.ChunkedWriter.Append | src/service/executor/write_dest.rs:228-234 | what the sink took is appended to the accepted bytes |
| Chunks.ChunkedWriter.Write | src/service/executor/write_dest.rs:222-235 | a write accepts exactly the prefix that the sink takes, touches only its own directory, and fails exactly when rolling or the sink fails; a roll finishes the open chunk with the content and last write it had |
| Chunks.ChunkedWriter.Finish | src/service/executor/write_dest.rs:212-218 | one entry for every part that was opened, describing stored parts whose bytes joined are the accepted bytes and whose raw sizes add up to the raw stream, each but the last at least the limit and smaller than the limit plus its last write |
| Storage.NumberedDistinct | src/service/executor/write_dest.rs:150-151 | parts of one archive never share a name |
| Storage.PartNameInjective | src/service/executor/write_dest.rs:151 | different part numbers give different names, also beyond six digits |
| Storage.PartNameWidth | src/service/executor/write_dest.rs:151 | part numbers take six digits, and more exactly from a million on; the first part is `part000001.btrfs.zstd` |
| Decimals.PaddedWidth | src/service/executor/write_dest.rs:151 | a padded number reads as itself, is never shorter than the width, has just the width when it fits, and starts with no zero otherwise |
| Chunks.NoSizeTruncated | src/service/executor/write_dest.rs:202 | with a limit of 1 to 2048 MiB and a last write of at most 2^31 bytes the cast to 32 bits loses nothing |
| Chunks.AsU32IsModulo | src/service/executor/write_dest.rs:202 | otherwise the recorded size is the length modulo 2^32 |
| Chunks.SizesExact | src/model/config.rs:34 | then the recorded sizes add up to exactly the bytes written |
| Chunks.WrittenReadsBack | src/service/executor/write_dest.rs:200-206 | the listed chunks read one after the other are the joined parts, and their raw sizes sum up |
| Chunks.OfferNext | src/service/executor/compress.rs:25-31 | what the encoder offers is accepted as a prefix; a writer that takes nothing is an error |
| Chunks.FeedEvents | src/service/executor/compress.rs:38-43 | when all goes well the whole encoder output is accepted and all raw bytes are counted, however reads and writes interleave; all goes well when no read fails, every sink takes something, and there are enough reads and offers |
| Chunks.WriteSubvolume | src/service/executor/write_dest.rs:246-308 | whether it succeeds or not, it creates the parts from one on and changes nothing else; when nothing fails it succeeds, lists exactly these parts, each entry with the digest and the length in 32 bits of its object, and they read back as the whole compressed stream, each but the last at least the limit, each shorter than the limit plus the longest offer; raw sizes add up to the raw stream, and within the validated limits sizes to its length |
| Chunks.CanGetThrough | src/service/executor/compress.rs:25-43 | any stream with any encoder output can get through without a failure, so the conditions under which writing, measuring and running succeed can be met |
| ChunkReader.ChunkStreamReader.constructor | src/service/executor/read_dest.rs:25-46 | a new reader has the whole stored stream before it |
| ChunkReader.ChunkStreamReader.LoadNextChunk | src/service/executor/read_dest.rs:48-68 | opens the next listed chunk, or says that there is none; a missing object is an error and changes nothing |
| ChunkReader.ChunkStreamReader.ReadCursor | src/service/executor/read_dest.rs:74-79 | as much of the current chunk as fits is copied to the front of the buffer |
| ChunkReader.ChunkStreamReader.Read | src/service/executor/read_dest.rs:72-84 | a non-empty buffer gets the next bytes of the stream and zero only at its end; a missing chunk is an error once all before it was read; an empty buffer drops everything but the last chunk |
| ChunkReader.ReadToEnd | src/service/executor/read_dest.rs:71-85 | reading with any non-empty buffers yields the remaining stream, and fails exactly when a chunk is missing |
| ChunkReader.ReadArchive | src/service/executor/impl.rs:189-193 | the chunks of an archive read as one stream |
| ChunkReader.WriteBuffers | src/service/executor/write_dest.rs:221-235 | any buffers, partially accepted at will, are stored as the bytes that were taken; a failing write is an error |
| ChunkReader.SplitThenReadBack | src/service/executor/read_dest.rs:11-14 | writing any buffers with any partial acceptance and any limit, and reading back with any non-empty buffers, yields exactly the accepted bytes |
| Wildcard.MatchesIsCutting | src/utils/wildcard.rs:1-4 | a pattern matches exactly when the text can be cut into one piece for each pattern character: any text for a star, one character for a question mark, itself for a literal |
| Wildcard.StarStretches | src/utils/wildcard.rs:14-18 | a star matches one more character exactly when it matched before or the prefix did |
| Wildcard.WildcardMatch | src/utils/wildcard.rs:4-29 | the single row updated in place, forwards for a star and backwards otherwise, decides the matching relation |
| Wildcard.WildcardFilter | src/utils/wildcard.rs:31-36 | the candidates that some pattern matches |
| Wildcard.FilteredSelects | src/utils/wildcard.rs:31-36 | they are the candidates at exactly the matching positions, in the order of these positions, repetitions included |

## Left out

- The exit status of `btrfs send` is ignored by the code (`src/service/executor/compress.rs:23-30`); every modelled stream is complete. Likewise an interrupted `btrfs receive` leaves no partial subvolume behind.
- Snapshots that change or disappear on the source during a run, after it was inspected: the source changes between runs.
- Pruning: the configuration is parsed (`src/model/policy.rs:12-19`) but no code prunes.
- OpenDAL, S3 and GCS, local file systems, sudo and subprocesses: the destination is a map with atomic replacement of the metadata object. A remote object appears in the model when it is opened, not when it is closed; a snapshot whose chunks are not all closed is never committed.
- zstd and SHA-256 internals.
- Retries inside `write_all` on an interrupted system call.
- Configuration files, durations, schedules, YAML, the choice of sync and volume by name, logging, timing, `ls` and `status`. The numeric ranges that loading enforces are preconditions.
- Errors of reading the source or the metadata before a run or a restore begins: nothing is changed by then.
- Metadata that was edited by hand: duplicate suffixes, cycles, missing parents. The invariant shows that bbkar never writes such metadata.
- Suffixes outside ASCII: the code cuts dates by bytes, the model by characters.
- Overflow of byte counters and of part numbers: they are unbounded here. The one lossy cast, of chunk sizes to 32 bits, is modelled.
- Directory and object names: a pair of snapshot and file name stands for the path, and a receive root maps raw suffixes to contents for one volume.
- Receiving.ReceiveAll: the content of what the root already holds is assumed to be valid, as the program itself says when it skips it.
