/** A run of one volume as the command carries it out, shown to be a sequence of protocol events. */
module Run {
  import opened Prelude
  import opened Order
  import opened Timestamps
  import opened Archives
  import opened Storage
  import opened Chunks
  import opened Tools
  import opened Planner
  import opened PlanProperties
  import opened Protocol
  import opened ProtocolProperties
  import opened Stats

  /** Cuts the raw stream into the pieces in which it arrives, from the end. */
  function Pieces(raw: Bytes, cuts: seq<nat>): (r: seq<Bytes>)
    ensures Concat(r) == raw
    decreases |cuts|
  {
    if |cuts| == 0 || cuts[|cuts| - 1] > |raw| then [raw]
    else
      var at := |raw| - cuts[|cuts| - 1];
      Pieces(raw[..at], cuts[..|cuts| - 1]) + [raw[at..]]
  }

  /** What happens around one step: how the stream arrives, what the backend does, the clock. */
  datatype StepIo = StepIo(cuts: seq<nat>, events: seq<IoEvent>, closes: bool, commits: bool, now: nat)

  /** The destination and the source are in the state that the machine says. */
  ghost predicate Mirrors(dest: Destination, source: Subvolumes, s: System)
    reads dest
  {
    s.objects == dest.objects && s.meta == dest.meta && s.created == dest.created && s.source == source
  }

  /** One attempt at the current step created these parts and left these objects. */
  ghost predicate Attempted(s: System, objects: Objects, names: seq<string>)
    requires AtStep(s)
  {
    && Numbered(names) && SameBut(s.objects, objects, CurrentStep(s).snap.raw, names)
    && Present(objects, CurrentStep(s).snap.raw, names)
  }

  /** The three events of one step. */
  lemma StepEvents(tools: Programs, s: System, objects: Objects, chunks: seq<ChunkFilename>, firstSync: nat,
                   lastSync: nat)
    returns (s': System)
    requires Inv(tools, s) && AtStep(s) && s.phase.Fresh()
    requires Attempted(s, objects, Filenames(chunks))
    requires Complete(tools, objects, s.source, CurrentStep(s), chunks)
    ensures Reaches(tools, s, s')
    ensures s'.objects == objects && s'.source == s.source
    ensures s'.created == s.created + Paths(CurrentStep(s).snap.raw, Filenames(chunks))
    ensures s'.meta == Some(Meta(firstSync, lastSync, Added(s.Committed(), ArchiveOf(CurrentStep(s), chunks))))
    ensures s'.sent == s.sent[CurrentStep(s).snap.raw := SentFrom(s.source, CurrentStep(s))]
    ensures s.phase.Running? && s'.phase == s.phase.(done := s.phase.done + 1)
  {
    hide Inv, Reaches, Carries, SameBut, Numbered, Present, Paths, Added, Plan, WellFormed, Ascending, SentFrom;
    var written := s.(objects := objects, created := s.created + Paths(CurrentStep(s).snap.raw, Filenames(chunks)),
                      phase := s.phase.(written := Some(Filenames(chunks))));
    var added := written.(phase := written.phase.(pending := Some(ArchiveOf(CurrentStep(s), chunks))));
    var name := CurrentStep(s).snap.raw;
    s' := added.(meta := Some(Meta(firstSync, lastSync, Added(s.Committed(), ArchiveOf(CurrentStep(s), chunks)))),
                 sent := s.sent[name := SentFrom(s.source, CurrentStep(s))],
                 phase := s.phase.(done := s.phase.done + 1));
    ReachesSelf(tools, s);
    assert Next(tools, s, Transfer(Filenames(chunks)), written);
    ReachesNext(tools, s, s, Transfer(Filenames(chunks)), written);
    assert Next(tools, written, AddArchive(chunks), added);
    ReachesNext(tools, s, written, AddArchive(chunks), added);
    assert Next(tools, added, Commit(firstSync, lastSync), s');
    ReachesNext(tools, s, added, Commit(firstSync, lastSync), s');
  }

  /** A transfer that was cut off, or never committed. */
  lemma CutOffEvents(tools: Programs, s: System, objects: Objects, names: seq<string>) returns (s': System)
    requires AtStep(s) && s.phase.Fresh()
    requires Attempted(s, objects, names)
    ensures Reaches(tools, s, s')
    ensures s'.objects == objects && s'.created == s.created + Paths(CurrentStep(s).snap.raw, names)
    ensures s'.meta == s.meta && s'.source == s.source && s'.phase.Running?
  {
    hide Reaches, SameBut, Numbered, Present, Paths, Plan, WellFormed, Ascending;
    s' := s.(objects := objects, created := s.created + Paths(CurrentStep(s).snap.raw, names),
             phase := s.phase.(written := Some(names)));
    ReachesSelf(tools, s);
    assert Next(tools, s, Transfer(names), s');
    ReachesNext(tools, s, s, Transfer(names), s');
  }

  /** The length of the compressed stream of a step. */
  function StepSize(tools: Programs, source: Subvolumes, step: RunStep): nat
    requires OnSource(source, step)
  {
    |tools.compress(tools.Stream(step.snap.raw, step.ParentRaw(), source))|
  }

  /** The limit is a validated one and no write is longer than 2^31 bytes. */
  ghost predicate SizesKept(maxChunkSizeMib: nat, io: StepIo) {
    1 <= maxChunkSizeMib <= 2048 && OffersWithin(io.events, 0x8000_0000)
  }

  /** The raw stream of a step, in the pieces in which it arrives. */
  function StepStream(tools: Programs, source: Subvolumes, step: RunStep, cuts: seq<nat>): seq<Bytes>
    requires OnSource(source, step)
  {
    Pieces(tools.Stream(step.snap.raw, step.ParentRaw(), source), cuts)
  }

  /** Nothing fails on the reading side, and the stream and the encoder output get through. */
  ghost predicate ReadsThrough(tools: Programs, source: Subvolumes, step: RunStep, io: StepIo) {
    && OnSource(source, step)
    && PullsWork(io.events)
    && Enough(io.events, |StepStream(tools, source, step, io.cuts)|, StepSize(tools, source, step))
  }

  /** Nothing fails on the writing side up to the end of the transfer. */
  ghost predicate WritesThrough(io: StepIo) {
    SinksWork(io.events) && io.closes
  }

  /** No failing input or output in any of the steps. */
  ghost predicate StepsWork(tools: Programs, source: Subvolumes, steps: seq<RunStep>, ios: nat -> StepIo) {
    forall k {:trigger steps[k]} :: 0 <= k < |steps| ==>
      ReadsThrough(tools, source, steps[k], ios(k)) && WritesThrough(ios(k)) && ios(k).commits
  }

  /**
   * Sends one snapshot into its chunk objects. Whether it succeeds or not, the objects it created are
   * the numbered parts `names` and no other object differs; the archive lists exactly these.
   */
  method TransferStep(tools: Programs, dest: Destination, source: Subvolumes, step: RunStep, maxChunkSizeMib: nat,
                      io: StepIo)
    returns (r: Result<VolumeArchive>, ghost names: seq<string>)
    requires OnSource(source, step)
    modifies dest`objects, dest`created
    ensures Numbered(names) && dest.created == old(dest.created) + Paths(step.snap.raw, names)
    ensures SameBut(old(dest.objects), dest.objects, step.snap.raw, names)
    ensures Present(dest.objects, step.snap.raw, names)
    ensures ReadsThrough(tools, source, step, io) && WritesThrough(io) ==> r.Ok?
    ensures r.Ok? ==>
      && r.value == ArchiveOf(step, r.value.chunks) && Filenames(r.value.chunks) == names
      && Complete(tools, dest.objects, source, step, r.value.chunks)
      && (SizesKept(maxChunkSizeMib, io) ==> r.value.TotalSize() == StepSize(tools, source, step))
  {
    hide Numbered, Paths, SameBut, SinksWork, PullsWork, Enough, OffersWithin, Present;
    var raw := tools.Stream(step.snap.raw, step.ParentRaw(), source);
    var written, created, _ := WriteSubvolume(dest, step.snap.raw, maxChunkSizeMib, Pieces(raw, io.cuts),
                                              tools.compress(raw), io.events, io.closes);
    names := created;
    if written.Err? { return Err(written.error), names; }
    return Ok(VolumeArchive(step.snap, step.ParentRaw(), written.value)), names;
  }

  /** The entry that a step of the given size leaves in the statistics. */
  function StepEntry(step: RunStep, size: nat): Entry { Entry(step.SendIncremental?, size) }

  /** From `s`, a committed step led to `u` and left entry `e` in the metadata. */
  ghost predicate Stepped(s: System, u: System, e: Entry) {
    && s.phase.Running? && u.phase == s.phase.(done := s.phase.done + 1)
    && multiset(EntriesOf(u.Committed())) == multiset(EntriesOf(s.Committed())) + multiset{e}
  }

  /** The archive of `name` lists exactly these parts. */
  ghost predicate ListedAs(archives: seq<VolumeArchive>, name: string, names: seq<string>) {
    Find(archives, name).Some? && Filenames(Find(archives, name).value.chunks) == names
  }

  lemma SteppedTo(tools: Programs, s: System, u: System, archive: VolumeArchive, e: Entry)
    requires Inv(tools, s) && AtStep(s) && archive == ArchiveOf(CurrentStep(s), archive.chunks)
    requires u.Committed() == Added(s.Committed(), archive) && e == EntryOf(archive)
    requires s.phase.Running? && u.phase == s.phase.(done := s.phase.done + 1)
    ensures Stepped(s, u, e) && ListedAs(u.Committed(), archive.timestamp.raw, Filenames(archive.chunks))
  {
    hide EntriesOf, Added, Find, Ascending, RunInv, Holds;
    EntriesOfAdded(s.Committed(), archive);
    StepIsSendable(tools, s);
    AddedKeeps(s.Committed(), archive);
    FindUnique(u.Committed(), archive);
  }

  /** The stored metadata keeps the first sync time and records the latest one. */
  ghost predicate Stamped(meta: Option<Meta>, firstSync: nat, lastSync: nat) {
    meta.Some? && meta.value.firstSync == firstSync && meta.value.lastSync == lastSync
  }

  /**
   * One step of a run: chunks, then statistics and metadata in memory, then the stored metadata. Its
   * effect on the destination is that of protocol events, wherever it fails; the value is the size
   * sent. A committed archive lists exactly the objects that this step created.
   */
  method SendStep(tools: Programs, dest: Destination, destMeta: DestMeta, source: Subvolumes, step: RunStep,
                  maxChunkSizeMib: nat, io: StepIo, sentStats: ArchiveStats, ghost s: System)
    returns (r: Result<nat>, ghost s': System, ghost names: seq<string>)
    requires Inv(tools, s) && AtStep(s) && s.phase.Fresh() && step == CurrentStep(s) && OnSource(source, step)
    requires Mirrors(dest, source, s) && destMeta.archives == s.Committed() && sentStats.Valid()
    modifies dest, destMeta, sentStats
    ensures Reaches(tools, s, s') && Mirrors(dest, source, s') && s'.phase.Running?
    ensures Numbered(names) && dest.created == old(dest.created) + Paths(step.snap.raw, names)
    ensures SameBut(old(dest.objects), dest.objects, step.snap.raw, names)
    ensures Present(dest.objects, step.snap.raw, names)
    ensures ReadsThrough(tools, source, step, io) && WritesThrough(io) && io.commits ==> r.Ok?
    ensures r.Ok? ==>
      && Stepped(s, s', StepEntry(step, r.value))
      && ListedAs(s'.Committed(), step.snap.raw, names)
      && destMeta.archives == s'.Committed()
      && sentStats.Valid() && sentStats.counted == old(sentStats.counted) + [StepEntry(step, r.value)]
      && (SizesKept(maxChunkSizeMib, io) ==> r.value == StepSize(tools, source, step))
      && Stamped(dest.meta, destMeta.firstSync, io.now)
    ensures r.Err? ==> dest.meta == old(dest.meta)
  {
    hide Inv, AtStep, Reaches, Complete, Added, Ascending, EntriesOf, Numbered, Paths, SameBut, Present, ReadsThrough,
      WritesThrough;
    var archive, created := TransferStep(tools, dest, source, step, maxChunkSizeMib, io);
    names := created;
    if archive.Err? {
      s' := CutOffEvents(tools, s, dest.objects, names);
      return Err(archive.error), s', names;
    }
    sentStats.AddArchive(archive.value);
    destMeta.AddArchive(archive.value);
    destMeta.SetLastSync(io.now);
    if !io.commits {
      s' := CutOffEvents(tools, s, dest.objects, names);
      return Err(IoError), s', names;
    }
    s' := StepEvents(tools, s, dest.objects, archive.value.chunks, destMeta.firstSync, io.now);
    SteppedTo(tools, s, s', archive.value, EntryOf(archive.value));
    dest.meta := Some(destMeta.Value());
    return Ok(archive.value.TotalSize()), s', names;
  }

  /** One entry for each of the first steps, with the length of the compressed stream as its size. */
  ghost predicate Projected(tools: Programs, source: Subvolumes, steps: seq<RunStep>, entries: seq<Entry>) {
    && |entries| <= |steps|
    && forall i :: 0 <= i < |entries| ==>
         OnSource(source, steps[i]) && entries[i] == StepEntry(steps[i], StepSize(tools, source, steps[i]))
  }

  /** One entry for each of the first steps, of the step's kind. */
  ghost predicate Kinds(steps: seq<RunStep>, entries: seq<Entry>) {
    && |entries| <= |steps|
    && forall i :: 0 <= i < |entries| ==> entries[i].incremental == steps[i].SendIncremental?
  }

  /** The run has planned and stands before its first step. */
  lemma RunBegins(tools: Programs, s: System, snaps: seq<Timestamp>, policy: SendPolicy) returns (s': System)
    requires Inv(tools, s) && s.phase.Idle?
    requires Ascending(StampKey, snaps) && SourceNames(snaps) == s.source.Keys && policy.Valid()
    requires WellFormed(s.Committed())
    ensures s' == s.(phase := Running(s.Committed(), snaps, policy, 0, None, None))
    ensures Reaches(tools, s, s') && Inv(tools, s') && PlanOf(s'.phase) == Plan(snaps, s.Committed(), policy)
  {
    s' := s.(phase := Running(s.Committed(), snaps, policy, 0, None, None));
    ReachesSelf(tools, s);
    assert Next(tools, s, Begin(snaps, policy), s');
    ReachesNext(tools, s, s, Begin(snaps, policy), s');
    ReachesInv(tools, s, s');
  }

  /** However a run ends, what remains of it is what is stored. */
  lemma RunEnds(tools: Programs, s: System, t: System) returns (s': System)
    requires Reaches(tools, s, t) && t.phase.Running?
    ensures Reaches(tools, s, s') && s' == t.(phase := Idle)
  {
    s' := t.(phase := Idle);
    assert Next(tools, t, Stop, s');
    ReachesNext(tools, s, t, Stop, s');
  }

  /** The next step of a running plan can be sent. */
  lemma NextStep(tools: Programs, s: System, plan: seq<RunStep>, k: nat)
    requires Inv(tools, s) && s.phase.Running? && plan == PlanOf(s.phase) && s.phase.done == k < |plan|
    ensures AtStep(s) && plan[k] == CurrentStep(s) && OnSource(s.source, plan[k])
  {
    StepIsSendable(tools, s);
  }

  ghost predicate AllSizesKept(maxChunkSizeMib: nat, ios: nat -> StepIo) {
    forall i :: SizesKept(maxChunkSizeMib, ios(i))
  }

  /** The state after `k` steps of the run that began in `s`. */
  ghost predicate RunningAt(tools: Programs, s: System, t: System, k: nat) {
    Reaches(tools, s, t) && Inv(tools, t) && s.phase.Running? && t.phase == s.phase.(done := k)
  }

  lemma RunningOn(tools: Programs, s: System, t: System, u: System, k: nat)
    requires RunningAt(tools, s, t, k) && Reaches(tools, t, u)
    ensures Reaches(tools, s, u)
    ensures u.phase == t.phase.(done := k + 1) ==> RunningAt(tools, s, u, k + 1)
  {
    ReachesTransitive(tools, s, t, u);
    ReachesInv(tools, t, u);
  }

  /** One iteration of the step loop. */
  method RunOne(tools: Programs, dest: Destination, destMeta: DestMeta, source: Subvolumes, steps: seq<RunStep>, k: nat,
                maxChunkSizeMib: nat, ios: nat -> StepIo, sentStats: ArchiveStats, ghost s: System, ghost t: System)
    returns (r: Result<nat>, ghost u: System)
    requires RunningAt(tools, s, t, k) && s.phase.Fresh() && k < |steps| && steps == PlanOf(s.phase)
    requires Mirrors(dest, source, t) && destMeta.archives == t.Committed() && sentStats.Valid()
    modifies dest, destMeta, sentStats
    ensures Reaches(tools, s, u) && Mirrors(dest, source, u) && u.phase.Running?
    ensures ReadsThrough(tools, source, steps[k], ios(k)) && WritesThrough(ios(k)) && ios(k).commits ==> r.Ok?
    ensures r.Ok? ==>
      && RunningAt(tools, s, u, k + 1) && OnSource(source, steps[k])
      && Stepped(t, u, StepEntry(steps[k], r.value))
      && destMeta.archives == u.Committed()
      && sentStats.Valid() && sentStats.counted == old(sentStats.counted) + [StepEntry(steps[k], r.value)]
      && (AllSizesKept(maxChunkSizeMib, ios) ==> r.value == StepSize(tools, source, steps[k]))
      && Stamped(dest.meta, destMeta.firstSync, ios(k).now)
    ensures r.Err? ==> dest.meta == old(dest.meta)
  {
    hide ReadsThrough, WritesThrough;
    NextStep(tools, t, steps, k);
    ghost var names;
    r, u, names := SendStep(tools, dest, destMeta, source, steps[k], maxChunkSizeMib, ios(k), sentStats, t);
    RunningOn(tools, s, t, u, k);
  }

  /**
   * From `s` to `t` the steps with these entries were committed: `total` bytes, each entry of the kind
   * of its step, and the metadata gained exactly these entries.
   */
  ghost predicate Gained(s: System, t: System, steps: seq<RunStep>, entries: seq<Entry>, total: nat) {
    && Kinds(steps, entries) && total == Size(entries, All)
    && multiset(EntriesOf(t.Committed())) == multiset(EntriesOf(s.Committed())) + multiset(entries)
  }

  lemma GainedNothing(tools: Programs, s: System, source: Subvolumes, steps: seq<RunStep>) returns (entries: seq<Entry>)
    ensures entries == [] && Gained(s, s, steps, entries, 0) && Projected(tools, source, steps, entries)
  {
    entries := [];
  }

  lemma KindsMore(steps: seq<RunStep>, entries: seq<Entry>, size: nat) returns (more: seq<Entry>)
    requires Kinds(steps, entries) && |entries| < |steps|
    ensures more == entries + [StepEntry(steps[|entries|], size)]
    ensures Kinds(steps, more) && Size(more, All) == Size(entries, All) + size
    ensures multiset(more) == multiset(entries) + multiset{StepEntry(steps[|entries|], size)}
  {
    var e := StepEntry(steps[|entries|], size);
    more := entries + [e];
    CountOneMore(entries, e, All);
  }

  lemma GainedMore(s: System, t: System, u: System, steps: seq<RunStep>, entries: seq<Entry>, total: nat, size: nat)
    returns (more: seq<Entry>)
    requires Gained(s, t, steps, entries, total) && |entries| < |steps|
    requires Stepped(t, u, StepEntry(steps[|entries|], size))
    ensures Gained(s, u, steps, more, total + size)
    ensures more == entries + [StepEntry(steps[|entries|], size)]
  {
    hide Kinds, EntriesOf, StepEntry, Size;
    more := KindsMore(steps, entries, size);
  }

  lemma ProjectedNothing(tools: Programs, source: Subvolumes, steps: seq<RunStep>) returns (entries: seq<Entry>)
    ensures entries == [] && Projected(tools, source, steps, entries)
  {
    entries := [];
  }

  lemma ProjectedMore(tools: Programs, source: Subvolumes, steps: seq<RunStep>, entries: seq<Entry>, more: seq<Entry>,
                      size: nat)
    requires Projected(tools, source, steps, entries) && |entries| < |steps|
    requires OnSource(source, steps[|entries|]) && size == StepSize(tools, source, steps[|entries|])
    requires more == entries + [StepEntry(steps[|entries|], size)]
    ensures Projected(tools, source, steps, more)
  {
  }

  /** The step loop of a run that starts in `s`; `t` is the state in which it stops. */
  method RunSteps(tools: Programs, dest: Destination, destMeta: DestMeta, source: Subvolumes, steps: seq<RunStep>,
                  maxChunkSizeMib: nat, ios: nat -> StepIo, sentStats: ArchiveStats, ghost s: System)
    returns (r: Result<nat>, ghost t: System, ghost entries: seq<Entry>)
    requires Inv(tools, s) && s.phase.Fresh() && s.phase.done == 0 && steps == PlanOf(s.phase)
    requires Mirrors(dest, source, s) && destMeta.archives == s.Committed() && sentStats.Valid()
    modifies dest, destMeta, sentStats
    ensures Reaches(tools, s, t) && Mirrors(dest, source, t) && t.phase.Running?
    ensures StepsWork(tools, source, steps, ios) ==> r.Ok?
    ensures dest.meta == old(dest.meta) || (dest.meta.Some? && dest.meta.value.firstSync == destMeta.firstSync)
    ensures r.Ok? ==>
      && RunningAt(tools, s, t, |steps|) && destMeta.archives == t.Committed()
      && |entries| == |steps| && Gained(s, t, steps, entries, r.value)
      && sentStats.Valid() && sentStats.counted == old(sentStats.counted) + entries
      && (AllSizesKept(maxChunkSizeMib, ios) ==> Projected(tools, source, steps, entries))
      && (steps != [] ==> Stamped(dest.meta, destMeta.firstSync, ios(|steps| - 1).now))
  {
    hide Reaches, Inv, Gained, Projected, Stepped, AllSizesKept, PlanOf, Size, Count, OnSource, ReadsThrough,
      WritesThrough;
    var total: nat := 0;
    t := s;
    entries := GainedNothing(tools, s, source, steps);
    ReachesSelf(tools, s);
    for k := 0 to |steps|
      invariant RunningAt(tools, s, t, k)
      invariant Mirrors(dest, source, t) && destMeta.archives == t.Committed()
      invariant |entries| == k && Gained(s, t, steps, entries, total)
      invariant sentStats.Valid() && sentStats.counted == old(sentStats.counted) + entries
      invariant AllSizesKept(maxChunkSizeMib, ios) ==> Projected(tools, source, steps, entries)
      invariant if k == 0 then dest.meta == old(dest.meta) else Stamped(dest.meta, destMeta.firstSync, ios(k - 1).now)
    {
      ghost var u;
      var size;
      size, u := RunOne(tools, dest, destMeta, source, steps, k, maxChunkSizeMib, ios, sentStats, s, t);
      if size.Err? { return Err(size.error), u, entries; }
      ghost var more := GainedMore(s, t, u, steps, entries, total, size.value);
      if AllSizesKept(maxChunkSizeMib, ios) { ProjectedMore(tools, source, steps, entries, more, size.value); }
      total := total + size.value;
      t, entries := u, more;
    }
    return Ok(total), t, entries;
  }

  // ---------------------------------------------------------------- one volume

  /** The volume is at rest in state `s`, and its source holds exactly the series `snaps`. */
  ghost predicate AtRest(tools: Programs, dest: Destination, source: Subvolumes, snaps: seq<Timestamp>, s: System)
    reads dest
  {
    && Inv(tools, s) && WellFormed(s.Committed()) && s.phase.Idle? && Mirrors(dest, source, s)
    && Ascending(StampKey, snaps) && SourceNames(snaps) == source.Keys
  }

  /**
   * A complete run from `s` to `t`: every planned step was committed and has its entry, `total` bytes
   * were sent, and planning again would find nothing to do.
   */
  ghost predicate Ran(tools: Programs, s: System, t: System, snaps: seq<Timestamp>, policy: SendPolicy,
                      entries: seq<Entry>, total: nat) {
    && Ascending(StampKey, snaps) && WellFormed(s.Committed()) && WellFormed(t.Committed())
    && |entries| == |Plan(snaps, s.Committed(), policy)|
    && Gained(s, t, Plan(snaps, s.Committed(), policy), entries, total)
    && Plan(snaps, t.Committed(), policy) == []
  }

  lemma NothingToRun(tools: Programs, s: System, snaps: seq<Timestamp>, policy: SendPolicy)
    returns (entries: seq<Entry>)
    requires Ascending(StampKey, snaps) && WellFormed(s.Committed()) && Plan(snaps, s.Committed(), policy) == []
    ensures entries == [] && Ran(tools, s, s, snaps, policy, entries, 0)
    ensures Projected(tools, s.source, [], entries)
  {
    entries := GainedNothing(tools, s, s.source, []);
  }

  lemma RunCompletes(tools: Programs, s: System, begun: System, t: System, ended: System, snaps: seq<Timestamp>,
                     policy: SendPolicy, entries: seq<Entry>, total: nat)
    requires Inv(tools, s) && Ascending(StampKey, snaps)
    requires begun == s.(phase := Running(s.Committed(), snaps, policy, 0, None, None)) && ended == t.(phase := Idle)
    requires RunningAt(tools, begun, t, |entries|) && |entries| == |Plan(snaps, s.Committed(), policy)|
    requires Gained(begun, t, Plan(snaps, s.Committed(), policy), entries, total)
    ensures Ran(tools, s, ended, snaps, policy, entries, total)
  {
    ResumeAfterStop(tools, t);
  }

  lemma RunRests(tools: Programs, s: System, stopped: System) returns (t: System)
    requires Inv(tools, s) && Reaches(tools, s, stopped) && stopped.phase.Running?
    ensures t == stopped.(phase := Idle) && Reaches(tools, s, t) && Inv(tools, t) && WellFormed(t.Committed())
  {
    t := RunEnds(tools, s, stopped);
    ReachesInv(tools, s, t);
  }

  /** Stored metadata keeps its time of the first sync; metadata written for the first time has this one. */
  ghost predicate FirstSyncKept(before: Option<Meta>, after: Option<Meta>, now: nat) {
    && (before.Some? ==> after.Some? && after.value.firstSync == before.value.firstSync)
    && (before.None? && after.Some? ==> after.value.firstSync == now)
  }

  /** The stored metadata, or new metadata that is first synced now. */
  method LoadOrCreate(meta: Option<Meta>, now: nat) returns (destMeta: DestMeta)
    requires WellFormed(ArchivesIn(meta))
    ensures fresh(destMeta) && destMeta.archives == ArchivesIn(meta)
    ensures meta.Some? ==> destMeta.firstSync == meta.value.firstSync
    ensures meta.None? ==> destMeta.firstSync == now
  {
    if meta.None? {
      destMeta := new DestMeta(now, 0, []);
    } else {
      destMeta := new DestMeta(meta.value.firstSync, meta.value.lastSync, meta.value.archives);
    }
  }

  /** Carries out a plan, from the state after planning to the stored result. */
  method RunPlan(tools: Programs, dest: Destination, source: Subvolumes, snaps: seq<Timestamp>, policy: SendPolicy,
                 steps: seq<RunStep>, maxChunkSizeMib: nat, now: nat, ios: nat -> StepIo, sentStats: ArchiveStats,
                 remoteStats: ArchiveStats, ghost s: System)
    returns (r: Result<nat>, ghost t: System, ghost entries: seq<Entry>)
    requires AtRest(tools, dest, source, snaps, s) && policy.Valid() && steps == Plan(snaps, s.Committed(), policy)
    requires sentStats.Valid() && remoteStats.Valid() && sentStats != remoteStats
    modifies dest, sentStats, remoteStats
    ensures Reaches(tools, s, t) && AtRest(tools, dest, source, snaps, t)
    ensures StepsWork(tools, source, steps, ios) ==> r.Ok?
    ensures FirstSyncKept(old(dest.meta), dest.meta, now)
    ensures r.Ok? ==>
      && Ran(tools, s, t, snaps, policy, entries, r.value)
      && (AllSizesKept(maxChunkSizeMib, ios) ==> Projected(tools, source, steps, entries))
      && |entries| == |steps|
      && (steps != [] ==> dest.meta.Some? && dest.meta.value.lastSync == ios(|steps| - 1).now)
      && sentStats.Valid() && sentStats.counted == old(sentStats.counted) + entries
      && remoteStats.Valid() && remoteStats.counted == old(remoteStats.counted) + EntriesOf(t.Committed())
  {
    hide Inv, Reaches, Gained, Projected, Ran, Plan, PlanOf, AllSizesKept, Ascending, SourceNames, EntriesOf, Count,
      Size, StepsWork;
    var destMeta := LoadOrCreate(dest.meta, now);
    ghost var begun := RunBegins(tools, s, snaps, policy);
    ghost var stopped;
    r, stopped, entries := RunSteps(tools, dest, destMeta, source, steps, maxChunkSizeMib, ios, sentStats, begun);
    ReachesTransitive(tools, s, begun, stopped);
    t := RunRests(tools, s, stopped);
    if r.Ok? {
      RunCompletes(tools, s, begun, stopped, t, snaps, policy, entries, r.value);
      var remote := StatsFromMeta(Some(destMeta.Value()));
      remoteStats.Merge(remote);
    }
  }

  /**
   * Runs one volume: an up-to-date volume is left alone, otherwise every planned step is sent. Remote
   * usage is counted from the final metadata.
   */
  method RunVolume(tools: Programs, dest: Destination, source: Subvolumes, snaps: seq<Timestamp>, policy: SendPolicy,
                   maxChunkSizeMib: nat, now: nat, ios: nat -> StepIo, sentStats: ArchiveStats,
                   remoteStats: ArchiveStats, ghost s: System)
    returns (r: Result<nat>, ghost t: System, ghost entries: seq<Entry>)
    requires AtRest(tools, dest, source, snaps, s) && policy.Valid()
    requires sentStats.Valid() && remoteStats.Valid() && sentStats != remoteStats
    modifies dest, sentStats, remoteStats
    ensures Reaches(tools, s, t) && AtRest(tools, dest, source, snaps, t)
    ensures StepsWork(tools, source, Plan(snaps, s.Committed(), policy), ios) ==> r.Ok?
    ensures old(dest.meta).Some? ==> dest.meta.Some? && dest.meta.value.firstSync == old(dest.meta).value.firstSync
    ensures old(dest.meta).None? && dest.meta.Some? ==> dest.meta.value.firstSync == now
    ensures r.Ok? ==>
      && Ran(tools, s, t, snaps, policy, entries, r.value)
      && (AllSizesKept(maxChunkSizeMib, ios) ==> Projected(tools, source, Plan(snaps, s.Committed(), policy), entries))
      && (if entries == [] then dest.meta == old(dest.meta)
          else dest.meta.Some? && dest.meta.value.lastSync == ios(|entries| - 1).now)
      && sentStats.Valid() && sentStats.counted == old(sentStats.counted) + entries
      && remoteStats.Valid() && remoteStats.counted == old(remoteStats.counted) + EntriesOf(t.Committed())
  {
    hide Inv, Reaches, Gained, Projected, Ran, Plan, AllSizesKept, WellFormed, Ascending, SourceNames, EntriesOf,
      Count, Size, StepsWork;
    var archives := ArchivesIn(dest.meta);
    var steps := BuildPlan(snaps, archives, policy);
    if steps == [] {
      var remote := StatsFromMeta(dest.meta);
      remoteStats.Merge(remote);
      t := s;
      ReachesSelf(tools, s);
      entries := NothingToRun(tools, s, snaps, policy);
      return Ok(0), t, entries;
    }
    r, t, entries := RunPlan(tools, dest, source, snaps, policy, steps, maxChunkSizeMib, now, ios, sentStats,
                             remoteStats, s);
  }
}
