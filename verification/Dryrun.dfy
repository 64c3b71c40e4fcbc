/** A dry run of one volume, and the statistics it projects for a run. */
module Dryrun {
  import opened Prelude
  import opened Order
  import opened Timestamps
  import opened Archives
  import opened Chunks
  import opened Tools
  import opened Planner
  import opened PlanProperties
  import opened Protocol
  import opened Measure
  import opened Stats
  import opened Run

  /** Compresses the stream of a step into a counting sink. */
  method MeasureStep(tools: Programs, source: Subvolumes, step: RunStep, io: StepIo) returns (r: Result<nat>)
    requires OnSource(source, step)
    ensures ReadsThrough(tools, source, step, io) ==> r.Ok?
    ensures !PullsWork(io.events) ==> r.Err?
    ensures r.Ok? ==> r.value == StepSize(tools, source, step)
  {
    hide PullsWork, Enough;
    var raw := tools.Stream(step.snap.raw, step.ParentRaw(), source);
    var measured := MeasureSubvolume(Pieces(raw, io.cuts), tools.compress(raw), io.events);
    if measured.Err? { return Err(measured.error); }
    return Ok(measured.value.compressed);
  }

  lemma PlanOnSource(source: Subvolumes, snaps: seq<Timestamp>, archives: seq<VolumeArchive>, policy: SendPolicy,
                     k: nat)
    requires Ascending(StampKey, snaps) && WellFormed(archives) && SourceNames(snaps) == source.Keys
    requires k < |Plan(snaps, archives, policy)|
    ensures OnSource(source, Plan(snaps, archives, policy)[k])
  {
    var f, plan := ForestOf(archives), Plan(snaps, archives, policy);
    PlanIsSound(snaps, 0, f, NewestFull(archives), RuleOf(policy));
    SoundSplits(f, SourceNames(snaps), plan, k);
  }

  /** All streams that are measured get through. */
  ghost predicate MeasuresWork(tools: Programs, source: Subvolumes, steps: seq<RunStep>, ios: nat -> StepIo) {
    forall k {:trigger steps[k]} :: 0 <= k < |steps| ==> ReadsThrough(tools, source, steps[k], ios(k))
  }

  /**
   * Plans one volume without sending: what is stored counts as remote usage, and with measuring every
   * planned step adds its compressed size to both statistics. A stream that cannot be read ends it.
   */
  method DryrunVolume(tools: Programs, meta: Option<Meta>, source: Subvolumes, snaps: seq<Timestamp>,
                      policy: SendPolicy, measureSend: bool, ios: nat -> StepIo, wouldSendStats: ArchiveStats,
                      remoteStats: ArchiveStats)
    returns (r: Result<()>, ghost entries: seq<Entry>)
    requires Ascending(StampKey, snaps) && WellFormed(ArchivesIn(meta)) && SourceNames(snaps) == source.Keys
    requires wouldSendStats.Valid() && remoteStats.Valid() && wouldSendStats != remoteStats
    modifies wouldSendStats, remoteStats
    ensures !measureSend || MeasuresWork(tools, source, Plan(snaps, ArchivesIn(meta), policy), ios) ==> r.Ok?
    ensures measureSend && r.Ok? ==>
      forall k :: 0 <= k < |Plan(snaps, ArchivesIn(meta), policy)| ==> PullsWork(ios(k).events)
    ensures r.Ok? ==>
      && Projected(tools, source, Plan(snaps, ArchivesIn(meta), policy), entries)
      && |entries| == (if measureSend then |Plan(snaps, ArchivesIn(meta), policy)| else 0)
      && wouldSendStats.Valid() && wouldSendStats.counted == old(wouldSendStats.counted) + entries
      && remoteStats.Valid() && remoteStats.counted == old(remoteStats.counted) + EntriesOf(ArchivesIn(meta)) + entries
  {
    hide Plan, WellFormed, Ascending, SourceNames, EntriesOf, Count, Size, StepSize, OnSource, Projected,
      ReadsThrough, PullsWork;
    var stored := StatsFromMeta(meta);
    remoteStats.Merge(stored);
    var steps := BuildPlan(snaps, ArchivesIn(meta), policy);
    entries := ProjectedNothing(tools, source, steps);
    for k := 0 to |steps|
      invariant |entries| == (if measureSend then k else 0) && Projected(tools, source, steps, entries)
      invariant wouldSendStats.Valid() && wouldSendStats.counted == old(wouldSendStats.counted) + entries
      invariant remoteStats.Valid()
      invariant remoteStats.counted == old(remoteStats.counted) + EntriesOf(ArchivesIn(meta)) + entries
      invariant measureSend ==> forall i :: 0 <= i < k ==> PullsWork(ios(i).events)
    {
      if measureSend {
        PlanOnSource(source, snaps, ArchivesIn(meta), policy, k);
        var compressed := MeasureStep(tools, source, steps[k], ios(k));
        if compressed.Err? { return Err(compressed.error), entries; }
        wouldSendStats.AddSize(steps[k].SendIncremental?, compressed.value);
        remoteStats.AddSize(steps[k].SendIncremental?, compressed.value);
        ghost var more := entries + [StepEntry(steps[k], compressed.value)];
        ProjectedMore(tools, source, steps, entries, more, compressed.value);
        entries := more;
      }
    }
    return Ok(()), entries;
  }

  /** Entries of the same steps with the same sizes are the same. */
  lemma SameEntries(steps: seq<RunStep>, xs: seq<Entry>, ys: seq<Entry>)
    requires |xs| == |ys| && Kinds(steps, xs) && Kinds(steps, ys)
    requires forall i :: 0 <= i < |xs| ==> xs[i].size == ys[i].size
    ensures xs == ys
  {
    assert forall i :: 0 <= i < |xs| ==> xs[i].incremental == ys[i].incremental;
  }

  /** Within the validated chunk limit and write size the measured sizes are the sent sizes. */
  lemma MeasuredIsSent(tools: Programs, source: Subvolumes, steps: seq<RunStep>, measured: seq<Entry>, sent: seq<Entry>)
    requires Projected(tools, source, steps, measured) && Projected(tools, source, steps, sent) && |measured| == |sent|
    ensures measured == sent && Kinds(steps, measured)
  {
    forall i | 0 <= i < |sent| ensures measured[i] == sent[i] {
      assert OnSource(source, steps[i]);
    }
  }
}
