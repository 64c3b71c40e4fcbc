/** All volumes of a sync: statistics over every volume, each with its own place at the destination. */
module Sync {
  import opened Prelude
  import opened Order
  import opened Timestamps
  import opened Archives
  import opened Storage
  import opened Tools
  import opened Planner
  import opened PlanProperties
  import opened Protocol
  import opened Stats
  import opened Run
  import opened Dryrun

  datatype Volume = Volume(dest: Destination, source: Subvolumes, snaps: seq<Timestamp>)

  function Dests(volumes: seq<Volume>): set<Destination> { set v <- volumes :: v.dest }

  ghost predicate Distinct(volumes: seq<Volume>) {
    forall i, j :: 0 <= i < j < |volumes| ==> volumes[i].dest != volumes[j].dest
  }

  /** Volume `i` is at rest in state `i`. */
  ghost predicate AllAtRest(tools: Programs, volumes: seq<Volume>, states: seq<System>)
    reads Dests(volumes)
  {
    && |states| == |volumes|
    && forall i :: 0 <= i < |volumes| ==> AtRest(tools, volumes[i].dest, volumes[i].source, volumes[i].snaps, states[i])
  }

  /** The plan of a volume in a state at rest. */
  ghost function VolumePlan(v: Volume, s: System, policy: SendPolicy): seq<RunStep> {
    if Ascending(StampKey, v.snaps) && WellFormed(s.Committed()) then Plan(v.snaps, s.Committed(), policy) else []
  }

  /** No input or output fails in any run. */
  ghost predicate AllWork(tools: Programs, volumes: seq<Volume>, states: seq<System>, policy: SendPolicy,
                          ios: nat -> nat -> StepIo) {
    && |states| == |volumes|
    && forall i {:trigger states[i]} :: 0 <= i < |volumes| ==>
         StepsWork(tools, volumes[i].source, VolumePlan(volumes[i], states[i], policy), ios(i))
  }

  /** Every measured stream gets through. */
  ghost predicate AllMeasured(tools: Programs, volumes: seq<Volume>, states: seq<System>, policy: SendPolicy,
                              ios: nat -> nat -> StepIo) {
    && |states| == |volumes|
    && forall i {:trigger states[i]} :: 0 <= i < |volumes| ==>
         MeasuresWork(tools, volumes[i].source, VolumePlan(volumes[i], states[i], policy), ios(i))
  }

  /** The entries of several volumes one after the other. */
  function Flat(entries: seq<seq<Entry>>): seq<Entry> {
    if |entries| == 0 then [] else Flat(entries[..|entries| - 1]) + entries[|entries| - 1]
  }

  lemma FlatMore(entries: seq<seq<Entry>>, more: seq<Entry>)
    ensures Flat(entries + [more]) == Flat(entries) + more
  {
    assert (entries + [more])[..|entries|] == entries;
  }

  /** For each of the first volumes, one entry for every step of its plan, of the step's kind. */
  ghost predicate Planned(volumes: seq<Volume>, states: seq<System>, policy: SendPolicy, entries: seq<seq<Entry>>) {
    && |entries| <= |volumes| == |states|
    && forall i :: 0 <= i < |entries| ==>
         && |entries[i]| == |VolumePlan(volumes[i], states[i], policy)|
         && Kinds(VolumePlan(volumes[i], states[i], policy), entries[i])
  }

  /** And its size is the length of the compressed stream. */
  ghost predicate AllProjected(tools: Programs, volumes: seq<Volume>, states: seq<System>, policy: SendPolicy,
                               entries: seq<seq<Entry>>) {
    && |entries| <= |volumes| == |states|
    && forall i :: 0 <= i < |entries| ==>
         Projected(tools, volumes[i].source, VolumePlan(volumes[i], states[i], policy), entries[i])
  }

  lemma PlannedMore(volumes: seq<Volume>, states: seq<System>, policy: SendPolicy, entries: seq<seq<Entry>>,
                    more: seq<Entry>)
    requires Planned(volumes, states, policy, entries) && |entries| < |volumes|
    requires var plan := VolumePlan(volumes[|entries|], states[|entries|], policy);
      |more| == |plan| && Kinds(plan, more)
    ensures Planned(volumes, states, policy, entries + [more])
  {
    hide VolumePlan, Kinds;
  }

  lemma AllProjectedMore(tools: Programs, volumes: seq<Volume>, states: seq<System>, policy: SendPolicy,
                         entries: seq<seq<Entry>>, more: seq<Entry>)
    requires AllProjected(tools, volumes, states, policy, entries) && |entries| < |volumes|
    requires Projected(tools, volumes[|entries|].source, VolumePlan(volumes[|entries|], states[|entries|], policy),
                       more)
    ensures AllProjected(tools, volumes, states, policy, entries + [more])
  {
    hide VolumePlan, Projected;
  }

  /** The entries of everything that is stored in these states. */
  ghost function StoredEntries(states: seq<System>): seq<Entry> {
    if |states| == 0 then []
    else StoredEntries(states[..|states| - 1]) + EntriesOf(states[|states| - 1].Committed())
  }

  /** After the first `k` volumes: each went from its old state to its new one, the others are as they were. */
  ghost predicate Advanced(tools: Programs, states: seq<System>, states': seq<System>, k: nat) {
    && |states'| == |states| && k <= |states|
    && (forall i :: 0 <= i < |states| ==> Reaches(tools, states[i], states'[i]))
    && (forall i :: k <= i < |states| ==> states'[i] == states[i])
  }

  /** The entries sent, and the remote usage, account for the first `k` volumes. */
  ghost predicate Conserved(states: seq<System>, states': seq<System>, k: nat, sent: seq<Entry>, remote: seq<Entry>) {
    && |states'| == |states| && k <= |states|
    && remote == StoredEntries(states'[..k])
    && multiset(remote) == multiset(StoredEntries(states[..k])) + multiset(sent)
  }

  lemma StoredMore(states: seq<System>, k: nat)
    requires k < |states|
    ensures StoredEntries(states[..k + 1]) == StoredEntries(states[..k]) + EntriesOf(states[k].Committed())
  {
    assert states[..k + 1][..k] == states[..k];
  }

  lemma ConservedMore(states: seq<System>, states': seq<System>, k: nat, t: System,
                      sent: seq<Entry>, remote: seq<Entry>, entries: seq<Entry>)
    requires Conserved(states, states', k, sent, remote) && k < |states|
    requires multiset(EntriesOf(t.Committed())) == multiset(EntriesOf(states[k].Committed())) + multiset(entries)
    ensures Conserved(states, states'[k := t], k + 1, sent + entries, remote + EntriesOf(t.Committed()))
  {
    hide EntriesOf;
    StoredMore(states, k);
    StoredMore(states'[k := t], k);
    assert states'[k := t][..k] == states'[..k];
  }

  lemma AdvancedMore(tools: Programs, states: seq<System>, states': seq<System>, k: nat, t: System)
    requires Advanced(tools, states, states', k) && k < |states| && Reaches(tools, states[k], t)
    ensures Advanced(tools, states, states'[k := t], k + 1)
  {
    hide Reaches;
  }

  lemma AdvancedNothing(tools: Programs, states: seq<System>)
    ensures Advanced(tools, states, states, 0) && Conserved(states, states, 0, [], [])
  {
    hide Reaches;
    forall i | 0 <= i < |states| ensures Reaches(tools, states[i], states[i]) { ReachesSelf(tools, states[i]); }
  }

  /** What a complete run of a volume means for the accounts. */
  lemma RanAccounts(tools: Programs, v: Volume, s: System, t: System, policy: SendPolicy, entries: seq<Entry>,
                    total: nat)
    requires Ran(tools, s, t, v.snaps, policy, entries, total)
    ensures multiset(EntriesOf(t.Committed())) == multiset(EntriesOf(s.Committed())) + multiset(entries)
    ensures total == Size(entries, All)
    ensures |entries| == |VolumePlan(v, s, policy)| && Kinds(VolumePlan(v, s, policy), entries)
  {
    hide EntriesOf, Size, Plan, WellFormed, Ascending, Kinds;
  }

  lemma NothingCounted(k: Kind)
    ensures Count([], k) == 0 && Size([], k) == 0
  {
  }

  lemma AdvancedFully(tools: Programs, states: seq<System>, states': seq<System>, k: nat)
    requires Advanced(tools, states, states', k)
    ensures Advanced(tools, states, states', |states|)
  {
    hide Reaches;
  }

  /** The plan of a volume at rest. */
  lemma RestPlan(tools: Programs, v: Volume, s: System, policy: SendPolicy)
    requires AtRest(tools, v.dest, v.source, v.snaps, s)
    ensures Ascending(StampKey, v.snaps) && WellFormed(s.Committed())
    ensures VolumePlan(v, s, policy) == Plan(v.snaps, s.Committed(), policy)
  {
  }

  /** Runs volume `k`, the others being at rest. */
  method RunNth(tools: Programs, volumes: seq<Volume>, k: nat, policy: SendPolicy, maxChunkSizeMib: nat, now: nat,
                ios: nat -> StepIo, sentStats: ArchiveStats, remoteStats: ArchiveStats, total: nat,
                ghost states: seq<System>, ghost current: seq<System>)
    returns (r: Result<nat>, ghost next: seq<System>, ghost entries: seq<Entry>)
    requires k < |volumes| == |states| && Distinct(volumes) && AllAtRest(tools, volumes, current) && policy.Valid()
    requires sentStats.Valid() && remoteStats.Valid() && sentStats != remoteStats
    requires Advanced(tools, states, current, k)
    requires Conserved(states, current, k, sentStats.counted, remoteStats.counted)
    requires total == Size(sentStats.counted, All)
    modifies volumes[k].dest, sentStats, remoteStats
    ensures AllAtRest(tools, volumes, next) && Advanced(tools, states, next, k + 1)
    ensures StepsWork(tools, volumes[k].source, VolumePlan(volumes[k], states[k], policy), ios) ==> r.Ok?
    ensures FirstSyncKept(old(volumes[k].dest.meta), volumes[k].dest.meta, now)
    ensures r.Ok? ==>
      && sentStats.Valid() && remoteStats.Valid()
      && sentStats.counted == old(sentStats.counted) + entries
      && |entries| == |VolumePlan(volumes[k], states[k], policy)|
      && Kinds(VolumePlan(volumes[k], states[k], policy), entries)
      && (AllSizesKept(maxChunkSizeMib, ios) ==>
            Projected(tools, volumes[k].source, VolumePlan(volumes[k], states[k], policy), entries))
      && Conserved(states, next, k + 1, sentStats.counted, remoteStats.counted)
      && r.value == Size(sentStats.counted, All)
  {
    hide AtRest, Reaches, Inv, Gained, Ran, Plan, AllSizesKept, WellFormed, Ascending, SourceNames, EntriesOf, Count,
      Size, Projected, Conserved, VolumePlan, StepsWork, Kinds;
    var v := volumes[k];
    assert current[k] == states[k];
    RestPlan(tools, v, states[k], policy);
    ghost var t;
    ghost var sentBefore, remoteBefore := sentStats.counted, remoteStats.counted;
    r, t, entries := RunVolume(tools, v.dest, v.source, v.snaps, policy, maxChunkSizeMib, now, ios, sentStats,
                               remoteStats, current[k]);
    next := current[k := t];
    AdvancedMore(tools, states, current, k, t);
    if r.Ok? {
      RanAccounts(tools, v, states[k], t, policy, entries, r.value);
      ConservedMore(states, current, k, t, sentBefore, remoteBefore, entries);
      CountConcat(sentBefore, entries, All);
      r := Ok(total + r.value);
    }
  }

  /** All runs stay within the validated limits. */
  ghost predicate AllKept(maxChunkSizeMib: nat, ios: nat -> nat -> StepIo) {
    forall i :: AllSizesKept(maxChunkSizeMib, ios(i))
  }

  /** The accounts of the first volumes: what was sent for each, and in all. */
  ghost predicate SentAccounts(tools: Programs, volumes: seq<Volume>, states: seq<System>, policy: SendPolicy,
                               kept: bool, sent: seq<seq<Entry>>, counted: seq<Entry>)
  {
    && counted == Flat(sent)
    && Planned(volumes, states, policy, sent)
    && (kept ==> AllProjected(tools, volumes, states, policy, sent))
  }

  lemma SentAccountsMore(tools: Programs, volumes: seq<Volume>, states: seq<System>, policy: SendPolicy, kept: bool,
                         sent: seq<seq<Entry>>, counted: seq<Entry>, more: seq<Entry>)
    requires SentAccounts(tools, volumes, states, policy, kept, sent, counted) && |sent| < |volumes|
    requires var plan := VolumePlan(volumes[|sent|], states[|sent|], policy);
      |more| == |plan| && Kinds(plan, more) && (kept ==> Projected(tools, volumes[|sent|].source, plan, more))
    ensures SentAccounts(tools, volumes, states, policy, kept, sent + [more], counted + more)
  {
    hide VolumePlan, Kinds, Projected, Planned, AllProjected;
    FlatMore(sent, more);
    PlannedMore(volumes, states, policy, sent, more);
    if kept { AllProjectedMore(tools, volumes, states, policy, sent, more); }
  }

  lemma NoAccounts(tools: Programs, volumes: seq<Volume>, states: seq<System>, policy: SendPolicy, kept: bool)
    requires |states| == |volumes|
    ensures SentAccounts(tools, volumes, states, policy, kept, [], [])
  {
  }

  lemma UntouchedKept(meta: Option<Meta>, now: nat)
    ensures FirstSyncKept(meta, meta, now)
  {
  }

  /**
   * Runs every volume of a sync. Wherever it stops, every volume is at rest in a state that protocol
   * events lead to; it completes when no input or output fails, and then remote usage is what was stored
   * before plus what was sent.
   */
  method RunSync(tools: Programs, volumes: seq<Volume>, policy: SendPolicy, maxChunkSizeMib: nat, nows: nat -> nat,
                 ios: nat -> nat -> StepIo, ghost states: seq<System>)
    returns (r: Result<nat>, sentStats: ArchiveStats, remoteStats: ArchiveStats, ghost states': seq<System>,
             ghost sent: seq<seq<Entry>>)
    requires Distinct(volumes) && AllAtRest(tools, volumes, states) && policy.Valid()
    modifies Dests(volumes)
    ensures AllAtRest(tools, volumes, states') && Advanced(tools, states, states', |states|)
    ensures AllWork(tools, volumes, states, policy, ios) ==> r.Ok?
    ensures forall i :: 0 <= i < |volumes| ==>
      FirstSyncKept(old(volumes[i].dest.meta), volumes[i].dest.meta, nows(i))
    ensures r.Ok? ==>
      && sentStats.Valid() && remoteStats.Valid()
      && Conserved(states, states', |states|, sentStats.counted, remoteStats.counted)
      && r.value == Size(sentStats.counted, All)
      && |sent| == |volumes|
      && SentAccounts(tools, volumes, states, policy, AllKept(maxChunkSizeMib, ios), sent, sentStats.counted)
    ensures fresh(sentStats) && fresh(remoteStats)
  {
    hide AtRest, Reaches, Count, Size, Advanced, Conserved, VolumePlan, StepsWork, Kinds, Projected, AllSizesKept,
      SentAccounts, FirstSyncKept;
    sentStats := new ArchiveStats();
    remoteStats := new ArchiveStats();
    states', sent := states, [];
    AdvancedNothing(tools, states);
    NoAccounts(tools, volumes, states, policy, AllKept(maxChunkSizeMib, ios));
    forall i | 0 <= i < |volumes| ensures FirstSyncKept(volumes[i].dest.meta, volumes[i].dest.meta, nows(i)) {
      UntouchedKept(volumes[i].dest.meta, nows(i));
    }
    r := Ok(0);
    NothingCounted(All);
    for k := 0 to |volumes|
      invariant fresh(sentStats) && fresh(remoteStats) && sentStats != remoteStats
      invariant sentStats.Valid() && remoteStats.Valid() && r.Ok? && r.value == Size(sentStats.counted, All)
      invariant AllAtRest(tools, volumes, states') && Advanced(tools, states, states', k)
      invariant Conserved(states, states', k, sentStats.counted, remoteStats.counted)
      invariant forall i :: 0 <= i < |volumes| ==>
        FirstSyncKept(old(volumes[i].dest.meta), volumes[i].dest.meta, nows(i))
      invariant forall i :: k <= i < |volumes| ==> volumes[i].dest.meta == old(volumes[i].dest.meta)
      invariant |sent| == k
      invariant SentAccounts(tools, volumes, states, policy, AllKept(maxChunkSizeMib, ios), sent, sentStats.counted)
    {
      assert volumes[k] in volumes;
      ghost var entries, counted := [], sentStats.counted;
      r, states', entries := RunNth(tools, volumes, k, policy, maxChunkSizeMib, nows(k), ios(k), sentStats, remoteStats,
                                    r.value, states, states');
      if r.Err? {
        AdvancedFully(tools, states, states', k + 1);
        return;
      }
      SentAccountsMore(tools, volumes, states, policy, AllKept(maxChunkSizeMib, ios), sent, counted, entries);
      sent := sent + [entries];
    }
  }

  /** Every counter of the remote usage is that of what was stored before plus that of what was sent. */
  lemma RemoteIsStoredPlusSent(states: seq<System>, states': seq<System>, sent: seq<Entry>, remote: seq<Entry>, k: Kind)
    requires Conserved(states, states', |states|, sent, remote)
    ensures Count(remote, k) == Count(StoredEntries(states), k) + Count(sent, k)
    ensures Size(remote, k) == Size(StoredEntries(states), k) + Size(sent, k)
    ensures remote == StoredEntries(states')
  {
    hide EntriesOf;
    assert states[..|states|] == states && states'[..|states|] == states';
    CountPermuted(remote, StoredEntries(states) + sent, k);
    CountConcat(StoredEntries(states), sent, k);
  }

  // ---------------------------------------------------------------- the dry run

  /** What a dry run has counted over the first volumes: what is stored there, and what was measured. */
  ghost predicate Measured(tools: Programs, volumes: seq<Volume>, states: seq<System>, policy: SendPolicy,
                           measureSend: bool, measured: seq<seq<Entry>>, wouldSend: seq<Entry>, remote: seq<Entry>)
  {
    && |measured| <= |volumes| == |states|
    && wouldSend == Flat(measured)
    && multiset(remote) == multiset(StoredEntries(states[..|measured|])) + multiset(wouldSend)
    && (if measureSend then
          Planned(volumes, states, policy, measured) && AllProjected(tools, volumes, states, policy, measured)
        else wouldSend == [])
  }

  lemma MeasuredNothing(tools: Programs, volumes: seq<Volume>, states: seq<System>, policy: SendPolicy,
                        measureSend: bool)
    requires |states| == |volumes|
    ensures Measured(tools, volumes, states, policy, measureSend, [], [], [])
  {
    assert states[..0] == [];
  }

  lemma MeasuredMore(tools: Programs, volumes: seq<Volume>, states: seq<System>, policy: SendPolicy, measureSend: bool,
                     measured: seq<seq<Entry>>, wouldSend: seq<Entry>, remote: seq<Entry>, more: seq<Entry>)
    requires Measured(tools, volumes, states, policy, measureSend, measured, wouldSend, remote)
    requires |measured| < |volumes|
    requires var v, s := volumes[|measured|], states[|measured|];
      && Projected(tools, v.source, VolumePlan(v, s, policy), more)
      && |more| == if measureSend then |VolumePlan(v, s, policy)| else 0
    ensures Measured(tools, volumes, states, policy, measureSend, measured + [more], wouldSend + more,
                     remote + EntriesOf(states[|measured|].Committed()) + more)
  {
    hide VolumePlan, EntriesOf, Planned, AllProjected, StoredEntries, OnSource;
    var v, s := volumes[|measured|], states[|measured|];
    FlatMore(measured, more);
    StoredMore(states, |measured|);
    if measureSend {
      MeasuredIsSent(tools, v.source, VolumePlan(v, s, policy), more, more);
      PlannedMore(volumes, states, policy, measured, more);
      AllProjectedMore(tools, volumes, states, policy, measured, more);
    }
  }

  /** Dry-runs one volume that is at rest. */
  method DryrunNth(tools: Programs, v: Volume, policy: SendPolicy, measureSend: bool, ios: nat -> StepIo,
                   wouldSendStats: ArchiveStats, remoteStats: ArchiveStats, ghost s: System)
    returns (r: Result<()>, ghost entries: seq<Entry>)
    requires AtRest(tools, v.dest, v.source, v.snaps, s)
    requires wouldSendStats.Valid() && remoteStats.Valid() && wouldSendStats != remoteStats
    modifies wouldSendStats, remoteStats
    ensures !measureSend || MeasuresWork(tools, v.source, VolumePlan(v, s, policy), ios) ==> r.Ok?
    ensures r.Ok? ==>
      && Projected(tools, v.source, VolumePlan(v, s, policy), entries)
      && |entries| == (if measureSend then |VolumePlan(v, s, policy)| else 0)
      && wouldSendStats.Valid() && wouldSendStats.counted == old(wouldSendStats.counted) + entries
      && remoteStats.Valid() && remoteStats.counted == old(remoteStats.counted) + EntriesOf(s.Committed()) + entries
  {
    hide Inv, EntriesOf, Projected, MeasuresWork, Plan, VolumePlan, WellFormed, Ascending, SourceNames, Count, Size;
    RestPlan(tools, v, s, policy);
    r, entries := DryrunVolume(tools, v.dest.meta, v.source, v.snaps, policy, measureSend, ios, wouldSendStats,
                               remoteStats);
  }

  /** Dry-runs every volume of a sync; nothing at the destinations changes. */
  method DryrunSync(tools: Programs, volumes: seq<Volume>, policy: SendPolicy, measureSend: bool,
                    ios: nat -> nat -> StepIo, ghost states: seq<System>)
    returns (r: Result<()>, wouldSendStats: ArchiveStats, remoteStats: ArchiveStats, ghost measured: seq<seq<Entry>>)
    requires AllAtRest(tools, volumes, states)
    ensures !measureSend || AllMeasured(tools, volumes, states, policy, ios) ==> r.Ok?
    ensures r.Ok? ==>
      && wouldSendStats.Valid() && remoteStats.Valid() && |measured| == |volumes|
      && Measured(tools, volumes, states, policy, measureSend, measured, wouldSendStats.counted, remoteStats.counted)
    ensures fresh(wouldSendStats) && fresh(remoteStats)
  {
    hide AtRest, VolumePlan, EntriesOf, Projected, Measured, MeasuresWork, Count, Size;
    wouldSendStats := new ArchiveStats();
    remoteStats := new ArchiveStats();
    measured := [];
    MeasuredNothing(tools, volumes, states, policy, measureSend);
    for k := 0 to |volumes|
      invariant fresh(wouldSendStats) && fresh(remoteStats) && wouldSendStats != remoteStats
      invariant wouldSendStats.Valid() && remoteStats.Valid() && |measured| == k
      invariant Measured(tools, volumes, states, policy, measureSend, measured, wouldSendStats.counted,
                         remoteStats.counted)
    {
      ghost var wouldSend, remote := wouldSendStats.counted, remoteStats.counted;
      ghost var entries;
      r, entries := DryrunNth(tools, volumes[k], policy, measureSend, ios(k), wouldSendStats, remoteStats, states[k]);
      if r.Err? { return; }
      MeasuredMore(tools, volumes, states, policy, measureSend, measured, wouldSend, remote, entries);
      measured := measured + [entries];
    }
    r := Ok(());
  }

  /** Both plans have one entry for every step, and the sizes agree. */
  ghost predicate SameSizes(measured: seq<seq<Entry>>, sent: seq<seq<Entry>>) {
    && |measured| == |sent|
    && forall i, j :: 0 <= i < |sent| && 0 <= j < |sent[i]| && j < |measured[i]| ==>
         measured[i][j].size == sent[i][j].size
  }

  /** What was planned for the same states with the same sizes is the same. */
  lemma SamePlanned(volumes: seq<Volume>, states: seq<System>, policy: SendPolicy, measured: seq<seq<Entry>>,
                    sent: seq<seq<Entry>>)
    requires Planned(volumes, states, policy, measured) && Planned(volumes, states, policy, sent)
    requires SameSizes(measured, sent)
    ensures measured == sent
  {
    hide VolumePlan, Kinds;
    forall i | 0 <= i < |sent| ensures measured[i] == sent[i] {
      SameEntries(VolumePlan(volumes[i], states[i], policy), measured[i], sent[i]);
    }
  }

  /** Exact recorded sizes are the measured sizes. */
  lemma ExactSizes(tools: Programs, volumes: seq<Volume>, states: seq<System>, policy: SendPolicy,
                   measured: seq<seq<Entry>>, sent: seq<seq<Entry>>)
    requires Planned(volumes, states, policy, measured) && Planned(volumes, states, policy, sent)
    requires |measured| == |sent|
    requires AllProjected(tools, volumes, states, policy, measured)
    requires AllProjected(tools, volumes, states, policy, sent)
    ensures SameSizes(measured, sent)
  {
    hide VolumePlan, Kinds, Projected;
    forall i | 0 <= i < |sent| ensures measured[i] == sent[i] {
      MeasuredIsSent(tools, volumes[i].source, VolumePlan(volumes[i], states[i], policy), measured[i], sent[i]);
    }
  }

  /** Over a whole sync the dry run and the run have counted the same entries. */
  lemma SyncProjected(tools: Programs, volumes: seq<Volume>, states: seq<System>, states': seq<System>,
                      policy: SendPolicy, measured: seq<seq<Entry>>, wouldSend: seq<Entry>, dryRemote: seq<Entry>,
                      sent: seq<seq<Entry>>, counted: seq<Entry>, remote: seq<Entry>, kept: bool)
    requires Measured(tools, volumes, states, policy, true, measured, wouldSend, dryRemote) && |measured| == |volumes|
    requires SentAccounts(tools, volumes, states, policy, kept, sent, counted) && |sent| == |volumes|
    requires Conserved(states, states', |states|, counted, remote)
    ensures kept ==> SameSizes(measured, sent)
    ensures SameSizes(measured, sent) ==> wouldSend == counted && multiset(dryRemote) == multiset(remote)
  {
    hide VolumePlan, Planned, AllProjected, StoredEntries, SameSizes, Flat;
    if kept { ExactSizes(tools, volumes, states, policy, measured, sent); }
    if SameSizes(measured, sent) { SamePlanned(volumes, states, policy, measured, sent); }
  }

  /**
   * A measuring dry run of a sync, and then the run. Whenever the sent sizes are the measured ones, and so
   * whenever the run stays within the validated limits, the dry run had projected all six counters of what
   * is sent and of remote usage.
   */
  method DryrunThenRun(tools: Programs, volumes: seq<Volume>, policy: SendPolicy, maxChunkSizeMib: nat,
                       nows: nat -> nat, measureIos: nat -> nat -> StepIo, ios: nat -> nat -> StepIo,
                       ghost states: seq<System>)
    returns (dry: Result<()>, run: Result<nat>, wouldSendStats: ArchiveStats, dryRemoteStats: ArchiveStats,
             sentStats: ArchiveStats, remoteStats: ArchiveStats, ghost measured: seq<seq<Entry>>,
             ghost sent: seq<seq<Entry>>)
    requires Distinct(volumes) && AllAtRest(tools, volumes, states) && policy.Valid()
    modifies Dests(volumes)
    ensures AllMeasured(tools, volumes, states, policy, measureIos) ==> dry.Ok?
    ensures AllWork(tools, volumes, states, policy, ios) ==> run.Ok?
    ensures dry.Ok? && run.Ok? ==>
      && Planned(volumes, states, policy, measured) && Planned(volumes, states, policy, sent)
      && |measured| == |sent| == |volumes|
      && wouldSendStats.counted == Flat(measured) && sentStats.counted == Flat(sent)
      && (AllKept(maxChunkSizeMib, ios) ==> SameSizes(measured, sent))
      && (SameSizes(measured, sent) ==>
            SameCounters(wouldSendStats, sentStats) && SameCounters(dryRemoteStats, remoteStats))
  {
    hide AllAtRest, AllMeasured, AllWork, Planned, AllProjected, StoredEntries, Flat, SameSizes, SameCounters, AllKept,
      Advanced, Conserved, Count, Size;
    dry, wouldSendStats, dryRemoteStats, measured := DryrunSync(tools, volumes, policy, true, measureIos, states);
    ghost var states';
    run, sentStats, remoteStats, states', sent := RunSync(tools, volumes, policy, maxChunkSizeMib, nows, ios, states);
    if dry.Ok? && run.Ok? {
      SyncProjected(tools, volumes, states, states', policy, measured, wouldSendStats.counted, dryRemoteStats.counted,
                    sent, sentStats.counted, remoteStats.counted, AllKept(maxChunkSizeMib, ios));
      if SameSizes(measured, sent) {
        SameEntriesSameCounters(wouldSendStats, sentStats);
        SameEntriesSameCounters(dryRemoteStats, remoteStats);
      }
    }
  }
}
