/**
 * The backup protocol of one volume as a state machine: runs that write chunks, extend and commit
 * metadata, stop anywhere, and sources that gain and lose snapshots between runs.
 */
module Protocol {
  import opened Prelude
  import opened Order
  import opened Timestamps
  import opened Archives
  import opened Storage
  import opened Tools
  import opened Planner
  import opened PlanProperties
  import Forest

  /**
   * A run remembers the archives it started from, the series it planned for, how many steps it has
   * committed, the parts it has created for the current step, and the archive it has added in memory
   * but not committed yet.
   */
  datatype Phase =
    | Idle
    | Running(start: seq<VolumeArchive>, snaps: seq<Timestamp>, policy: SendPolicy, done: nat,
              written: Option<seq<string>>, pending: Option<VolumeArchive>)
  {
    /** The current step has not been attempted yet. */
    predicate Fresh() { Running? && written.None? && pending.None? }
  }

  /**
   * Two parts are history: `created` logs every chunk object that was created or truncated, and `sent`
   * records for each committed snapshot what it and its parent contained on the source when it was sent.
   */
  datatype System = System(
    objects: Objects, meta: Option<Meta>, source: Subvolumes, created: seq<ObjectPath>, sent: History, phase: Phase)
  {
    function Committed(): seq<VolumeArchive> {
      ArchivesIn(meta)
    }
  }

  datatype Event =
    | Begin(snaps: seq<Timestamp>, policy: SendPolicy)
    | Transfer(names: seq<string>)
    | AddArchive(chunks: seq<ChunkFilename>)
    | Commit(firstSync: nat, lastSync: nat)
    | Stop
    | ChangeSource

  /** The plan a running system works through. */
  ghost function PlanOf(p: Phase): seq<RunStep>
    requires p.Running? && Ascending(StampKey, p.snaps) && WellFormed(p.start)
  {
    Plan(p.snaps, p.start, p.policy)
  }

  /** A run is between two steps of its plan, with the next step to do. */
  ghost predicate AtStep(s: System) {
    && s.phase.Running? && Ascending(StampKey, s.phase.snaps) && WellFormed(s.phase.start)
    && s.phase.done < |PlanOf(s.phase)|
  }

  ghost function CurrentStep(s: System): RunStep
    requires AtStep(s)
  {
    PlanOf(s.phase)[s.phase.done]
  }

  /** The archive that the current step produces with the given chunks. */
  ghost function ArchiveOf(step: RunStep, chunks: seq<ChunkFilename>): VolumeArchive {
    VolumeArchive(step.snap, step.ParentRaw(), chunks)
  }

  /** The snapshot, and the parent of an incremental, are on the source. */
  ghost predicate OnSource(source: Subvolumes, step: RunStep) {
    step.snap.raw in source && (step.SendIncremental? ==> step.parent.raw in source)
  }

  /** What sending the step from this source sends. */
  ghost function SentFrom(source: Subvolumes, step: RunStep): Sent
    requires OnSource(source, step)
  {
    Sent(source[step.snap.raw], if step.SendIncremental? then Some(source[step.parent.raw]) else None)
  }

  /** The chunks read back as the compressed stream that the source gives for the step. */
  ghost predicate Complete(tools: Programs, objects: Objects, source: Subvolumes, step: RunStep,
                           chunks: seq<ChunkFilename>) {
    OnSource(source, step) && Carries(tools, objects, ArchiveOf(step, chunks), SentFrom(source, step))
  }

  ghost predicate Next(tools: Programs, s: System, e: Event, s': System) {
    match e
    case Begin(snaps, policy) =>
      && s.phase.Idle? && WellFormed(s.Committed())
      && Ascending(StampKey, snaps) && SourceNames(snaps) == s.source.Keys && policy.Valid()
      && s' == s.(phase := Running(s.Committed(), snaps, policy, 0, None, None))
    case Transfer(names) =>
      // one attempt at the current step, complete or cut off: it creates numbered parts from one on
      && AtStep(s) && s.phase.Fresh()
      && Numbered(names) && SameBut(s.objects, s'.objects, CurrentStep(s).snap.raw, names)
      && Present(s'.objects, CurrentStep(s).snap.raw, names)
      && s' == s.(objects := s'.objects, created := s.created + Paths(CurrentStep(s).snap.raw, names),
                  phase := s.phase.(written := Some(names)))
    case AddArchive(chunks) =>
      && AtStep(s) && s.phase.pending.None?
      && s.phase.written == Some(Filenames(chunks))
      && Complete(tools, s.objects, s.source, CurrentStep(s), chunks)
      && s' == s.(phase := s.phase.(pending := Some(ArchiveOf(CurrentStep(s), chunks))))
    case Commit(firstSync, lastSync) =>
      && AtStep(s) && s.phase.pending.Some? && OnSource(s.source, CurrentStep(s))
      && s' == s.(meta := Some(Meta(firstSync, lastSync, Added(s.Committed(), s.phase.pending.value))),
                  sent := s.sent[CurrentStep(s).snap.raw := SentFrom(s.source, CurrentStep(s))],
                  phase := s.phase.(done := s.phase.done + 1, written := None, pending := None))
    case Stop =>
      // the end of a run, an error or a crash: what was only in memory is gone
      s.phase.Running? && s' == s.(phase := Idle)
    case ChangeSource =>
      s.phase.Idle? && s' == s.(source := s'.source)
  }

  /** A volume whose destination is empty. */
  ghost predicate Init(s: System) {
    s.objects == map[] && s.meta.None? && s.sent == map[] && s.phase.Idle?
  }

  ghost predicate Trace(tools: Programs, states: seq<System>, events: seq<Event>) {
    && |states| == |events| + 1
    && forall i {:trigger events[i]} :: 0 <= i < |events| ==> Next(tools, states[i], events[i], states[i + 1])
  }

  // ---------------------------------------------------------------- the invariant

  /** These steps were sent from this source. */
  ghost predicate SentFromSource(steps: seq<RunStep>, source: Subvolumes, sent: History) {
    forall k {:trigger steps[k]} :: 0 <= k < |steps| ==>
      OnSource(source, steps[k]) && steps[k].snap.raw in sent && sent[steps[k].snap.raw] == SentFrom(source, steps[k])
  }

  /** What a run knows about its own progress. */
  ghost predicate RunInv(tools: Programs, s: System) {
    s.phase.Running? ==>
      && WellFormed(s.phase.start)
      && Ascending(StampKey, s.phase.snaps) && SourceNames(s.phase.snaps) == s.source.Keys
      && s.phase.done <= |PlanOf(s.phase)|
      && SentFromSource(PlanOf(s.phase)[..s.phase.done], s.source, s.sent)
      && ForestOf(s.Committed()) == After(ForestOf(s.phase.start), PlanOf(s.phase)[..s.phase.done])
      && (s.phase.pending.Some? ==>
            && AtStep(s)
            && s.phase.pending.value == ArchiveOf(CurrentStep(s), s.phase.pending.value.chunks)
            && Complete(tools, s.objects, s.source, CurrentStep(s), s.phase.pending.value.chunks))
  }

  /** Metadata, objects and history fit together. */
  ghost predicate StoreInv(tools: Programs, objects: Objects, archives: seq<VolumeArchive>, sent: History) {
    && WellFormed(archives)
    && sent.Keys == Names(archives)
    && (forall a :: a in archives ==> Holds(tools, objects, sent, a))
  }

  /**
   * Committed metadata is sorted, free of duplicates and closed under strictly older parents; every
   * committed archive is stored as it was sent, against whatever its parent then was on the source.
   */
  ghost predicate Inv(tools: Programs, s: System) {
    StoreInv(tools, s.objects, s.Committed(), s.sent) && RunInv(tools, s)
  }

  lemma InitInv(tools: Programs, s: System)
    requires Init(s)
    ensures Inv(tools, s)
  {
  }

  /** The step at hand sends a new snapshot; its parent is committed, older and on the source. */
  lemma StepIsSendable(tools: Programs, s: System)
    requires Inv(tools, s) && AtStep(s)
    ensures Sendable(ForestOf(s.Committed()), s.source.Keys, CurrentStep(s))
    ensures OnSource(s.source, CurrentStep(s))
    ensures After(ForestOf(s.phase.start), PlanOf(s.phase)[..s.phase.done + 1])
         == Grow(ForestOf(s.Committed()), CurrentStep(s))
  {
    hide StoreInv, Ascending, ForestOf, SentFromSource, Complete;
    var f, plan := ForestOf(s.phase.start), PlanOf(s.phase);
    PlanIsSound(s.phase.snaps, 0, f, NewestFull(s.phase.start), RuleOf(s.phase.policy));
    SoundSplits(f, SourceNames(s.phase.snaps), plan, s.phase.done);
  }

  /** Archives outside the written directory stay as they were. */
  lemma HoldsFrame(tools: Programs, before: Objects, after: Objects, changed: string, sent: History, a: VolumeArchive)
    requires Holds(tools, before, sent, a) && SameOutside(before, after, changed) && a.timestamp.raw != changed
    ensures Holds(tools, after, sent, a)
  {
    StoredFrame(before, after, a.timestamp.raw, changed, Filenames(a.chunks));
    RecordedFrame(before, after, a.timestamp.raw, changed, a.chunks);
  }

  lemma TransferInv(tools: Programs, s: System, names: seq<string>, s': System)
    requires Inv(tools, s) && Next(tools, s, Transfer(names), s')
    ensures Inv(tools, s')
  {
    StepIsSendable(tools, s);
    SameButIsOutside(s.objects, s'.objects, CurrentStep(s).snap.raw, names);
    forall a | a in s.Committed() ensures Holds(tools, s'.objects, s'.sent, a) {
      HoldsFrame(tools, s.objects, s'.objects, CurrentStep(s).snap.raw, s.sent, a);
    }
  }

  /** One more archive that is complete on the source. */
  lemma StoreGrows(tools: Programs, objects: Objects, archives: seq<VolumeArchive>, sent: History,
                   a: VolumeArchive, added: seq<VolumeArchive>, what: Sent)
    requires StoreInv(tools, objects, archives, sent)
    requires Carries(tools, objects, a, what) && a.timestamp.raw !in sent
    requires WellFormed(added) && (forall b :: b in added <==> b in archives || b == a)
    requires Names(added) == Names(archives) + {a.timestamp.raw}
    ensures StoreInv(tools, objects, added, sent[a.timestamp.raw := what])
  {
    hide Carries, WellFormed;
  }

  /** The committed archive extends the metadata by one link, the one that was planned. */
  lemma CommitExtends(tools: Programs, s: System, added: seq<VolumeArchive>)
    requires Inv(tools, s) && AtStep(s) && s.phase.pending.Some?
    requires added == Added(s.Committed(), s.phase.pending.value)
    ensures WellFormed(added)
    ensures forall a :: a in added <==> a in s.Committed() || a == s.phase.pending.value
    ensures Names(added) == Names(s.Committed()) + {s.phase.pending.value.timestamp.raw}
    ensures ForestOf(added) == After(ForestOf(s.phase.start), PlanOf(s.phase)[..s.phase.done + 1])
    ensures s.phase.pending.value.timestamp.raw !in s.sent
  {
    var a := s.phase.pending.value;
    StepIsSendable(tools, s);
    AddedKeeps(s.Committed(), a);
    Forest.GrowWellFormed(ForestOf(s.Committed()), a.timestamp.raw, a.parent);
  }

  lemma CommitStoreInv(tools: Programs, s: System, firstSync: nat, lastSync: nat, s': System)
    requires Inv(tools, s) && Next(tools, s, Commit(firstSync, lastSync), s')
    ensures StoreInv(tools, s'.objects, s'.Committed(), s'.sent)
  {
    CommitExtends(tools, s, s'.Committed());
    StoreGrows(tools, s.objects, s.Committed(), s.sent, s.phase.pending.value, s'.Committed(),
               SentFrom(s.source, CurrentStep(s)));
  }

  /** One more step of a plan is sent. */
  lemma SentMore(plan: seq<RunStep>, k: nat, source: Subvolumes, sent: History)
    requires k < |plan| && SentFromSource(plan[..k], source, sent)
    requires OnSource(source, plan[k]) && plan[k].snap.raw !in sent
    ensures SentFromSource(plan[..k + 1], source, sent[plan[k].snap.raw := SentFrom(source, plan[k])])
  {
    var sent' := sent[plan[k].snap.raw := SentFrom(source, plan[k])];
    forall i {:trigger plan[..k + 1][i]} | 0 <= i < k + 1
      ensures OnSource(source, plan[i]) && plan[i].snap.raw in sent'
      ensures sent'[plan[i].snap.raw] == SentFrom(source, plan[i])
    {
      if i < k { assert plan[..k][i] == plan[i]; }
    }
  }

  lemma CommitRunInv(tools: Programs, s: System, firstSync: nat, lastSync: nat, s': System)
    requires Inv(tools, s) && Next(tools, s, Commit(firstSync, lastSync), s')
    ensures RunInv(tools, s')
  {
    hide StoreInv, SentFromSource, WellFormed, Ascending, After, Carries, ForestOf, Added;
    CommitExtends(tools, s, s'.Committed());
    SentMore(PlanOf(s.phase), s.phase.done, s.source, s.sent);
  }

  lemma BeginInv(tools: Programs, s: System, snaps: seq<Timestamp>, policy: SendPolicy, s': System)
    requires Inv(tools, s) && Next(tools, s, Begin(snaps, policy), s')
    ensures Inv(tools, s')
  {
    hide StoreInv, Plan, ForestOf, WellFormed, Ascending, SentFrom;
    assert PlanOf(s'.phase)[..0] == [];
  }

  /** Every event keeps the invariant: it holds at every crash point of every run. */
  lemma NextInv(tools: Programs, s: System, e: Event, s': System)
    requires Inv(tools, s) && Next(tools, s, e, s')
    ensures Inv(tools, s')
  {
    match e
    case Begin(snaps, policy) => BeginInv(tools, s, snaps, policy, s');
    case Transfer(names) => TransferInv(tools, s, names, s');
    case AddArchive(chunks) =>
    case Commit(firstSync, lastSync) =>
      CommitStoreInv(tools, s, firstSync, lastSync, s');
      CommitRunInv(tools, s, firstSync, lastSync, s');
    case Stop =>
    case ChangeSource =>
  }

  lemma TraceStep(tools: Programs, states: seq<System>, events: seq<Event>, i: nat)
    requires Trace(tools, states, events) && i < |events|
    ensures Next(tools, states[i], events[i], states[i + 1])
  {
    hide Next;
  }

  lemma TraceStepInv(tools: Programs, states: seq<System>, events: seq<Event>, i: nat)
    requires Trace(tools, states, events) && i < |events| && Inv(tools, states[i])
    ensures Inv(tools, states[i + 1])
  {
    hide Next, Inv;
    NextInv(tools, states[i], events[i], states[i + 1]);
  }

  /** A trace that starts in the invariant never leaves it. */
  lemma {:induction false} TraceKeepsInv(tools: Programs, states: seq<System>, events: seq<Event>, i: nat)
    requires Trace(tools, states, events) && Inv(tools, states[0]) && i < |states|
    ensures Inv(tools, states[i])
  {
    if i > 0 {
      TraceKeepsInv(tools, states, events, i - 1);
      TraceStepInv(tools, states, events, i - 1);
    }
  }

  /** Every reachable state, crash points included, satisfies the invariant. */
  lemma TraceInv(tools: Programs, states: seq<System>, events: seq<Event>, i: nat)
    requires Trace(tools, states, events) && Init(states[0]) && i < |states|
    ensures Inv(tools, states[i])
  {
    InitInv(tools, states[0]);
    TraceKeepsInv(tools, states, events, i);
  }

  // ---------------------------------------------------------------- reachability

  /** Some sequence of events leads from `s` to `s'`. */
  ghost predicate Reaches(tools: Programs, s: System, s': System) {
    exists states, events ::
      Trace(tools, states, events) && states[0] == s && states[|states| - 1] == s'
  }

  lemma ReachesSelf(tools: Programs, s: System)
    ensures Reaches(tools, s, s)
  {
    var states, events: seq<Event> := [s], [];
    assert Trace(tools, states, events);
  }

  lemma TraceExtends(tools: Programs, states: seq<System>, events: seq<Event>, e: Event, t: System)
    requires Trace(tools, states, events) && Next(tools, states[|states| - 1], e, t)
    ensures Trace(tools, states + [t], events + [e])
  {
    hide Next;
    var states', events' := states + [t], events + [e];
    forall i {:trigger events'[i]} | 0 <= i < |events'| ensures Next(tools, states'[i], events'[i], states'[i + 1]) {
      if i < |events| { assert Next(tools, states[i], events[i], states[i + 1]); }
    }
  }

  lemma ReachesNext(tools: Programs, s: System, t: System, e: Event, t': System)
    requires Reaches(tools, s, t) && Next(tools, t, e, t')
    ensures Reaches(tools, s, t')
  {
    var states, events :| Trace(tools, states, events) && states[0] == s && states[|states| - 1] == t;
    TraceExtends(tools, states, events, e, t');
    assert (states + [t'])[|states|] == t';
  }

  lemma {:induction false} ReachesAlong(tools: Programs, s: System, states: seq<System>, events: seq<Event>, i: nat)
    requires Trace(tools, states, events) && Reaches(tools, s, states[0]) && i < |states|
    ensures Reaches(tools, s, states[i])
  {
    if i > 0 {
      ReachesAlong(tools, s, states, events, i - 1);
      assert Next(tools, states[i - 1], events[i - 1], states[i]);
      ReachesNext(tools, s, states[i - 1], events[i - 1], states[i]);
    }
  }

  lemma ReachesTransitive(tools: Programs, s: System, t: System, u: System)
    requires Reaches(tools, s, t) && Reaches(tools, t, u)
    ensures Reaches(tools, s, u)
  {
    var states, events :| Trace(tools, states, events) && states[0] == t && states[|states| - 1] == u;
    ReachesAlong(tools, s, states, events, |states| - 1);
  }

  lemma ReachesInv(tools: Programs, s: System, s': System)
    requires Inv(tools, s) && Reaches(tools, s, s')
    ensures Inv(tools, s')
  {
    var states, events :| Trace(tools, states, events) && states[0] == s && states[|states| - 1] == s';
    TraceKeepsInv(tools, states, events, |states| - 1);
  }
}
