/**
 * From a history to what can be restored: which archives are stored as they were sent, and what a
 * restore from a reached state brings back.
 */
module EndToEnd {
  import opened Prelude
  import opened Order
  import opened Timestamps
  import opened Archives
  import opened Storage
  import opened Tools
  import opened Planner
  import opened PlanProperties
  import opened Restore
  import opened Receiving
  import opened Protocol
  import opened ProtocolProperties
  import Forest

  // ---------------------------------------------------------------- one archive

  /** The content a snapshot and its parent were sent with. */
  ghost function AsSent(sent: History, a: VolumeArchive): Sent
    requires a.timestamp.raw in sent && (a.parent.Some? ==> a.parent.value in sent)
  {
    Sent(sent[a.timestamp.raw].content, if a.parent.Some? then Some(sent[a.parent.value].content) else None)
  }

  /** The archive is the stream of its snapshot against its parent, both as they were sent. */
  ghost predicate StoredAsSent(tools: Programs, objects: Objects, sent: History, a: VolumeArchive) {
    && a.timestamp.raw in sent && (a.parent.Some? ==> a.parent.value in sent)
    && Carries(tools, objects, a, AsSent(sent, a))
  }

  /** An archive is stored as sent exactly when it was sent against what its parent had been sent with. */
  lemma StoredExactly(tools: Programs, objects: Objects, archives: seq<VolumeArchive>, sent: History, a: VolumeArchive)
    requires AllHeld(tools, objects, archives, sent) && tools.Discerning() && a in archives
    ensures StoredAsSent(tools, objects, sent, a) <==> Agrees(ForestOf(archives), sent, a.timestamp.raw)
  {
    hide Programs.Lawful, Programs.Discerning, Ascending;
    FindUnique(archives, a);
    if a.parent.Some? { assert Holds(tools, objects, sent, Find(archives, a.parent.value).value); }
    if StoredAsSent(tools, objects, sent, a) {
      OneBase(tools, objects, a, sent[a.timestamp.raw], AsSent(sent, a));
    }
  }

  /** Every committed snapshot was sent against what its parent had been sent with. */
  ghost predicate AllAgree(f: Forest.Forest, sent: History) {
    forall n :: n in f ==> Agrees(f, sent, n)
  }

  ghost predicate AllStoredAsSent(tools: Programs, s: System) {
    forall a :: a in s.Committed() ==> StoredAsSent(tools, s.objects, s.sent, a)
  }

  lemma AllStoredExactly(tools: Programs, s: System)
    requires Inv(tools, s) && tools.Lawful() && tools.Discerning()
    ensures AllStoredAsSent(tools, s) <==> AllAgree(ForestOf(s.Committed()), s.sent)
  {
    hide Programs.Lawful, Programs.Discerning, Ascending, RunInv, Agrees, StoredAsSent, Holds;
    var archives := s.Committed();
    forall a | a in archives
      ensures StoredAsSent(tools, s.objects, s.sent, a) <==> Agrees(ForestOf(archives), s.sent, a.timestamp.raw)
    {
      StoredExactly(tools, s.objects, archives, s.sent, a);
    }
    forall n | n in ForestOf(archives) ensures exists a :: a in archives && a.timestamp.raw == n {
      assert Find(archives, n).value in archives;
    }
  }

  // ---------------------------------------------------------------- one run

  ghost predicate ParentAgrees(step: RunStep, source: Subvolumes, sent: History) {
    step.SendIncremental? && step.parent.raw in sent ==>
      step.parent.raw in source && source[step.parent.raw] == sent[step.parent.raw].content
  }

  /** The source holds what was sent before of the snapshots that the plan uses as parents. */
  ghost predicate ParentsAgree(plan: seq<RunStep>, source: Subvolumes, sent: History) {
    forall k {:trigger plan[k]} :: 0 <= k < |plan| ==> ParentAgrees(plan[k], source, sent)
  }

  /** Sending one more step keeps everything in agreement exactly when its parent agrees. */
  lemma OneMoreAgrees(f: Forest.Forest, sent: History, src: set<string>, source: Subvolumes, step: RunStep)
    requires Forest.WellFormed(f) && sent.Keys == f.Keys && Sendable(f, src, step) && OnSource(source, step)
    ensures AllAgree(Grow(f, step), sent[step.snap.raw := SentFrom(source, step)])
       <==> AllAgree(f, sent) && ParentAgrees(step, source, sent)
  {
    var g, sent' := Grow(f, step), sent[step.snap.raw := SentFrom(source, step)];
    assert Agrees(g, sent', step.snap.raw) <==> ParentAgrees(step, source, sent);
    forall n | n in f ensures Agrees(g, sent', n) <==> Agrees(f, sent, n) { }
    assert g.Keys == f.Keys + {step.snap.raw};
  }

  /** Sound steps add one link each, and nothing else. */
  lemma {:induction false} AfterLinks(f: Forest.Forest, src: set<string>, steps: seq<RunStep>)
    requires Forest.WellFormed(f) && Sound(f, src, steps)
    ensures forall k {:trigger steps[k]} :: 0 <= k < |steps| ==>
      && steps[k].snap.raw !in f && steps[k].snap.raw in After(f, steps)
      && After(f, steps)[steps[k].snap.raw] == steps[k].ParentRaw()
    ensures forall n :: n in After(f, steps) && n !in f ==>
      exists k {:trigger steps[k]} :: 0 <= k < |steps| && steps[k].snap.raw == n
    decreases |steps|
  {
    if |steps| > 0 {
      var g, rest := Grow(f, steps[0]), steps[1..];
      Forest.GrowWellFormed(f, steps[0].snap.raw, steps[0].ParentRaw());
      AfterSound(g, src, rest);
      AfterLinks(g, src, rest);
      assert forall k :: 0 < k < |steps| ==> steps[k] == rest[k - 1];
      forall n | n in After(f, steps) && n !in f
        ensures exists k {:trigger steps[k]} :: 0 <= k < |steps| && steps[k].snap.raw == n
      {
        if n in g {
          assert steps[0].snap.raw == n;
        } else {
          var k :| 0 <= k < |rest| && rest[k].snap.raw == n;
          assert steps[k + 1].snap.raw == n;
        }
      }
    }
  }

  /** A parent that was sent in the same run agrees. */
  lemma StepAgrees(g: Forest.Forest, steps: seq<RunStep>, k: nat, source: Subvolumes, before: History, after: History)
    requires k < |steps| && SentFromSource(steps, source, after) && Forest.WellFormed(g) && after.Keys == g.Keys
    requires forall n :: n in before ==> n in after && after[n] == before[n]
    requires forall n :: n in g && n !in before ==>
      exists i {:trigger steps[i]} :: 0 <= i < |steps| && steps[i].snap.raw == n
    requires steps[k].snap.raw in g && g[steps[k].snap.raw] == steps[k].ParentRaw()
    ensures Agrees(g, after, steps[k].snap.raw) <==> ParentAgrees(steps[k], source, before)
  {
    if steps[k].SendIncremental? && steps[k].parent.raw !in before {
      var i :| 0 <= i < |steps| && steps[i].snap.raw == steps[k].parent.raw;
    }
  }

  /** After a run from one source everything agrees exactly when it did before and the parents agree. */
  lemma StepsAgree(f: Forest.Forest, src: set<string>, steps: seq<RunStep>, source: Subvolumes, before: History,
                   after: History)
    requires Forest.WellFormed(f) && Sound(f, src, steps) && SentFromSource(steps, source, after)
    requires before.Keys == f.Keys && after.Keys == After(f, steps).Keys
    requires forall n :: n in before ==> n in after && after[n] == before[n]
    ensures AllAgree(After(f, steps), after) <==> AllAgree(f, before) && ParentsAgree(steps, source, before)
  {
    hide Sound, After;
    var g := After(f, steps);
    AfterSound(f, src, steps);
    AfterLinks(f, src, steps);
    forall n | n in f ensures Agrees(g, after, n) <==> Agrees(f, before, n) { }
    forall k {:trigger steps[k]} | 0 <= k < |steps|
      ensures Agrees(g, after, steps[k].snap.raw) <==> ParentAgrees(steps[k], source, before)
    {
      StepAgrees(g, steps, k, source, before, after);
    }
    assert AllAgree(f, before) && ParentsAgree(steps, source, before) ==> AllAgree(g, after) by {
      if AllAgree(f, before) && ParentsAgree(steps, source, before) {
        forall n | n in g ensures Agrees(g, after, n) {
          if n !in f { var k :| 0 <= k < |steps| && steps[k].snap.raw == n; }
        }
      }
    }
  }

  lemma RunAgrees(tools: Programs, s: System, t: System)
    requires Inv(tools, s) && Inv(tools, t) && Preserves(s, t) && t.phase.Running? && t.phase.start == s.Committed()
    ensures AllAgree(ForestOf(t.Committed()), t.sent) <==>
      && AllAgree(ForestOf(s.Committed()), s.sent)
      && ParentsAgree(PlanOf(t.phase)[..t.phase.done], t.source, s.sent)
  {
    hide Holds, AllAgree, ParentsAgree, Carries, Ascending, SentFromSource, OnSource, SentFrom, Sound, After;
    var f, plan := ForestOf(t.phase.start), PlanOf(t.phase);
    PlanIsSound(t.phase.snaps, 0, f, NewestFull(t.phase.start), RuleOf(t.phase.policy));
    SoundSplits(f, SourceNames(t.phase.snaps), plan, t.phase.done);
    StepsAgree(f, SourceNames(t.phase.snaps), plan[..t.phase.done], t.source, s.sent, t.sent);
  }

  /**
   * Planning compares names and cannot tell whether a parent is still what was sent. What a run has
   * committed, all of its plan or a part, leaves every archive stored as sent exactly when every archive
   * was so before and the source holds, of the archived snapshots used as parents, what was sent.
   */
  lemma RunStoresAsSent(tools: Programs, s: System, t: System)
    requires tools.Lawful() && tools.Discerning()
    requires Inv(tools, s) && Reaches(tools, s, t) && t.phase.Running? && t.phase.start == s.Committed()
    ensures Inv(tools, t) && t.phase.done <= |PlanOf(t.phase)|
    ensures AllStoredAsSent(tools, t) <==>
      AllStoredAsSent(tools, s) && ParentsAgree(PlanOf(t.phase)[..t.phase.done], t.source, s.sent)
  {
    hide StoreInv, AllAgree, ParentsAgree, AllStoredAsSent, Plan, Preserves, Reaches, Programs.Lawful,
      Programs.Discerning, SentFromSource, After, Complete;
    ReachesInv(tools, s, t);
    ReachesPreserves(tools, s, t);
    AllStoredExactly(tools, s);
    AllStoredExactly(tools, t);
    RunAgrees(tools, s, t);
  }

  // ---------------------------------------------------------------- whole histories

  /** Every commit sent against what its parent had been sent with. */
  ghost predicate CommitsAgree(states: seq<System>, events: seq<Event>, i: nat)
    requires i <= |events| < |states|
  {
    forall j {:trigger events[j]} :: 0 <= j < i && events[j].Commit? ==>
      AtStep(states[j]) && ParentAgrees(CurrentStep(states[j]), states[j].source, states[j].sent)
  }

  lemma NothingCommitted(states: seq<System>, events: seq<Event>)
    requires |states| == |events| + 1 && Init(states[0])
    ensures AllAgree(ForestOf(states[0].Committed()), states[0].sent) && CommitsAgree(states, events, 0)
  {
  }

  lemma CommitsBefore(states: seq<System>, events: seq<Event>, i: nat)
    requires 0 < i <= |events| < |states|
    ensures CommitsAgree(states, events, i) <==>
      && CommitsAgree(states, events, i - 1)
      && (events[i - 1].Commit? ==>
            && AtStep(states[i - 1])
            && ParentAgrees(CurrentStep(states[i - 1]), states[i - 1].source, states[i - 1].sent))
  {
    hide AtStep, ParentAgrees;
  }

  /** Only a commit against a parent that was replaced puts an end to agreement. */
  lemma NextAgrees(tools: Programs, s: System, e: Event, s': System)
    requires Inv(tools, s) && Next(tools, s, e, s')
    ensures e.Commit? ==> AtStep(s)
    ensures AllAgree(ForestOf(s'.Committed()), s'.sent) <==>
      && AllAgree(ForestOf(s.Committed()), s.sent)
      && (e.Commit? ==> ParentAgrees(CurrentStep(s), s.source, s.sent))
  {
    hide AllAgree, ParentAgrees, Holds, Carries, Plan, Ascending, SentFromSource, Complete;
    if e.Commit? {
      StepIsSendable(tools, s);
      CommitExtends(tools, s, s'.Committed());
      OneMoreAgrees(ForestOf(s.Committed()), s.sent, s.source.Keys, s.source, CurrentStep(s));
    }
  }

  lemma {:induction false} HistoryAgrees(tools: Programs, states: seq<System>, events: seq<Event>, i: nat)
    requires Trace(tools, states, events) && Init(states[0]) && i < |states|
    ensures AllAgree(ForestOf(states[i].Committed()), states[i].sent) <==> CommitsAgree(states, events, i)
  {
    hide Inv, Next, AllAgree, ParentAgrees, CommitsAgree, ForestOf, AtStep;
    if i == 0 {
      NothingCommitted(states, events);
    } else {
      HistoryAgrees(tools, states, events, i - 1);
      TraceInv(tools, states, events, i - 1);
      TraceStep(tools, states, events, i - 1);
      NextAgrees(tools, states[i - 1], events[i - 1], states[i]);
      CommitsBefore(states, events, i);
    }
  }

  /**
   * In any history every archive is stored as sent exactly when each commit so far sent against what
   * the source, by then, still held as the parent had been sent.
   */
  lemma HistoryStoresAsSent(tools: Programs, states: seq<System>, events: seq<Event>, i: nat)
    requires Trace(tools, states, events) && Init(states[0]) && i < |states|
    requires tools.Lawful() && tools.Discerning()
    ensures AllStoredAsSent(tools, states[i]) <==> CommitsAgree(states, events, i)
  {
    hide Inv, Init, AllAgree, AllStoredAsSent, CommitsAgree, Trace, Programs.Lawful, Programs.Discerning, ForestOf;
    TraceInv(tools, states, events, i);
    AllStoredExactly(tools, states[i]);
    HistoryAgrees(tools, states, events, i);
  }

  /** Every run of the history began on a source that holds of its parents what was sent. */
  ghost predicate BeginsAgree(states: seq<System>, events: seq<Event>, i: nat)
    requires i <= |events| < |states|
  {
    forall j {:trigger events[j]} :: 0 <= j < i && events[j].Begin? ==>
      && Ascending(StampKey, events[j].snaps) && WellFormed(states[j].Committed())
      && ParentsAgree(Plan(events[j].snaps, states[j].Committed(), events[j].policy), states[j].source, states[j].sent)
  }

  /** The plan of a running run agrees with what was sent. */
  ghost predicate PlanAgrees(s: System) {
    s.phase.Running? ==>
      && Ascending(StampKey, s.phase.snaps) && WellFormed(s.phase.start)
      && ParentsAgree(PlanOf(s.phase), s.source, s.sent)
  }

  lemma NextPlanAgrees(tools: Programs, s: System, e: Event, s': System)
    requires Inv(tools, s) && Next(tools, s, e, s') && PlanAgrees(s)
    requires e.Begin? ==> ParentsAgree(Plan(e.snaps, s.Committed(), e.policy), s.source, s.sent)
    ensures PlanAgrees(s')
    ensures e.Commit? ==> AtStep(s) && ParentAgrees(CurrentStep(s), s.source, s.sent)
  {
    hide Holds, Carries, Ascending, SentFromSource, Complete, WellFormed, Plan, ForestOf, After, Added;
  }

  lemma InitAgrees(s: System)
    requires Init(s)
    ensures PlanAgrees(s)
  {
  }

  /** When every run begins in agreement, every commit agrees, wherever runs stop. */
  lemma {:induction false} BeginsThenCommits(tools: Programs, states: seq<System>, events: seq<Event>, i: nat)
    requires Trace(tools, states, events) && Init(states[0]) && i < |states| && BeginsAgree(states, events, i)
    ensures CommitsAgree(states, events, i) && PlanAgrees(states[i])
  {
    hide Inv, Next, PlanAgrees, ParentAgrees, AtStep, ParentsAgree;
    if i == 0 {
      InitAgrees(states[0]);
    } else {
      BeginsThenCommits(tools, states, events, i - 1);
      TraceInv(tools, states, events, i - 1);
      TraceStep(tools, states, events, i - 1);
      NextPlanAgrees(tools, states[i - 1], events[i - 1], states[i]);
    }
  }

  lemma NamesAreSent(tools: Programs, s: System)
    requires Inv(tools, s)
    ensures Names(s.Committed()) == s.sent.Keys
  {
  }

  lemma ParentIsSent(tools: Programs, s: System, a: VolumeArchive)
    requires Inv(tools, s) && a in s.Committed()
    ensures a.timestamp.raw in s.sent && a.timestamp.raw in ForestOf(s.Committed())
    ensures ForestOf(s.Committed())[a.timestamp.raw] == a.parent
    ensures a.parent.Some? ==> a.parent.value in s.sent
  {
    FindUnique(s.Committed(), a);
  }

  lemma SameName(tools: Programs, s: System, a: VolumeArchive, b: VolumeArchive)
    requires Inv(tools, s) && a in s.Committed() && b in s.Committed() && a.timestamp.raw == b.timestamp.raw
    ensures a == b
  {
    FindUnique(s.Committed(), a);
    FindUnique(s.Committed(), b);
  }

  lemma CommitAdds(tools: Programs, s: System, e: Event, s': System) returns (b: VolumeArchive)
    requires Inv(tools, s) && Next(tools, s, e, s') && e.Commit?
    ensures b in s'.Committed() && AtStep(s)
    ensures b.timestamp == CurrentStep(s).snap && b.parent == CurrentStep(s).ParentRaw()
  {
    hide Holds, Carries, Ascending, SentFromSource, Plan, ForestOf, After, Added;
    b := s.phase.pending.value;
    CommitExtends(tools, s, s'.Committed());
  }

  lemma TraceKeepsSent(tools: Programs, states: seq<System>, events: seq<Event>, i: nat, j: nat, a: VolumeArchive)
    requires Trace(tools, states, events) && Init(states[0]) && i <= j < |states| && a in states[i].Committed()
    ensures a in states[j].Committed()
  {
    hide Inv, Init, Trace;
    InitInv(tools, states[0]);
    TracePreserves(tools, states, events, i, j);
  }

  /**
   * What it means for one archive: an incremental agrees exactly when the source, at the moment of its
   * commit, held its parent as it had been at the moment of the commit of the parent.
   */
  lemma AgreesOnSource(tools: Programs, states: seq<System>, events: seq<Event>, i: nat, a: VolumeArchive)
    returns (j: nat, k: nat)
    requires Trace(tools, states, events) && Init(states[0]) && i < |states|
    requires a in states[i].Committed() && a.parent.Some?
    ensures j < i && events[j].Commit? && a !in states[j].Committed() && a in states[j + 1].Committed()
    ensures k < i && events[k].Commit?
    ensures AtStep(states[k]) && CurrentStep(states[k]).snap.raw == a.parent.value
    ensures a.parent.value in states[j].source && a.parent.value in states[k].source
    ensures Agrees(ForestOf(states[i].Committed()), states[i].sent, a.timestamp.raw)
       <==> states[j].source[a.parent.value] == states[k].source[a.parent.value]
  {
    hide Inv, Next, Init, AtStep, Holds, Carries, Ascending;
    TraceInv(tools, states, events, i);
    ParentIsSent(tools, states[i], a);
    j := SentWasOnSource(tools, states, events, i, a.timestamp.raw);
    k := SentWasOnSource(tools, states, events, i, a.parent.value);
    TraceInv(tools, states, events, j);
    TraceStep(tools, states, events, j);
    var b := CommitAdds(tools, states[j], events[j], states[j + 1]);
    TraceKeepsSent(tools, states, events, j + 1, i, b);
    SameName(tools, states[i], a, b);
    NamesAreSent(tools, states[j]);
  }

  // ---------------------------------------------------------------- restoring

  /** Every snapshot on the way to a target was sent against what its parent had been sent with. */
  ghost predicate ChainsAgree(f: Forest.Forest, targets: seq<Timestamp>, sent: History)
    requires Forest.WellFormed(f)
  {
    forall t, n :: t in targets && t.raw in f && n in Forest.Chain(f, t.raw) ==> Agrees(f, sent, n)
  }

  lemma ChainsAreNeeded(f: Forest.Forest, targets: seq<Timestamp>, sent: History)
    requires Forest.WellFormed(f) && forall t :: t in targets ==> t.raw in f
    ensures ChainsAgree(f, targets, sent) <==> forall n :: Needed(f, targets, n) ==> Agrees(f, sent, n)
  {
    hide Agrees;
    forall t, n | t in targets ensures n in Forest.Chain(f, t.raw) <==> Forest.IsAncestor(f, n, t.raw) {
      Forest.ChainIsAncestry(f, t.raw, n);
    }
  }

  lemma {:induction false} AllTodo(steps: seq<RestoreStep>)
    ensures |Todo(steps, {})| == |steps|
  {
    if |steps| > 0 { AllTodo(steps[..|steps| - 1]); }
  }

  /** Restoring into an empty root is done exactly when it is not cut off and the chains agree. */
  lemma EmptyRootOutcome(f: Forest.Forest, targets: seq<Timestamp>, steps: seq<RestoreStep>, after: Subvolumes,
                         sent: History, stopAfter: nat, outcome: Outcome)
    requires Forest.WellFormed(f) && IsMergedPlan(f, targets, steps) && forall t :: t in targets ==> t.raw in f
    requires CarriedOut(f, steps, map[], after, sent, stopAfter, outcome)
    ensures outcome.Done? <==> |steps| <= stopAfter && ChainsAgree(f, targets, sent)
  {
    hide Agrees, Ascending;
    var empty: Subvolumes, todo := map[], Todo(steps, {});
    assert empty.Keys == {};
    AllTodo(steps);
    TodoNames(steps, {});
    ChainsAreNeeded(f, targets, sent);
    var apart := FirstApart(f, sent, todo, 0);
    if apart == |todo| {
      forall n | Needed(f, targets, n) ensures Agrees(f, sent, n) {
        assert n in todo;
      }
    } else {
      assert todo[apart] in KeySet(steps);
    }
  }

  lemma ChainsDecide(tools: Programs, f: Forest.Forest, targets: seq<Timestamp>, steps: seq<RestoreStep>, sent: History)
    requires Forest.WellFormed(f) && IsMergedPlan(f, targets, steps) && forall t :: t in targets ==> t.raw in f
    requires tools.Discerning() || ChainsAgree(f, targets, sent)
    ensures Decided(tools, f, sent, Todo(steps, {}))
  {
    hide Agrees, Ascending, Programs.Discerning;
    TodoNames(steps, {});
    ChainsAreNeeded(f, targets, sent);
  }

  /**
   * What a restore into an empty root comes to. It is done exactly when it is not cut off and every
   * incremental on the way to its targets was sent against what its parent had been sent with; then
   * the root holds just what the targets need, as it was sent.
   */
  ghost predicate RestoredEmpty(f: Forest.Forest, targets: seq<Timestamp>, steps: seq<RestoreStep>, after: Subvolumes,
                                sent: History, stopAfter: nat, outcome: Outcome)
    requires Forest.WellFormed(f)
  {
    && CarriedOut(f, steps, map[], after, sent, stopAfter, outcome)
    && (outcome.Done? <==> |steps| <= stopAfter && ChainsAgree(f, targets, sent))
    && (outcome.Done? ==>
          && (forall n :: n in after <==> Needed(f, targets, n))
          && (forall n :: n in after ==> n in sent && after[n] == sent[n].content))
  }

  lemma TargetsMet(archives: seq<VolumeArchive>, snapshots: seq<string>, min: Option<string>, max: Option<string>,
                   targets: seq<Timestamp>)
    requires RequestMet(archives, snapshots, min, max) && Resolved(archives, snapshots, min, max, targets)
    ensures forall t :: t in targets ==> t.raw in Names(archives)
  {
    TargetsArchived(archives, snapshots, min, max, targets);
  }

  lemma EmptyIsRestored(tools: Programs, objects: Objects, archives: seq<VolumeArchive>, targets: seq<Timestamp>,
                        steps: seq<RestoreStep>, before: Subvolumes, after: Subvolumes, sent: History, stopAfter: nat,
                        outcome: Outcome)
    requires WellFormed(archives) && IsMergedPlan(ForestOf(archives), targets, steps) && before == map[]
    requires forall t :: t in targets ==> t.raw in Names(archives)
    requires (AllHeld(tools, objects, archives, sent) && RootValid(ForestOf(archives), targets, before, sent)
              && Decided(tools, ForestOf(archives), sent, Todo(steps, before.Keys))) ==>
      && CarriedOut(ForestOf(archives), steps, before, after, sent, stopAfter, outcome)
      && (outcome.Done? ==> RestoredTo(ForestOf(archives), targets, before, after, sent))
    ensures (AllHeld(tools, objects, archives, sent)
             && (tools.Discerning() || ChainsAgree(ForestOf(archives), targets, sent))) ==>
      RestoredEmpty(ForestOf(archives), targets, steps, after, sent, stopAfter, outcome)
  {
    hide CarriedOut, ChainsAgree, Decided, IsMergedPlan, AllHeld, Needed, Ascending, ForestOf, Todo, Find,
      Programs.Discerning;
    var f := ForestOf(archives);
    assert before.Keys == {};
    if AllHeld(tools, objects, archives, sent) && (tools.Discerning() || ChainsAgree(f, targets, sent)) {
      ChainsDecide(tools, f, targets, steps, sent);
      EmptyRootOutcome(f, targets, steps, after, sent, stopAfter, outcome);
    }
  }

  /** Restores from whatever archives are stored, into an empty root. */
  method RestoreIntoEmpty(tools: Programs, dest: Destination, snapshots: seq<string>, min: Option<string>,
                          max: Option<string>, stopAfter: nat, extra: nat -> nat, ghost sent: History)
    returns (r: Result<Outcome>, root: ReceiveRoot, ghost targets: seq<Timestamp>, ghost steps: seq<RestoreStep>)
    requires WellFormed(ArchivesIn(dest.meta))
    ensures fresh(root)
    ensures r.Ok? <==> dest.meta.Some? && RequestMet(ArchivesIn(dest.meta), snapshots, min, max)
    ensures r.Err? ==> r.error.ExecutionError? && root.subvols == map[]
    ensures r.Ok? ==>
      && Resolved(ArchivesIn(dest.meta), snapshots, min, max, targets)
      && IsMergedPlan(ForestOf(ArchivesIn(dest.meta)), targets, steps)
    ensures var f := ForestOf(ArchivesIn(dest.meta));
      (r.Ok? && AllHeld(tools, dest.objects, ArchivesIn(dest.meta), sent)
       && (tools.Discerning() || ChainsAgree(f, targets, sent))) ==>
        RestoredEmpty(f, targets, steps, root.subvols, sent, stopAfter, r.value)
  {
    hide CarriedOut, AllHeld, RequestMet, Resolved, IsMergedPlan, RestoredEmpty, ChainsAgree, Decided, RootValid,
      RestoredTo;
    root := new ReceiveRoot();
    targets, steps := [], [];
    if dest.meta.None? { return Err(ExecutionError("no archives found")), root, targets, steps; }
    ghost var before := root.subvols;
    var archives := dest.meta.value.archives;
    r, targets, steps := RestoreVolume(tools, dest, archives, snapshots, min, max, root, stopAfter, extra, sent);
    if r.Ok? {
      TargetsMet(archives, snapshots, min, max, targets);
      EmptyIsRestored(tools, dest.objects, archives, targets, steps, before, root.subvols, sent, stopAfter, r.value);
    }
  }

  lemma HeldInState(tools: Programs, s: System)
    requires Inv(tools, s) && tools.Lawful()
    ensures AllHeld(tools, s.objects, s.Committed(), s.sent)
  {
  }

  lemma AgreeingChains(f: Forest.Forest, targets: seq<Timestamp>, sent: History)
    requires Forest.WellFormed(f) && AllAgree(f, sent)
    ensures ChainsAgree(f, targets, sent)
  {
    forall t, n | t in targets && t.raw in f && n in Forest.Chain(f, t.raw) ensures n in f {
      Forest.ChainIsAncestry(f, t.raw, n);
    }
  }

  /**
   * From an empty destination, after any sequence of runs, crashes and changes of the source, restoring
   * from the reached state fails only on a request for what is not archived, and on a chain in which a
   * parent was replaced before it was sent against. There is none when every run began in agreement.
   */
  method RestoreReachable(tools: Programs, ghost states: seq<System>, ghost events: seq<Event>, ghost i: nat,
                          dest: Destination, snapshots: seq<string>, min: Option<string>, max: Option<string>,
                          stopAfter: nat, extra: nat -> nat)
    returns (r: Result<Outcome>, root: ReceiveRoot, ghost targets: seq<Timestamp>, ghost steps: seq<RestoreStep>)
    requires tools.Lawful() && Trace(tools, states, events) && Init(states[0]) && i < |states|
    requires dest.objects == states[i].objects && dest.meta == states[i].meta
    ensures fresh(root) && WellFormed(states[i].Committed())
    ensures r.Ok? <==> dest.meta.Some? && RequestMet(states[i].Committed(), snapshots, min, max)
    ensures r.Err? ==> r.error.ExecutionError? && root.subvols == map[]
    ensures r.Ok? ==>
      && Resolved(states[i].Committed(), snapshots, min, max, targets)
      && IsMergedPlan(ForestOf(states[i].Committed()), targets, steps)
    ensures var f := ForestOf(states[i].Committed());
      r.Ok? && (tools.Discerning() || ChainsAgree(f, targets, states[i].sent)) ==>
        RestoredEmpty(f, targets, steps, root.subvols, states[i].sent, stopAfter, r.value)
    ensures BeginsAgree(states, events, i) ==> ChainsAgree(ForestOf(states[i].Committed()), targets, states[i].sent)
  {
    hide Resolved, IsMergedPlan, RestoredEmpty, RequestMet, Init, Next, Programs.Discerning, Programs.Lawful, ForestOf;
    TraceInv(tools, states, events, i);
    HeldInState(tools, states[i]);
    r, root, targets, steps := RestoreIntoEmpty(tools, dest, snapshots, min, max, stopAfter, extra, states[i].sent);
    if BeginsAgree(states, events, i) {
      BeginsThenCommits(tools, states, events, i);
      HistoryAgrees(tools, states, events, i);
      AgreeingChains(ForestOf(states[i].Committed()), targets, states[i].sent);
    }
  }
}
