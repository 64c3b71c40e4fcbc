/** What holds over every run of the protocol. */
module ProtocolProperties {
  import opened Prelude
  import opened Order
  import opened Timestamps
  import opened Archives
  import opened Storage
  import opened Tools
  import opened Planner
  import opened PlanProperties
  import opened Protocol
  import ChainAge
  import Forest

  // ---------------------------------------------------------------- committed data is immutable

  /** Everything committed in `s` is still there in `s'`: same archives, same history, same objects. */
  ghost predicate Preserves(s: System, s': System) {
    && (forall a :: a in s.Committed() ==> a in s'.Committed())
    && (forall n :: n in s.sent ==> n in s'.sent && s'.sent[n] == s.sent[n])
    && s.created <= s'.created
    && (forall p: ObjectPath :: p.snapshot in Names(s.Committed()) ==>
          && (p in s.objects <==> p in s'.objects)
          && (p in s.objects && p in s'.objects ==> s'.objects[p] == s.objects[p]))
  }

  /** No event, a retry after a crash included, touches the directory of a committed archive. */
  lemma NextPreserves(tools: Programs, s: System, e: Event, s': System)
    requires Inv(tools, s) && Next(tools, s, e, s')
    ensures Preserves(s, s')
  {
    hide Holds, WellFormed, Ascending, Complete, After, PlanOf, Added, ForestOf, SourceNames;
    match e
    case Begin(snaps, policy) =>
    case Transfer(names) =>
      StepIsSendable(tools, s);
      SameButIsOutside(s.objects, s'.objects, CurrentStep(s).snap.raw, names);
    case AddArchive(chunks) =>
    case Commit(firstSync, lastSync) => CommitExtends(tools, s, s'.Committed());
    case Stop =>
    case ChangeSource =>
  }

  lemma PreservesSelf(s: System)
    ensures Preserves(s, s)
  {
  }

  lemma PreservesTransitive(a: System, b: System, c: System)
    requires Preserves(a, b) && Preserves(b, c)
    ensures Preserves(a, c)
  {
    assert forall n :: n in Names(a.Committed()) ==> n in Names(b.Committed());
  }

  /** Committed data stays as it is through every later run. */
  lemma {:induction false} TracePreserves(tools: Programs, states: seq<System>, events: seq<Event>, i: nat, j: nat)
    requires Trace(tools, states, events) && Inv(tools, states[0]) && i <= j < |states|
    ensures Preserves(states[i], states[j])
    decreases j
  {
    hide Inv, Next, Preserves;
    if i == j {
      PreservesSelf(states[i]);
    } else {
      TracePreserves(tools, states, events, i, j - 1);
      TraceKeepsInv(tools, states, events, j - 1);
      TraceStep(tools, states, events, j - 1);
      NextPreserves(tools, states[j - 1], events[j - 1], states[j]);
      PreservesTransitive(states[i], states[j - 1], states[j]);
    }
  }

  lemma ReachesPreserves(tools: Programs, s: System, t: System)
    requires Inv(tools, s) && Reaches(tools, s, t)
    ensures Preserves(s, t)
  {
    hide Inv, Next, Preserves;
    var states, events :| Trace(tools, states, events) && states[0] == s && states[|states| - 1] == t;
    TracePreserves(tools, states, events, 0, |states| - 1);
  }

  /** Only a transfer leaves parts written and no archive added; only adding an archive leaves one pending. */
  lemma LeftBy(tools: Programs, s: System, e: Event, s': System)
    requires Next(tools, s, e, s') && s'.phase.Running?
    ensures s'.phase.pending.Some? ==>
      && e.AddArchive? && s.phase.Running? && s.phase.pending.None? && s.phase.written == Some(Filenames(e.chunks))
      && s'.phase.pending.value.chunks == e.chunks
    ensures s'.phase.pending.None? && s'.phase.written.Some? ==>
      && e == Transfer(s'.phase.written.value) && AtStep(s) && s.phase.Fresh() && s'.phase.done == s.phase.done
  {
    hide WellFormed, Ascending, Complete, Plan, ForestOf, Added, Numbered, SameBut, Paths, Present, SentFrom;
  }

  /** A newly committed archive was pending. */
  lemma NewlyCommitted(tools: Programs, s: System, e: Event, s': System, a: VolumeArchive)
    requires Inv(tools, s) && Next(tools, s, e, s') && a in s'.Committed() && a !in s.Committed()
    ensures e.Commit? && s.phase.Running? && s.phase.pending == Some(a)
  {
    hide Holds, Complete, After, ForestOf, Paths, SentFrom, SentFromSource;
    if e.Commit? { CommitExtends(tools, s, s'.Committed()); }
  }

  /** What changed on the destination in one complete attempt. */
  lemma AttemptFrame(tools: Programs, s: System, written: System, added: System, committed: System,
                     transfer: Event, add: Event, commit: Event, a: VolumeArchive)
    requires Next(tools, s, transfer, written) && Next(tools, written, add, added)
    requires Next(tools, added, commit, committed)
    requires transfer.Transfer? && add.AddArchive? && commit.Commit? && added.phase.pending == Some(a)
    requires transfer.names == Filenames(a.chunks)
    ensures Numbered(Filenames(a.chunks))
    ensures committed.created == s.created + Paths(a.timestamp.raw, Filenames(a.chunks))
    ensures SameBut(s.objects, committed.objects, a.timestamp.raw, Filenames(a.chunks))
  {
    hide WellFormed, Ascending, Complete, Plan, Added, Numbered, SameBut, Paths, Present, SentFrom;
  }

  /** The transfer and the adding that come before a commit. */
  lemma CommittedBehind(tools: Programs, states: seq<System>, events: seq<Event>, c: nat, a: VolumeArchive)
    returns (k: nat)
    requires Trace(tools, states, events) && Init(states[0]) && c < |events|
    requires a !in states[c].Committed() && a in states[c + 1].Committed()
    ensures k + 2 == c
    ensures events[k] == Transfer(Filenames(a.chunks)) && events[k + 1] == AddArchive(a.chunks) && events[k + 2].Commit?
    ensures Numbered(Filenames(a.chunks))
    ensures states[k + 3].created == states[k].created + Paths(a.timestamp.raw, Filenames(a.chunks))
    ensures SameBut(states[k].objects, states[k + 3].objects, a.timestamp.raw, Filenames(a.chunks))
  {
    hide Inv, Next;
    TraceInv(tools, states, events, c);
    TraceStep(tools, states, events, c);
    NewlyCommitted(tools, states[c], events[c], states[c + 1], a);
    TraceStep(tools, states, events, c - 1);
    LeftBy(tools, states[c - 1], events[c - 1], states[c]);
    TraceStep(tools, states, events, c - 2);
    LeftBy(tools, states[c - 2], events[c - 2], states[c - 1]);
    k := c - 2;
    AttemptFrame(tools, states[k], states[k + 1], states[k + 2], states[k + 3], events[k], events[k + 1],
                 events[k + 2], a);
  }

  /**
   * Every committed archive was committed right behind one transfer attempt, and lists exactly the
   * objects that were created in this attempt: the parts from one on. Nothing else changed, so what an
   * earlier attempt may have left in the directory under higher numbers is as it was, and not listed.
   */
  lemma {:induction false} ListsOwnAttempt(tools: Programs, states: seq<System>, events: seq<Event>, i: nat,
                                           a: VolumeArchive)
    returns (k: nat)
    requires Trace(tools, states, events) && Init(states[0]) && i < |states| && a in states[i].Committed()
    ensures k + 3 <= i && a !in states[k + 2].Committed() && a in states[k + 3].Committed()
    ensures events[k] == Transfer(Filenames(a.chunks)) && events[k + 1] == AddArchive(a.chunks) && events[k + 2].Commit?
    ensures Numbered(Filenames(a.chunks))
    ensures states[k + 3].created == states[k].created + Paths(a.timestamp.raw, Filenames(a.chunks))
    ensures SameBut(states[k].objects, states[k + 3].objects, a.timestamp.raw, Filenames(a.chunks))
  {
    hide Inv, Next;
    TraceStep(tools, states, events, i - 1);
    TraceInv(tools, states, events, i - 1);
    if a in states[i - 1].Committed() {
      k := ListsOwnAttempt(tools, states, events, i - 1, a);
    } else {
      k := CommittedBehind(tools, states, events, i - 1, a);
    }
  }

  lemma SentStays(tools: Programs, s: System, e: Event, s': System, n: string)
    requires Inv(tools, s) && Next(tools, s, e, s') && n in s.sent
    ensures n in s'.sent && s'.sent[n] == s.sent[n]
  {
    NextPreserves(tools, s, e, s');
  }

  lemma NewlySent(tools: Programs, s: System, e: Event, s': System, n: string)
    requires Next(tools, s, e, s') && n in s'.sent && n !in s.sent
    ensures e.Commit? && AtStep(s) && CurrentStep(s).snap.raw == n && OnSource(s.source, CurrentStep(s))
    ensures s'.sent[n] == SentFrom(s.source, CurrentStep(s))
  {
    hide WellFormed, Ascending, Complete, Plan, Added, Numbered, SameBut, Paths, Present, SentFrom, ForestOf;
  }

  /**
   * The history holds, for every committed name, what the source held for it, and for its parent, at the
   * moment of its commit.
   */
  lemma {:induction false} SentWasOnSource(tools: Programs, states: seq<System>, events: seq<Event>, i: nat, n: string)
    returns (j: nat)
    requires Trace(tools, states, events) && Init(states[0]) && i < |states|
    requires n in states[i].sent
    ensures j < i && events[j].Commit? && n !in states[j].sent
    ensures AtStep(states[j]) && CurrentStep(states[j]).snap.raw == n
    ensures OnSource(states[j].source, CurrentStep(states[j]))
    ensures states[i].sent[n] == SentFrom(states[j].source, CurrentStep(states[j]))
  {
    hide Inv, Next, AtStep, SentFrom, OnSource;
    TraceStep(tools, states, events, i - 1);
    if n in states[i - 1].sent {
      j := SentWasOnSource(tools, states, events, i - 1, n);
      TraceInv(tools, states, events, i - 1);
      SentStays(tools, states[i - 1], events[i - 1], states[i], n);
    } else {
      j := i - 1;
      NewlySent(tools, states[j], events[j], states[i], n);
    }
  }

  /** In any history every chunk that is listed is there, as long and with the digest that is recorded. */
  lemma RecordedInHistory(tools: Programs, states: seq<System>, events: seq<Event>, i: nat, a: VolumeArchive, c: nat)
    requires Trace(tools, states, events) && Init(states[0]) && i < |states|
    requires a in states[i].Committed() && c < |a.chunks|
    ensures var path := ObjectPath(a.timestamp.raw, a.chunks[c].filename);
      && path in states[i].objects
      && a.chunks[c].sha256sum == Some(Sha256(states[i].objects[path])) && a.chunks[c].compression == Some("zstd")
      && a.chunks[c].size == |states[i].objects[path]| % 0x1_0000_0000
  {
    hide Next, RunInv;
    TraceInv(tools, states, events, i);
    assert Holds(tools, states[i].objects, states[i].sent, a);
    assert IsRecorded(states[i].objects, a.timestamp.raw, a.chunks[c]);
  }

  // ---------------------------------------------------------------- crash and resume

  /**
   * A run that is stopped after any number of commits and started again on the same source plans the
   * same remaining snapshots in the same order, and nothing when it was complete. It plans exactly the
   * remaining steps if and only if the interval, measured from the newest full now archived, gives the
   * snapshots up to the next full the same verdicts; it does when the fulls committed so far are newer
   * than the newest full before the run.
   */
  lemma ResumeAfterStop(tools: Programs, s: System)
    requires Inv(tools, s) && s.phase.Running?
    ensures var plan, again := PlanOf(s.phase), Plan(s.phase.snaps, s.Committed(), s.phase.policy);
      var rest := plan[s.phase.done..];
      && Snaps(again) == Snaps(rest)
      && (s.phase.done == |plan| ==> again == [])
      && (again == rest <==>
            SameVerdicts(s.phase.snaps, ForestOf(s.Committed()), NewestFull(s.Committed()), RuleOf(s.phase.policy),
                         rest))
      && (FullsNewerThan(NewestFull(s.phase.start), plan[..s.phase.done]) ==> again == rest)
  {
    hide Holds, Complete, SentFromSource, Ascending, Less;
    var f, rule := ForestOf(s.phase.start), RuleOf(s.phase.policy);
    var lastFull, lastFull' := NewestFull(s.phase.start), NewestFull(s.Committed());
    var plan := PlanOf(s.phase);
    ReplanSnapshots(s.phase.snaps, f, lastFull, rule, s.phase.done, lastFull');
    ReplanExactly(s.phase.snaps, f, lastFull, rule, s.phase.done, lastFull');
    SnapsEmpty(Plan(s.phase.snaps, s.Committed(), s.phase.policy));
    NewestFullIsNewest(s.phase.start);
    NewestFullIsNewest(s.Committed());
    if FullsNewerThan(lastFull, plan[..s.phase.done]) {
      ReplanExact(s.phase.snaps, f, lastFull, rule, s.phase.done, lastFull');
    }
  }

  /** What is missing on the destination being newer than its newest full is enough for that. */
  lemma NewerMissingResumes(snaps: seq<Timestamp>, start: seq<VolumeArchive>, policy: SendPolicy, k: nat)
    requires Ascending(StampKey, snaps) && WellFormed(start) && k <= |Plan(snaps, start, policy)|
    requires forall s :: s in snaps && s.raw !in Names(start) && NewestFull(start).Some? ==>
      Less(NewestFull(start).value.raw, s.raw)
    ensures FullsNewerThan(NewestFull(start), Plan(snaps, start, policy)[..k])
  {
    var f, rule := ForestOf(start), RuleOf(policy);
    var plan := Plan(snaps, start, policy);
    forall i | 0 <= i < |plan| ensures plan[i].snap in snaps && plan[i].snap.raw !in Names(start) {
      var j := StepAt(snaps, f, NewestFull(start), rule, i);
      PrefixExtends(snaps, f, NewestFull(start), rule, i);
    }
  }

  // ---------------------------------------------------------------- depth over whole runs

  ghost predicate FixedPolicy(events: seq<Event>, policy: SendPolicy) {
    forall i :: 0 <= i < |events| && events[i].Begin? ==> events[i].policy == policy
  }

  ghost predicate DepthInv(s: System, policy: SendPolicy, max: nat) {
    && WellFormed(s.Committed()) && ChainsBounded(ForestOf(s.Committed()), max)
    && (s.phase.Running? ==>
          s.phase.policy == policy && WellFormed(s.phase.start) && ChainsBounded(ForestOf(s.phase.start), max))
  }

  lemma NextDepth(tools: Programs, s: System, e: Event, s': System, policy: SendPolicy)
    requires Inv(tools, s) && Next(tools, s, e, s') && (e.Begin? ==> e.policy == policy)
    requires policy.Valid() && policy.maxIncrementalDepth.Some?
    requires DepthInv(s, policy, policy.maxIncrementalDepth.value)
    ensures DepthInv(s', policy, policy.maxIncrementalDepth.value)
  {
    if e.Commit? {
      NextInv(tools, s, e, s');
      PlanKeepsChainsBounded(s.phase.snaps, ForestOf(s.phase.start), NewestFull(s.phase.start), RuleOf(policy),
                             s'.phase.done);
    }
  }

  /** With a fixed depth limit no archive ever needs more than that many steps to restore. */
  lemma {:induction false} DepthNeverExceeded(tools: Programs, states: seq<System>, events: seq<Event>, i: nat,
                                              policy: SendPolicy)
    requires Trace(tools, states, events) && Init(states[0]) && i < |states|
    requires FixedPolicy(events, policy) && policy.Valid() && policy.maxIncrementalDepth.Some?
    ensures DepthInv(states[i], policy, policy.maxIncrementalDepth.value)
  {
    hide Inv, Next;
    if i > 0 {
      DepthNeverExceeded(tools, states, events, i - 1, policy);
      TraceInv(tools, states, events, i - 1);
      TraceStep(tools, states, events, i - 1);
      NextDepth(tools, states[i - 1], events[i - 1], states[i], policy);
    }
  }

  // ---------------------------------------------------------------- age over whole runs

  /** Every run uses the policy, misses only snapshots newer than all archives, and still has the newest archive. */
  ghost predicate FreshRuns(states: seq<System>, events: seq<Event>, policy: SendPolicy)
    requires |states| == |events| + 1
  {
    FixedPolicy(events, policy)
    && forall i {:trigger events[i]} :: 0 <= i < |events| && events[i].Begin? ==>
         ChainAge.OnlyNewer(events[i].snaps, ForestOf(states[i].Committed()))
  }

  ghost predicate AgeInv(s: System, policy: SendPolicy) {
    && ChainAge.Young(ForestOf(s.Committed()), RuleOf(policy))
    && (s.phase.Running? ==>
          && s.phase.policy == policy
          && ChainAge.Aging(s.phase.snaps, ForestOf(s.phase.start), NewestFull(s.phase.start), RuleOf(policy)))
  }

  lemma NextAge(tools: Programs, s: System, e: Event, s': System, policy: SendPolicy)
    requires Inv(tools, s) && Next(tools, s, e, s') && AgeInv(s, policy)
    requires e.Begin? ==> e.policy == policy && ChainAge.OnlyNewer(e.snaps, ForestOf(s.Committed()))
    ensures AgeInv(s', policy)
  {
    if e.Begin? {
      NewestFullIsNewest(s.Committed());
    } else if e.Commit? {
      NextInv(tools, s, e, s');
      ChainAge.PlanKeepsYoung(s.phase.snaps, ForestOf(s.phase.start), NewestFull(s.phase.start), RuleOf(policy),
                              s'.phase.done);
    }
  }

  lemma YoungIsWithin(f: Forest.Forest, policy: SendPolicy)
    requires ChainAge.Young(f, RuleOf(policy))
    ensures forall n :: n in f && f[n].Some? ==>
      ChainAge.WithinInterval(Forest.Root(f, n), n, policy.minFullSendIntervalDays)
  {
    forall n | n in f && f[n].Some?
      ensures ChainAge.WithinInterval(Forest.Root(f, n), n, policy.minFullSendIntervalDays)
    {
      assert ChainAge.YoungName(f, n, RuleOf(policy));
      ChainAge.PolicyInterval(policy, Forest.Root(f, n), n);
    }
  }

  /**
   * Over such runs the newest archive always builds on the newest full, and every incremental lies,
   * by parsable dates, fewer days after its own full than the full-send interval.
   */
  lemma {:induction false} ChainsStayYoung(tools: Programs, states: seq<System>, events: seq<Event>, i: nat,
                                           policy: SendPolicy)
    requires Trace(tools, states, events) && Init(states[0]) && i < |states|
    requires FreshRuns(states, events, policy)
    ensures AgeInv(states[i], policy)
    ensures var f := ForestOf(states[i].Committed());
      && Forest.WellFormed(f)
      && (forall n :: ChainAge.IsNewest(f, n) ==> Forest.IsNewestFull(f, Some(Forest.Root(f, n))))
      && (forall n :: n in f && f[n].Some? ==>
            ChainAge.WithinInterval(Forest.Root(f, n), n, policy.minFullSendIntervalDays))
  {
    hide Inv, Next;
    if i > 0 {
      ChainsStayYoung(tools, states, events, i - 1, policy);
      TraceInv(tools, states, events, i - 1);
      TraceStep(tools, states, events, i - 1);
      NextAge(tools, states[i - 1], events[i - 1], states[i], policy);
    }
    YoungIsWithin(ForestOf(states[i].Committed()), policy);
  }
}
