/** Restoring: targets, the merged plan over their chains, and the receive loop. */
module Restore {
  import opened Prelude
  import opened Order
  import opened Timestamps
  import opened Archives
  import Forest

  datatype RestoreStep = ReceiveFull(snap: Timestamp) | ReceiveIncremental(snap: Timestamp, parent: Timestamp) {
    function ParentRaw(): Option<string> {
      match this
      case ReceiveFull(_) => None
      case ReceiveIncremental(_, parent) => Some(parent.raw)
    }
  }

  function StepKey(s: RestoreStep): string { s.snap.raw }

  function Keys(steps: seq<RestoreStep>): (r: seq<string>)
    ensures |r| == |steps| && forall i :: 0 <= i < |steps| ==> r[i] == steps[i].snap.raw
  {
    if |steps| == 0 then [] else Keys(steps[..|steps| - 1]) + [steps[|steps| - 1].snap.raw]
  }

  /** The step is the archived link of its snapshot. */
  ghost predicate FromForest(f: Forest.Forest, s: RestoreStep) {
    s.snap.raw in f && f[s.snap.raw] == s.ParentRaw()
  }

  // ---------------------------------------------------------------- one target

  function Reversed<T>(s: seq<T>): seq<T> {
    if |s| == 0 then [] else [s[|s| - 1]] + Reversed(s[..|s| - 1])
  }

  lemma ReversedPush<T>(s: seq<T>, x: T)
    ensures Reversed(s + [x]) == [x] + Reversed(s)
  {
    assert (s + [x])[..|s|] == s;
  }

  function ArchiveNames(chain: seq<VolumeArchive>): seq<string> {
    if |chain| == 0 then [] else ArchiveNames(chain[..|chain| - 1]) + [chain[|chain| - 1].timestamp.raw]
  }

  lemma NamesPush(chain: seq<VolumeArchive>, a: VolumeArchive)
    ensures ArchiveNames(chain + [a]) == ArchiveNames(chain) + [a.timestamp.raw]
  {
    assert (chain + [a])[..|chain|] == chain;
  }

  lemma {:induction false} NamesPrepend(a: VolumeArchive, chain: seq<VolumeArchive>)
    ensures ArchiveNames([a] + chain) == [a.timestamp.raw] + ArchiveNames(chain)
    decreases |chain|
  {
    if |chain| > 0 {
      var init := chain[..|chain| - 1];
      NamesPrepend(a, init);
      assert ([a] + chain)[..|chain|] == [a] + init;
    } else {
      assert [a] + chain == [a] && [a][..0] == [];
    }
  }

  lemma {:induction false} ReversedNames(chain: seq<VolumeArchive>)
    ensures ArchiveNames(Reversed(chain)) == Reversed(ArchiveNames(chain))
    ensures forall a :: a in Reversed(chain) ==> a in chain
    decreases |chain|
  {
    if |chain| > 0 {
      var init, last := chain[..|chain| - 1], chain[|chain| - 1];
      ReversedNames(init);
      ReversedPush(ArchiveNames(init), last.timestamp.raw);
      NamesPrepend(last, Reversed(init));
    }
  }

  /** The restore step of an archive. */
  function StepOf(a: VolumeArchive): RestoreStep
    requires a.parent.Some? ==> a.parent.value != ""
  {
    match a.parent
    case Some(parent) => ReceiveIncremental(a.timestamp, Parse(parent).value)
    case None => ReceiveFull(a.timestamp)
  }

  lemma ChainStep(f: Forest.Forest, n: string, below: seq<string>)
    requires Forest.WellFormed(f) && n in f && f[n].Some?
    ensures Forest.Older(f, f[n].value) < Forest.Older(f, n)
    ensures Forest.Chain(f, n) + Reversed(below) == Forest.Chain(f, f[n].value) + Reversed(below + [n])
  {
    Forest.OlderShrinks(f, f[n].value, n);
    ReversedPush(below, n);
  }

  /** The archives from `start` along its parent links to a full one. */
  method WalkToFull(archives: seq<VolumeArchive>, start: VolumeArchive) returns (r: Result<seq<VolumeArchive>>)
    requires WellFormed(archives) && start in archives
    ensures r.Ok?
    ensures start.timestamp.raw in ForestOf(archives)
    ensures Reversed(ArchiveNames(r.value)) == Forest.Chain(ForestOf(archives), start.timestamp.raw)
    ensures forall a :: a in r.value ==> a in archives
  {
    ghost var f := ForestOf(archives);
    var current := start;
    var chain := [current];
    ghost var below: seq<string> := [];
    NamesPush([], current);
    FindUnique(archives, current);
    while current.parent.Some?
      invariant current in archives && forall a :: a in chain ==> a in archives
      invariant current.timestamp.raw in f && f[current.timestamp.raw] == current.parent
      invariant ArchiveNames(chain) == below + [current.timestamp.raw]
      invariant Forest.Chain(f, start.timestamp.raw) == Forest.Chain(f, current.timestamp.raw) + Reversed(below)
      decreases Forest.Older(f, current.timestamp.raw)
    {
      var parent := Find(archives, current.parent.value);
      if parent.None? { return Err(PlanError("parent snapshot not found in archives")); }
      ChainStep(f, current.timestamp.raw, below);
      NamesPush(chain, parent.value);
      below := below + [current.timestamp.raw];
      current := parent.value;
      chain := chain + [current];
      FindUnique(archives, current);
    }
    ReversedPush(below, current.timestamp.raw);
    return Ok(chain);
  }

  lemma ArchiveStep(archives: seq<VolumeArchive>, a: VolumeArchive)
    requires WellFormed(archives) && a in archives
    ensures a.parent.Some? ==> a.parent.value != ""
    ensures FromForest(ForestOf(archives), StepOf(a))
  {
    FindUnique(archives, a);
    assert forall n :: n in Names(archives) ==> n != "";
  }

  /** The restore steps of a chain of archives. */
  method StepsOf(archives: seq<VolumeArchive>, chain: seq<VolumeArchive>) returns (steps: seq<RestoreStep>)
    requires WellFormed(archives) && forall a :: a in chain ==> a in archives
    ensures Keys(steps) == ArchiveNames(chain)
    ensures forall s :: s in steps ==> FromForest(ForestOf(archives), s)
  {
    steps := [];
    for i := 0 to |chain|
      invariant Keys(steps) == ArchiveNames(chain[..i])
      invariant forall s :: s in steps ==> FromForest(ForestOf(archives), s)
    {
      ArchiveStep(archives, chain[i]);
      assert chain[..i + 1][..i] == chain[..i];
      assert (steps + [StepOf(chain[i])])[..|steps|] == steps;
      steps := steps + [StepOf(chain[i])];
    }
    assert chain[..|chain|] == chain;
  }

  /**
   * Walks parent links from the target back to a full archive and returns the steps full first. The
   * only error on stored metadata is a target that is not archived; no parent is ever missing.
   */
  method BuildRestorePlan(archives: seq<VolumeArchive>, target: Timestamp) returns (r: Result<seq<RestoreStep>>)
    requires WellFormed(archives)
    ensures r.Ok? <==> target.raw in Names(archives)
    ensures r.Err? ==> r.error.PlanError?
    ensures r.Ok? ==>
      && Keys(r.value) == Forest.Chain(ForestOf(archives), target.raw)
      && forall s :: s in r.value ==> FromForest(ForestOf(archives), s)
  {
    var found := Find(archives, target.raw);
    if found.None? { return Err(PlanError("snapshot not found in archives")); }
    var chain := WalkToFull(archives, found.value);
    if chain.Err? { return Err(PlanError("parent snapshot not found in archives")); }
    ReversedNames(chain.value);
    var steps := StepsOf(archives, Reversed(chain.value));
    return Ok(steps);
  }

  // ---------------------------------------------------------------- several targets

  /** `n` is needed to restore some target. */
  ghost predicate Needed(f: Forest.Forest, targets: seq<Timestamp>, n: string)
    requires Forest.WellFormed(f)
  {
    exists t :: t in targets && Forest.IsAncestor(f, n, t.raw)
  }

  function KeySet(steps: seq<RestoreStep>): set<string> { set s <- steps :: s.snap.raw }

  /** Strictly ascending, exactly the ancestor closure of the targets, each step its archived link. */
  ghost predicate IsMergedPlan(f: Forest.Forest, targets: seq<Timestamp>, steps: seq<RestoreStep>)
    requires Forest.WellFormed(f)
  {
    && Ascending(StepKey, steps)
    && (forall s :: s in steps ==> FromForest(f, s))
    && (forall n :: n in KeySet(steps) <==> Needed(f, targets, n))
  }

  /** Appends the steps of one plan whose snapshots were not seen yet. */
  method AppendUnseen(steps: seq<RestoreStep>, seen: set<string>, plan: seq<RestoreStep>)
    returns (steps': seq<RestoreStep>, seen': set<string>)
    requires DistinctKeys(StepKey, steps) && seen == KeySet(steps)
    ensures DistinctKeys(StepKey, steps') && seen' == KeySet(steps') == seen + KeySet(plan)
    ensures forall s :: s in steps' ==> s in steps || s in plan
  {
    steps', seen' := steps, seen;
    for i := 0 to |plan|
      invariant DistinctKeys(StepKey, steps') && seen' == KeySet(steps') == seen + KeySet(plan[..i])
      invariant forall s :: s in steps' ==> s in steps || s in plan
    {
      assert KeySet(plan[..i + 1]) == KeySet(plan[..i]) + {plan[i].snap.raw};
      if plan[i].snap.raw !in seen' {
        assert KeySet(steps' + [plan[i]]) == KeySet(steps') + {plan[i].snap.raw};
        assert forall s :: s in steps' ==> s.snap.raw in seen';
        seen' := seen' + {plan[i].snap.raw};
        steps' := steps' + [plan[i]];
      }
    }
    assert plan[..|plan|] == plan;
  }

  lemma ChainPlanNames(f: Forest.Forest, target: string, plan: seq<RestoreStep>)
    requires Forest.WellFormed(f) && target in f && Keys(plan) == Forest.Chain(f, target)
    ensures forall n :: n in KeySet(plan) <==> Forest.IsAncestor(f, n, target)
  {
    forall n ensures n in KeySet(plan) <==> Forest.IsAncestor(f, n, target) {
      Forest.ChainIsAncestry(f, target, n);
      if n in Keys(plan) {
        var i :| 0 <= i < |plan| && Keys(plan)[i] == n;
        assert plan[i] in plan;
      }
      if n in KeySet(plan) {
        var s :| s in plan && s.snap.raw == n;
        var i :| 0 <= i < |plan| && plan[i] == s;
        assert Keys(plan)[i] == n;
      }
    }
  }

  /** The merged restore plan of all targets: chains collected, duplicates dropped, sorted by timestamp. */
  method MergePlans(archives: seq<VolumeArchive>, targets: seq<Timestamp>) returns (r: Result<seq<RestoreStep>>)
    requires WellFormed(archives)
    ensures r.Ok? <==> forall t :: t in targets ==> t.raw in Names(archives)
    ensures r.Err? ==> r.error.PlanError?
    ensures r.Ok? ==> IsMergedPlan(ForestOf(archives), targets, r.value)
  {
    hide Less, Ascending;
    ghost var f := ForestOf(archives);
    var allSteps: seq<RestoreStep> := [];
    var seen: set<string> := {};
    for i := 0 to |targets|
      invariant DistinctKeys(StepKey, allSteps) && seen == KeySet(allSteps)
      invariant forall s :: s in allSteps ==> FromForest(f, s)
      invariant forall n :: n in seen <==> Needed(f, targets[..i], n)
      invariant forall t :: t in targets[..i] ==> t.raw in Names(archives)
    {
      var plan := BuildRestorePlan(archives, targets[i]);
      if plan.Err? { return Err(plan.error); }
      ChainPlanNames(f, targets[i].raw, plan.value);
      assert forall t :: t in targets[..i + 1] <==> t in targets[..i] || t == targets[i];
      allSteps, seen := AppendUnseen(allSteps, seen, plan.value);
    }
    assert targets[..|targets|] == targets;
    var sorted := SortBy(StepKey, allSteps);
    SortAscending(StepKey, allSteps);
    SameElements(allSteps, sorted);
    return Ok(sorted);
  }

  /** In a merged plan the parent of every incremental is received before it. */
  lemma ParentsFirst(f: Forest.Forest, targets: seq<Timestamp>, steps: seq<RestoreStep>, i: nat)
    requires Forest.WellFormed(f) && IsMergedPlan(f, targets, steps)
    requires forall t :: t in targets ==> t.raw in f
    requires i < |steps| && steps[i].ReceiveIncremental?
    ensures exists j :: 0 <= j < i && steps[j].snap.raw == steps[i].parent.raw
  {
    LessIsOrder();
    var n := steps[i].snap.raw;
    var p := steps[i].parent.raw;
    assert FromForest(f, steps[i]) && n in KeySet(steps);
    var t :| t in targets && Forest.IsAncestor(f, n, t.raw);
    Forest.AncestorsClosed(f, t.raw, n);
    assert p in KeySet(steps);
    var s :| s in steps && s.snap.raw == p;
    var j :| 0 <= j < |steps| && steps[j] == s;
    assert i < j ==> Less(StepKey(steps[i]), StepKey(steps[j]));
  }

  // ---------------------------------------------------------------- what to restore

  /** The closed range of raw timestamps; a missing bound does not limit. */
  predicate InRange(raw: string, min: Option<string>, max: Option<string>) {
    (min.Some? ==> !Less(raw, min.value)) && (max.Some? ==> !Less(max.value, raw))
  }

  function StampSet(ts: seq<Timestamp>): set<string> { set t <- ts :: t.raw }

  function NameSet(names: seq<string>): set<string> { set n | n in names }

  /** The bounds, when given, belong to the range. */
  ghost predicate WithinBounds(raw: string, min: Option<string>, max: Option<string>) {
    && (min.Some? ==> raw == min.value || Less(min.value, raw))
    && (max.Some? ==> raw == max.value || Less(raw, max.value))
  }

  lemma RangeIsClosed(raw: string, min: Option<string>, max: Option<string>)
    ensures InRange(raw, min, max) <==> WithinBounds(raw, min, max)
  {
    LessIsOrder();
  }

  /** The request selects the archived snapshot `raw`. */
  ghost predicate Selected(archives: seq<VolumeArchive>, snapshots: seq<string>, min: Option<string>,
                           max: Option<string>, raw: string) {
    raw in Names(archives) && (raw in snapshots || ((min.Some? || max.Some?) && WithinBounds(raw, min, max)))
  }

  /** The request names archived snapshots only and selects at least one archive. */
  ghost predicate RequestMet(archives: seq<VolumeArchive>, snapshots: seq<string>, min: Option<string>,
                             max: Option<string>) {
    && (forall n :: n in snapshots ==> n in Names(archives))
    && (snapshots == [] && min.None? && max.None? ==> archives != [])
    && (snapshots != [] || min.Some? || max.Some? ==>
          exists n :: n in Names(archives) && Selected(archives, snapshots, min, max, n))
  }

  /** The targets of a request: without one the single newest archive, otherwise the selected ones in order. */
  ghost predicate Resolved(archives: seq<VolumeArchive>, snapshots: seq<string>, min: Option<string>,
                           max: Option<string>, targets: seq<Timestamp>)
  {
    if snapshots == [] && min.None? && max.None? then
      && |targets| == 1 && targets[0].raw in Names(archives)
      && forall a :: a in archives ==> !Less(targets[0].raw, a.timestamp.raw)
    else
      && Ascending(StampKey, targets)
      && forall n :: n in StampSet(targets) <==> Selected(archives, snapshots, min, max, n)
  }

  /**
   * What a request comes to, spelled out: the archived snapshots that are named, or lie in the range with
   * both its bounds. A bound that is archived and does not contradict the other one is a target itself.
   */
  lemma ResolvedMeans(archives: seq<VolumeArchive>, snapshots: seq<string>, min: Option<string>, max: Option<string>,
                      targets: seq<Timestamp>)
    requires Resolved(archives, snapshots, min, max, targets) && (snapshots != [] || min.Some? || max.Some?)
    ensures forall n :: n in StampSet(targets) <==>
      && n in Names(archives)
      && (n in snapshots
          || ((min.Some? || max.Some?)
              && (min.Some? ==> n == min.value || Less(min.value, n))
              && (max.Some? ==> n == max.value || Less(n, max.value))))
    ensures min.Some? && min.value in Names(archives) && (max.Some? ==> min == max || Less(min.value, max.value)) ==>
      min.value in StampSet(targets)
    ensures max.Some? && max.value in Names(archives) && (min.Some? ==> min == max || Less(min.value, max.value)) ==>
      max.value in StampSet(targets)
  {
    hide Less, Ascending;
    assert forall n :: n in StampSet(targets) <==> Selected(archives, snapshots, min, max, n);
  }

  method NewestArchive(archives: seq<VolumeArchive>) returns (r: Result<seq<Timestamp>>)
    ensures r.Ok? <==> archives != []
    ensures r.Err? ==> r.error.ExecutionError?
    ensures r.Ok? ==>
      && |r.value| == 1 && r.value[0].raw in Names(archives)
      && forall a :: a in archives ==> !Less(r.value[0].raw, a.timestamp.raw)
  {
    if archives == [] { return Err(ExecutionError("no archives found")); }
    LessIsOrder();
    var newest := archives[0].timestamp;
    for i := 1 to |archives|
      invariant newest.raw in Names(archives)
      invariant forall j :: 0 <= j < i ==> !Less(newest.raw, archives[j].timestamp.raw)
    {
      if !Less(archives[i].timestamp.raw, newest.raw) { newest := archives[i].timestamp; }
    }
    return Ok([newest]);
  }

  function PushUnseen(targets: seq<Timestamp>, t: Timestamp): (r: seq<Timestamp>)
    requires DistinctKeys(StampKey, targets)
    ensures DistinctKeys(StampKey, r) && StampSet(r) == StampSet(targets) + {t.raw}
  {
    if t.raw in StampSet(targets) then targets
    else
      assert forall s :: s in targets ==> s.raw in StampSet(targets);
      assert StampSet(targets + [t]) == StampSet(targets) + {t.raw};
      targets + [t]
  }

  method NamedTargets(archives: seq<VolumeArchive>, snapshots: seq<string>) returns (r: Result<seq<Timestamp>>)
    ensures r.Ok? <==> forall n :: n in snapshots ==> n in Names(archives)
    ensures r.Err? ==> r.error.ExecutionError?
    ensures r.Ok? ==> DistinctKeys(StampKey, r.value) && StampSet(r.value) == NameSet(snapshots)
  {
    var targets: seq<Timestamp> := [];
    for i := 0 to |snapshots|
      invariant forall n :: n in snapshots[..i] ==> n in Names(archives)
      invariant DistinctKeys(StampKey, targets) && StampSet(targets) == NameSet(snapshots[..i])
    {
      var found := Find(archives, snapshots[i]);
      if found.None? { return Err(ExecutionError("snapshot not found in archives")); }
      assert NameSet(snapshots[..i + 1]) == NameSet(snapshots[..i]) + {snapshots[i]};
      targets := PushUnseen(targets, found.value.timestamp);
    }
    assert snapshots[..|snapshots|] == snapshots;
    return Ok(targets);
  }

  /** Adds the archives in the range that are not targets yet. */
  method AddRange(archives: seq<VolumeArchive>, min: Option<string>, max: Option<string>, named: seq<Timestamp>)
    returns (targets: seq<Timestamp>)
    requires DistinctKeys(StampKey, named)
    ensures DistinctKeys(StampKey, targets)
    ensures forall n :: n in StampSet(targets) <==>
      n in StampSet(named) || (n in Names(archives) && WithinBounds(n, min, max))
  {
    hide Less, WithinBounds, InRange;
    targets := named;
    for i := 0 to |archives|
      invariant DistinctKeys(StampKey, targets)
      invariant forall n :: n in StampSet(targets) <==>
        n in StampSet(named) || (n in Names(archives[..i]) && WithinBounds(n, min, max))
    {
      var raw := archives[i].timestamp.raw;
      assert Names(archives[..i + 1]) == Names(archives[..i]) + {raw};
      RangeIsClosed(raw, min, max);
      if InRange(raw, min, max) { targets := PushUnseen(targets, archives[i].timestamp); }
    }
    assert archives[..|archives|] == archives;
  }

  /** The collected targets in order; none at all is an error. */
  method SortTargets(targets: seq<Timestamp>) returns (r: Result<seq<Timestamp>>)
    requires DistinctKeys(StampKey, targets)
    ensures r.Ok? <==> targets != []
    ensures r.Err? ==> r.error.ExecutionError?
    ensures r.Ok? ==> Ascending(StampKey, r.value) && StampSet(r.value) == StampSet(targets)
  {
    if targets == [] { return Err(ExecutionError("no archives match the given snapshot/timestamp filters")); }
    var sorted := SortBy(StampKey, targets);
    SortAscending(StampKey, targets);
    SameElements(targets, sorted);
    return Ok(sorted);
  }

  /**
   * Without a request the single newest archive; otherwise the strictly ascending union of the named
   * snapshots and the archives in the range. A name that is not archived, or an empty union, is an error.
   */
  method ResolveTargets(archives: seq<VolumeArchive>, snapshots: seq<string>, min: Option<string>, max: Option<string>)
    returns (r: Result<seq<Timestamp>>)
    ensures r.Ok? <==> RequestMet(archives, snapshots, min, max)
    ensures r.Err? ==> r.error.ExecutionError?
    ensures r.Ok? ==> Resolved(archives, snapshots, min, max, r.value)
  {
    hide Ascending, DistinctKeys;
    var hasRange := min.Some? || max.Some?;
    if snapshots == [] && !hasRange {
      r := NewestArchive(archives);
      return;
    }
    var named := NamedTargets(archives, snapshots);
    if named.Err? { return named; }
    var targets := named.value;
    if hasRange { targets := AddRange(archives, min, max, targets); }
    assert forall n :: n in StampSet(targets) <==> Selected(archives, snapshots, min, max, n);
    r := SortTargets(targets);
    if targets != [] { assert targets[0].raw in StampSet(targets); }
  }
}
