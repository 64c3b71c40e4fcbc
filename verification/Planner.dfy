/**
 * The send planner. `BuildPlan` is the loop with its set, cache and last-full variable; `PlanFrom`
 * is the policy it implements, stated over the parent forest: compare each missing snapshot with
 * its immediate predecessor on the source.
 */
module Planner {
  import opened Prelude
  import opened Order
  import opened Timestamps
  import opened Archives
  import Forest
  import Dates

  datatype RunStep = SendFull(snap: Timestamp) | SendIncremental(snap: Timestamp, parent: Timestamp) {
    function ParentRaw(): Option<string> {
      match this
      case SendFull(_) => None
      case SendIncremental(_, parent) => Some(parent.raw)
    }
  }

  datatype SendPolicy = SendPolicy(minFullSendIntervalDays: nat, maxIncrementalDepth: Option<nat>) {
    /** What configuration loading admits. */
    predicate Valid() { maxIncrementalDepth.Some? ==> maxIncrementalDepth.value >= 1 }
  }

  function CheckIntervalExceeded(lastFull: Option<Suffix>, current: Suffix, intervalDays: nat): bool {
    if lastFull.None? then true
    else
      var lastDays := Dates.ParseDateToDays(lastFull.value.Date());
      var currentDays := Dates.ParseDateToDays(current.Date());
      lastDays.None? || currentDays.None? || currentDays.value - lastDays.value >= intervalDays
  }

  /**
   * The part of a policy that planning uses: the depth limit, and the test whether the most recent
   * full is too old for a snapshot. Everything but the age of chains holds for any such test.
   */
  datatype Rule = Rule(maxIncrementalDepth: Option<nat>, fullTooOld: (Option<Suffix>, Suffix) -> bool)

  function RuleOf(policy: SendPolicy): Rule {
    Rule(policy.maxIncrementalDepth,
         (lastFull: Option<Suffix>, snap: Suffix) =>
           CheckIntervalExceeded(lastFull, snap, policy.minFullSendIntervalDays))
  }

  function ExceedsDepth(max: Option<nat>, parentDepth: nat): bool {
    max.Some? && parentDepth + 1 >= max.value
  }

  // ---------------------------------------------------------------- the policy

  /** The planner stands at `snaps[i]`: everything before it is archived or planned. */
  ghost predicate Position(snaps: seq<Timestamp>, i: nat, f: Forest.Forest) {
    && Ascending(StampKey, snaps)
    && Forest.WellFormed(f)
    && i <= |snaps|
    && forall j :: 0 <= j < i ==> snaps[j].raw in f
  }

  /** Full or incremental for a missing snapshot. */
  ghost function Decide(snaps: seq<Timestamp>, i: nat, f: Forest.Forest, lastFull: Option<Timestamp>,
                        rule: Rule): RunStep
    requires Position(snaps, i, f) && i < |snaps|
  {
    if i == 0
       || ExceedsDepth(rule.maxIncrementalDepth, Forest.Depth(f, snaps[i - 1].raw))
       || rule.fullTooOld(lastFull, snaps[i])
    then SendFull(snaps[i])
    else SendIncremental(snaps[i], snaps[i - 1])
  }

  function Grow(f: Forest.Forest, step: RunStep): Forest.Forest { f[step.snap.raw := step.ParentRaw()] }

  function LastFull(lastFull: Option<Timestamp>, step: RunStep): Option<Timestamp> {
    if step.SendFull? then Some(step.snap) else lastFull
  }

  lemma DecideKeepsPosition(snaps: seq<Timestamp>, i: nat, f: Forest.Forest, lastFull: Option<Timestamp>, rule: Rule)
    requires Position(snaps, i, f) && i < |snaps| && snaps[i].raw !in f
    ensures Position(snaps, i + 1, Grow(f, Decide(snaps, i, f, lastFull, rule)))
  {
    if i > 0 { assert Less(StampKey(snaps[i - 1]), StampKey(snaps[i])); }
  }

  ghost function PlanFrom(snaps: seq<Timestamp>, i: nat, f: Forest.Forest, lastFull: Option<Timestamp>,
                          rule: Rule): seq<RunStep>
    requires Position(snaps, i, f)
    decreases |snaps| - i
  {
    if i == |snaps| then []
    else if snaps[i].raw in f then PlanFrom(snaps, i + 1, f, lastFull, rule)
    else
      var step := Decide(snaps, i, f, lastFull, rule);
      DecideKeepsPosition(snaps, i, f, lastFull, rule);
      [step] + PlanFrom(snaps, i + 1, Grow(f, step), LastFull(lastFull, step), rule)
  }

  /** The plan for a source series against stored archives. */
  ghost function Plan(snaps: seq<Timestamp>, archives: seq<VolumeArchive>, policy: SendPolicy): seq<RunStep>
    requires Ascending(StampKey, snaps) && WellFormed(archives)
  {
    PlanFrom(snaps, 0, ForestOf(archives), NewestFull(archives), RuleOf(policy))
  }

  // ---------------------------------------------------------------- the code

  /** Every archived or planned name is cached with the depth of its chain. */
  ghost predicate CacheCovers(cache: map<string, nat>, f: Forest.Forest)
    requires Forest.WellFormed(f)
  {
    forall n {:trigger cache[n]} {:trigger n in cache} :: n in f ==> n in cache && cache[n] == Forest.Depth(f, n)
  }

  /** Every cached depth is the depth of the chain. */
  ghost predicate CacheAgrees(cache: map<string, nat>, f: Forest.Forest)
    requires Forest.WellFormed(f)
  {
    forall n :: n in cache ==> cache[n] == Forest.Depth(f, n)
  }

  /** Memoised depth: whatever was asked before, the answer is the depth of the chain. */
  method ComputeDepth(name: string, archiveMap: Forest.Forest, cache: map<string, nat>)
    returns (depth: nat, cache': map<string, nat>)
    requires Forest.WellFormed(archiveMap) && CacheAgrees(cache, archiveMap)
    ensures depth == Forest.Depth(archiveMap, name)
    ensures CacheAgrees(cache', archiveMap)
    ensures name in cache' && cache.Keys <= cache'.Keys
    decreases Forest.Older(archiveMap, name)
  {
    if name in cache { return cache[name], cache; }
    cache' := cache;
    if name in archiveMap {
      match archiveMap[name]
      case None => depth := 0;
      case Some(parent) =>
        Forest.OlderShrinks(archiveMap, parent, name);
        depth, cache' := ComputeDepth(parent, archiveMap, cache');
        depth := depth + 1;
    } else {
      depth := 0;
    }
    cache' := cache'[name := depth];
  }

  /** The depth of every stored archive, computed through one shared cache. */
  method CacheDepths(archives: seq<VolumeArchive>, archiveMap: Forest.Forest) returns (depthCache: map<string, nat>)
    requires archiveMap == ForestOf(archives) && Forest.WellFormed(archiveMap)
    ensures CacheCovers(depthCache, archiveMap)
  {
    depthCache := map[];
    for a := 0 to |archives|
      invariant CacheAgrees(depthCache, archiveMap)
      invariant forall j :: 0 <= j < a ==> archives[j].timestamp.raw in depthCache
    {
      var _, cache' := ComputeDepth(archives[a].timestamp.raw, archiveMap, depthCache);
      depthCache := cache';
    }
  }

  /** Reverse scan of the source snapshots for one older than `snap` that is in both sets. */
  function FindParentCandidate(snap: Timestamp, destSet: set<string>, srcNames: set<string>,
                               snaps: seq<Timestamp>): (r: Option<Timestamp>)
  {
    if |snaps| == 0 then None
    else
      var s := snaps[|snaps| - 1];
      if Less(s.raw, snap.raw) && s.raw in destSet && s.raw in srcNames then Some(s)
      else FindParentCandidate(snap, destSet, srcNames, snaps[..|snaps| - 1])
  }

  /** The scan yields the immediate predecessor on the source, and nothing only for the first snapshot. */
  lemma {:induction false} ParentIsPredecessor(snaps: seq<Timestamp>, i: nat, destSet: set<string>,
                                               srcNames: set<string>, n: nat)
    requires Ascending(StampKey, snaps) && i < n <= |snaps|
    requires forall j :: 0 <= j < i ==> snaps[j].raw in destSet
    requires forall j :: 0 <= j < |snaps| ==> snaps[j].raw in srcNames
    ensures FindParentCandidate(snaps[i], destSet, srcNames, snaps[..n])
         == if i == 0 then None else Some(snaps[i - 1])
    decreases n
  {
    assert snaps[..n][..n - 1] == snaps[..n - 1];
    LessIrreflexive(snaps[i].raw);
    if n - 1 == i {
      assert !Less(snaps[n - 1].raw, snaps[i].raw);
      if i > 0 {
        assert Less(StampKey(snaps[i - 1]), StampKey(snaps[i]));
      }
    } else {
      assert Less(StampKey(snaps[i]), StampKey(snaps[n - 1]));
      LessAsymmetric(snaps[i].raw, snaps[n - 1].raw);
      ParentIsPredecessor(snaps, i, destSet, srcNames, n - 1);
    }
  }

  function CachedDepth(cache: map<string, nat>, name: string): nat {
    if name in cache then cache[name] else 0
  }

  /** Growing the forest keeps the depths of known names and fixes the depth of the new one. */
  lemma CacheAfterGrow(f: Forest.Forest, cache: map<string, nat>, step: RunStep)
    requires Forest.WellFormed(f) && step.snap.raw !in f && CacheCovers(cache, f)
    requires step.SendIncremental? ==> step.parent.raw in f && Less(step.parent.raw, step.snap.raw)
    ensures Forest.WellFormed(Grow(f, step))
    ensures var depth := if step.SendFull? then 0 else Forest.Depth(f, step.parent.raw) + 1;
      && Forest.Depth(Grow(f, step), step.snap.raw) == depth
      && CacheCovers(cache[step.snap.raw := depth], Grow(f, step))
  {
    var g := Grow(f, step);
    Forest.GrowWellFormed(f, step.snap.raw, step.ParentRaw());
    forall n | n in f ensures Forest.Depth(g, n) == Forest.Depth(f, n) { Forest.GrowKeeps(f, g, n); }
  }

  /** One missing snapshot: the step planned for it, and the depth it gets. */
  method PlanStep(snaps: seq<Timestamp>, i: nat, destSet: set<string>, srcNames: set<string>,
                  depthCache: map<string, nat>, lastFull: Option<Timestamp>, policy: SendPolicy, ghost f: Forest.Forest)
    returns (step: RunStep, depth: nat)
    requires Position(snaps, i, f) && i < |snaps| && snaps[i].raw !in f
    requires destSet == f.Keys && CacheCovers(depthCache, f)
    requires forall j :: 0 <= j < |snaps| ==> snaps[j].raw in srcNames
    ensures step == Decide(snaps, i, f, lastFull, RuleOf(policy))
    ensures CacheCovers(depthCache[snaps[i].raw := depth], Grow(f, step))
  {
    var snap := snaps[i];
    var parent := FindParentCandidate(snap, destSet, srcNames, snaps);
    assert parent == if i == 0 then None else Some(snaps[i - 1]) by {
      ParentIsPredecessor(snaps, i, destSet, srcNames, |snaps|);
      assert snaps[..|snaps|] == snaps;
    }
    if i > 0 { assert CachedDepth(depthCache, snaps[i - 1].raw) == Forest.Depth(f, snaps[i - 1].raw); }
    var sendFull;
    if parent.None? {
      sendFull := true;
    } else {
      var parentDepth := CachedDepth(depthCache, parent.value.raw);
      sendFull := ExceedsDepth(policy.maxIncrementalDepth, parentDepth)
        || CheckIntervalExceeded(lastFull, snap, policy.minFullSendIntervalDays);
    }
    if sendFull {
      step, depth := SendFull(snap), 0;
    } else {
      step, depth := SendIncremental(snap, parent.value), CachedDepth(depthCache, parent.value.raw) + 1;
    }
    DecideKeepsPosition(snaps, i, f, lastFull, RuleOf(policy));
    CacheAfterGrow(f, depthCache, step);
  }

  lemma PlanUnfolds(planned: seq<RunStep>, snaps: seq<Timestamp>, i: nat, f: Forest.Forest,
                    lastFull: Option<Timestamp>, rule: Rule)
    requires Position(snaps, i, f) && i < |snaps| && snaps[i].raw !in f
    ensures var step := Decide(snaps, i, f, lastFull, rule);
      && Position(snaps, i + 1, Grow(f, step))
      && planned + PlanFrom(snaps, i, f, lastFull, rule)
         == planned + [step] + PlanFrom(snaps, i + 1, Grow(f, step), LastFull(lastFull, step), rule)
  {
    DecideKeepsPosition(snaps, i, f, lastFull, rule);
  }

  method BuildPlan(snaps: seq<Timestamp>, archives: seq<VolumeArchive>, policy: SendPolicy)
    returns (steps: seq<RunStep>)
    requires Ascending(StampKey, snaps) && WellFormed(archives)
    ensures steps == Plan(snaps, archives, policy)
  {
    var destSet := Names(archives);
    var archiveMap := ForestOf(archives);
    var depthCache: map<string, nat> := CacheDepths(archives, archiveMap);
    var srcNames := set s <- snaps :: s.raw;
    var lastFull := NewestFull(archives);
    steps := [];
    ghost var f, rule := archiveMap, RuleOf(policy);
    for i := 0 to |snaps|
      invariant Position(snaps, i, f)
      invariant destSet == f.Keys
      invariant CacheCovers(depthCache, f)
      invariant Plan(snaps, archives, policy) == steps + PlanFrom(snaps, i, f, lastFull, rule)
    {
      if snaps[i].raw in destSet { continue; }
      var step, depth := PlanStep(snaps, i, destSet, srcNames, depthCache, lastFull, policy, f);
      PlanUnfolds(steps, snaps, i, f, lastFull, rule);
      steps := steps + [step];
      lastFull := if step.SendFull? then Some(step.snap) else lastFull;
      depthCache := depthCache[snaps[i].raw := depth];
      destSet := destSet + {snaps[i].raw};
      f := Grow(f, step);
    }
  }
}
