/** What the send plan guarantees: coverage, soundness, depth, age, and planning again after a crash. */
module PlanProperties {
  import opened Prelude
  import opened Order
  import opened Timestamps
  import opened Archives
  import opened Planner
  import Dates
  import Forest

  function Snaps(steps: seq<RunStep>): seq<Timestamp> {
    if |steps| == 0 then [] else [steps[0].snap] + Snaps(steps[1..])
  }

  /** The source snapshots that are not archived, in source order. */
  function Missing(snaps: seq<Timestamp>, known: set<string>): seq<Timestamp> {
    if |snaps| == 0 then []
    else (if snaps[0].raw in known then [] else [snaps[0]]) + Missing(snaps[1..], known)
  }

  function SourceNames(snaps: seq<Timestamp>): set<string> { set s <- snaps :: s.raw }

  /** The forest once all `steps` are committed. */
  ghost function After(f: Forest.Forest, steps: seq<RunStep>): Forest.Forest
    decreases |steps|
  {
    if |steps| == 0 then f else After(Grow(f, steps[0]), steps[1..])
  }

  ghost function LastFullAfter(lastFull: Option<Timestamp>, steps: seq<RunStep>): Option<Timestamp>
    decreases |steps|
  {
    if |steps| == 0 then lastFull else LastFullAfter(LastFull(lastFull, steps[0]), steps[1..])
  }

  /** A single step that may be sent next: a new source snapshot, its parent archived, older and still on the source. */
  ghost predicate Sendable(f: Forest.Forest, src: set<string>, step: RunStep) {
    && step.snap.raw !in f && step.snap.raw in src
    && (step.SendIncremental? ==>
          step.parent.raw in f && step.parent.raw in src && Less(step.parent.raw, step.snap.raw))
  }

  ghost predicate Sound(f: Forest.Forest, src: set<string>, steps: seq<RunStep>)
    decreases |steps|
  {
    |steps| == 0 || (Sendable(f, src, steps[0]) && Sound(Grow(f, steps[0]), src, steps[1..]))
  }

  // ---------------------------------------------------------------- coverage and soundness

  lemma {:induction false} MissingIgnores(snaps: seq<Timestamp>, known: set<string>, name: string)
    requires forall s :: s in snaps ==> s.raw != name
    ensures Missing(snaps, known + {name}) == Missing(snaps, known)
  {
    if |snaps| > 0 {
      assert snaps[0] in snaps;
      MissingIgnores(snaps[1..], known, name);
    }
  }

  lemma LaterSnapsDiffer(snaps: seq<Timestamp>, i: nat)
    requires Ascending(StampKey, snaps) && i < |snaps|
    ensures forall s :: s in snaps[i + 1..] ==> s.raw != snaps[i].raw
  {
    forall s | s in snaps[i + 1..] ensures s.raw != snaps[i].raw {
      var j :| i < j < |snaps| && snaps[j] == s;
      assert Less(StampKey(snaps[i]), StampKey(snaps[j]));
      LessIrreflexive(s.raw);
    }
  }

  /** A plan sends exactly the snapshots the destination lacks, oldest first. */
  lemma {:induction false} PlanCoversMissing(snaps: seq<Timestamp>, i: nat, f: Forest.Forest,
                                             lastFull: Option<Timestamp>, rule: Rule)
    requires Position(snaps, i, f)
    ensures Snaps(PlanFrom(snaps, i, f, lastFull, rule)) == Missing(snaps[i..], f.Keys)
    decreases |snaps| - i
  {
    if i < |snaps| {
      assert snaps[i..][0] == snaps[i] && snaps[i..][1..] == snaps[i + 1..];
      if snaps[i].raw in f {
        PlanCoversMissing(snaps, i + 1, f, lastFull, rule);
      } else {
        var step := Decide(snaps, i, f, lastFull, rule);
        DecideKeepsPosition(snaps, i, f, lastFull, rule);
        PlanCoversMissing(snaps, i + 1, Grow(f, step), LastFull(lastFull, step), rule);
        LaterSnapsDiffer(snaps, i);
        MissingIgnores(snaps[i + 1..], f.Keys, snaps[i].raw);
        assert Grow(f, step).Keys == f.Keys + {snaps[i].raw};
      }
    }
  }

  /** Every planned step can be sent when its turn comes. */
  lemma {:induction false} PlanIsSound(snaps: seq<Timestamp>, i: nat, f: Forest.Forest, lastFull: Option<Timestamp>,
                                       rule: Rule)
    requires Position(snaps, i, f)
    ensures Sound(f, SourceNames(snaps), PlanFrom(snaps, i, f, lastFull, rule))
    decreases |snaps| - i
  {
    if i < |snaps| {
      if snaps[i].raw in f {
        PlanIsSound(snaps, i + 1, f, lastFull, rule);
      } else {
        var step := Decide(snaps, i, f, lastFull, rule);
        DecideKeepsPosition(snaps, i, f, lastFull, rule);
        PlanIsSound(snaps, i + 1, Grow(f, step), LastFull(lastFull, step), rule);
        if i > 0 { assert Less(StampKey(snaps[i - 1]), StampKey(snaps[i])); }
        assert Sendable(f, SourceNames(snaps), step);
      }
    }
  }

  /** Committing sound steps keeps the forest well formed, keeps every link, and adds the sent names. */
  lemma {:induction false} AfterSound(f: Forest.Forest, src: set<string>, steps: seq<RunStep>)
    requires Forest.WellFormed(f) && Sound(f, src, steps)
    ensures Forest.WellFormed(After(f, steps))
    ensures forall n :: n in f ==> n in After(f, steps) && After(f, steps)[n] == f[n]
    ensures forall n :: n in After(f, steps) && n !in f ==> n in src
    decreases |steps|
  {
    if |steps| > 0 {
      Forest.GrowWellFormed(f, steps[0].snap.raw, steps[0].ParentRaw());
      AfterSound(Grow(f, steps[0]), src, steps[1..]);
    }
  }

  lemma {:induction false} SoundSplits(f: Forest.Forest, src: set<string>, steps: seq<RunStep>, k: nat)
    requires Sound(f, src, steps) && k <= |steps|
    ensures Sound(f, src, steps[..k])
    ensures Sound(After(f, steps[..k]), src, steps[k..])
    ensures k < |steps| ==> Sendable(After(f, steps[..k]), src, steps[k])
    ensures k < |steps| ==> After(f, steps[..k + 1]) == Grow(After(f, steps[..k]), steps[k])
    decreases k
  {
    if k > 0 {
      SoundSplits(Grow(f, steps[0]), src, steps[1..], k - 1);
      assert steps[..k][1..] == steps[1..][..k - 1] && steps[1..][k - 1..] == steps[k..];
      if k < |steps| { assert steps[..k + 1][1..] == steps[1..][..k]; }
    } else {
      assert steps[0..] == steps;
      if 0 < |steps| { assert steps[..1] == [steps[0]] && steps[..1][1..] == []; }
    }
  }

  // ---------------------------------------------------------------- planning again

  /** The first `k` steps of a plan whose next snapshot is missing: that step, then `k - 1` of the rest. */
  lemma PrefixStep(snaps: seq<Timestamp>, i: nat, f: Forest.Forest, lastFull: Option<Timestamp>, rule: Rule, k: nat)
    returns (step: RunStep, rest: seq<RunStep>)
    requires Position(snaps, i, f) && i < |snaps| && snaps[i].raw !in f
    requires 0 < k <= |PlanFrom(snaps, i, f, lastFull, rule)|
    ensures step == Decide(snaps, i, f, lastFull, rule) && Position(snaps, i + 1, Grow(f, step))
    ensures rest == PlanFrom(snaps, i + 1, Grow(f, step), LastFull(lastFull, step), rule) && k - 1 <= |rest|
    ensures var plan := PlanFrom(snaps, i, f, lastFull, rule);
      && plan[k..] == rest[k - 1..]
      && After(f, plan[..k]) == After(Grow(f, step), rest[..k - 1])
      && LastFullAfter(lastFull, plan[..k]) == LastFullAfter(LastFull(lastFull, step), rest[..k - 1])
  {
    step := Decide(snaps, i, f, lastFull, rule);
    DecideKeepsPosition(snaps, i, f, lastFull, rule);
    rest := PlanFrom(snaps, i + 1, Grow(f, step), LastFull(lastFull, step), rule);
    var plan := [step] + rest;
    assert plan[..k][1..] == rest[..k - 1] && plan[..k][0] == step && plan[k..] == rest[k - 1..];
  }

  /** After `k` steps the planner stands at some later position, and the rest of the plan is the plan from there. */
  lemma {:induction false} PlanSuffix(snaps: seq<Timestamp>, i: nat, f: Forest.Forest, lastFull: Option<Timestamp>,
                                      rule: Rule, k: nat)
    returns (j: nat)
    requires Position(snaps, i, f) && k <= |PlanFrom(snaps, i, f, lastFull, rule)|
    ensures var plan := PlanFrom(snaps, i, f, lastFull, rule);
      && Position(snaps, j, After(f, plan[..k]))
      && PlanFrom(snaps, j, After(f, plan[..k]), LastFullAfter(lastFull, plan[..k]), rule) == plan[k..]
    decreases |snaps| - i
  {
    var plan := PlanFrom(snaps, i, f, lastFull, rule);
    if k == 0 {
      j := i;
      assert plan[..0] == [] && plan[0..] == plan;
    } else if snaps[i].raw in f {
      j := PlanSuffix(snaps, i + 1, f, lastFull, rule, k);
    } else {
      var step, rest := PrefixStep(snaps, i, f, lastFull, rule, k);
      j := PlanSuffix(snaps, i + 1, Grow(f, step), LastFull(lastFull, step), rule, k - 1);
    }
  }

  /** Known snapshots before a position do not influence the plan. */
  lemma {:induction false} SkipKnown(snaps: seq<Timestamp>, i: nat, j: nat, f: Forest.Forest,
                                     lastFull: Option<Timestamp>, rule: Rule)
    requires i <= j && Position(snaps, j, f)
    ensures Position(snaps, i, f)
    ensures PlanFrom(snaps, i, f, lastFull, rule) == PlanFrom(snaps, j, f, lastFull, rule)
    decreases j - i
  {
    if i < j { SkipKnown(snaps, i + 1, j, f, lastFull, rule); }
  }

  /** From any position with something left to send, the next step is the decision at the first missing snapshot. */
  lemma {:induction false} NextDecision(snaps: seq<Timestamp>, i: nat, f: Forest.Forest, lastFull: Option<Timestamp>,
                                        rule: Rule)
    returns (j: nat)
    requires Position(snaps, i, f) && PlanFrom(snaps, i, f, lastFull, rule) != []
    ensures Position(snaps, j, f) && j < |snaps| && snaps[j].raw !in f
    ensures PlanFrom(snaps, i, f, lastFull, rule)[0] == Decide(snaps, j, f, lastFull, rule)
    decreases |snaps| - i
  {
    if snaps[i].raw in f { j := NextDecision(snaps, i + 1, f, lastFull, rule); } else { j := i; }
  }

  /** The state after `k` steps of a plan from the start of the series. */
  ghost function ForestAt(snaps: seq<Timestamp>, f: Forest.Forest, lastFull: Option<Timestamp>, rule: Rule,
                          k: nat): Forest.Forest
    requires Position(snaps, 0, f) && k <= |PlanFrom(snaps, 0, f, lastFull, rule)|
  {
    After(f, PlanFrom(snaps, 0, f, lastFull, rule)[..k])
  }

  ghost function LastFullAt(snaps: seq<Timestamp>, f: Forest.Forest, lastFull: Option<Timestamp>, rule: Rule,
                            k: nat): Option<Timestamp>
    requires Position(snaps, 0, f) && k <= |PlanFrom(snaps, 0, f, lastFull, rule)|
  {
    LastFullAfter(lastFull, PlanFrom(snaps, 0, f, lastFull, rule)[..k])
  }

  lemma {:induction false} LastFullSplits(lastFull: Option<Timestamp>, steps: seq<RunStep>, k: nat)
    requires k < |steps|
    ensures LastFullAfter(lastFull, steps[..k + 1]) == LastFull(LastFullAfter(lastFull, steps[..k]), steps[k])
    decreases k
  {
    if k > 0 {
      LastFullSplits(LastFull(lastFull, steps[0]), steps[1..], k - 1);
      assert steps[..k][1..] == steps[1..][..k - 1] && steps[..k + 1][1..] == steps[1..][..k];
    } else {
      assert steps[..1] == [steps[0]] && steps[..1][1..] == [];
    }
  }

  /** Step `k` of a plan is the decision at the first missing snapshot, given everything sent before. */
  lemma StepAt(snaps: seq<Timestamp>, f: Forest.Forest, lastFull: Option<Timestamp>, rule: Rule, k: nat)
    returns (j: nat)
    requires Position(snaps, 0, f) && k < |PlanFrom(snaps, 0, f, lastFull, rule)|
    ensures var g, lf := ForestAt(snaps, f, lastFull, rule, k), LastFullAt(snaps, f, lastFull, rule, k);
      && Position(snaps, j, g) && j < |snaps| && snaps[j].raw !in g
      && PlanFrom(snaps, 0, f, lastFull, rule)[k] == Decide(snaps, j, g, lf, rule)
      && ForestAt(snaps, f, lastFull, rule, k + 1) == Grow(g, Decide(snaps, j, g, lf, rule))
      && LastFullAt(snaps, f, lastFull, rule, k + 1) == LastFull(lf, Decide(snaps, j, g, lf, rule))
  {
    var plan := PlanFrom(snaps, 0, f, lastFull, rule);
    var i := PlanSuffix(snaps, 0, f, lastFull, rule, k);
    j := NextDecision(snaps, i, After(f, plan[..k]), LastFullAfter(lastFull, plan[..k]), rule);
    assert plan[k..][0] == plan[k];
    LastFullSplits(lastFull, plan, k);
    PlanIsSound(snaps, 0, f, lastFull, rule);
    SoundSplits(f, SourceNames(snaps), plan, k);
  }

  /**
   * Each planned step, in terms of what is committed when it runs: it is incremental exactly when the
   * snapshot has a predecessor on the source, stacking on it stays below the depth limit, and the most
   * recent full is younger than the interval; the parent is that predecessor.
   */
  lemma StepReasons(snaps: seq<Timestamp>, f: Forest.Forest, lastFull: Option<Timestamp>, policy: SendPolicy, k: nat)
    returns (j: nat)
    requires Position(snaps, 0, f) && k < |PlanFrom(snaps, 0, f, lastFull, RuleOf(policy))|
    ensures var plan := PlanFrom(snaps, 0, f, lastFull, RuleOf(policy));
      var g, lf := After(f, plan[..k]), LastFullAfter(lastFull, plan[..k]);
      && Forest.WellFormed(g)
      && j < |snaps| && plan[k].snap == snaps[j] && snaps[j].raw !in g
      && (forall i :: 0 <= i < j ==> snaps[i].raw in g)
      && (plan[k].SendIncremental? <==>
            && j > 0
            && (policy.maxIncrementalDepth.Some? ==>
                  Forest.Depth(g, snaps[j - 1].raw) + 1 < policy.maxIncrementalDepth.value)
            && lf.Some?
            && Dates.ParseDateToDays(lf.value.Date()).Some? && Dates.ParseDateToDays(snaps[j].Date()).Some?
            && Dates.ParseDateToDays(snaps[j].Date()).value - Dates.ParseDateToDays(lf.value.Date()).value
               < policy.minFullSendIntervalDays)
      && (plan[k].SendIncremental? ==> plan[k].parent == snaps[j - 1])
  {
    j := StepAt(snaps, f, lastFull, RuleOf(policy), k);
  }

  /** Every full among `steps` is newer than `lastFull`. */
  ghost predicate FullsNewerThan(lastFull: Option<Timestamp>, steps: seq<RunStep>) {
    lastFull.Some? ==>
      forall k :: 0 <= k < |steps| && steps[k].SendFull? ==> Less(lastFull.value.raw, steps[k].snap.raw)
  }

  ghost predicate StepsAscend(steps: seq<RunStep>) {
    forall i, j :: 0 <= i < j < |steps| ==> Less(steps[i].snap.raw, steps[j].snap.raw)
  }

  lemma {:induction false} PlanAscends(snaps: seq<Timestamp>, i: nat, f: Forest.Forest, lastFull: Option<Timestamp>,
                                       rule: Rule)
    requires Position(snaps, i, f)
    ensures var plan := PlanFrom(snaps, i, f, lastFull, rule);
      StepsAscend(plan) && forall k :: 0 <= k < |plan| ==> plan[k].snap in snaps[i..]
    decreases |snaps| - i
  {
    hide Less;
    if i < |snaps| {
      assert forall s :: s in snaps[i + 1..] ==> s in snaps[i..];
      if snaps[i].raw in f {
        PlanAscends(snaps, i + 1, f, lastFull, rule);
      } else {
        var step := Decide(snaps, i, f, lastFull, rule);
        DecideKeepsPosition(snaps, i, f, lastFull, rule);
        PlanAscends(snaps, i + 1, Grow(f, step), LastFull(lastFull, step), rule);
        forall s | s in snaps[i + 1..] ensures Less(snaps[i].raw, s.raw) {
          var j :| i < j < |snaps| && snaps[j] == s;
          assert Less(StampKey(snaps[i]), StampKey(snaps[j]));
        }
        assert snaps[i] in snaps[i..];
      }
    }
  }

  /** When planned fulls are newer than the archived ones, the loop variable is the newest full of the grown forest. */
  lemma {:induction false} LastFullTracksNewest(f: Forest.Forest, lastFull: Option<Timestamp>, src: set<string>,
                                                steps: seq<RunStep>)
    requires Forest.IsNewestFull(f, RawOf(lastFull)) && Sound(f, src, steps)
    requires StepsAscend(steps) && FullsNewerThan(lastFull, steps)
    ensures Forest.IsNewestFull(After(f, steps), RawOf(LastFullAfter(lastFull, steps)))
    decreases |steps|
  {
    if |steps| > 0 {
      LessIsOrder();
      var rest := steps[1..];
      assert forall k :: 0 <= k < |rest| ==> rest[k] == steps[k + 1];
      LastFullTracksNewest(Grow(f, steps[0]), LastFull(lastFull, steps[0]), src, rest);
    }
  }

  lemma NewestFullUnique(f: Forest.Forest, a: Option<Timestamp>, b: Option<Timestamp>)
    requires Forest.IsNewestFull(f, RawOf(a)) && Forest.IsNewestFull(f, RawOf(b))
    ensures a == b
  {
    LessIsOrder();
  }

  /** Planning again after `k` committed steps: the same remaining snapshots in the same order. */
  lemma ReplanSnapshots(snaps: seq<Timestamp>, f: Forest.Forest, lastFull: Option<Timestamp>,
                        rule: Rule, k: nat, lastFull': Option<Timestamp>)
    requires Position(snaps, 0, f) && k <= |PlanFrom(snaps, 0, f, lastFull, rule)|
    ensures var plan := PlanFrom(snaps, 0, f, lastFull, rule);
      && Position(snaps, 0, After(f, plan[..k]))
      && Snaps(PlanFrom(snaps, 0, After(f, plan[..k]), lastFull', rule)) == Snaps(plan[k..])
  {
    var plan := PlanFrom(snaps, 0, f, lastFull, rule);
    var g, lf := After(f, plan[..k]), LastFullAfter(lastFull, plan[..k]);
    var j := PlanSuffix(snaps, 0, f, lastFull, rule, k);
    SkipKnown(snaps, 0, j, g, lastFull', rule);
    PlanCoversMissing(snaps, j, g, lf, rule);
    PlanCoversMissing(snaps, j, g, lastFull', rule);
  }

  lemma SnapsEmpty(steps: seq<RunStep>)
    ensures Snaps(steps) == [] <==> steps == []
  {
  }

  /** After a complete run there is nothing left to plan. */
  lemma ReplanEmpty(snaps: seq<Timestamp>, f: Forest.Forest, lastFull: Option<Timestamp>, rule: Rule,
                    lastFull': Option<Timestamp>)
    requires Position(snaps, 0, f)
    ensures var g := After(f, PlanFrom(snaps, 0, f, lastFull, rule));
      Position(snaps, 0, g) && PlanFrom(snaps, 0, g, lastFull', rule) == []
  {
    var plan := PlanFrom(snaps, 0, f, lastFull, rule);
    ReplanSnapshots(snaps, f, lastFull, rule, |plan|, lastFull');
    assert plan[..|plan|] == plan && plan[|plan|..] == [];
    SnapsEmpty(PlanFrom(snaps, 0, After(f, plan), lastFull', rule));
  }

  lemma SameLastFull(snaps: seq<Timestamp>, f: Forest.Forest, lastFull: Option<Timestamp>,
                     rule: Rule, k: nat, lastFull': Option<Timestamp>)
    requires Position(snaps, 0, f) && k <= |PlanFrom(snaps, 0, f, lastFull, rule)|
    requires Forest.IsNewestFull(f, RawOf(lastFull))
    requires Forest.IsNewestFull(ForestAt(snaps, f, lastFull, rule, k), RawOf(lastFull'))
    requires FullsNewerThan(lastFull, PlanFrom(snaps, 0, f, lastFull, rule)[..k])
    ensures lastFull' == LastFullAt(snaps, f, lastFull, rule, k)
  {
    var plan := PlanFrom(snaps, 0, f, lastFull, rule);
    PlanIsSound(snaps, 0, f, lastFull, rule);
    SoundSplits(f, SourceNames(snaps), plan, k);
    PlanAscends(snaps, 0, f, lastFull, rule);
    LastFullTracksNewest(f, lastFull, SourceNames(snaps), plan[..k]);
    NewestFullUnique(ForestAt(snaps, f, lastFull, rule, k), LastFullAt(snaps, f, lastFull, rule, k), lastFull');
  }

  /**
   * Planning again gives exactly the remaining steps, same kinds and parents, when every full among
   * the committed steps is newer than the newest full that was archived before.
   */
  lemma ReplanExact(snaps: seq<Timestamp>, f: Forest.Forest, lastFull: Option<Timestamp>,
                    rule: Rule, k: nat, lastFull': Option<Timestamp>)
    requires Position(snaps, 0, f) && k <= |PlanFrom(snaps, 0, f, lastFull, rule)|
    requires Forest.IsNewestFull(f, RawOf(lastFull))
    requires Forest.IsNewestFull(ForestAt(snaps, f, lastFull, rule, k), RawOf(lastFull'))
    requires FullsNewerThan(lastFull, PlanFrom(snaps, 0, f, lastFull, rule)[..k])
    ensures var plan := PlanFrom(snaps, 0, f, lastFull, rule);
      && Position(snaps, 0, After(f, plan[..k]))
      && PlanFrom(snaps, 0, After(f, plan[..k]), lastFull', rule) == plan[k..]
  {
    SameLastFull(snaps, f, lastFull, rule, k, lastFull');
    var g := ForestAt(snaps, f, lastFull, rule, k);
    var j := PlanSuffix(snaps, 0, f, lastFull, rule, k);
    SkipKnown(snaps, 0, j, g, lastFull', rule);
  }

  // ---------------------------------------------------------------- exactly when planning again changes nothing

  /** Full whatever the interval says: the first snapshot of the series, or the depth limit. */
  ghost predicate Forced(snaps: seq<Timestamp>, f: Forest.Forest, snap: Timestamp, rule: Rule)
    requires Forest.WellFormed(f)
  {
    exists j {:trigger snaps[j]} :: 0 <= j < |snaps| && snaps[j] == snap
      && (j == 0 || ExceedsDepth(rule.maxIncrementalDepth, Forest.Depth(f, snaps[j - 1].raw)))
  }

  /**
   * Measured from `lastFull`, the interval allows every incremental among `steps` before the next full,
   * and asks for that full, unless it is forced anyway.
   */
  ghost predicate SameVerdicts(snaps: seq<Timestamp>, f: Forest.Forest, lastFull: Option<Timestamp>, rule: Rule,
                               steps: seq<RunStep>)
    decreases |steps|
  {
    |steps| == 0
    || (Forest.WellFormed(f)
        && match steps[0]
           case SendFull(snap) => rule.fullTooOld(lastFull, snap) || Forced(snaps, f, snap, rule)
           case SendIncremental(snap, _) =>
             !rule.fullTooOld(lastFull, snap) && SameVerdicts(snaps, Grow(f, steps[0]), lastFull, rule, steps[1..]))
  }

  lemma PositionsDiffer(snaps: seq<Timestamp>)
    requires Ascending(StampKey, snaps)
    ensures forall i, j :: 0 <= i < j < |snaps| ==> snaps[i] != snaps[j]
  {
    forall i, j | 0 <= i < j < |snaps| ensures snaps[i] != snaps[j] {
      assert Less(StampKey(snaps[i]), StampKey(snaps[j]));
      LessIrreflexive(snaps[i].raw);
    }
  }

  lemma ForcedAt(snaps: seq<Timestamp>, i: nat, f: Forest.Forest, rule: Rule)
    requires Position(snaps, i, f) && i < |snaps|
    ensures Forced(snaps, f, snaps[i], rule)
       <==> i == 0 || ExceedsDepth(rule.maxIncrementalDepth, Forest.Depth(f, snaps[i - 1].raw))
  {
    PositionsDiffer(snaps);
  }

  lemma HeadsAndTails(a: RunStep, s: seq<RunStep>, b: RunStep, t: seq<RunStep>)
    ensures [a] + s == [b] + t <==> a == b && s == t
    ensures ([a] + s)[0] == a && ([a] + s)[1..] == s
  {
    assert ([a] + s)[1..] == s && ([b] + t)[1..] == t;
  }

  /** Two values of the last full lead to the same plan exactly when their verdicts agree up to the next full. */
  lemma {:induction false} PlansAgree(snaps: seq<Timestamp>, i: nat, f: Forest.Forest, lastFull: Option<Timestamp>,
                                      rule: Rule, lastFull': Option<Timestamp>)
    requires Position(snaps, i, f)
    ensures PlanFrom(snaps, i, f, lastFull', rule) == PlanFrom(snaps, i, f, lastFull, rule)
       <==> SameVerdicts(snaps, f, lastFull', rule, PlanFrom(snaps, i, f, lastFull, rule))
    decreases |snaps| - i
  {
    if i < |snaps| {
      if snaps[i].raw in f {
        PlansAgree(snaps, i + 1, f, lastFull, rule, lastFull');
      } else {
        ForcedAt(snaps, i, f, rule);
        var step, step' := Decide(snaps, i, f, lastFull, rule), Decide(snaps, i, f, lastFull', rule);
        DecideKeepsPosition(snaps, i, f, lastFull, rule);
        DecideKeepsPosition(snaps, i, f, lastFull', rule);
        var rest := PlanFrom(snaps, i + 1, Grow(f, step), LastFull(lastFull, step), rule);
        var rest' := PlanFrom(snaps, i + 1, Grow(f, step'), LastFull(lastFull', step'), rule);
        if step.SendIncremental? { PlansAgree(snaps, i + 1, Grow(f, step), lastFull, rule, lastFull'); }
        HeadsAndTails(step, rest, step', rest');
      }
    }
  }

  /** Planning again after `k` steps gives exactly the remaining ones if and only if the verdicts agree. */
  lemma ReplanExactly(snaps: seq<Timestamp>, f: Forest.Forest, lastFull: Option<Timestamp>,
                      rule: Rule, k: nat, lastFull': Option<Timestamp>)
    requires Position(snaps, 0, f) && k <= |PlanFrom(snaps, 0, f, lastFull, rule)|
    ensures var plan := PlanFrom(snaps, 0, f, lastFull, rule);
      && Position(snaps, 0, After(f, plan[..k]))
      && (PlanFrom(snaps, 0, After(f, plan[..k]), lastFull', rule) == plan[k..]
          <==> SameVerdicts(snaps, After(f, plan[..k]), lastFull', rule, plan[k..]))
  {
    var g := ForestAt(snaps, f, lastFull, rule, k);
    var j := PlanSuffix(snaps, 0, f, lastFull, rule, k);
    SkipKnown(snaps, 0, j, g, lastFull', rule);
    PlansAgree(snaps, j, g, LastFullAt(snaps, f, lastFull, rule, k), rule, lastFull');
  }

  // ---------------------------------------------------------------- depth

  /** Restoring any name of `g` that `f` lacks takes at most `max` steps. */
  ghost predicate NewBounded(f: Forest.Forest, g: Forest.Forest, max: nat)
    requires Forest.WellFormed(g)
  {
    forall n {:trigger Forest.Chain(g, n)} :: n in g && n !in f ==> |Forest.Chain(g, n)| <= max
  }

  lemma NewDepth(f: Forest.Forest, step: RunStep)
    requires Forest.WellFormed(f) && step.snap.raw !in f
    requires step.SendIncremental? ==> step.parent.raw in f && Less(step.parent.raw, step.snap.raw)
    ensures Forest.WellFormed(Grow(f, step))
    ensures Forest.Depth(Grow(f, step), step.snap.raw) ==
      if step.SendFull? then 0 else Forest.Depth(f, step.parent.raw) + 1
  {
    Forest.GrowWellFormed(f, step.snap.raw, step.ParentRaw());
    if step.SendIncremental? { Forest.GrowKeeps(f, Grow(f, step), step.parent.raw); }
  }

  lemma DecisionBounded(snaps: seq<Timestamp>, j: nat, f: Forest.Forest, g: Forest.Forest, lastFull: Option<Timestamp>,
                        rule: Rule)
    requires Position(snaps, j, g) && j < |snaps| && snaps[j].raw !in g
    requires rule.maxIncrementalDepth.Some? && rule.maxIncrementalDepth.value >= 1
    requires NewBounded(f, g, rule.maxIncrementalDepth.value)
    ensures var h := Grow(g, Decide(snaps, j, g, lastFull, rule));
      Forest.WellFormed(h) && NewBounded(f, h, rule.maxIncrementalDepth.value)
  {
    var step := Decide(snaps, j, g, lastFull, rule);
    DecideKeepsPosition(snaps, j, g, lastFull, rule);
    var h := Grow(g, step);
    NewDepth(g, step);
    forall n {:trigger Forest.Chain(h, n)} | n in h && n !in f
      ensures |Forest.Chain(h, n)| <= rule.maxIncrementalDepth.value
    {
      if n in g { Forest.GrowKeeps(g, h, n); } else { Forest.ChainShape(h, n); }
    }
  }

  /** Whatever was archived before, each newly sent snapshot restores in at most `max` steps. */
  lemma {:induction false} NewChainsBounded(snaps: seq<Timestamp>, f: Forest.Forest, lastFull: Option<Timestamp>,
                                            rule: Rule, k: nat)
    requires Position(snaps, 0, f) && k <= |PlanFrom(snaps, 0, f, lastFull, rule)|
    requires rule.maxIncrementalDepth.Some? && rule.maxIncrementalDepth.value >= 1
    ensures Forest.WellFormed(ForestAt(snaps, f, lastFull, rule, k))
    ensures NewBounded(f, ForestAt(snaps, f, lastFull, rule, k), rule.maxIncrementalDepth.value)
  {
    if k > 0 {
      NewChainsBounded(snaps, f, lastFull, rule, k - 1);
      var j := StepAt(snaps, f, lastFull, rule, k - 1);
      DecisionBounded(snaps, j, f, ForestAt(snaps, f, lastFull, rule, k - 1),
                      LastFullAt(snaps, f, lastFull, rule, k - 1), rule);
    } else {
      assert PlanFrom(snaps, 0, f, lastFull, rule)[..0] == [];
    }
  }

  /** No restore plan is longer than `max`. */
  ghost predicate ChainsBounded(f: Forest.Forest, max: nat)
    requires Forest.WellFormed(f)
  {
    NewBounded(map[], f, max)
  }

  /** A committed prefix keeps the forest well formed and every link in it, and adds only source snapshots. */
  lemma PrefixExtends(snaps: seq<Timestamp>, f: Forest.Forest, lastFull: Option<Timestamp>, rule: Rule, k: nat)
    requires Position(snaps, 0, f) && k <= |PlanFrom(snaps, 0, f, lastFull, rule)|
    ensures var g := ForestAt(snaps, f, lastFull, rule, k);
      && Forest.WellFormed(g)
      && (forall n :: n in f ==> n in g && g[n] == f[n])
      && (forall n :: n in g && n !in f ==> n in SourceNames(snaps))
  {
    var plan := PlanFrom(snaps, 0, f, lastFull, rule);
    PlanIsSound(snaps, 0, f, lastFull, rule);
    SoundSplits(f, SourceNames(snaps), plan, k);
    AfterSound(f, SourceNames(snaps), plan[..k]);
  }

  /** Under a fixed depth limit, every committed prefix of a plan keeps all restore plans within it. */
  lemma PlanKeepsChainsBounded(snaps: seq<Timestamp>, f: Forest.Forest, lastFull: Option<Timestamp>, rule: Rule, k: nat)
    requires Position(snaps, 0, f) && k <= |PlanFrom(snaps, 0, f, lastFull, rule)|
    requires rule.maxIncrementalDepth.Some? && rule.maxIncrementalDepth.value >= 1
    requires ChainsBounded(f, rule.maxIncrementalDepth.value)
    ensures Forest.WellFormed(ForestAt(snaps, f, lastFull, rule, k))
    ensures ChainsBounded(ForestAt(snaps, f, lastFull, rule, k), rule.maxIncrementalDepth.value)
  {
    var g := ForestAt(snaps, f, lastFull, rule, k);
    NewChainsBounded(snaps, f, lastFull, rule, k);
    PrefixExtends(snaps, f, lastFull, rule, k);
    forall n {:trigger Forest.Chain(g, n)} | n in g ensures |Forest.Chain(g, n)| <= rule.maxIncrementalDepth.value {
      if n in f { Forest.GrowKeeps(f, g, n); }
    }
  }
}
