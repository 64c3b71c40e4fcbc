/** How old an incremental chain can get when every run only adds snapshots newer than the archives. */
module ChainAge {
  import opened Prelude
  import opened Order
  import opened Timestamps
  import opened Archives
  import opened Planner
  import opened PlanProperties
  import Forest
  import Dates

  ghost predicate IsNewest(f: Forest.Forest, n: string) {
    n in f && forall m :: m in f ==> m == n || Less(m, n)
  }

  /** By the rule's own test, the full below `n` is not too old for it. */
  ghost predicate YoungName(f: Forest.Forest, n: string, rule: Rule)
    requires Forest.WellFormed(f) && n in f
  {
    f[n].Some? ==> !rule.fullTooOld(Some(Suffix(Forest.Root(f, n))), Suffix(n))
  }

  /** The newest archive builds on the newest full, and no incremental is too far from its own full. */
  ghost predicate Young(f: Forest.Forest, rule: Rule) {
    && Forest.WellFormed(f)
    && (forall n :: IsNewest(f, n) ==> Forest.IsNewestFull(f, Some(Forest.Root(f, n))))
    && (forall n {:trigger YoungName(f, n, rule)} :: n in f ==> YoungName(f, n, rule))
  }

  /** What is missing is newer than every archive, and the newest archive is still on the source. */
  ghost predicate OnlyNewer(snaps: seq<Timestamp>, f: Forest.Forest) {
    && (forall s, n :: s in snaps && s.raw !in f && n in f ==> Less(n, s.raw))
    && (forall n :: IsNewest(f, n) ==> n in SourceNames(snaps))
  }

  lemma {:induction false} SomeNewest(f: Forest.Forest, names: set<string>) returns (n: string)
    requires names != {} && names <= f.Keys
    ensures n in names && forall m :: m in names ==> m == n || Less(m, n)
    decreases names
  {
    LessIsOrder();
    var m :| m in names;
    if names == {m} {
      n := m;
    } else {
      var n' := SomeNewest(f, names - {m});
      n := if Less(n', m) then m else n';
    }
  }

  /** With only newer snapshots missing, the predecessor of the next one is the newest archive. */
  lemma PredecessorIsNewest(snaps: seq<Timestamp>, i: nat, f: Forest.Forest)
    requires Position(snaps, i, f) && i < |snaps| && snaps[i].raw !in f && OnlyNewer(snaps, f)
    ensures i > 0 ==> IsNewest(f, snaps[i - 1].raw)
    ensures i == 0 ==> f == map[]
  {
    LessIsOrder();
    assert snaps[i] in snaps;
    if f != map[] {
      var n := SomeNewest(f, f.Keys);
      assert IsNewest(f, n);
      var s :| s in snaps && s.raw == n;
      var p :| 0 <= p < |snaps| && snaps[p] == s;
      assert p > i ==> Less(StampKey(snaps[i]), StampKey(snaps[p]));
      assert p < i - 1 ==> Less(StampKey(snaps[p]), StampKey(snaps[i - 1]));
    }
    if i > 0 { assert snaps[i - 1].raw in f; }
  }

  ghost predicate Aging(snaps: seq<Timestamp>, f: Forest.Forest, lastFull: Option<Timestamp>, rule: Rule) {
    Young(f, rule) && Forest.IsNewestFull(f, RawOf(lastFull)) && OnlyNewer(snaps, f)
  }

  lemma RootIsLastFull(f: Forest.Forest, n: string, lastFull: Option<Timestamp>)
    requires Forest.WellFormed(f) && IsNewest(f, n) && Forest.IsNewestFull(f, Some(Forest.Root(f, n)))
    requires Forest.IsNewestFull(f, RawOf(lastFull))
    ensures lastFull.Some? && lastFull.value.raw == Forest.Root(f, n)
  {
    LessIsOrder();
  }

  lemma StepIsNewest(snaps: seq<Timestamp>, i: nat, f: Forest.Forest, step: RunStep)
    requires Position(snaps, i, f) && i < |snaps| && snaps[i].raw !in f && OnlyNewer(snaps, f)
    requires step.snap == snaps[i]
    ensures IsNewest(Grow(f, step), snaps[i].raw)
    ensures forall n :: IsNewest(Grow(f, step), n) ==> n == snaps[i].raw
    ensures OnlyNewer(snaps, Grow(f, step))
  {
    LessIsOrder();
    var g := Grow(f, step);
    assert snaps[i] in snaps;
    forall s, n | s in snaps && s.raw !in g && n in g ensures Less(n, s.raw) {
      if n == snaps[i].raw {
        var j :| 0 <= j < |snaps| && snaps[j] == s;
        assert j > i;
        assert Less(StampKey(snaps[i]), StampKey(snaps[j]));
      }
    }
  }

  /** One step under `OnlyNewer` keeps the chains young and leaves only newer snapshots missing. */
  lemma StepKeepsYoung(snaps: seq<Timestamp>, i: nat, f: Forest.Forest, lastFull: Option<Timestamp>, rule: Rule)
    requires Position(snaps, i, f) && i < |snaps| && snaps[i].raw !in f && Aging(snaps, f, lastFull, rule)
    ensures var step := Decide(snaps, i, f, lastFull, rule);
      Aging(snaps, Grow(f, step), LastFull(lastFull, step), rule)
  {
    hide Less, CheckIntervalExceeded, Forest.WellFormed;
    var step := Decide(snaps, i, f, lastFull, rule);
    var g, name := Grow(f, step), snaps[i].raw;
    DecideKeepsPosition(snaps, i, f, lastFull, rule);
    PredecessorIsNewest(snaps, i, f);
    StepIsNewest(snaps, i, f, step);
    forall n | n in f ensures Forest.Root(g, n) == Forest.Root(f, n) { Forest.GrowKeeps(f, g, n); }
    LessIsOrder();
    assert Forest.IsNewestFull(g, RawOf(LastFull(lastFull, step)));
    if step.SendIncremental? {
      var parent := snaps[i - 1].raw;
      Forest.OlderShrinks(g, parent, name);
      assert Forest.Root(g, name) == Forest.Root(f, parent);
      RootIsLastFull(f, parent, lastFull);
      assert !rule.fullTooOld(Some(Suffix(Forest.Root(g, name))), Suffix(name));
    }
    forall n | n in g ensures YoungName(g, n, rule) {
      if n in f { assert YoungName(f, n, rule); }
    }
  }

  /** Any committed prefix of a plan that only adds newer snapshots keeps the chains young. */
  lemma {:induction false} PlanKeepsYoung(snaps: seq<Timestamp>, f: Forest.Forest, lastFull: Option<Timestamp>,
                                          rule: Rule, k: nat)
    requires Position(snaps, 0, f) && k <= |PlanFrom(snaps, 0, f, lastFull, rule)|
    requires Aging(snaps, f, lastFull, rule)
    ensures Aging(snaps, ForestAt(snaps, f, lastFull, rule, k), LastFullAt(snaps, f, lastFull, rule, k), rule)
  {
    if k > 0 {
      PlanKeepsYoung(snaps, f, lastFull, rule, k - 1);
      var j := StepAt(snaps, f, lastFull, rule, k - 1);
      StepKeepsYoung(snaps, j, ForestAt(snaps, f, lastFull, rule, k - 1), LastFullAt(snaps, f, lastFull, rule, k - 1),
                     rule);
    } else {
      assert PlanFrom(snaps, 0, f, lastFull, rule)[..0] == [];
    }
  }

  /** Both dates parse and `n` lies fewer than `days` approximate days after `root`. */
  predicate WithinInterval(root: string, n: string, days: nat) {
    var rootDay, day := Dates.ParseDateToDays(Suffix(root).Date()), Dates.ParseDateToDays(Suffix(n).Date());
    rootDay.Some? && day.Some? && day.value - rootDay.value < days
  }

  /** For a policy, not too old means within the interval. */
  lemma PolicyInterval(policy: SendPolicy, root: string, n: string)
    ensures !RuleOf(policy).fullTooOld(Some(Suffix(root)), Suffix(n))
       <==> WithinInterval(root, n, policy.minFullSendIntervalDays)
  {
  }
}
