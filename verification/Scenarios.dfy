/** Steps can always be completed; and two histories in which planning does not do what one may expect. */
module Scenarios {
  import opened Prelude
  import opened Order
  import opened Decimals
  import opened Timestamps
  import opened Archives
  import opened Storage
  import opened Tools
  import opened Planner
  import opened PlanProperties
  import opened Protocol
  import opened Run
  import Forest
  import Dates

  // ---------------------------------------------------------------- every plan can be completed

  /** One chunk with the whole stream reads back as the stream. */
  lemma OneChunkHolds(tools: Programs, objects: Objects, source: Subvolumes, step: RunStep)
    returns (written: Objects, chunks: seq<ChunkFilename>)
    requires OnSource(source, step)
    ensures Complete(tools, written, source, step, chunks) && Numbered(Filenames(chunks))
    ensures SameBut(objects, written, step.snap.raw, Filenames(chunks))
    ensures Present(written, step.snap.raw, Filenames(chunks))
  {
    var path := ObjectPath(step.snap.raw, PartName(1));
    var payload := tools.compress(tools.Stream(step.snap.raw, step.ParentRaw(), source));
    chunks := [ChunkFilename(PartName(1), |payload| % 0x1_0000_0000, Some("zstd"), None, Some(Sha256(payload)))];
    written := objects[path := payload];
    var names := Filenames(chunks);
    assert names == [PartName(1)] && names[1..] == [];
    assert IsNumber(names[0], 1);
    assert Stored(written, step.snap.raw, names) == payload + [] == payload;
  }

  /** A step that has not been attempted can be attempted and committed. */
  lemma StepPossible(tools: Programs, s: System) returns (t: System)
    requires Inv(tools, s) && AtStep(s) && s.phase.Fresh()
    ensures Reaches(tools, s, t) && t.phase == s.phase.(done := s.phase.done + 1) && t.source == s.source
    ensures OnSource(s.source, CurrentStep(s))
    ensures t.sent == s.sent[CurrentStep(s).snap.raw := SentFrom(s.source, CurrentStep(s))]
  {
    hide Inv, Reaches, Complete, Numbered, SameBut;
    NextStep(tools, s, PlanOf(s.phase), s.phase.done);
    var objects, chunks := OneChunkHolds(tools, s.objects, s.source, CurrentStep(s));
    t := StepEvents(tools, s, objects, chunks, 0, 0);
  }

  lemma NextPossible(tools: Programs, s: System, u: System, k: nat) returns (t: System)
    requires RunningAt(tools, s, u, k) && s.phase.Fresh() && Inv(tools, s) && k < |PlanOf(s.phase)|
    requires u.source == s.source
    ensures RunningAt(tools, s, t, k + 1) && t.source == s.source
    ensures var step := PlanOf(s.phase)[k];
      OnSource(s.source, step) && t.sent == u.sent[step.snap.raw := SentFrom(s.source, step)]
  {
    hide Reaches, StoreInv, Plan, After, ForestOf;
    NextStep(tools, u, PlanOf(s.phase), k);
    t := StepPossible(tools, u);
    RunningOn(tools, s, u, t, k);
  }

  /** From the beginning of a run every prefix of its plan can be committed. */
  lemma {:induction false} RunPossible(tools: Programs, s: System, k: nat) returns (t: System)
    requires Inv(tools, s) && s.phase.Fresh() && s.phase.done == 0 && k <= |PlanOf(s.phase)|
    ensures RunningAt(tools, s, t, k) && t.source == s.source
    ensures k > 0 ==> OnSource(s.source, PlanOf(s.phase)[k - 1])
    ensures k == 1 ==> var step := PlanOf(s.phase)[0]; t.sent == s.sent[step.snap.raw := SentFrom(s.source, step)]
    ensures k == 0 ==> t == s
  {
    if k == 0 {
      t := s;
      ReachesSelf(tools, s);
    } else {
      var u := RunPossible(tools, s, k - 1);
      t := NextPossible(tools, s, u, k - 1);
    }
  }

  // ---------------------------------------------------------------- a first run

  /** What is committed after `k` steps. */
  lemma CommittedForest(tools: Programs, s: System, t: System, k: nat)
    requires RunningAt(tools, s, t, k) && Inv(tools, s) && k <= |PlanOf(s.phase)|
    ensures WellFormed(t.Committed())
    ensures ForestOf(t.Committed()) == After(ForestOf(s.phase.start), PlanOf(s.phase)[..k])
  {
  }

  lemma OnlyFull(archives: seq<VolumeArchive>, first: Timestamp)
    requires WellFormed(archives) && ForestOf(archives) == map[first.raw := None]
    ensures NewestFull(archives) == Some(first)
  {
    NewestFullIsNewest(archives);
    assert first.raw in ForestOf(archives);
  }

  /** A volume whose source holds one snapshot, after its first complete run. */
  lemma FirstRun(tools: Programs, first: Timestamp, content: Content, policy: SendPolicy)
    returns (init: System, s: System)
    requires policy.Valid()
    ensures Init(init) && Reaches(tools, init, s) && Inv(tools, s) && s.phase.Idle?
    ensures WellFormed(s.Committed())
    ensures ForestOf(s.Committed()) == map[first.raw := None] && NewestFull(s.Committed()) == Some(first)
    ensures s.sent == map[first.raw := Sent(content, None)]
  {
    hide Inv, Reaches, RuleOf;
    init := System(map[], None, map[first.raw := content], [], map[], Idle);
    InitInv(tools, init);
    var snaps := [first];
    var f: Forest.Forest := map[];
    assert ForestOf(init.Committed()) == f;
    PlanUnfolds([], snaps, 0, f, None, RuleOf(policy));
    assert Plan(snaps, init.Committed(), policy) == [SendFull(first)];
    var begun := RunBegins(tools, init, snaps, policy);
    var t := RunPossible(tools, begun, 1);
    ReachesTransitive(tools, init, begun, t);
    s := RunRests(tools, init, t);
    CommittedForest(tools, begun, t, 1);
    assert [SendFull(first)][..1][1..] == [];
    OnlyFull(s.Committed(), first);
  }

  /** Between runs the source may become anything. */
  lemma SourceChanges(tools: Programs, init: System, s: System, source: Subvolumes) returns (t: System)
    requires Reaches(tools, init, s) && Inv(tools, s) && s.phase.Idle?
    ensures t == s.(source := source) && Reaches(tools, init, t) && Inv(tools, t)
  {
    hide Inv, Reaches;
    t := s.(source := source);
    assert Next(tools, s, ChangeSource, t);
    ReachesNext(tools, init, s, ChangeSource, t);
    NextInv(tools, s, ChangeSource, t);
  }

  lemma TwoSnapshots(a: Timestamp, b: Timestamp)
    requires Less(a.raw, b.raw)
    ensures Ascending(StampKey, [a, b]) && SourceNames([a, b]) == {a.raw, b.raw} && a.raw != b.raw
  {
    LessIrreflexive(a.raw);
    assert [a, b][0] == a && [a, b][1] == b;
  }

  // ---------------------------------------------------------------- dates

  function DigitAt(s: string, i: nat): int
    requires i < |s|
  {
    s[i] as int - '0' as int
  }

  lemma EightDigitDate(t: Timestamp)
    requires |t.raw| == 8 && AllDigits(t.raw)
    ensures Dates.ParseDateToDays(t.Date()) == Some(
      (DigitAt(t.raw, 0) * 1000 + DigitAt(t.raw, 1) * 100 + DigitAt(t.raw, 2) * 10 + DigitAt(t.raw, 3)) * 365
      + (DigitAt(t.raw, 4) * 10 + DigitAt(t.raw, 5)) * 30 + DigitAt(t.raw, 6) * 10 + DigitAt(t.raw, 7))
  {
    var s := t.raw;
    DateWithoutNumber(t);
    assert s[..8] == s && s[0..4] == [s[0], s[1]] + [s[2], s[3]] && s[4..6] == [s[4], s[5]] && s[6..8] == [s[6], s[7]];
    TwoDigits(s[0], s[1]);
    TwoDigits(s[2], s[3]);
    AppendTwoDigits([s[0], s[1]], s[2], s[3]);
    TwoDigits(s[4], s[5]);
    TwoDigits(s[6], s[7]);
    Dates.WrittenDateParses(s, Dates.Date(Decimal(s[0..4]), Decimal(s[4..6]), Decimal(s[6..8])));
  }

  lemma January() returns (t: Timestamp)
    ensures t.raw == "20230101" && Dates.ParseDateToDays(t.Date()) == Some(738426)
  {
    t := Suffix("20230101");
    EightDigitDate(t);
  }

  lemma February() returns (t: Timestamp)
    ensures t.raw == "20230215" && Dates.ParseDateToDays(t.Date()) == Some(738470)
  {
    t := Suffix("20230215");
    EightDigitDate(t);
  }

  lemma March() returns (t: Timestamp)
    ensures t.raw == "20230301" && Dates.ParseDateToDays(t.Date()) == Some(738486)
  {
    t := Suffix("20230301");
    EightDigitDate(t);
  }

  lemma {:induction false} LessAt(a: string, b: string, i: nat, k: nat)
    requires i <= k < |a| && k < |b| && a[k] < b[k]
    requires forall j :: i <= j < k ==> a[j] == b[j]
    ensures LessFrom(a, b, i)
    decreases k - i
  {
    if i < k { LessAt(a, b, i + 1, k); }
  }

  lemma BackfillOrder()
    ensures Less("20230101", "20230215") && Less("20230215", "20230301") && Less("20230101", "20230301")
  {
    LessAt("20230101", "20230215", 0, 5);
    LessAt("20230215", "20230301", 0, 5);
    LessAt("20230101", "20230301", 0, 5);
  }

  lemma BackfillDates() returns (jan: Timestamp, feb: Timestamp, mar: Timestamp)
    ensures Less(jan.raw, feb.raw) && Less(feb.raw, mar.raw) && Less(jan.raw, mar.raw)
    ensures CheckIntervalExceeded(Some(jan), feb, 30) && !CheckIntervalExceeded(Some(mar), feb, 30)
    ensures !CheckIntervalExceeded(Some(jan), feb, 60)
  {
    jan := January();
    feb := February();
    mar := March();
    BackfillOrder();
  }

  // ---------------------------------------------------------------- back-filling

  /** Both back-filled snapshots are sent full: the second is too far from the first. */
  lemma BothFull(archives: seq<VolumeArchive>, jan: Timestamp, feb: Timestamp, mar: Timestamp, days: nat)
    requires Less(jan.raw, feb.raw) && Less(feb.raw, mar.raw) && Less(jan.raw, mar.raw)
    requires CheckIntervalExceeded(Some(jan), feb, days)
    requires WellFormed(archives) && ForestOf(archives) == map[mar.raw := None] && NewestFull(archives) == Some(mar)
    ensures Ascending(StampKey, [jan, feb])
    ensures Plan([jan, feb], archives, SendPolicy(days, None)) == [SendFull(jan), SendFull(feb)]
  {
    LessIsOrder();
    hide Less, CheckIntervalExceeded, NewestFull;
    TwoSnapshots(jan, feb);
    var rule, snaps, f := RuleOf(SendPolicy(days, None)), [jan, feb], ForestOf(archives);
    PlanUnfolds([], snaps, 0, f, Some(mar), rule);
    PlanUnfolds([], snaps, 1, f[jan.raw := None], Some(jan), rule);
    assert PlanFrom(snaps, 0, f, Some(mar), rule)
        == [SendFull(jan)] + PlanFrom(snaps, 1, f[jan.raw := None], Some(jan), rule);
  }

  /** When the newest full is near enough, the second snapshot is sent against the first. */
  lemma SecondIncremental(archives: seq<VolumeArchive>, jan: Timestamp, feb: Timestamp, newest: Timestamp, days: nat)
    requires Less(jan.raw, feb.raw) && !CheckIntervalExceeded(Some(newest), feb, days)
    requires WellFormed(archives) && jan.raw in ForestOf(archives) && feb.raw !in ForestOf(archives)
    requires NewestFull(archives) == Some(newest)
    ensures Ascending(StampKey, [jan, feb])
    ensures Plan([jan, feb], archives, SendPolicy(days, None)) == [SendIncremental(feb, jan)]
  {
    hide Less, CheckIntervalExceeded, NewestFull;
    TwoSnapshots(jan, feb);
    var rule, snaps, f := RuleOf(SendPolicy(days, None)), [jan, feb], ForestOf(archives);
    assert Position(snaps, 1, f);
    PlanUnfolds([], snaps, 1, f, Some(newest), rule);
    assert PlanFrom(snaps, 0, f, Some(newest), rule) == PlanFrom(snaps, 1, f, Some(newest), rule);
  }

  lemma TwoFulls(archives: seq<VolumeArchive>, jan: Timestamp, mar: Timestamp)
    requires Less(jan.raw, mar.raw)
    requires WellFormed(archives) && ForestOf(archives) == map[mar.raw := None, jan.raw := None]
    ensures NewestFull(archives) == Some(mar)
  {
    LessIsOrder();
    hide Less, NewestFull, Ascending, Find, ForestOf;
    NewestFullIsNewest(archives);
    assert jan.raw in ForestOf(archives) && mar.raw in ForestOf(archives);
  }

  lemma OneStep(f: Forest.Forest, jan: Timestamp, feb: Timestamp)
    ensures After(f, [SendFull(jan), SendFull(feb)][..1]) == f[jan.raw := None]
  {
    assert [SendFull(jan), SendFull(feb)][..1] == [SendFull(jan)] && [SendFull(jan)][1..] == [];
  }

  lemma NotThere(archives: seq<VolumeArchive>, jan: Timestamp, feb: Timestamp, mar: Timestamp)
    requires Less(jan.raw, feb.raw) && Less(feb.raw, mar.raw)
    requires ForestOf(archives) == map[mar.raw := None, jan.raw := None]
    ensures jan.raw in ForestOf(archives) && feb.raw !in ForestOf(archives)
  {
    LessIrreflexive(feb.raw);
  }

  /**
   * The interval is measured from the newest full by date text, so a snapshot older than that full never
   * looks too old. A reachable run that back-fills two snapshots and is stopped after its first commit:
   * the next run does something else than what was left to do.
   */
  lemma BackfillReplansDifferently(tools: Programs) returns (init: System, t: System)
    ensures Init(init) && Reaches(tools, init, t) && Inv(tools, t) && t.phase.Running? && t.phase.policy.Valid()
    ensures t.phase.done == 1 < |PlanOf(t.phase)|
    ensures Plan(t.phase.snaps, t.Committed(), t.phase.policy) != PlanOf(t.phase)[t.phase.done..]
  {
    hide Reaches, Less, CheckIntervalExceeded, NewestFull, StoreInv, Plan, ForestOf;
    var jan, feb, mar := BackfillDates();
    var policy, snaps := SendPolicy(30, None), [jan, feb];
    var first;
    init, first := FirstRun(tools, mar, [], policy);
    var s := SourceChanges(tools, init, first, map[jan.raw := [], feb.raw := []]);
    BothFull(s.Committed(), jan, feb, mar, 30);
    TwoSnapshots(jan, feb);
    var begun := RunBegins(tools, s, snaps, policy);
    t := RunPossible(tools, begun, 1);
    ReachesTransitive(tools, s, begun, t);
    ReachesTransitive(tools, init, s, t);
    CommittedForest(tools, begun, t, 1);
    OneStep(ForestOf(s.Committed()), jan, feb);
    TwoFulls(t.Committed(), jan, mar);
    NotThere(t.Committed(), jan, feb, mar);
    SecondIncremental(t.Committed(), jan, feb, mar, 30);
    assert [SendFull(jan), SendFull(feb)][1..] == [SendFull(feb)];
  }

  // ---------------------------------------------------------------- a parent that was replaced

  /** An archive that was sent against something else than what its parent had been sent with. */
  lemma SentAgainstOther(tools: Programs, s: System, jan: Timestamp, feb: Timestamp, other: Content)
    returns (a: VolumeArchive)
    requires tools.Lawful() && tools.Discerning() && Inv(tools, s)
    requires feb.raw in ForestOf(s.Committed()) && ForestOf(s.Committed())[feb.raw] == Some(jan.raw)
    requires feb.raw in s.sent && jan.raw in s.sent
    requires s.sent[feb.raw].base == Some(other) && s.sent[jan.raw].content != other
    ensures a in s.Committed() && a.parent == Some(jan.raw)
    ensures forall root :: jan.raw in root && root[jan.raw] == s.sent[jan.raw].content ==>
      Received(tools, s.objects, a, root).None?
  {
    hide Received, Programs.Lawful, Programs.Discerning, Ascending, RunInv;
    a := Find(s.Committed(), feb.raw).value;
    assert Holds(tools, s.objects, s.sent, a);
    forall root: Subvolumes | jan.raw in root && root[jan.raw] == s.sent[jan.raw].content
      ensures Received(tools, s.objects, a, root).None?
    {
      ParentMustAgree(tools, s.objects, a, s.sent[feb.raw], root);
    }
  }

  /**
   * Planning compares names only. A sent snapshot is replaced on the source by other content under the
   * same name, and a run sends the next one against it: that leaves a reachable volume at rest with a
   * committed archive that cannot be received on top of its parent as the parent was sent.
   */
  lemma ReplacedParentIsLost(tools: Programs, content: Content, other: Content)
    returns (init: System, s: System, a: VolumeArchive)
    requires tools.Lawful() && tools.Discerning() && content != other
    ensures Init(init) && Reaches(tools, init, s) && Inv(tools, s) && s.phase.Idle?
    ensures a in s.Committed() && a.parent.Some? && a.parent.value in s.sent
    ensures forall root :: a.parent.value in root && root[a.parent.value] == s.sent[a.parent.value].content ==>
      Received(tools, s.objects, a, root).None?
  {
    hide Reaches, Less, CheckIntervalExceeded, NewestFull, Plan, Received, Programs.Lawful, Programs.Discerning,
      Inv, ForestOf;
    var jan, feb, _ := BackfillDates();
    var policy := SendPolicy(60, None);
    var first;
    init, first := FirstRun(tools, jan, content, policy);
    var replaced := SourceChanges(tools, init, first, map[jan.raw := other, feb.raw := content]);
    TwoSnapshots(jan, feb);
    SecondIncremental(replaced.Committed(), jan, feb, jan, 60);
    var begun := RunBegins(tools, replaced, [jan, feb], policy);
    var t := RunPossible(tools, begun, 1);
    ReachesTransitive(tools, replaced, begun, t);
    ReachesTransitive(tools, init, replaced, t);
    InitInv(tools, init);
    s := RunRests(tools, init, t);
    CommittedForest(tools, begun, t, 1);
    assert [SendIncremental(feb, jan)][..1][1..] == [];
    a := SentAgainstOther(tools, s, jan, feb, other);
  }
}
