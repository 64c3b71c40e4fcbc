/** Archive statistics: six counters that stand for the archives counted so far. */
module Stats {
  import opened Prelude
  import opened Order
  import opened Archives

  /** What the statistics see of one archive. */
  datatype Entry = Entry(incremental: bool, size: nat)

  datatype Kind = All | Full | Incremental

  predicate IsKind(e: Entry, k: Kind) {
    k.All? || e.incremental == k.Incremental?
  }

  function Count(entries: seq<Entry>, k: Kind): nat {
    if |entries| == 0 then 0
    else Count(entries[..|entries| - 1], k) + (if IsKind(entries[|entries| - 1], k) then 1 else 0)
  }

  function Size(entries: seq<Entry>, k: Kind): nat {
    if |entries| == 0 then 0
    else
      Size(entries[..|entries| - 1], k) + (if IsKind(entries[|entries| - 1], k) then entries[|entries| - 1].size else 0)
  }

  /** The positions of the incremental entries, or of the others. */
  function Positions(entries: seq<Entry>, incremental: bool): set<nat> {
    set i: nat | i < |entries| && entries[i].incremental == incremental
  }

  lemma PositionsMore(entries: seq<Entry>, incremental: bool)
    requires |entries| > 0
    ensures var n := |entries| - 1;
      |Positions(entries, incremental)|
        == |Positions(entries[..n], incremental)| + if entries[n].incremental == incremental then 1 else 0
  {
    var n := |entries| - 1;
    var before := Positions(entries[..n], incremental);
    assert Positions(entries, incremental) == before + if entries[n].incremental == incremental then {n} else {};
    assert n !in before;
  }

  lemma NoPositions(entries: seq<Entry>, incremental: bool)
    requires entries == []
    ensures Positions(entries, incremental) == {}
  {
  }

  /** The entries of one kind are counted position by position. */
  lemma {:induction false} CountMeans(entries: seq<Entry>)
    ensures Count(entries, All) == |entries|
    ensures Count(entries, Full) == |Positions(entries, false)|
    ensures Count(entries, Incremental) == |Positions(entries, true)|
    decreases |entries|
  {
    hide Positions;
    if |entries| > 0 {
      CountMeans(entries[..|entries| - 1]);
      PositionsMore(entries, false);
      PositionsMore(entries, true);
    } else {
      NoPositions(entries, false);
      NoPositions(entries, true);
    }
  }

  function Sum(sizes: seq<nat>): nat {
    if |sizes| == 0 then 0 else Sum(sizes[..|sizes| - 1]) + sizes[|sizes| - 1]
  }

  /** And their sizes are added up position by position. */
  lemma {:induction false} SizeMeans(entries: seq<Entry>)
    ensures Size(entries, All) == Sum(seq(|entries|, i requires 0 <= i < |entries| => entries[i].size))
    ensures Size(entries, Full) ==
      Sum(seq(|entries|, i requires 0 <= i < |entries| => if entries[i].incremental then 0 else entries[i].size))
    ensures Size(entries, Incremental) ==
      Sum(seq(|entries|, i requires 0 <= i < |entries| => if entries[i].incremental then entries[i].size else 0))
    decreases |entries|
  {
    if |entries| > 0 {
      var n := |entries| - 1;
      var init := entries[..n];
      SizeMeans(init);
      assert seq(n + 1, i requires 0 <= i < n + 1 => entries[i].size)[..n]
          == seq(n, i requires 0 <= i < n => init[i].size);
      assert seq(n + 1, i requires 0 <= i < n + 1 => if entries[i].incremental then 0 else entries[i].size)[..n]
          == seq(n, i requires 0 <= i < n => if init[i].incremental then 0 else init[i].size);
      assert seq(n + 1, i requires 0 <= i < n + 1 => if entries[i].incremental then entries[i].size else 0)[..n]
          == seq(n, i requires 0 <= i < n => if init[i].incremental then init[i].size else 0);
    }
  }

  /** All archives are the full ones and the incremental ones. */
  lemma {:induction false} KindsAddUp(entries: seq<Entry>)
    ensures Count(entries, All) == Count(entries, Full) + Count(entries, Incremental) == |entries|
    ensures Size(entries, All) == Size(entries, Full) + Size(entries, Incremental)
    decreases |entries|
  {
    if |entries| > 0 { KindsAddUp(entries[..|entries| - 1]); }
  }

  lemma CountOneMore(entries: seq<Entry>, e: Entry, k: Kind)
    ensures Count(entries + [e], k) == Count(entries, k) + (if IsKind(e, k) then 1 else 0)
    ensures Size(entries + [e], k) == Size(entries, k) + (if IsKind(e, k) then e.size else 0)
  {
    assert (entries + [e])[..|entries|] == entries;
  }

  lemma {:induction false} CountConcat(xs: seq<Entry>, ys: seq<Entry>, k: Kind)
    ensures Count(xs + ys, k) == Count(xs, k) + Count(ys, k)
    ensures Size(xs + ys, k) == Size(xs, k) + Size(ys, k)
    decreases |ys|
  {
    if |ys| == 0 {
      assert xs + ys == xs;
    } else {
      CountConcat(xs, ys[..|ys| - 1], k);
      assert (xs + ys)[..|xs + ys| - 1] == xs + ys[..|ys| - 1];
    }
  }

  /** Taking one entry out takes away what it counted for. */
  lemma WithoutOne(ys: seq<Entry>, j: nat, k: Kind)
    requires j < |ys|
    ensures multiset(ys) == multiset(ys[..j] + ys[j + 1..]) + multiset{ys[j]}
    ensures Count(ys, k) == Count(ys[..j] + ys[j + 1..], k) + (if IsKind(ys[j], k) then 1 else 0)
    ensures Size(ys, k) == Size(ys[..j] + ys[j + 1..], k) + (if IsKind(ys[j], k) then ys[j].size else 0)
  {
    var before, after := ys[..j], ys[j + 1..];
    assert ys == before + [ys[j]] + after;
    CountConcat(before, after, k);
    CountConcat(before + [ys[j]], after, k);
    CountOneMore(before, ys[j], k);
  }

  lemma WithoutLast(xs: seq<Entry>, ys: seq<Entry>, without: seq<Entry>)
    requires |xs| > 0 && multiset(xs) == multiset(ys)
    requires multiset(ys) == multiset(without) + multiset{xs[|xs| - 1]}
    ensures multiset(xs[..|xs| - 1]) == multiset(without)
  {
    var init, last := xs[..|xs| - 1], xs[|xs| - 1];
    assert xs == init + [last];
    assert multiset(init) == multiset(xs) - multiset{last};
    assert multiset(without) == multiset(ys) - multiset{last};
  }

  /** The counters do not depend on the order of the archives. */
  lemma {:induction false} CountPermuted(xs: seq<Entry>, ys: seq<Entry>, k: Kind)
    requires multiset(xs) == multiset(ys)
    ensures Count(xs, k) == Count(ys, k) && Size(xs, k) == Size(ys, k)
    decreases |xs|
  {
    if |xs| == 0 {
      assert |ys| == |multiset(ys)| == 0;
    } else {
      var last := xs[|xs| - 1];
      assert last in multiset(ys);
      var j :| 0 <= j < |ys| && ys[j] == last;
      WithoutOne(ys, j, k);
      WithoutLast(xs, ys, ys[..j] + ys[j + 1..]);
      CountPermuted(xs[..|xs| - 1], ys[..j] + ys[j + 1..], k);
    }
  }

  function EntryOf(a: VolumeArchive): Entry { Entry(a.IsIncremental(), a.TotalSize()) }

  function EntriesOf(archives: seq<VolumeArchive>): (r: seq<Entry>)
    ensures |r| == |archives|
  {
    if |archives| == 0 then [] else EntriesOf(archives[..|archives| - 1]) + [EntryOf(archives[|archives| - 1])]
  }

  lemma EntriesOfPush(archives: seq<VolumeArchive>, a: VolumeArchive)
    ensures EntriesOf(archives + [a]) == EntriesOf(archives) + [EntryOf(a)]
  {
    hide EntryOf;
    assert (archives + [a])[..|archives|] == archives;
  }

  lemma {:induction false} EntriesOfInsert(archives: seq<VolumeArchive>, a: VolumeArchive)
    ensures multiset(EntriesOf(InsertBy(ArchiveKey, archives, a)))
         == multiset(EntriesOf(archives)) + multiset{EntryOf(a)}
    decreases |archives|
  {
    hide Less, ArchiveKey, EntryOf, EntriesOf;
    if |archives| > 0 && Less(ArchiveKey(a), ArchiveKey(archives[|archives| - 1])) {
      var init, last := archives[..|archives| - 1], archives[|archives| - 1];
      EntriesOfInsert(init, a);
      assert archives == init + [last] && InsertBy(ArchiveKey, archives, a) == InsertBy(ArchiveKey, init, a) + [last];
      EntriesOfPush(init, last);
      EntriesOfPush(InsertBy(ArchiveKey, init, a), last);
    } else {
      EntriesOfPush(archives, a);
    }
  }

  /** Sorting the new archive in adds its entry to those of the others. */
  lemma EntriesOfAdded(archives: seq<VolumeArchive>, a: VolumeArchive)
    requires Ascending(ArchiveKey, archives)
    ensures multiset(EntriesOf(Added(archives, a))) == multiset(EntriesOf(archives)) + multiset{EntryOf(a)}
  {
    SortFixesAscending(ArchiveKey, archives);
    assert (archives + [a])[..|archives|] == archives;
    EntriesOfInsert(archives, a);
  }

  class ArchiveStats {
    var allCount: nat
    var allSize: nat
    var fullCount: nat
    var fullSize: nat
    var incrementalCount: nat
    var incrementalSize: nat
    ghost var counted: seq<Entry>

    constructor ()
      ensures Valid() && counted == []
      ensures allCount == allSize == fullCount == fullSize == incrementalCount == incrementalSize == 0
    {
      allCount, allSize, fullCount, fullSize, incrementalCount, incrementalSize := 0, 0, 0, 0, 0, 0;
      counted := [];
    }

    /** The counters are those of the counted archives. */
    ghost predicate Valid()
      reads this
    {
      && allCount == Count(counted, All) && allSize == Size(counted, All)
      && fullCount == Count(counted, Full) && fullSize == Size(counted, Full)
      && incrementalCount == Count(counted, Incremental) && incrementalSize == Size(counted, Incremental)
    }

    lemma Balanced()
      requires Valid()
      ensures allCount == fullCount + incrementalCount && allSize == fullSize + incrementalSize
    {
      KindsAddUp(counted);
    }

    method AddSize(incremental: bool, size: nat)
      requires Valid()
      modifies this
      ensures Valid() && counted == old(counted) + [Entry(incremental, size)]
      ensures allCount == old(allCount) + 1 && allSize == old(allSize) + size
      ensures fullCount == old(fullCount) + (if incremental then 0 else 1)
      ensures fullSize == old(fullSize) + (if incremental then 0 else size)
      ensures incrementalCount == old(incrementalCount) + (if incremental then 1 else 0)
      ensures incrementalSize == old(incrementalSize) + (if incremental then size else 0)
    {
      hide Count, Size;
      allCount := allCount + 1;
      allSize := allSize + size;
      if incremental {
        incrementalCount := incrementalCount + 1;
        incrementalSize := incrementalSize + size;
      } else {
        fullCount := fullCount + 1;
        fullSize := fullSize + size;
      }
      forall k: Kind { CountOneMore(counted, Entry(incremental, size), k); }
      counted := counted + [Entry(incremental, size)];
    }

    method AddArchive(a: VolumeArchive)
      requires Valid()
      modifies this
      ensures Valid() && counted == old(counted) + [EntryOf(a)]
      ensures allCount == old(allCount) + 1 && allSize == old(allSize) + SizeOf(a.chunks)
      ensures fullCount == old(fullCount) + (if a.parent.Some? then 0 else 1)
      ensures fullSize == old(fullSize) + (if a.parent.Some? then 0 else SizeOf(a.chunks))
      ensures incrementalCount == old(incrementalCount) + (if a.parent.Some? then 1 else 0)
      ensures incrementalSize == old(incrementalSize) + (if a.parent.Some? then SizeOf(a.chunks) else 0)
    {
      AddSize(a.IsIncremental(), a.TotalSize());
    }

    method Merge(other: ArchiveStats)
      requires Valid() && other.Valid() && other != this
      modifies this
      ensures Valid() && counted == old(counted) + other.counted
      ensures allCount == old(allCount) + other.allCount && allSize == old(allSize) + other.allSize
      ensures fullCount == old(fullCount) + other.fullCount && fullSize == old(fullSize) + other.fullSize
      ensures incrementalCount == old(incrementalCount) + other.incrementalCount
      ensures incrementalSize == old(incrementalSize) + other.incrementalSize
    {
      hide Count, Size;
      allCount := allCount + other.allCount;
      allSize := allSize + other.allSize;
      fullCount := fullCount + other.fullCount;
      fullSize := fullSize + other.fullSize;
      incrementalCount := incrementalCount + other.incrementalCount;
      incrementalSize := incrementalSize + other.incrementalSize;
      forall k: Kind { CountConcat(counted, other.counted, k); }
      counted := counted + other.counted;
    }
  }

  /** All six counters agree. */
  ghost predicate SameCounters(a: ArchiveStats, b: ArchiveStats)
    reads a, b
  {
    && a.allCount == b.allCount && a.allSize == b.allSize
    && a.fullCount == b.fullCount && a.fullSize == b.fullSize
    && a.incrementalCount == b.incrementalCount && a.incrementalSize == b.incrementalSize
  }

  /** Statistics that counted the same entries, in any order, agree. */
  lemma SameEntriesSameCounters(a: ArchiveStats, b: ArchiveStats)
    requires a.Valid() && b.Valid() && multiset(a.counted) == multiset(b.counted)
    ensures SameCounters(a, b)
  {
    forall k: Kind { CountPermuted(a.counted, b.counted, k); }
  }

  /** The statistics of a volume's metadata; nothing stored counts as nothing. */
  method StatsFromMeta(meta: Option<Meta>) returns (stats: ArchiveStats)
    ensures fresh(stats) && stats.Valid() && stats.counted == EntriesOf(ArchivesIn(meta))
  {
    stats := new ArchiveStats();
    if meta.Some? {
      var archives := meta.value.archives;
      for i := 0 to |archives|
        invariant fresh(stats) && stats.Valid() && stats.counted == EntriesOf(archives[..i])
      {
        assert archives[..i + 1] == archives[..i] + [archives[i]];
        EntriesOfPush(archives[..i], archives[i]);
        stats.AddArchive(archives[i]);
      }
      assert archives[..|archives|] == archives;
    }
  }
}
