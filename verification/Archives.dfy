/** Archive metadata of one volume at the destination. */
module Archives {
  import opened Prelude
  import opened Order
  import opened Timestamps
  import Forest

  /** A SHA-256 digest, standing for the bytes it was computed from. */
  datatype Digest = Sha256(data: Bytes)

  datatype ChunkFilename = ChunkFilename(
    filename: string, size: nat, compression: Option<string>, rawSize: Option<nat>, sha256sum: Option<Digest>)

  function SizeOf(chunks: seq<ChunkFilename>): nat {
    if |chunks| == 0 then 0 else SizeOf(chunks[..|chunks| - 1]) + chunks[|chunks| - 1].size
  }

  datatype VolumeArchive = VolumeArchive(
    timestamp: Timestamp, parent: Option<string>, chunks: seq<ChunkFilename>)
  {
    predicate IsIncremental() { parent.Some? }

    function TotalSize(): nat { SizeOf(chunks) }
  }

  /** Missing as soon as one chunk does not record its raw size. */
  function RawSizeOf(chunks: seq<ChunkFilename>): Option<nat> {
    if |chunks| == 0 then Some(0)
    else
      var before := RawSizeOf(chunks[..|chunks| - 1]);
      var last := chunks[|chunks| - 1].rawSize;
      if before.Some? && last.Some? then Some(before.value + last.value) else None
  }

  /** A sum of raw sizes is missing exactly when some chunk records none. */
  lemma {:induction false} RawSizeMissing(chunks: seq<ChunkFilename>)
    ensures RawSizeOf(chunks).None? <==> exists i :: 0 <= i < |chunks| && chunks[i].rawSize.None?
    decreases |chunks|
  {
    if |chunks| > 0 {
      var n := |chunks| - 1;
      RawSizeMissing(chunks[..n]);
      assert forall i :: 0 <= i < n ==> chunks[..n][i] == chunks[i];
    }
  }

  /** The content of the metadata object. */
  datatype Meta = Meta(firstSync: nat, lastSync: nat, archives: seq<VolumeArchive>)

  /** Before the first commit there is no metadata and no archive. */
  function ArchivesIn(meta: Option<Meta>): seq<VolumeArchive> {
    if meta.None? then [] else meta.value.archives
  }

  function ArchiveKey(a: VolumeArchive): string { a.timestamp.raw }

  function Names(archives: seq<VolumeArchive>): set<string> {
    set a <- archives :: a.timestamp.raw
  }

  /** The first archive with the given raw timestamp. */
  function Find(archives: seq<VolumeArchive>, raw: string): (r: Option<VolumeArchive>)
    ensures r.Some? ==> r.value in archives && r.value.timestamp.raw == raw
    ensures r.None? <==> raw !in Names(archives)
  {
    if |archives| == 0 then None
    else if archives[0].timestamp.raw == raw then Some(archives[0])
    else
      assert Names(archives) == {archives[0].timestamp.raw} + Names(archives[1..]);
      Find(archives[1..], raw)
  }

  /** Raw timestamp to parent, for every archive. */
  function ForestOf(archives: seq<VolumeArchive>): (f: Forest.Forest)
    ensures f.Keys == Names(archives)
  {
    map n | n in Names(archives) :: Find(archives, n).value.parent
  }

  /** Sorted, without duplicates, and every parent present and strictly older. */
  ghost predicate WellFormed(archives: seq<VolumeArchive>) {
    && Ascending(ArchiveKey, archives)
    && Forest.WellFormed(ForestOf(archives))
  }

  lemma FindUnique(archives: seq<VolumeArchive>, a: VolumeArchive)
    requires Ascending(ArchiveKey, archives) && a in archives
    ensures Find(archives, a.timestamp.raw) == Some(a)
    ensures a.timestamp.raw in ForestOf(archives) && ForestOf(archives)[a.timestamp.raw] == a.parent
  {
    var b := Find(archives, a.timestamp.raw).value;
    var i :| 0 <= i < |archives| && archives[i] == a;
    var j :| 0 <= j < |archives| && archives[j] == b;
    LessIrreflexive(a.timestamp.raw);
    assert i < j ==> Less(ArchiveKey(archives[i]), ArchiveKey(archives[j]));
    assert j < i ==> Less(ArchiveKey(archives[j]), ArchiveKey(archives[i]));
  }

  /** The metadata after one more archive: pushed, then sorted. */
  function Added(archives: seq<VolumeArchive>, a: VolumeArchive): seq<VolumeArchive> {
    SortBy(ArchiveKey, archives + [a])
  }

  lemma AddedAscending(archives: seq<VolumeArchive>, a: VolumeArchive)
    requires Ascending(ArchiveKey, archives) && a.timestamp.raw !in Names(archives)
    ensures multiset(Added(archives, a)) == multiset(archives) + multiset{a}
    ensures forall b :: b in Added(archives, a) <==> b in archives || b == a
    ensures Ascending(ArchiveKey, Added(archives, a))
  {
    hide Ascending, SortBy, Less;
    AscendingDistinct(ArchiveKey, archives);
    assert forall b :: b in archives ==> b.timestamp.raw in Names(archives);
    assert DistinctKeys(ArchiveKey, archives + [a]);
    SortAscending(ArchiveKey, archives + [a]);
    SameElements(archives + [a], Added(archives, a));
  }

  lemma ForestOfAdded(archives: seq<VolumeArchive>, a: VolumeArchive, added: seq<VolumeArchive>)
    requires Ascending(ArchiveKey, archives) && a.timestamp.raw !in Names(archives)
    requires Ascending(ArchiveKey, added) && forall b :: b in added <==> b in archives || b == a
    ensures ForestOf(added) == ForestOf(archives)[a.timestamp.raw := a.parent]
  {
    hide Ascending, Find, Less;
    var f, g := ForestOf(added), ForestOf(archives)[a.timestamp.raw := a.parent];
    forall n ensures n in f <==> n in g {
      if n in Names(archives) { assert Find(archives, n).value in added; }
      if n == a.timestamp.raw { assert a in added; }
    }
    FindUnique(added, a);
    forall n | n in f && n != a.timestamp.raw ensures f[n] == g[n] {
      FindUnique(archives, Find(added, n).value);
    }
  }

  /** Adding a new archive keeps the old ones and the order, and grows the forest by one link. */
  lemma AddedKeeps(archives: seq<VolumeArchive>, a: VolumeArchive)
    requires Ascending(ArchiveKey, archives) && a.timestamp.raw !in Names(archives)
    ensures multiset(Added(archives, a)) == multiset(archives) + multiset{a}
    ensures forall b :: b in Added(archives, a) <==> b in archives || b == a
    ensures Ascending(ArchiveKey, Added(archives, a))
    ensures ForestOf(Added(archives, a)) == ForestOf(archives)[a.timestamp.raw := a.parent]
  {
    AddedAscending(archives, a);
    ForestOfAdded(archives, a, Added(archives, a));
  }

  /** The last archive, in order, that is not incremental. */
  function NewestFull(archives: seq<VolumeArchive>): Option<Timestamp> {
    if |archives| == 0 then None
    else if !archives[|archives| - 1].IsIncremental() then Some(archives[|archives| - 1].timestamp)
    else NewestFull(archives[..|archives| - 1])
  }

  lemma {:induction false} NewestFullScan(archives: seq<VolumeArchive>)
    requires Ascending(ArchiveKey, archives)
    ensures NewestFull(archives).None? ==> forall a :: a in archives ==> a.IsIncremental()
    ensures NewestFull(archives).Some? ==>
      && (exists a :: a in archives && a.timestamp == NewestFull(archives).value && !a.IsIncremental())
      && (forall a :: a in archives && !a.IsIncremental() ==>
            a.timestamp == NewestFull(archives).value || Less(a.timestamp.raw, NewestFull(archives).value.raw))
    decreases |archives|
  {
    if |archives| > 0 {
      var init, last := archives[..|archives| - 1], archives[|archives| - 1];
      assert forall a :: a in archives <==> a in init || a == last;
      if last.IsIncremental() {
        NewestFullScan(init);
      } else {
        forall a | a in init ensures Less(ArchiveKey(a), ArchiveKey(last)) {
          var i :| 0 <= i < |init| && init[i] == a;
          assert archives[i] == a;
        }
      }
    }
  }

  function RawOf(t: Option<Timestamp>): Option<string> {
    if t.Some? then Some(t.value.raw) else None
  }

  /** The reverse scan for a full archive finds the newest full of the forest. */
  lemma NewestFullIsNewest(archives: seq<VolumeArchive>)
    requires Ascending(ArchiveKey, archives)
    ensures Forest.IsNewestFull(ForestOf(archives), RawOf(NewestFull(archives)))
  {
    NewestFullScan(archives);
    forall a | a in archives ensures ForestOf(archives)[a.timestamp.raw] == a.parent { FindUnique(archives, a); }
  }

  /** Metadata being extended in memory during a run. */
  class DestMeta {
    const firstSync: nat
    var lastSync: nat
    var archives: seq<VolumeArchive>

    constructor (firstSync: nat, lastSync: nat, archives: seq<VolumeArchive>)
      ensures this.firstSync == firstSync && this.lastSync == lastSync
      ensures this.archives == SortBy(ArchiveKey, archives)
      ensures multiset(this.archives) == multiset(archives) && Ordered(ArchiveKey, this.archives)
      ensures Ascending(ArchiveKey, archives) ==> this.archives == archives
    {
      this.firstSync := firstSync;
      this.lastSync := lastSync;
      this.archives := SortBy(ArchiveKey, archives);
      SortIsStable(ArchiveKey, archives);
      if Ascending(ArchiveKey, archives) { SortFixesAscending(ArchiveKey, archives); }
    }

    function Value(): Meta
      reads this
    {
      Meta(firstSync, lastSync, archives)
    }

    method AddArchive(a: VolumeArchive)
      modifies this`archives
      ensures archives == Added(old(archives), a)
      ensures Ascending(ArchiveKey, old(archives)) && a.timestamp.raw !in Names(old(archives)) ==>
        && Ascending(ArchiveKey, archives)
        && multiset(archives) == multiset(old(archives)) + multiset{a}
        && ForestOf(archives) == ForestOf(old(archives))[a.timestamp.raw := a.parent]
    {
      ghost var was := archives;
      archives := archives + [a];
      archives := SortBy(ArchiveKey, archives);
      if Ascending(ArchiveKey, was) && a.timestamp.raw !in Names(was) { AddedKeeps(was, a); }
    }

    method SetLastSync(ts: nat)
      modifies this`lastSync
      ensures lastSync == ts
    {
      lastSync := ts;
    }
  }
}
