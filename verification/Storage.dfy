/** One volume's location at the destination: chunk objects and the metadata object. */
module Storage {
  import opened Prelude
  import opened Decimals
  import opened Archives

  /** Snapshot directory and file name below the volume's location. */
  datatype ObjectPath = ObjectPath(snapshot: string, filename: string)

  type Objects = map<ObjectPath, Bytes>

  /** `created` is history: every chunk object that was ever created or truncated, in order. */
  class Destination {
    var objects: Objects
    var meta: Option<Meta>
    ghost var created: seq<ObjectPath>

    constructor ()
      ensures objects == map[] && meta == None && created == []
    {
      objects, meta, created := map[], None, [];
    }
  }

  /** Outside the directory of `snapshot` nothing differs. */
  ghost predicate SameOutside(before: Objects, after: Objects, snapshot: string) {
    forall p: ObjectPath :: p.snapshot != snapshot ==>
      (p in before <==> p in after) && (p in before && p in after ==> before[p] == after[p])
  }

  /** Only the named objects in the directory of `snapshot` may differ. */
  ghost predicate SameBut(before: Objects, after: Objects, snapshot: string, names: seq<string>) {
    forall p: ObjectPath :: p.snapshot != snapshot || p.filename !in names ==>
      (p in before <==> p in after) && (p in before && p in after ==> before[p] == after[p])
  }

  lemma SameButIsOutside(before: Objects, after: Objects, snapshot: string, names: seq<string>)
    requires SameBut(before, after, snapshot, names)
    ensures SameOutside(before, after, snapshot)
  {
  }

  /** The paths of the named objects in the directory of `snapshot`. */
  function Paths(snapshot: string, names: seq<string>): seq<ObjectPath> {
    if |names| == 0 then [] else Paths(snapshot, names[..|names| - 1]) + [ObjectPath(snapshot, names[|names| - 1])]
  }

  function Filenames(chunks: seq<ChunkFilename>): seq<string> {
    seq(|chunks|, i requires 0 <= i < |chunks| => chunks[i].filename)
  }

  ghost predicate Present(objects: Objects, snapshot: string, names: seq<string>) {
    forall i :: 0 <= i < |names| ==> ObjectPath(snapshot, names[i]) in objects
  }

  /** The entry tells how the object it names is compressed, its digest, and its length in 32 bits. */
  ghost predicate IsRecorded(objects: Objects, snapshot: string, chunk: ChunkFilename) {
    var path := ObjectPath(snapshot, chunk.filename);
    && path in objects
    && chunk.compression == Some("zstd")
    && chunk.sha256sum == Some(Sha256(objects[path]))
    && chunk.size == |objects[path]| % 0x1_0000_0000
  }

  ghost predicate Recorded(objects: Objects, snapshot: string, chunks: seq<ChunkFilename>) {
    forall i :: 0 <= i < |chunks| ==> IsRecorded(objects, snapshot, chunks[i])
  }

  /** The named objects one after the other, up to the first that is missing. */
  function Stored(objects: Objects, snapshot: string, names: seq<string>): Bytes {
    if |names| == 0 || ObjectPath(snapshot, names[0]) !in objects then []
    else objects[ObjectPath(snapshot, names[0])] + Stored(objects, snapshot, names[1..])
  }

  /** Reading depends only on the snapshot's own directory. */
  lemma {:induction false} StoredFrame(before: Objects, after: Objects, snapshot: string, changed: string,
                                       names: seq<string>)
    requires SameOutside(before, after, changed) && snapshot != changed
    ensures Stored(before, snapshot, names) == Stored(after, snapshot, names)
    ensures Present(before, snapshot, names) == Present(after, snapshot, names)
    decreases |names|
  {
    if |names| > 0 { StoredFrame(before, after, snapshot, changed, names[1..]); }
    if Present(before, snapshot, names) || Present(after, snapshot, names) {
      assert forall i :: 0 <= i < |names| ==> ObjectPath(snapshot, names[i]).snapshot != changed;
    }
  }

  lemma RecordedFrame(before: Objects, after: Objects, snapshot: string, changed: string, chunks: seq<ChunkFilename>)
    requires SameOutside(before, after, changed) && snapshot != changed && Recorded(before, snapshot, chunks)
    ensures Recorded(after, snapshot, chunks)
  {
    forall i | 0 <= i < |chunks| ensures IsRecorded(after, snapshot, chunks[i]) {
      assert IsRecorded(before, snapshot, chunks[i]);
    }
  }

  /** The name of the `n`th part of an archive. */
  function PartName(n: nat): string { "part" + Padded(n, 6) + ".btrfs.zstd" }

  lemma FirstPadded()
    ensures Padded(1, 6) == "000001"
  {
    assert Digits(1) == "1";
    assert "0" + "1" == "01" && "0" + "01" == "001" && "0" + "001" == "0001" && "0" + "0001" == "00001";
    assert ZeroFill("0001", 6) == ZeroFill("00001", 6) == "000001";
    assert ZeroFill("1", 6) == ZeroFill("01", 6) == ZeroFill("001", 6) == ZeroFill("0001", 6);
  }

  /** Part numbers are written with six digits, and with as many as they need from a million on. */
  lemma PartNameWidth(n: nat)
    ensures |PartName(n)| >= 21 && (|PartName(n)| == 21 <==> n < 1000000)
    ensures PartName(1) == "part000001.btrfs.zstd"
  {
    PaddedWidth(n, 6);
    assert Pow10(6) == 1000000;
    FirstPadded();
  }

  lemma PartNameInjective(m: nat, n: nat)
    requires PartName(m) == PartName(n)
    ensures m == n
  {
    assert forall k: nat :: PartName(k)[4..|PartName(k)| - 11] == Padded(k, 6);
    PaddedInjective(m, n, 6);
  }

  ghost predicate IsNumber(name: string, n: nat) { name == PartName(n) }

  /** The `n`th name is the name of part `n`, counting from one. */
  ghost predicate Numbered(names: seq<string>) {
    forall i {:trigger IsNumber(names[i], i + 1)} :: 0 <= i < |names| ==> IsNumber(names[i], i + 1)
  }

  /** Different parts of one archive have different names. */
  lemma NumberedDistinct(names: seq<string>)
    requires Numbered(names)
    ensures forall i, j :: 0 <= i < j < |names| ==> names[i] != names[j]
  {
    forall i, j | 0 <= i < j < |names| ensures names[i] != names[j] {
      assert IsNumber(names[i], i + 1) && IsNumber(names[j], j + 1);
      if PartName(i + 1) == PartName(j + 1) { PartNameInjective(i + 1, j + 1); }
    }
  }
}
