/** Splitting a compressed stream into numbered chunk objects, and reading them back as one stream. */
module Chunks {
  import opened Prelude
  import opened Archives
  import opened Storage

  /** A counter shared between the stream source and the writer. */
  class Counter {
    var value: nat
    constructor () ensures value == 0 { value := 0; }
  }

  /**
   * What the backend does during one write: whether closing the full chunk and opening the next one
   * work, and how many bytes the sink takes (none: the write fails).
   */
  datatype Sink = Sink(closes: bool, opens: bool, accepts: Option<nat>)

  /** A finished part: its name and bytes, the raw bytes counted while it was open, and the size of its last write. */
  datatype Part = Part(name: string, content: Bytes, raw: nat, lastWrite: nat)

  /** The bytes of all parts, one after the other. */
  function Joined(parts: seq<Part>): Bytes {
    if |parts| == 0 then [] else Joined(parts[..|parts| - 1]) + parts[|parts| - 1].content
  }

  function RawTotal(parts: seq<Part>): nat {
    if |parts| == 0 then 0 else RawTotal(parts[..|parts| - 1]) + parts[|parts| - 1].raw
  }

  /** The cast to 32 bits keeps the low bits. */
  function AsU32(n: nat): nat
  {
    if n < 0x1_0000_0000 then n else AsU32(n - 0x1_0000_0000)
  }

  /** What that cast does. */
  lemma {:induction false} AsU32IsModulo(n: nat)
    ensures AsU32(n) == n % 0x1_0000_0000
  {
    if n >= 0x1_0000_0000 { AsU32IsModulo(n - 0x1_0000_0000); }
  }

  /** The metadata entry of a part; the size is cut to 32 bits. */
  function ChunkEntry(part: Part): ChunkFilename {
    ChunkFilename(part.name, AsU32(|part.content|), Some("zstd"), Some(part.raw), Some(Sha256(part.content)))
  }

  /** The part is stored under its name and described by the entry. */
  ghost predicate IsStored(chunk: ChunkFilename, part: Part, objects: Objects, snapshot: string) {
    && chunk == ChunkEntry(part)
    && ObjectPath(snapshot, part.name) in objects
    && objects[ObjectPath(snapshot, part.name)] == part.content
  }

  ghost predicate Describes(chunks: seq<ChunkFilename>, parts: seq<Part>, objects: Objects, snapshot: string) {
    && |chunks| == |parts|
    && forall i {:trigger IsStored(chunks[i], parts[i], objects, snapshot)} :: 0 <= i < |parts| ==>
         IsStored(chunks[i], parts[i], objects, snapshot)
  }

  /** Writing another object disturbs no finished part. */
  lemma DescribesFrame(chunks: seq<ChunkFilename>, parts: seq<Part>, objects: Objects, snapshot: string, name: string,
                       data: Bytes)
    requires Describes(chunks, parts, objects, snapshot)
    requires forall i :: 0 <= i < |parts| ==> parts[i].name != name
    ensures Describes(chunks, parts, objects[ObjectPath(snapshot, name) := data], snapshot)
  {
    var after := objects[ObjectPath(snapshot, name) := data];
    forall i {:trigger parts[i]} | 0 <= i < |parts| ensures IsStored(chunks[i], parts[i], after, snapshot) {
      assert IsStored(chunks[i], parts[i], objects, snapshot);
    }
  }

  /** Finishing one more part. */
  lemma DescribesOneMore(chunks: seq<ChunkFilename>, parts: seq<Part>, objects: Objects, snapshot: string, part: Part)
    requires Describes(chunks, parts, objects, snapshot)
    requires IsStored(ChunkEntry(part), part, objects, snapshot)
    ensures Describes(chunks + [ChunkEntry(part)], parts + [part], objects, snapshot)
  {
  }

  lemma OneMorePart(parts: seq<Part>, part: Part)
    ensures RawTotal(parts + [part]) == RawTotal(parts) + part.raw
    ensures Joined(parts + [part]) == Joined(parts) + part.content
  {
    assert (parts + [part])[..|parts|] == parts;
  }

  lemma AppendAssociates(a: Bytes, b: Bytes, c: Bytes)
    ensures a + (b + c) == a + b + c
  {
  }

  /** A part is rolled only once it is full, and never grows past the limit by more than its last write. */
  ghost predicate SizesBounded(parts: seq<Part>, limit: nat) {
    && (forall i :: 0 <= i < |parts| - 1 ==> |parts[i].content| >= limit)
    && (forall i :: 0 <= i < |parts| ==> limit > 0 ==> |parts[i].content| < limit + parts[i].lastWrite)
  }

  ghost predicate LastWrites(parts: seq<Part>, n: nat) {
    forall i :: 0 <= i < |parts| ==> parts[i].lastWrite <= n
  }

  /** The finished parts are numbered, stored, described, bounded and accounted for. */
  ghost predicate Finished(chunks: seq<ChunkFilename>, parts: seq<Part>, names: seq<string>, objects: Objects,
                           snapshot: string, limit: nat, raw: nat) {
    && Describes(chunks, parts, objects, snapshot)
    && SizesBounded(parts, limit)
    && RawTotal(parts) == raw
    && |parts| <= |names| && Numbered(names)
    && (forall i :: 0 <= i < |parts| ==> parts[i].name == names[i])
  }

  /** Recording one more stored part with this entry. */
  lemma FinishedOneMore(chunks: seq<ChunkFilename>, parts: seq<Part>, names: seq<string>, objects: Objects,
                        snapshot: string, limit: nat, raw: nat, part: Part, entry: ChunkFilename)
    returns (parts': seq<Part>)
    requires Finished(chunks, parts, names, objects, snapshot, limit, raw)
    requires IsStored(entry, part, objects, snapshot)
    requires |parts| < |names| && part.name == names[|parts|]
    requires parts != [] ==> |parts[|parts| - 1].content| >= limit
    requires limit > 0 ==> |part.content| < limit + part.lastWrite
    ensures Finished(chunks + [entry], parts', names, objects, snapshot, limit, raw + part.raw)
    ensures |parts'| == |parts| + 1 && parts'[..|parts|] == parts && parts'[|parts|] == part
    ensures Joined(parts') == Joined(parts) + part.content
  {
    parts' := parts + [part];
    DescribesOneMore(chunks, parts, objects, snapshot, part);
    OneMorePart(parts, part);
  }

  /** Creating the next numbered object disturbs no finished part. */
  lemma NextName(chunks: seq<ChunkFilename>, parts: seq<Part>, names: seq<string>, objects: Objects,
                 snapshot: string, limit: nat, raw: nat, name: string)
    returns (names': seq<string>)
    requires Finished(chunks, parts, names, objects, snapshot, limit, raw) && IsNumber(name, |names| + 1)
    ensures |names'| == |names| + 1 && names'[|names|] == name && names'[..|names|] == names
    ensures Finished(chunks, parts, names', objects[ObjectPath(snapshot, name) := []], snapshot, limit, raw)
  {
    names' := names + [name];
    forall i {:trigger names'[i]} | 0 <= i < |names'| ensures IsNumber(names'[i], i + 1) {
      if i < |names| { assert IsNumber(names[i], i + 1); }
    }
    NumberedDistinct(names');
    assert forall i :: 0 <= i < |parts| ==> parts[i].name == names'[i] != names'[|names|];
    DescribesFrame(chunks, parts, objects, snapshot, name, []);
  }

  /** One more finished part, with this content and last write. */
  ghost predicate ClosedOne(before: seq<Part>, after: seq<Part>, content: Bytes, lastWrite: nat) {
    && |after| == |before| + 1 && after[..|before|] == before
    && after[|before|].content == content && after[|before|].lastWrite == lastWrite
  }

  /** Opening one more named object adds it to the names under which objects may differ. */
  lemma OpenedOneMore(before: Objects, objects: Objects, snapshot: string, names: seq<string>, names': seq<string>,
                      name: string)
    requires SameBut(before, objects, snapshot, names) && Present(objects, snapshot, names)
    requires |names'| == |names| + 1 && names'[|names|] == name && names'[..|names|] == names
    ensures SameBut(before, objects[ObjectPath(snapshot, name) := []], snapshot, names')
    ensures Present(objects[ObjectPath(snapshot, name) := []], snapshot, names')
    ensures Paths(snapshot, names') == Paths(snapshot, names) + [ObjectPath(snapshot, name)]
  {
    assert forall n :: n in names' <==> n in names || n == name;
  }

  class ChunkedWriter {
    const dest: Destination
    const snapshot: string
    const maxChunkBytes: nat
    const rawCounter: Counter
    var currentFile: Option<string>
    var currentFilename: string
    var currentSize: nat
    var partNumber: nat
    var writtenChunks: seq<ChunkFilename>
    var currentHasher: Bytes
    var rawAtLastRoll: nat
    ghost var parts: seq<Part>
    ghost var names: seq<string>
    ghost var lastWrite: nat
    ghost const createdBefore: seq<ObjectPath>
    ghost const objectsBefore: Objects

    constructor (dest: Destination, snapshot: string, maxChunkBytes: nat, rawCounter: Counter)
      ensures this.dest == dest && this.snapshot == snapshot && this.maxChunkBytes == maxChunkBytes
      ensures this.rawCounter == rawCounter
      ensures createdBefore == dest.created && objectsBefore == dest.objects
      ensures Valid() && Logged() && Accepted() == [] && parts == [] && currentFile.None? && WritesWithin(0)
    {
      this.dest, this.snapshot, this.maxChunkBytes, this.rawCounter := dest, snapshot, maxChunkBytes, rawCounter;
      currentFile, currentFilename, currentSize, partNumber := None, "", 0, 0;
      writtenChunks, currentHasher, rawAtLastRoll := [], [], 0;
      parts, names, lastWrite := [], [], 0;
      createdBefore, objectsBefore := dest.created, dest.objects;
    }

    ghost predicate PartsValid()
      reads this, dest, rawCounter
    {
      && Finished(writtenChunks, parts, names, dest.objects, snapshot, maxChunkBytes, rawAtLastRoll)
      && rawAtLastRoll <= rawCounter.value
      && |names| == partNumber
    }

    ghost predicate Valid()
      reads this, dest, rawCounter
    {
      && PartsValid()
      && partNumber == |parts| + (if currentFile.Some? then 1 else 0)
      && (currentFile.None? ==> parts == [])
      && (currentFile.Some? ==>
            && (parts != [] ==> |parts[|parts| - 1].content| >= maxChunkBytes)
            && currentFile.value == currentFilename == names[|parts|]
            && ObjectPath(snapshot, currentFilename) in dest.objects
            && dest.objects[ObjectPath(snapshot, currentFilename)] == currentHasher
            && |currentHasher| == currentSize
            && (maxChunkBytes > 0 ==> currentSize < maxChunkBytes + lastWrite))
    }

    /**
     * Whatever failed so far: the objects created since this writer was made are the numbered parts
     * from one on; they are there, and no other object differs.
     */
    ghost predicate Logged()
      reads this, dest
    {
      && Numbered(names)
      && dest.created == createdBefore + Paths(snapshot, names)
      && SameBut(objectsBefore, dest.objects, snapshot, names)
      && Present(dest.objects, snapshot, names)
    }

    /** No write so far was longer than `n`. */
    ghost predicate WritesWithin(n: nat)
      reads this
    {
      lastWrite <= n && LastWrites(parts, n)
    }

    /** Every byte the writer has reported as written, in order. */
    ghost function Accepted(): Bytes
      reads this
    {
      Joined(parts) + (if currentFile.Some? then currentHasher else [])
    }

    /** A write rolls when no chunk is open or the open one is full. */
    predicate Rolls()
      reads this
    {
      currentFile.None? || currentSize >= maxChunkBytes
    }

    /** Create or truncate the chunk object. */
    method OpenNextChunk(filename: string, opens: bool) returns (ok: bool)
      modifies dest`objects, dest`created
      ensures ok == opens
      ensures dest.objects ==
        if opens then old(dest.objects)[ObjectPath(snapshot, filename) := []] else old(dest.objects)
      ensures dest.created == old(dest.created) + if opens then [ObjectPath(snapshot, filename)] else []
    {
      if opens {
        dest.objects := dest.objects[ObjectPath(snapshot, filename) := []];
        dest.created := dest.created + [ObjectPath(snapshot, filename)];
      }
      return opens;
    }

    /** Appends the entry of the open chunk and starts the hash and the raw count afresh. */
    method RecordCurrent()
      requires Valid() && currentFile.Some?
      modifies this`writtenChunks, this`currentHasher, this`rawAtLastRoll, this`parts
      ensures PartsValid() && partNumber == |parts|
      ensures Joined(parts) == old(Accepted())
      ensures ClosedOne(old(parts), parts, old(currentHasher), lastWrite)
      ensures rawAtLastRoll == rawCounter.value && |writtenChunks| == |old(writtenChunks)| + 1
      ensures writtenChunks[..|old(writtenChunks)|] == old(writtenChunks)
      ensures writtenChunks[|old(writtenChunks)|]
           == ChunkFilename(currentFilename, currentSize % 0x1_0000_0000, Some("zstd"),
                            Some(rawCounter.value - old(rawAtLastRoll)), Some(Sha256(old(currentHasher))))
    {
      AsU32IsModulo(currentSize);
      var sha256sum := Sha256(currentHasher);
      var rawSize := rawCounter.value - rawAtLastRoll;
      var entry := ChunkFilename(currentFilename, AsU32(currentSize), Some("zstd"), Some(rawSize), Some(sha256sum));
      ghost var part := Part(currentFilename, currentHasher, rawSize, lastWrite);
      ghost var parts' := FinishedOneMore(writtenChunks, parts, names, dest.objects, snapshot, maxChunkBytes,
                                          rawAtLastRoll, part, entry);
      currentHasher := [];
      rawAtLastRoll := rawCounter.value;
      writtenChunks := writtenChunks + [entry];
      parts := parts';
    }

    /** Records the open chunk, if there is one, and closes it. */
    method FinalizeCurrent(closes: bool) returns (ok: bool)
      requires Valid()
      modifies this`writtenChunks, this`currentHasher, this`rawAtLastRoll, this`parts, this`currentFile
      ensures ok <==> old(currentFile).None? || closes
      ensures ok ==> PartsValid() && currentFile.None? && partNumber == |parts|
      ensures ok ==> Joined(parts) == old(Accepted())
      ensures ok && old(currentFile).None? ==> parts == []
      ensures ok && old(currentFile).Some? ==>
        ClosedOne(old(parts), parts, old(currentHasher), lastWrite) && rawAtLastRoll == rawCounter.value
    {
      if currentFile.Some? {
        if !closes { return false; }
        RecordCurrent();
      }
      currentFile := None;
      return true;
    }

    /** Starts writing to the object just created. */
    method StartPart(filename: string, ghost names': seq<string>)
      requires Finished(writtenChunks, parts, names', dest.objects, snapshot, maxChunkBytes, rawAtLastRoll)
      requires rawAtLastRoll <= rawCounter.value && currentFile.None?
      requires |names'| == partNumber == |parts| + 1 && names'[|parts|] == filename
      requires parts != [] ==> |parts[|parts| - 1].content| >= maxChunkBytes
      requires ObjectPath(snapshot, filename) in dest.objects && dest.objects[ObjectPath(snapshot, filename)] == []
      modifies this`currentFile, this`currentFilename, this`currentSize, this`currentHasher, this`lastWrite, this`names
      ensures Valid() && currentFile.Some? && currentHasher == [] && lastWrite == 0 && names == names'
    {
      hide Finished;
      currentFile := Some(filename);
      currentFilename := filename;
      currentSize := 0;
      currentHasher := [];
      lastWrite := 0;
      names := names';
    }

    /** Opens the next numbered chunk as the current one. */
    method OpenPart(opens: bool) returns (ok: bool)
      requires PartsValid() && Logged() && currentFile.None? && partNumber == |parts|
      requires parts != [] ==> |parts[|parts| - 1].content| >= maxChunkBytes
      modifies this`currentFile, this`currentFilename, this`currentSize, this`currentHasher, this`lastWrite,
        this`names, this`partNumber, dest`objects, dest`created
      ensures ok == opens
      ensures Logged() && SameOutside(old(dest.objects), dest.objects, snapshot)
      ensures ok ==> Valid() && currentFile.Some? && currentHasher == [] && lastWrite == 0
    {
      hide Finished, PartName, ChunkedWriter.Valid, SameBut, Paths, Numbered, Present;
      var filename := PartName(partNumber + 1);
      assert IsNumber(filename, |names| + 1);
      ghost var names' := NextName(writtenChunks, parts, names, dest.objects, snapshot, maxChunkBytes, rawAtLastRoll,
                                   filename);
      OpenedOneMore(objectsBefore, dest.objects, snapshot, names, names', filename);
      partNumber := partNumber + 1;
      ok := OpenNextChunk(filename, opens);
      if ok { StartPart(filename, names'); }
    }

    method RollNext(closes: bool, opens: bool) returns (ok: bool)
      requires Valid() && Logged()
      requires currentFile.Some? ==> currentSize >= maxChunkBytes
      modifies this, dest`objects, dest`created
      ensures ok <==> (old(currentFile).None? || closes) && opens
      ensures Logged() && SameOutside(old(dest.objects), dest.objects, snapshot)
      ensures ok ==>
        Valid() && Accepted() == old(Accepted()) && currentFile.Some? && currentHasher == [] && lastWrite == 0
      ensures ok && old(currentFile).None? ==> parts == []
      ensures ok && old(currentFile).Some? ==> ClosedOne(old(parts), parts, old(currentHasher), old(lastWrite))
    {
      ok := FinalizeCurrent(closes);
      if !ok { return; }
      ok := OpenPart(opens);
      assert Joined(parts) + [] == Joined(parts);
    }

    /** Passes the buffer to the open chunk, which takes a prefix of it. */
    method Append(buf: Bytes, written: nat)
      requires Valid() && Logged() && currentFile.Some? && written <= |buf|
      requires currentSize == 0 || currentSize < maxChunkBytes
      modifies this`currentHasher, this`currentSize, this`lastWrite, dest`objects
      ensures Valid() && Logged() && SameOutside(old(dest.objects), dest.objects, snapshot)
      ensures lastWrite == written && currentHasher == old(currentHasher) + buf[..written]
      ensures Accepted() == old(Accepted()) + buf[..written]
    {
      hide Paths, Numbered, Joined, Describes;
      ghost var before, hashed := dest.objects, currentHasher;
      var path := ObjectPath(snapshot, currentFile.value);
      dest.objects := dest.objects[path := dest.objects[path] + buf[..written]];
      currentHasher := currentHasher + buf[..written];
      currentSize := currentSize + written;
      lastWrite := written;
      NumberedDistinct(names);
      DescribesFrame(writtenChunks, parts, before, snapshot, currentFilename, currentHasher);
      AppendAssociates(Joined(parts), hashed, buf[..written]);
    }

    /** Rolls to a new chunk when none is open or the open one is full. */
    method EnsureOpen(closes: bool, opens: bool) returns (ok: bool)
      requires Valid() && Logged()
      modifies this, dest`objects, dest`created
      ensures ok <==> (old(Rolls()) ==> (old(currentFile).None? || closes) && opens)
      ensures Logged() && SameOutside(old(dest.objects), dest.objects, snapshot)
      ensures ok ==> Valid() && Accepted() == old(Accepted())
      ensures ok ==> currentFile.Some? && (currentSize == 0 || currentSize < maxChunkBytes)
      ensures ok && (old(currentFile).None? || !old(Rolls())) ==> parts == old(parts)
      ensures ok && old(currentFile).Some? && old(Rolls()) ==>
        ClosedOne(old(parts), parts, old(currentHasher), old(lastWrite))
      ensures ok ==> currentHasher == if old(Rolls()) then [] else old(currentHasher)
    {
      ok := true;
      if Rolls() { ok := RollNext(closes, opens); }
    }

    /**
     * One write: rolls to a new chunk when none is open or the open one is full, then passes the buffer
     * on. A roll finishes the open chunk as it was left by the write before.
     */
    method Write(buf: Bytes, sink: Sink) returns (r: Result<nat>)
      requires Valid() && Logged()
      modifies this, dest`objects, dest`created
      ensures Logged() && SameOutside(old(dest.objects), dest.objects, snapshot)
      ensures r.Err? <==>
        (old(Rolls()) && ((old(currentFile).Some? && !sink.closes) || !sink.opens)) || sink.accepts.None?
      ensures r.Ok? ==>
        && Valid() && currentFile.Some?
        && r.value == (if sink.accepts.value <= |buf| then sink.accepts.value else |buf|)
        && Accepted() == old(Accepted()) + buf[..r.value]
        && currentHasher == (if old(Rolls()) then [] else old(currentHasher)) + buf[..r.value]
        && lastWrite == r.value
      ensures r.Ok? && (old(currentFile).None? || !old(Rolls())) ==> parts == old(parts)
      ensures r.Ok? && old(currentFile).Some? && old(Rolls()) ==>
        ClosedOne(old(parts), parts, old(currentHasher), old(lastWrite))
      ensures sink.closes && sink.opens && sink.accepts.None? ==> Valid() && Accepted() == old(Accepted())
    {
      hide ChunkedWriter.Accepted, ChunkedWriter.Logged, ChunkedWriter.Valid, ClosedOne;
      var ok := EnsureOpen(sink.closes, sink.opens);
      if !ok { return Err(IoError); }
      if sink.accepts.None? { return Err(IoError); }
      var written := if sink.accepts.value <= |buf| then sink.accepts.value else |buf|;
      Append(buf, written);
      return Ok(written);
    }

    /** Finishes the open chunk and hands out one entry for every part that was opened. */
    method Finish(closes: bool) returns (r: Result<seq<ChunkFilename>>)
      requires Valid() && Logged()
      modifies this`writtenChunks, this`currentHasher, this`rawAtLastRoll, this`parts, this`currentFile
      ensures Logged()
      ensures r.Ok? <==> old(currentFile).None? || closes
      ensures r.Ok? ==>
        && Describes(r.value, parts, dest.objects, snapshot)
        && SizesBounded(parts, maxChunkBytes)
        && Joined(parts) == old(Accepted())
        && Filenames(r.value) == names && |r.value| == |names| == partNumber
      ensures r.Ok? && old(currentFile).None? ==> parts == []
      ensures r.Ok? && old(currentFile).Some? ==>
        ClosedOne(old(parts), parts, old(currentHasher), lastWrite) && RawTotal(parts) == rawCounter.value
    {
      var ok := FinalizeCurrent(closes);
      if !ok { return Err(IoError); }
      assert forall i :: 0 <= i < |parts| ==> IsStored(writtenChunks[i], parts[i], dest.objects, snapshot);
      assert Filenames(writtenChunks) == names;
      return Ok(writtenChunks);
    }
  }

  // ---------------------------------------------------------------- sizes

  /** With the validated limit of 2048 MiB and writes of at most 2^31 bytes, no recorded size loses a bit. */
  lemma NoSizeTruncated(parts: seq<Part>, limitMib: nat, i: nat)
    requires 1 <= limitMib <= 2048 && SizesBounded(parts, limitMib * 1024 * 1024)
    requires i < |parts| && parts[i].lastWrite <= 0x8000_0000
    ensures ChunkEntry(parts[i]).size == |parts[i].content|
  {
  }

  lemma {:induction false} JoinedLength(parts: seq<Part>, chunks: seq<ChunkFilename>)
    requires |chunks| == |parts|
    requires forall i :: 0 <= i < |parts| ==> chunks[i].size == |parts[i].content|
    ensures SizeOf(chunks) == |Joined(parts)|
    decreases |parts|
  {
    if |parts| > 0 {
      JoinedLength(parts[..|parts| - 1], chunks[..|chunks| - 1]);
    }
  }

  /** Then the recorded sizes add up to exactly the bytes that were written. */
  lemma SizesExact(chunks: seq<ChunkFilename>, parts: seq<Part>, objects: Objects, snapshot: string, limitMib: nat)
    requires Describes(chunks, parts, objects, snapshot)
    requires 1 <= limitMib <= 2048 && SizesBounded(parts, limitMib * 1024 * 1024)
    requires LastWrites(parts, 0x8000_0000)
    ensures SizeOf(chunks) == |Joined(parts)|
  {
    forall i | 0 <= i < |parts| ensures chunks[i].size == |parts[i].content| {
      assert IsStored(chunks[i], parts[i], objects, snapshot);
      NoSizeTruncated(parts, limitMib, i);
    }
    JoinedLength(parts, chunks);
  }

  lemma {:induction false} RawSizesSum(parts: seq<Part>, chunks: seq<ChunkFilename>)
    requires |chunks| == |parts|
    requires forall i :: 0 <= i < |parts| ==> chunks[i].rawSize == Some(parts[i].raw)
    ensures RawSizeOf(chunks) == Some(RawTotal(parts))
    decreases |parts|
  {
    if |parts| > 0 {
      RawSizesSum(parts[..|parts| - 1], chunks[..|chunks| - 1]);
    }
  }

  lemma {:induction false} StoredIsJoined(chunks: seq<ChunkFilename>, parts: seq<Part>, objects: Objects,
                                          snapshot: string, k: nat)
    requires Describes(chunks, parts, objects, snapshot) && k <= |parts|
    ensures Present(objects, snapshot, Filenames(chunks)[k..])
    ensures Joined(parts) == Joined(parts[..k]) + Stored(objects, snapshot, Filenames(chunks)[k..])
    decreases |parts| - k
  {
    var names := Filenames(chunks);
    if k == |parts| {
      assert parts[..k] == parts && names[k..] == [];
    } else {
      StoredIsJoined(chunks, parts, objects, snapshot, k + 1);
      assert IsStored(chunks[k], parts[k], objects, snapshot);
      assert parts[..k + 1][..k] == parts[..k];
      assert names[k..][0] == names[k] && names[k..][1..] == names[k + 1..];
      assert names[k..] == [names[k]] + names[k + 1..];
      AppendAssociates(Joined(parts[..k]), parts[k].content, Stored(objects, snapshot, names[k + 1..]));
    }
  }

  // ---------------------------------------------------------------- one snapshot

  /**
   * One thing that happens while a snapshot is written: the next piece of the raw stream is pulled, or
   * pulling it fails, or the encoder offers the next bytes of its output to the writer.
   */
  datatype IoEvent = Pull | PullFails | Offer(len: nat, sink: Sink)

  /** The encoder never offers more than `n` bytes at once. */
  ghost predicate OffersWithin(events: seq<IoEvent>, n: nat) {
    forall e :: 0 <= e < |events| && events[e].Offer? ==> events[e].len <= n
  }

  function Pulls(events: seq<IoEvent>): nat {
    if |events| == 0 then 0 else Pulls(events[..|events| - 1]) + (if events[|events| - 1].Pull? then 1 else 0)
  }

  /** How often the encoder offers something. */
  function Offers(events: seq<IoEvent>): nat {
    if |events| == 0 then 0
    else Offers(events[..|events| - 1]) + (if events[|events| - 1].Offer? && events[|events| - 1].len > 0 then 1 else 0)
  }

  lemma CountsMore(events: seq<IoEvent>, e: nat)
    requires e < |events|
    ensures Pulls(events[..e + 1]) == Pulls(events[..e]) + (if events[e].Pull? then 1 else 0)
    ensures Offers(events[..e + 1]) == Offers(events[..e]) + (if events[e].Offer? && events[e].len > 0 then 1 else 0)
  {
    assert events[..e + 1][..e] == events[..e];
  }

  /** Closing and opening work, and the sink takes something. */
  predicate SinkWorks(sink: Sink) {
    sink.closes && sink.opens && sink.accepts.Some? && sink.accepts.value > 0
  }

  /** No pull fails. */
  ghost predicate PullsWork(events: seq<IoEvent>) {
    forall e :: 0 <= e < |events| ==> !events[e].PullFails?
  }

  ghost predicate SinksWork(events: seq<IoEvent>) {
    forall e :: 0 <= e < |events| && events[e].Offer? ==> SinkWorks(events[e].sink)
  }

  /** There are enough pulls for the pieces of the stream and enough offers for the encoder output. */
  predicate Enough(events: seq<IoEvent>, pieces: nat, payload: nat) {
    Pulls(events) >= pieces && Offers(events) >= payload
  }

  /** Any stream and any encoder output can get through without a failure. */
  lemma {:induction false} CanGetThrough(pieces: nat, payload: nat) returns (events: seq<IoEvent>)
    ensures PullsWork(events) && SinksWork(events) && OffersWithin(events, 1) && Enough(events, pieces, payload)
    decreases pieces + payload
  {
    if pieces == 0 && payload == 0 {
      events := [];
    } else {
      var next := if pieces > 0 then Pull else Offer(1, Sink(true, true, Some(1)));
      var before := CanGetThrough(if pieces > 0 then pieces - 1 else 0, if pieces > 0 then payload else payload - 1);
      events := before + [next];
      CountsMore(events, |before|);
      assert events[..|before|] == before && events[..|before| + 1] == events;
    }
  }

  /** Every object but the last holds at least `limit` bytes. */
  ghost predicate FullButLast(objects: Objects, snapshot: string, names: seq<string>, limit: nat)
    requires Present(objects, snapshot, names)
  {
    forall i :: 0 <= i < |names| - 1 ==> |objects[ObjectPath(snapshot, names[i])]| >= limit
  }

  ghost predicate AllShorter(objects: Objects, snapshot: string, names: seq<string>, bound: nat)
    requires Present(objects, snapshot, names)
  {
    forall i :: 0 <= i < |names| ==> |objects[ObjectPath(snapshot, names[i])]| < bound
  }

  /** The contents of the parts are the contents of the listed objects. */
  lemma ObjectContents(chunks: seq<ChunkFilename>, parts: seq<Part>, objects: Objects, snapshot: string)
    requires Describes(chunks, parts, objects, snapshot) && Present(objects, snapshot, Filenames(chunks))
    ensures forall i :: 0 <= i < |parts| ==> objects[ObjectPath(snapshot, Filenames(chunks)[i])] == parts[i].content
  {
    forall i | 0 <= i < |parts| ensures objects[ObjectPath(snapshot, Filenames(chunks)[i])] == parts[i].content {
      assert IsStored(chunks[i], parts[i], objects, snapshot);
    }
  }

  lemma EntriesRecord(chunks: seq<ChunkFilename>, parts: seq<Part>, objects: Objects, snapshot: string)
    requires Describes(chunks, parts, objects, snapshot)
    ensures Recorded(objects, snapshot, chunks)
  {
    forall i | 0 <= i < |chunks| ensures IsRecorded(objects, snapshot, chunks[i]) {
      assert IsStored(chunks[i], parts[i], objects, snapshot);
      AsU32IsModulo(|parts[i].content|);
    }
  }

  lemma ObjectsFull(chunks: seq<ChunkFilename>, parts: seq<Part>, objects: Objects, snapshot: string, limit: nat)
    requires Describes(chunks, parts, objects, snapshot) && SizesBounded(parts, limit)
    requires Present(objects, snapshot, Filenames(chunks))
    ensures FullButLast(objects, snapshot, Filenames(chunks), limit)
  {
    ObjectContents(chunks, parts, objects, snapshot);
  }

  /** No object is longer than the limit by a whole write. */
  lemma ObjectsShorter(chunks: seq<ChunkFilename>, parts: seq<Part>, objects: Objects, snapshot: string, limit: nat,
                       n: nat)
    requires Describes(chunks, parts, objects, snapshot) && SizesBounded(parts, limit)
    requires Present(objects, snapshot, Filenames(chunks))
    requires limit > 0 && LastWrites(parts, n)
    ensures AllShorter(objects, snapshot, Filenames(chunks), limit + n)
  {
    ObjectContents(chunks, parts, objects, snapshot);
  }

  /** What the entries name reads back as the parts, and their raw sizes add up. */
  lemma WrittenReadsBack(chunks: seq<ChunkFilename>, parts: seq<Part>, objects: Objects, snapshot: string)
    requires Describes(chunks, parts, objects, snapshot)
    ensures Present(objects, snapshot, Filenames(chunks))
    ensures Stored(objects, snapshot, Filenames(chunks)) == Joined(parts)
    ensures RawSizeOf(chunks) == Some(RawTotal(parts))
  {
    StoredIsJoined(chunks, parts, objects, snapshot, 0);
    assert Filenames(chunks)[0..] == Filenames(chunks) && parts[..0] == [];
    forall i | 0 <= i < |parts| ensures chunks[i].rawSize == Some(parts[i].raw) {
      assert IsStored(chunks[i], parts[i], objects, snapshot);
    }
    RawSizesSum(parts, chunks);
  }

  /** What holds between two events: the accepted bytes are those sent so far. */
  ghost predicate Feeding(writer: ChunkedWriter, payload: Bytes, sent: nat)
    reads writer, writer.dest, writer.rawCounter
  {
    writer.Valid() && writer.Logged() && sent <= |payload| && writer.Accepted() == payload[..sent]
  }

  lemma PrefixGrows(b: Bytes, i: nat, j: nat, k: nat)
    requires i <= j <= |b| && k <= j - i
    ensures b[..i] + b[i..j][..k] == b[..i + k]
  {
  }

  /** The encoder offers its next `len` bytes and drops what the writer took; taking nothing is an error. */
  method OfferNext(writer: ChunkedWriter, payload: Bytes, sent: nat, len: nat, sink: Sink) returns (r: Result<nat>)
    requires Feeding(writer, payload, sent)
    modifies writer, writer.dest`objects, writer.dest`created
    ensures writer.Logged()
    ensures r.Ok? ==> Feeding(writer, payload, r.value) && sent <= r.value
    ensures r.Ok? && len > 0 && sent < |payload| ==> sent < r.value
    ensures SinkWorks(sink) ==> r.Ok?
    ensures r.Ok? ==> forall n :: old(writer.WritesWithin(n)) && len <= n ==> writer.WritesWithin(n)
  {
    hide ChunkedWriter.Valid, ChunkedWriter.Logged, Joined;
    var end := if sent + len <= |payload| then sent + len else |payload|;
    if sent == end { return Ok(sent); }
    var written := writer.Write(payload[sent..end], sink);
    if written.Err? || written.value == 0 { return Err(IoError); }
    PrefixGrows(payload, sent, end, written.value);
    return Ok(sent + written.value);
  }

  /** The raw bytes are counted when a piece of the stream is pulled. */
  method PullNext(writer: ChunkedWriter, stream: seq<Bytes>, pulled: nat, ghost payload: Bytes, ghost sent: nat)
    requires pulled < |stream| && writer.rawCounter.value == |Concat(stream[..pulled])|
    requires Feeding(writer, payload, sent)
    modifies writer.rawCounter
    ensures writer.rawCounter.value == |Concat(stream[..pulled + 1])| && Feeding(writer, payload, sent)
  {
    writer.rawCounter.value := writer.rawCounter.value + |stream[pulled]|;
    assert stream[..pulled + 1][..pulled] == stream[..pulled];
  }

  /** Lets the events happen in order; stops at the first error. */
  method FeedEvents(writer: ChunkedWriter, stream: seq<Bytes>, payload: Bytes, events: seq<IoEvent>) returns (ok: bool)
    requires Feeding(writer, payload, 0) && writer.rawCounter.value == 0
    modifies writer, writer.rawCounter, writer.dest`objects, writer.dest`created
    ensures writer.Logged()
    ensures ok ==> Feeding(writer, payload, |payload|) && writer.rawCounter.value == |Concat(stream)|
    ensures PullsWork(events) && SinksWork(events) && Enough(events, |stream|, |payload|) ==> ok
    ensures ok ==> forall n :: old(writer.WritesWithin(n)) && OffersWithin(events, n) ==> writer.WritesWithin(n)
  {
    hide ChunkedWriter.Valid, ChunkedWriter.Logged, ChunkedWriter.WritesWithin, SinkWorks;
    var pulled: nat, sent: nat := 0, 0;
    for e := 0 to |events|
      invariant Feeding(writer, payload, sent) && writer.Logged()
      invariant pulled <= |stream| && writer.rawCounter.value == |Concat(stream[..pulled])|
      invariant pulled < |stream| ==> Pulls(events[..e]) <= pulled
      invariant sent < |payload| ==> Offers(events[..e]) <= sent
      invariant forall n :: old(writer.WritesWithin(n)) && OffersWithin(events, n) ==> writer.WritesWithin(n)
    {
      CountsMore(events, e);
      match events[e]
      case Pull =>
        if pulled < |stream| {
          PullNext(writer, stream, pulled, payload, sent);
          pulled := pulled + 1;
        }
      case PullFails =>
        return false;
      case Offer(len, sink) =>
        var next := OfferNext(writer, payload, sent, len, sink);
        if next.Err? { return false; }
        sent := next.value;
    }
    assert stream[..|stream|] == stream && events[..|events|] == events;
    return pulled == |stream| && sent == |payload|;
  }

  /**
   * Writes the encoder output `payload` for the raw `stream`. The events say how the run unfolds; if
   * they end early the run was cut off there. However it ends, the objects created are the numbered
   * parts `names` and nothing else differs; when it succeeds exactly these are listed.
   */
  method WriteSubvolume(dest: Destination, snapshot: string, maxChunkSizeMib: nat, stream: seq<Bytes>,
                        payload: Bytes, events: seq<IoEvent>, closes: bool)
    returns (r: Result<seq<ChunkFilename>>, ghost names: seq<string>, ghost parts: seq<Part>)
    modifies dest`objects, dest`created
    ensures Numbered(names)
    ensures dest.created == old(dest.created) + Paths(snapshot, names)
    ensures SameBut(old(dest.objects), dest.objects, snapshot, names) && Present(dest.objects, snapshot, names)
    ensures PullsWork(events) && SinksWork(events) && closes && Enough(events, |stream|, |payload|) ==> r.Ok?
    ensures r.Ok? ==>
      && Filenames(r.value) == names
      && Describes(r.value, parts, dest.objects, snapshot) && Joined(parts) == payload
      && Stored(dest.objects, snapshot, names) == payload
      && Recorded(dest.objects, snapshot, r.value)
      && FullButLast(dest.objects, snapshot, names, maxChunkSizeMib * 1024 * 1024)
      && (r.value != [] ==> RawSizeOf(r.value) == Some(|Concat(stream)|))
    ensures r.Ok? && maxChunkSizeMib > 0 ==> forall n: nat :: OffersWithin(events, n) ==>
      AllShorter(dest.objects, snapshot, names, maxChunkSizeMib * 1024 * 1024 + n)
    ensures r.Ok? && 1 <= maxChunkSizeMib <= 2048 && OffersWithin(events, 0x8000_0000) ==> SizeOf(r.value) == |payload|
  {
    hide Numbered, Paths, SameBut, ChunkedWriter.Valid, Enough, Joined, Describes, SizesBounded, Present, Recorded;
    var rawCounter := new Counter();
    var limit := maxChunkSizeMib * 1024 * 1024;
    var writer := new ChunkedWriter(dest, snapshot, limit, rawCounter);
    var ok := FeedEvents(writer, stream, payload, events);
    names, parts := writer.names, [];
    if !ok { return Err(IoError), names, parts; }
    r := writer.Finish(closes);
    parts := writer.parts;
    if r.Ok? {
      WrittenReadsBack(r.value, parts, dest.objects, snapshot);
      EntriesRecord(r.value, parts, dest.objects, snapshot);
      ObjectsFull(r.value, parts, dest.objects, snapshot, limit);
      forall n: nat | OffersWithin(events, n) && limit > 0
        ensures AllShorter(dest.objects, snapshot, names, limit + n)
      {
        ObjectsShorter(r.value, parts, dest.objects, snapshot, limit, n);
      }
      if 1 <= maxChunkSizeMib <= 2048 && OffersWithin(events, 0x8000_0000) {
        SizesExact(r.value, parts, dest.objects, snapshot, maxChunkSizeMib);
      }
    }
  }
}
