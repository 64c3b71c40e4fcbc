/** The chunk objects of an archive as one continuous stream. */
module ChunkReader {
  import opened Prelude
  import opened Timestamps
  import opened Archives
  import opened Storage
  import opened Chunks

  datatype Cursor = Cursor(data: Bytes, pos: nat)

  lemma SplitRead(a: Bytes, b: Bytes)
    ensures forall n :: 0 <= n <= |a| ==> (a + b)[..n] == a[..n] && (a + b)[n..] == a[n..] + b
  {
  }

  class ChunkStreamReader {
    const dest: Destination
    const snapshot: string
    const chunkFilenames: seq<string>
    var currentIdx: nat
    var currentCursor: Option<Cursor>

    constructor (dest: Destination, archive: VolumeArchive)
      ensures this.dest == dest && this.snapshot == archive.timestamp.raw
      ensures this.chunkFilenames == Filenames(archive.chunks)
      ensures Valid() && Unopened() == Filenames(archive.chunks)
      ensures Remaining() == Stored(dest.objects, archive.timestamp.raw, Filenames(archive.chunks))
    {
      this.dest, this.snapshot := dest, archive.timestamp.raw;
      this.chunkFilenames := Filenames(archive.chunks);
      currentIdx, currentCursor := 0, None;
    }

    ghost predicate Valid()
      reads this
    {
      && currentIdx <= |chunkFilenames|
      && (currentCursor.Some? ==> currentCursor.value.pos <= |currentCursor.value.data|)
    }

    /** Bytes of the current chunk not handed out yet. */
    ghost function Unread(): Bytes
      reads this
      requires Valid()
    {
      if currentCursor.Some? then currentCursor.value.data[currentCursor.value.pos..] else []
    }

    ghost function Unopened(): seq<string>
      reads this
      requires Valid()
    {
      chunkFilenames[currentIdx..]
    }

    /** What is still to be read, up to the first chunk object that is missing. */
    ghost function Remaining(): Bytes
      reads this, dest
      requires Valid()
    {
      Unread() + Stored(dest.objects, snapshot, Unopened())
    }

    method LoadNextChunk() returns (r: Result<bool>)
      requires Valid()
      modifies this
      ensures Valid()
      ensures old(Unopened()) == [] ==>
        r == Ok(false) && currentCursor == old(currentCursor) && currentIdx == old(currentIdx)
      ensures old(Unopened()) != [] ==>
        var path := ObjectPath(snapshot, old(Unopened())[0]);
        if path in dest.objects then
          r == Ok(true) && Unread() == dest.objects[path] && Unopened() == old(Unopened())[1..]
        else
          r.Err? && currentCursor == old(currentCursor) && currentIdx == old(currentIdx)
    {
      if currentIdx >= |chunkFilenames| { return Ok(false); }
      var path := ObjectPath(snapshot, chunkFilenames[currentIdx]);
      if path !in dest.objects { return Err(IoError); }
      currentCursor := Some(Cursor(dest.objects[path], 0));
      currentIdx := currentIdx + 1;
      return Ok(true);
    }

    /** Copies as much of the current chunk as fits; nothing when there is no chunk or it is used up. */
    method ReadCursor(buf: array<byte>) returns (n: nat)
      requires Valid()
      modifies this`currentCursor, buf
      ensures Valid()
      ensures n == if buf.Length <= |old(Unread())| then buf.Length else |old(Unread())|
      ensures buf[..n] == old(Unread())[..n] && buf[n..] == old(buf[n..])
      ensures Unread() == old(Unread())[n..]
    {
      if currentCursor.None? { return 0; }
      var Cursor(data, pos) := currentCursor.value;
      n := if buf.Length <= |data| - pos then buf.Length else |data| - pos;
      for i := 0 to n
        invariant forall j :: 0 <= j < i ==> buf[j] == data[pos + j]
        invariant forall j :: i <= j < buf.Length ==> buf[j] == old(buf[j])
      {
        buf[i] := data[pos + i];
      }
      currentCursor := Some(Cursor(data, pos + n));
    }

    /** Empty reads reach the end of the chunk list: only the chunk opened last is still there. */
    ghost function LastOpened(): Bytes
      reads this, dest
      requires Valid() && Present(dest.objects, snapshot, Unopened())
    {
      if Unopened() == [] then Unread()
      else dest.objects[ObjectPath(snapshot, Unopened()[|Unopened()| - 1])]
    }

    /**
     * Reads into `buf`. A non-empty buffer gets the next bytes of the stream, and nothing only at its
     * end; a missing chunk is an error once everything before it was read. An empty buffer makes the
     * loop open chunk after chunk, so everything but the last chunk is dropped.
     */
    method Read(buf: array<byte>) returns (r: Result<nat>)
      requires Valid()
      modifies this, buf
      ensures Valid()
      ensures r.Err? <==>
        !Present(dest.objects, snapshot, old(Unopened())) && (buf.Length == 0 || old(Remaining()) == [])
      ensures buf.Length > 0 && r.Ok? ==>
        && r.value <= buf.Length && r.value <= |old(Remaining())|
        && (r.value == 0 <==> old(Remaining()) == [])
        && buf[..r.value] == old(Remaining())[..r.value]
        && buf[r.value..] == old(buf[r.value..])
        && Remaining() == old(Remaining())[r.value..]
        && (Present(dest.objects, snapshot, Unopened()) <==> Present(dest.objects, snapshot, old(Unopened())))
      ensures buf.Length == 0 && r.Ok? ==>
        r.value == 0 && Unopened() == [] && Unread() == old(LastOpened())
    {
      while true
        invariant Valid()
        invariant buf[..] == old(buf[..])
        invariant Present(dest.objects, snapshot, Unopened()) <==> Present(dest.objects, snapshot, old(Unopened()))
        invariant buf.Length > 0 ==> Remaining() == old(Remaining())
        invariant buf.Length == 0 && Present(dest.objects, snapshot, Unopened()) ==> LastOpened() == old(LastOpened())
        decreases |chunkFilenames| - currentIdx
      {
        ghost var unread, names := Unread(), Unopened();
        SplitRead(unread, Stored(dest.objects, snapshot, names));
        var n := ReadCursor(buf);
        if n > 0 {
          assert buf[n..] == old(buf[..])[n..];
          return Ok(n);
        }
        PresentStep(names);
        var more := LoadNextChunk();
        if more.Err? { return Err(IoError); }
        if !more.value { return Ok(0); }
      }
    }

    lemma PresentStep(names: seq<string>)
      ensures names == [] ==> Present(dest.objects, snapshot, names)
      ensures names != [] ==> (Present(dest.objects, snapshot, names) <==>
        ObjectPath(snapshot, names[0]) in dest.objects && Present(dest.objects, snapshot, names[1..]))
    {
      if names != [] && ObjectPath(snapshot, names[0]) in dest.objects && Present(dest.objects, snapshot, names[1..]) {
        forall i | 0 <= i < |names| ensures ObjectPath(snapshot, names[i]) in dest.objects {
          if i > 0 { assert names[i] == names[1..][i - 1]; }
        }
      }
      if names != [] && Present(dest.objects, snapshot, names) {
        assert forall i :: 0 <= i < |names| - 1 ==> names[1..][i] == names[i + 1];
      }
    }
  }

  /** Reads until the stream reports its end, with buffers of `extra(i) + 1` bytes. */
  method ReadToEnd(reader: ChunkStreamReader, extra: nat -> nat) returns (r: Result<Bytes>)
    requires reader.Valid()
    modifies reader
    ensures r.Ok? <==> Present(reader.dest.objects, reader.snapshot, old(reader.Unopened()))
    ensures r.Ok? ==> r.value == old(reader.Remaining())
  {
    hide Present, Stored, ChunkStreamReader.Valid, ChunkStreamReader.Unopened, ChunkStreamReader.Remaining;
    var all: Bytes := [];
    var i: nat := 0;
    while true
      invariant reader.Valid()
      invariant all + reader.Remaining() == old(reader.Remaining())
      invariant Present(reader.dest.objects, reader.snapshot, reader.Unopened())
           <==> Present(reader.dest.objects, reader.snapshot, old(reader.Unopened()))
      decreases |reader.Remaining()|
    {
      ghost var rest := reader.Remaining();
      var buf := new byte[extra(i) + 1](_ => 0);
      var n := reader.Read(buf);
      if n.Err? { return Err(IoError); }
      if n.value == 0 { return Ok(all); }
      assert rest == rest[..n.value] + rest[n.value..];
      all := all + buf[..n.value];
      i := i + 1;
    }
  }

  /** The whole stream of an archive. */
  method ReadArchive(dest: Destination, archive: VolumeArchive, extra: nat -> nat) returns (r: Result<Bytes>)
    ensures r.Ok? <==> Present(dest.objects, archive.timestamp.raw, Filenames(archive.chunks))
    ensures r.Ok? ==> r.value == Stored(dest.objects, archive.timestamp.raw, Filenames(archive.chunks))
  {
    var reader := new ChunkStreamReader(dest, archive);
    r := ReadToEnd(reader, extra);
  }

  function TakenOf(buf: Bytes, accepts: Option<nat>): Bytes {
    if accepts.None? then [] else buf[..if accepts.value <= |buf| then accepts.value else |buf|]
  }

  /** What the sink took of each buffer, in order. */
  function Taken(writes: seq<(Bytes, Sink)>): Bytes {
    if |writes| == 0 then []
    else Taken(writes[..|writes| - 1]) + TakenOf(writes[|writes| - 1].0, writes[|writes| - 1].1.accepts)
  }

  lemma TakenMore(writes: seq<(Bytes, Sink)>, k: nat)
    requires k < |writes|
    ensures Taken(writes[..k + 1]) == Taken(writes[..k]) + TakenOf(writes[k].0, writes[k].1.accepts)
  {
    assert writes[..k + 1][..k] == writes[..k];
  }

  /** Passes one buffer to the writer. */
  method WriteNext(writer: ChunkedWriter, writes: seq<(Bytes, Sink)>, k: nat) returns (ok: bool)
    requires writer.Valid() && writer.Logged() && k < |writes| && writer.Accepted() == Taken(writes[..k])
    modifies writer, writer.dest`objects, writer.dest`created
    ensures writer.Logged()
    ensures ok ==> writes[k].1.accepts.Some? && writer.Valid() && writer.Accepted() == Taken(writes[..k + 1])
    ensures writes[k].1.closes && writes[k].1.opens && writes[k].1.accepts.Some? ==> ok
  {
    hide ChunkedWriter.Valid, ChunkedWriter.Logged, Joined, Taken;
    var written := writer.Write(writes[k].0, writes[k].1);
    TakenMore(writes, k);
    return written.Ok?;
  }

  lemma TakenNothing(writes: seq<(Bytes, Sink)>)
    ensures Taken(writes[..0]) == []
  {
  }

  /** Feeds every buffer to a new writer and finishes it. */
  method WriteBuffers(dest: Destination, snapshot: string, maxChunkBytes: nat, writes: seq<(Bytes, Sink)>, closes: bool)
    returns (r: Result<seq<ChunkFilename>>)
    modifies dest`objects, dest`created
    ensures SameOutside(old(dest.objects), dest.objects, snapshot)
    ensures r.Ok? ==> forall w :: w in writes ==> w.1.accepts.Some?
    ensures r.Ok? ==>
      && Present(dest.objects, snapshot, Filenames(r.value))
      && Stored(dest.objects, snapshot, Filenames(r.value)) == Taken(writes)
    ensures closes && (forall w :: w in writes ==> w.1.closes && w.1.opens && w.1.accepts.Some?) ==> r.Ok?
  {
    hide ChunkedWriter.Valid, Taken, Describes, SizesBounded, Stored, Present, SameBut, SameOutside;
    var rawCounter := new Counter();
    var writer := new ChunkedWriter(dest, snapshot, maxChunkBytes, rawCounter);
    assert writer.Accepted() == Taken(writes[..0]) by { TakenNothing(writes); }
    for k := 0 to |writes|
      invariant writer.Valid() && writer.Logged() && writer.Accepted() == Taken(writes[..k])
      invariant forall w :: w in writes[..k] ==> w.1.accepts.Some?
    {
      var ok := WriteNext(writer, writes, k);
      if !ok {
        SameButIsOutside(writer.objectsBefore, dest.objects, snapshot, writer.names);
        return Err(IoError);
      }
    }
    assert writes[..|writes|] == writes;
    r := writer.Finish(closes);
    SameButIsOutside(writer.objectsBefore, dest.objects, snapshot, writer.names);
    if r.Ok? { WrittenReadsBack(r.value, writer.parts, dest.objects, snapshot); }
  }

  /**
   * Writing any buffers, each taken as far as the sink likes, and reading the listed chunks back with
   * any non-empty buffers gives exactly the bytes that were taken.
   */
  method SplitThenReadBack(dest: Destination, timestamp: Timestamp, maxChunkBytes: nat,
                           writes: seq<(Bytes, Sink)>, closes: bool, extra: nat -> nat)
    returns (r: Result<Bytes>)
    modifies dest`objects, dest`created
    ensures SameOutside(old(dest.objects), dest.objects, timestamp.raw)
    ensures r.Ok? ==> r.value == Taken(writes) && forall w :: w in writes ==> w.1.accepts.Some?
    ensures closes && (forall w :: w in writes ==> w.1.closes && w.1.opens && w.1.accepts.Some?) ==> r.Ok?
  {
    var chunks := WriteBuffers(dest, timestamp.raw, maxChunkBytes, writes, closes);
    if chunks.Err? { return Err(IoError); }
    r := ReadArchive(dest, VolumeArchive(timestamp, None, chunks.value), extra);
  }
}
