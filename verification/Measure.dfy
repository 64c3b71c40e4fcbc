/** Measuring a stream: the encoder writes into a sink that counts bytes and keeps none. */
module Measure {
  import opened Prelude
  import opened Chunks

  class CountingWriter {
    var count: nat
    ghost var taken: Bytes

    constructor ()
      ensures Valid() && taken == []
    {
      count, taken := 0, [];
    }

    ghost predicate Valid()
      reads this
    {
      count == |taken|
    }

    /** Takes everything. */
    method Write(buf: Bytes) returns (n: nat)
      requires Valid()
      modifies this
      ensures Valid() && n == |buf| && taken == old(taken) + buf
    {
      count := count + |buf|;
      taken := taken + buf;
      return |buf|;
    }
  }

  datatype MeasureResult = MeasureResult(uncompressed: nat, compressed: nat)

  /** The encoder hands its next `len` bytes to the counting sink. */
  method CountNext(writer: CountingWriter, payload: Bytes, sent: nat, len: nat) returns (sent': nat)
    requires writer.Valid() && sent <= |payload| && writer.taken == payload[..sent]
    modifies writer
    ensures writer.Valid() && sent <= sent' <= |payload| && writer.taken == payload[..sent']
    ensures len > 0 && sent < |payload| ==> sent < sent'
  {
    var end := if sent + len <= |payload| then sent + len else |payload|;
    var n := writer.Write(payload[sent..end]);
    assert payload[..sent] + payload[sent..end] == payload[..end];
    return sent + n;
  }

  /**
   * Feeds the raw stream to the encoder, whose output `payload` is counted only. Succeeds once no pull
   * fails and the stream and the output are through; then both counts are exact.
   */
  method MeasureSubvolume(stream: seq<Bytes>, payload: Bytes, events: seq<IoEvent>) returns (r: Result<MeasureResult>)
    ensures r.Ok? ==> r.value == MeasureResult(|Concat(stream)|, |payload|)
    ensures PullsWork(events) && Enough(events, |stream|, |payload|) ==> r.Ok?
    ensures !PullsWork(events) ==> r.Err?
  {
    var uncompressed: nat := 0;
    var pulled: nat, sent: nat := 0, 0;
    var writer := new CountingWriter();
    for e := 0 to |events|
      invariant fresh(writer) && writer.Valid() && sent <= |payload| && writer.taken == payload[..sent]
      invariant pulled <= |stream| && uncompressed == |Concat(stream[..pulled])|
      invariant pulled < |stream| ==> Pulls(events[..e]) <= pulled
      invariant sent < |payload| ==> Offers(events[..e]) <= sent
      invariant PullsWork(events[..e])
    {
      CountsMore(events, e);
      match events[e]
      case Pull =>
        if pulled < |stream| {
          uncompressed := uncompressed + |stream[pulled]|;
          assert stream[..pulled + 1][..pulled] == stream[..pulled];
          pulled := pulled + 1;
        }
      case PullFails =>
        return Err(IoError);
      case Offer(len, _) =>
        sent := CountNext(writer, payload, sent, len);
    }
    assert stream[..|stream|] == stream && events[..|events|] == events && payload[..|payload|] == payload;
    if pulled < |stream| || sent < |payload| { return Err(IoError); }
    return Ok(MeasureResult(uncompressed, writer.count));
  }
}
