/** Snapshot timestamps: the suffix of a subvolume name, and its derived order. */
module Timestamps {
  import opened Prelude
  import opened Order
  import opened Decimals

  /** Position of the last underscore among the first `n` characters. */
  function LastUnderscore(s: string, n: nat): (r: Option<nat>)
    requires n <= |s|
    ensures r.Some? ==> r.value < n && s[r.value] == '_' && forall i :: r.value < i < n ==> s[i] != '_'
    ensures r.None? ==> forall i :: 0 <= i < n ==> s[i] != '_'
  {
    if n == 0 then None
    else if s[n - 1] == '_' then Some(n - 1)
    else LastUnderscore(s, n - 1)
  }

  /**
   * A snapshot suffix. The source keeps the two parsed parts in fields beside `raw`; parsing makes
   * them functions of `raw`, so here they are the functions `Date` and `SeqNo`.
   */
  datatype Suffix = Suffix(raw: string) {
    /** Where the `_N` part starts, when the text after the last underscore is a number. */
    function SeqStart(): (r: Option<nat>)
      ensures r.Some? ==> r.value < |raw|
    {
      match LastUnderscore(raw, |raw|)
      case None => None
      case Some(pos) => if raw[pos + 1..] != "" && AllDigits(raw[pos + 1..]) then Some(pos) else None
    }

    /** The part before the sequence number. */
    function Date(): string {
      if SeqStart().Some? then raw[..SeqStart().value] else raw
    }

    /** The sequence number with its underscore. */
    function SeqNo(): Option<string> {
      if SeqStart().Some? then Some("_" + raw[SeqStart().value + 1..]) else None
    }
  }

  type Timestamp = s: Suffix | s.raw != "" witness Suffix("0")

  function Parse(suffix: string): Option<Timestamp> {
    if suffix == "" then None else Some(Suffix(suffix))
  }

  function StampKey(t: Timestamp): string { t.raw }

  /** Parsing fails only on the empty suffix and loses nothing; a split-off part is an underscore and a number. */
  lemma ParseKeepsAll(suffix: string)
    ensures Parse(suffix).None? <==> suffix == ""
    ensures Parse(suffix).Some? ==>
      var t := Parse(suffix).value;
      && t.raw == suffix == t.Date() + (if t.SeqNo().Some? then t.SeqNo().value else "")
      && (t.SeqNo().Some? ==>
            exists digits: string :: digits != "" && AllDigits(digits) && t.SeqNo().value == "_" + digits)
  {
    if suffix != "" && Suffix(suffix).SeqStart().Some? {
      var pos := Suffix(suffix).SeqStart().value;
      assert suffix == suffix[..pos] + ([suffix[pos]] + suffix[pos + 1..]);
      assert "_" == [suffix[pos]];
    }
  }

  /** A number after an underscore at the end is split off, whatever comes before; so the split is unique. */
  lemma ParseFindsNumber(head: string, digits: string)
    requires digits != "" && AllDigits(digits)
    ensures Parse(head + "_" + digits).Some?
    ensures Parse(head + "_" + digits).value.Date() == head
    ensures Parse(head + "_" + digits).value.SeqNo() == Some("_" + digits)
  {
    var suffix, pos := head + "_" + digits, |head|;
    assert suffix[pos] == '_' && suffix[pos + 1..] == digits && suffix[..pos] == head;
    forall i | pos < i < |suffix| ensures suffix[i] != '_' {
      assert suffix[i] == digits[i - pos - 1];
    }
    assert LastUnderscore(suffix, |suffix|) == Some(pos);
  }

  lemma DateWithoutNumber(t: Timestamp)
    requires '_' !in t.raw
    ensures t.Date() == t.raw
  {
  }

  /** The derived order: by `raw`, then by date part, then by sequence number (none first). */
  predicate DerivedLess(a: Timestamp, b: Timestamp) {
    || Less(a.raw, b.raw)
    || (a.raw == b.raw && Less(a.Date(), b.Date()))
    || (a.raw == b.raw && a.Date() == b.Date() && b.SeqNo().Some?
        && (a.SeqNo().None? || Less(a.SeqNo().value, b.SeqNo().value)))
  }

  /** The derived order is string order on the raw suffix, and raw equality is equality. */
  lemma DerivedOrderIsRawOrder(a: Timestamp, b: Timestamp)
    ensures DerivedLess(a, b) <==> Less(a.raw, b.raw)
    ensures a.raw == b.raw <==> a == b
  {
    LessIrreflexive(a.Date());
    if a.SeqNo().Some? { LessIrreflexive(a.SeqNo().value); }
  }

  /** A snapshot with a sequence number comes after the one of the same date without. */
  lemma NumberedComesLater(t: Timestamp)
    requires t.SeqNo().Some?
    ensures Less(t.Date(), t.raw)
  {
    ParseKeepsAll(t.raw);
    PrefixFirst(t.Date(), t.SeqNo().value);
  }

  /** The snapshots of one source volume: sorted when constructed. */
  class Series {
    const origName: string
    const snapshots: seq<Timestamp>

    constructor (origName: string, snapshots: seq<Timestamp>)
      ensures this.origName == origName
      ensures this.snapshots == SortBy(StampKey, snapshots)
      ensures multiset(this.snapshots) == multiset(snapshots) && Ordered(StampKey, this.snapshots)
      ensures DistinctKeys(StampKey, snapshots) ==> Ascending(StampKey, this.snapshots)
    {
      this.origName := origName;
      this.snapshots := SortBy(StampKey, snapshots);
      SortIsStable(StampKey, snapshots);
      if DistinctKeys(StampKey, snapshots) { SortAscending(StampKey, snapshots); }
    }
  }
}
