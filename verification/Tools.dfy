/**
 * The outside programs: btrfs send and receive, and zstd. They are functions given from outside; what
 * is used of them is stated as laws, and a small encoding below shows that the laws can be met.
 */
module Tools {
  import opened Prelude
  import opened Timestamps
  import opened Archives
  import opened Storage

  /** The content of a snapshot. */
  type Content = Bytes

  type Subvolumes = map<string, Content>

  datatype Programs = Programs(
    sendFull: (string, Content) -> Bytes,
    sendIncremental: (string, Content, string, Content) -> Bytes,
    receive: (Subvolumes, Bytes) -> Option<(string, Content)>,
    compress: Bytes -> Bytes,
    decompress: Bytes -> Option<Bytes>)
  {
    /** A full stream carries name and content; an incremental one does so for whoever holds the parent. */
    ghost predicate Lawful() {
      && (forall x :: decompress(compress(x)) == Some(x))
      && (forall root, n, c :: receive(root, sendFull(n, c)) == Some((n, c)))
      && (forall root: Subvolumes, n, c, p, pc ::
            p in root && root[p] == pc ==> receive(root, sendIncremental(n, c, p, pc)) == Some((n, c)))
    }

    /** An incremental stream is refused where the parent has other content, as btrfs does by its identity. */
    ghost predicate Discerning() {
      forall root: Subvolumes, n, c, p, pc ::
        p in root && root[p] != pc ==> receive(root, sendIncremental(n, c, p, pc)) == None
    }

    /** The stream sent for `name` against `parent`, when the snapshots have the given contents. */
    function Stream(name: string, parent: Option<string>, contents: Subvolumes): Bytes
      requires name in contents && (parent.Some? ==> parent.value in contents)
    {
      match parent
      case None => sendFull(name, contents[name])
      case Some(p) => sendIncremental(name, contents[name], p, contents[p])
    }
  }

  /** What a snapshot and, for an incremental, its parent contained on the source when it was sent. */
  datatype Sent = Sent(content: Content, base: Option<Content>)

  /** What was sent for every committed snapshot. */
  type History = map<string, Sent>

  /** The archive's chunks, recorded as they are, read back as the compressed stream of what was sent. */
  ghost predicate Carries(tools: Programs, objects: Objects, a: VolumeArchive, sent: Sent) {
    && sent.base.Some? == a.parent.Some?
    && Present(objects, a.timestamp.raw, Filenames(a.chunks))
    && Recorded(objects, a.timestamp.raw, a.chunks)
    && Stored(objects, a.timestamp.raw, Filenames(a.chunks)) == tools.compress(
         match a.parent
         case None => tools.sendFull(a.timestamp.raw, sent.content)
         case Some(p) => tools.sendIncremental(a.timestamp.raw, sent.content, p, sent.base.value))
  }

  ghost predicate Holds(tools: Programs, objects: Objects, sent: History, a: VolumeArchive) {
    a.timestamp.raw in sent && Carries(tools, objects, a, sent[a.timestamp.raw])
  }

  /** What one restored archive makes of a receive root, or nothing when it cannot be received. */
  ghost function Received(tools: Programs, objects: Objects, a: VolumeArchive, root: Subvolumes): Option<Subvolumes> {
    if !Present(objects, a.timestamp.raw, Filenames(a.chunks)) then None
    else
      var stream := tools.decompress(Stored(objects, a.timestamp.raw, Filenames(a.chunks)));
      if stream.None? then None
      else
        var subvolume := tools.receive(root, stream.value);
        if subvolume.None? then None else Some(root[subvolume.value.0 := subvolume.value.1])
  }

  /** A full archive, or one whose parent is in the root with the content it was sent against, adds its snapshot. */
  lemma ReceiveAdds(tools: Programs, objects: Objects, a: VolumeArchive, sent: Sent, root: Subvolumes)
    requires tools.Lawful() && Carries(tools, objects, a, sent)
    requires a.parent.Some? ==> a.parent.value in root && root[a.parent.value] == sent.base.value
    ensures Received(tools, objects, a, root) == Some(root[a.timestamp.raw := sent.content])
  {
  }

  /** An incremental archive can be received exactly where the parent has the content it was sent against. */
  lemma ParentMustAgree(tools: Programs, objects: Objects, a: VolumeArchive, sent: Sent, root: Subvolumes)
    requires tools.Lawful() && tools.Discerning() && Carries(tools, objects, a, sent)
    requires a.parent.Some? && a.parent.value in root
    ensures Received(tools, objects, a, root).Some? <==> root[a.parent.value] == sent.base.value
  {
    if root[a.parent.value] == sent.base.value { ReceiveAdds(tools, objects, a, sent, root); }
  }

  /** The chunks of an archive carry one parent content only. */
  lemma OneBase(tools: Programs, objects: Objects, a: VolumeArchive, x: Sent, y: Sent)
    requires tools.Lawful() && tools.Discerning() && Carries(tools, objects, a, x) && Carries(tools, objects, a, y)
    ensures x.base == y.base
  {
    if a.parent.Some? {
      var root: Subvolumes := map[a.parent.value := x.base.value];
      ParentMustAgree(tools, objects, a, x, root);
      ParentMustAgree(tools, objects, a, y, root);
    }
  }

  // ---------------------------------------------------------------- the laws can be met

  function EncodeName(s: string): Bytes {
    if |s| == 0 then [0]
    else
      var c := s[0] as int;
      [1, (c / 65536) as byte, (c / 256 % 256) as byte, (c % 256) as byte] + EncodeName(s[1..])
  }

  /** The encoded name at the front of `b`, and what follows it. */
  function DecodeName(b: Bytes): Option<(string, Bytes)> {
    if |b| == 0 then None
    else if b[0] == 0 then Some(("", b[1..]))
    else if |b| < 4 then None
    else
      var c := b[1] as int * 65536 + b[2] as int * 256 + b[3] as int;
      if !(c < 0xD800 || 0xE000 <= c < 0x11_0000) then None
      else
        var rest := DecodeName(b[4..]);
        if rest.None? then None else Some(([c as char] + rest.value.0, rest.value.1))
  }

  lemma CharRoundTrip(c: char)
    ensures var n := c as int;
      && n < 0x11_0000 && 0 <= n / 65536 < 256
      && n / 65536 * 65536 + n / 256 % 256 * 256 + n % 256 == n
  {
  }

  lemma {:induction false} NameRoundTrip(s: string, rest: Bytes)
    ensures DecodeName(EncodeName(s) + rest) == Some((s, rest))
    decreases |s|
  {
    var b := EncodeName(s) + rest;
    if |s| == 0 {
      assert b[1..] == rest;
    } else {
      NameRoundTrip(s[1..], rest);
      CharRoundTrip(s[0]);
      assert b[4..] == EncodeName(s[1..]) + rest;
      assert s == [s[0]] + s[1..];
    }
  }

  function EncodeBytes(b: Bytes): Bytes {
    if |b| == 0 then [0] else [1, b[0]] + EncodeBytes(b[1..])
  }

  /** The encoded bytes at the front of `b`, and what follows them. */
  function DecodeBytes(b: Bytes): Option<(Bytes, Bytes)> {
    if |b| == 0 then None
    else if b[0] == 0 then Some(([], b[1..]))
    else if |b| < 2 then None
    else
      var rest := DecodeBytes(b[2..]);
      if rest.None? then None else Some(([b[1]] + rest.value.0, rest.value.1))
  }

  lemma {:induction false} BytesRoundTrip(b: Bytes, rest: Bytes)
    ensures DecodeBytes(EncodeBytes(b) + rest) == Some((b, rest))
    decreases |b|
  {
    var e := EncodeBytes(b) + rest;
    if |b| == 0 {
      assert e[1..] == rest;
    } else {
      BytesRoundTrip(b[1..], rest);
      assert e[2..] == EncodeBytes(b[1..]) + rest;
      assert b == [b[0]] + b[1..];
    }
  }

  function PlainReceive(root: Subvolumes, b: Bytes): Option<(string, Content)> {
    if |b| == 0 then None
    else
      var name := DecodeName(b[1..]);
      if name.None? then None
      else if b[0] == 0 then name
      else
        var parent := DecodeName(name.value.1);
        if parent.None? then None
        else
          var content := DecodeBytes(parent.value.1);
          if content.None? || parent.value.0 !in root || root[parent.value.0] != content.value.0 then None
          else Some((name.value.0, content.value.1))
  }

  /** Streams that carry the whole content, and name and content of the parent when there is one. */
  const PLAIN_PROGRAMS := Programs(
    (n, c) => [0] + EncodeName(n) + c,
    (n, c, p, pc) => [1] + EncodeName(n) + EncodeName(p) + EncodeBytes(pc) + c,
    (root: Subvolumes, b) => PlainReceive(root, b),
    x => x,
    x => Some(x))

  lemma PlainIncremental(root: Subvolumes, n: string, c: Content, p: string, pc: Content)
    ensures PlainReceive(root, [1] + EncodeName(n) + EncodeName(p) + EncodeBytes(pc) + c)
         == if p in root && root[p] == pc then Some((n, c)) else None
  {
    hide EncodeName, DecodeName, EncodeBytes, DecodeBytes;
    var b := [1] + EncodeName(n) + EncodeName(p) + EncodeBytes(pc) + c;
    assert b[1..] == EncodeName(n) + (EncodeName(p) + (EncodeBytes(pc) + c));
    NameRoundTrip(n, EncodeName(p) + (EncodeBytes(pc) + c));
    NameRoundTrip(p, EncodeBytes(pc) + c);
    BytesRoundTrip(pc, c);
  }

  lemma LawsCanBeMet()
    ensures exists tools: Programs :: tools.Lawful() && tools.Discerning()
  {
    forall root: Subvolumes, n: string, c: Content
      ensures PLAIN_PROGRAMS.receive(root, PLAIN_PROGRAMS.sendFull(n, c)) == Some((n, c))
    {
      assert ([0] + EncodeName(n) + c)[1..] == EncodeName(n) + c;
      NameRoundTrip(n, c);
    }
    forall root: Subvolumes, n: string, c: Content, p: string, pc: Content
      ensures PLAIN_PROGRAMS.receive(root, PLAIN_PROGRAMS.sendIncremental(n, c, p, pc))
           == if p in root && root[p] == pc then Some((n, c)) else None
    {
      PlainIncremental(root, n, c, p, pc);
    }
    assert PLAIN_PROGRAMS.Lawful() && PLAIN_PROGRAMS.Discerning();
  }
}
