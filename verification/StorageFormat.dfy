/** The STNS snapshot (src/stn_storage.c): a count, length-prefixed blocks, a digest. */
module StorageFormat {
  import opened BigEndian
  import opened Status
  import opened Hashing
  import opened Layout
  import opened Sequences
  import Block
  import BlockLoops
  import opened Chain
  import opened Fork

  datatype StorageStatus =
    | ArgumentError | FormatError | ValidationError | UnresolvedHash | IoError | NotFound | Busy
    | OutOfCapacity | Exists | Stale | NotPreferred

  datatype Stored<+T> = Fine(value: T) | Bad(status: StorageStatus)

  const OVERHEAD: nat := 44
  const PREFIX: nat := 12
  const MIN_RECORD: nat := 172 // length word and a block header
  const MAGIC: seq<byte> := [0x53, 0x54, 0x4e, 0x53] // STNS
  const WIDTHS: seq<nat> := [4, 2, 2, 4]

  /** The chain below the store, under one context. */
  datatype Core = Core(
    rebuild: Rebuild,
    id: Identify,
    start: Outcome<ChainState>,
    recheck: (ChainState, seq<byte>) -> Report,
    digest: seq<byte> -> Outcome<Hash>,
    pow: bool)

  datatype View = View(blocks: seq<seq<byte>>, state: ChainState)

  function DigestOf(core: Core, b: seq<byte>): Stored<Hash> {
    match core.digest(b)
    case Ok(h) => Fine(h)
    case Err(e) => Bad(if e == Unresolved then UnresolvedHash else IoError)
  }

  /** `validate`. */
  function Accept(core: Core, blocks: seq<seq<byte>>): Stored<ChainState> {
    if blocks == [] || !core.pow then Bad(ArgumentError)
    else
      match core.rebuild(blocks)
      case Accepted(s) => Fine(s)
      case Failed(r, d) => Bad(if AcceptanceOf(Failed(r, d)) == UnresolvedYet then UnresolvedHash else ValidationError)
  }

  predicate Sized(b: seq<byte>) { Block.HEADER_SIZE <= |b| <= Block.MAX_SIZE }

  ghost predicate AllSized(blocks: seq<seq<byte>>) { forall i :: 0 <= i < |blocks| ==> Sized(blocks[i]) }

  // ------------------------------------------------------------------------ encoding

  function Head(n: nat): seq<byte> { Join([MAGIC, Bytes(2, 1), Bytes(2, 0), Bytes(4, n)]) }

  /** Everything the digest covers. */
  function Framed(blocks: seq<seq<byte>>): seq<byte> { Head(|blocks|) + Block.BodyBytes(blocks) }

  /** stn_storage_encode. */
  function Encode(core: Core, blocks: seq<seq<byte>>, capacity: nat): Stored<seq<byte>> {
    if |blocks| >= 0x1_0000_0000 then Bad(OutOfCapacity)
    else if Accept(core, blocks).Bad? then Bad(Accept(core, blocks).status)
    else if OVERHEAD + |Block.BodyBytes(blocks)| > capacity then Bad(OutOfCapacity)
    else
      match DigestOf(core, Framed(blocks))
      case Bad(e) => Bad(e)
      case Fine(h) => Fine(Framed(blocks) + h)
  }

  // ------------------------------------------------------------------------ decoding

  /** Length-prefixed blocks that fill the bytes exactly. */
  function Spans(b: seq<byte>, count: nat): Option<seq<seq<byte>>>
    decreases count
  {
    if count == 0 then if b == [] then Some([]) else None
    else if |b| < 4 then None
    else
      var n := Value(b[..4]);
      if n < Block.HEADER_SIZE || n > Block.MAX_SIZE || n > |b| - 4 then None
      else
        match Spans(b[4 + n..], count - 1)
        case None => None
        case Some(rest) => Some([b[4..4 + n]] + rest)
  }

  predicate GoodHead(p: seq<byte>)
    requires |p| >= PREFIX
  {
    var f := Cut(p[..PREFIX], WIDTHS);
    f[0] == MAGIC && Value(f[1]) == 1 && Value(f[2]) == 0
  }

  function CountIn(p: seq<byte>): nat
    requires |p| >= PREFIX
  {
    Value(Cut(p[..PREFIX], WIDTHS)[3])
  }

  /** The framing part of stn_storage_decode. */
  function Unframe(p: seq<byte>): Option<seq<seq<byte>>> {
    if |p| < OVERHEAD || !GoodHead(p) then None
    else
      var count := CountIn(p);
      if count == 0 || count > (|p| - OVERHEAD) / MIN_RECORD then None
      else Spans(p[PREFIX..|p| - 32], count)
  }

  function Decode(core: Core, p: seq<byte>): Stored<View> {
    match Unframe(p)
    case None => Bad(FormatError)
    case Some(blocks) =>
      match DigestOf(core, p[..|p| - 32])
      case Bad(e) => Bad(e)
      case Fine(h) =>
        if h != p[|p| - 32..] then Bad(FormatError)
        else
          match Accept(core, blocks)
          case Bad(e) => Bad(e)
          case Fine(s) => Fine(View(blocks, s))
  }

  // --------------------------------------------------------------------- round trips

  lemma {:induction false} SpansOfBytes(blocks: seq<seq<byte>>)
    requires AllSized(blocks)
    ensures Spans(Block.BodyBytes(blocks), |blocks|) == Some(blocks)
  {
    if blocks != [] {
      var n := |blocks[0]|;
      var b := Block.BodyBytes(blocks);
      PowTable();
      Field(4, n);
      Slices(Bytes(4, n), blocks[0], Block.BodyBytes(blocks[1..]));
      SpansOfBytes(blocks[1..]);
      assert [blocks[0]] + blocks[1..] == blocks;
    }
  }

  lemma {:induction false} BytesOfSpans(b: seq<byte>, count: nat)
    requires Spans(b, count).Some?
    ensures var blocks := Spans(b, count).value;
      |blocks| == count && AllSized(blocks) && Block.BodyBytes(blocks) == b
    decreases count
  {
    if count > 0 {
      var n := Value(b[..4]);
      var rest := Spans(b[4 + n..], count - 1).value;
      BytesOfSpans(b[4 + n..], count - 1);
      Block.Joined(b, n, rest);
      ConsSized(b[4..4 + n], rest);
    }
  }

  lemma ConsSized(b: seq<byte>, rest: seq<seq<byte>>)
    requires Sized(b) && AllSized(rest)
    ensures AllSized([b] + rest)
  {
  }

  lemma {:induction false} RecordsAreLong(blocks: seq<seq<byte>>)
    requires AllSized(blocks)
    ensures |blocks| * MIN_RECORD <= |Block.BodyBytes(blocks)|
  {
    if blocks != [] { RecordsAreLong(blocks[1..]); }
  }

  lemma HeadReads(n: nat)
    requires n < 0x1_0000_0000
    ensures |Head(n)| == PREFIX
    ensures Cut(Head(n), WIDTHS) == [MAGIC, Bytes(2, 1), Bytes(2, 0), Bytes(4, n)]
    ensures Value(Bytes(2, 1)) == 1 && Value(Bytes(2, 0)) == 0 && Value(Bytes(4, n)) == n
  {
    PowTable();
    CutOfJoin([MAGIC, Bytes(2, 1), Bytes(2, 0), Bytes(4, n)], WIDTHS);
    Field(2, 1);
    Field(2, 0);
    Field(4, n);
  }

  lemma HeadWrites(p: seq<byte>)
    requires |p| >= PREFIX && GoodHead(p)
    ensures CountIn(p) < 0x1_0000_0000 && Head(CountIn(p)) == p[..PREFIX]
  {
    var f := Cut(p[..PREFIX], WIDTHS);
    PowTable();
    ValueBound(f[3]);
    BytesOfValue(f[1]);
    BytesOfValue(f[2]);
    BytesOfValue(f[3]);
    JoinOfCut(p[..PREFIX], WIDTHS);
    assert f == [f[0], f[1], f[2], f[3]];
  }

  /** Unframing inverts framing, whatever digest stands behind. */
  lemma UnframeFramed(blocks: seq<seq<byte>>, h: Hash)
    requires AllSized(blocks) && 0 < |blocks| < 0x1_0000_0000
    ensures Unframe(Framed(blocks) + h) == Some(blocks)
  {
    var p := Framed(blocks) + h;
    HeadReads(|blocks|);
    RecordsAreLong(blocks);
    SpansOfBytes(blocks);
    assert p[..PREFIX] == Head(|blocks|);
    assert p[PREFIX..|p| - 32] == Block.BodyBytes(blocks);
    CountFits(|blocks|, |Block.BodyBytes(blocks)|);
  }

  lemma CountFits(n: nat, size: nat)
    requires n * MIN_RECORD <= size
    ensures n <= size / MIN_RECORD
  {
  }

  lemma FramedUnframe(p: seq<byte>)
    requires Unframe(p).Some?
    ensures var blocks := Unframe(p).value;
      && |p| >= OVERHEAD && AllSized(blocks) && 0 < |blocks| < 0x1_0000_0000
      && Framed(blocks) == p[..|p| - 32]
  {
    HeadWrites(p);
    BytesOfSpans(p[PREFIX..|p| - 32], CountIn(p));
    assert p[..PREFIX] + p[PREFIX..|p| - 32] == p[..|p| - 32];
  }

  /** A snapshot decodes to the history it was encoded from, with that history's state. */
  lemma DecodeEncode(core: Core, blocks: seq<seq<byte>>, capacity: nat)
    requires Encode(core, blocks, capacity).Fine? && AllSized(blocks)
    ensures Decode(core, Encode(core, blocks, capacity).value) == Fine(View(blocks, Accept(core, blocks).value))
  {
    var h := DigestOf(core, Framed(blocks)).value;
    var p := Framed(blocks) + h;
    UnframeFramed(blocks, h);
    assert p[..|p| - 32] == Framed(blocks) && p[|p| - 32..] == h;
  }

  /** Only canonical bytes decode: encoding the decoded history gives them back. */
  lemma EncodeDecode(core: Core, p: seq<byte>, capacity: nat)
    requires Decode(core, p).Fine? && capacity >= |p|
    ensures Encode(core, Decode(core, p).value.blocks, capacity) == Fine(p)
    ensures AllSized(Decode(core, p).value.blocks)
  {
    FramedUnframe(p);
    var blocks := Unframe(p).value;
    FramedSize(blocks);
    Cutting(p, |p| - 32);
    EncodeIs(core, blocks, capacity, p[|p| - 32..]);
  }

  lemma FramedSize(blocks: seq<seq<byte>>)
    requires |blocks| < 0x1_0000_0000
    ensures |Framed(blocks)| == PREFIX + |Block.BodyBytes(blocks)|
  {
    HeadReads(|blocks|);
  }

  lemma Cutting(p: seq<byte>, at: nat)
    requires at <= |p|
    ensures p[..at] + p[at..] == p
  {
  }

  lemma EncodeIs(core: Core, blocks: seq<seq<byte>>, capacity: nat, h: seq<byte>)
    requires |blocks| < 0x1_0000_0000 && Accept(core, blocks).Fine?
    requires OVERHEAD + |Block.BodyBytes(blocks)| <= capacity && DigestOf(core, Framed(blocks)) == Fine(h)
    ensures Encode(core, blocks, capacity) == Fine(Framed(blocks) + h)
  {
  }

  // ---------------------------------------------------------------------- fast append

  /** What stn_storage_extend writes: the old bytes with a patched count, one more record,
      a new digest. */
  function Spliced(p: seq<byte>, n: nat, block: seq<byte>): seq<byte>
    requires |p| >= OVERHEAD
  {
    p[..8] + Bytes(4, n) + p[PREFIX..|p| - 32] + Bytes(4, |block|) + block
  }

  lemma HeadPatched(p: seq<byte>, n: nat)
    requires |p| >= PREFIX && GoodHead(p)
    ensures p[..8] + Bytes(4, n) == Head(n)
  {
    HeadWrites(p);
    var k := CountIn(p);
    assert Head(k)[..8] == (MAGIC + Bytes(2, 1) + Bytes(2, 0)) by { HeadParts(k); }
    assert p[..8] == p[..PREFIX][..8];
    HeadParts(n);
  }

  lemma HeadParts(n: nat)
    ensures Head(n) == (MAGIC + Bytes(2, 1) + Bytes(2, 0)) + Bytes(4, n)
    ensures |MAGIC + Bytes(2, 1) + Bytes(2, 0)| == 8
  {
    var f := [MAGIC, Bytes(2, 1), Bytes(2, 0), Bytes(4, n)];
    assert f[1..] == [Bytes(2, 1), Bytes(2, 0), Bytes(4, n)];
    assert f[1..][1..] == [Bytes(2, 0), Bytes(4, n)];
    assert f[1..][1..][1..] == [Bytes(4, n)] && [Bytes(4, n)][1..] == [];
    assert Join([Bytes(4, n)]) == Bytes(4, n);
    assert Join(f[1..]) == Bytes(2, 1) + (Bytes(2, 0) + Bytes(4, n));
    assert Join(f) == MAGIC + (Bytes(2, 1) + (Bytes(2, 0) + Bytes(4, n)));
  }

  /** The spliced bytes are the full encoding of the longer history. */
  lemma SpliceIsFraming(p: seq<byte>, block: seq<byte>)
    requires Unframe(p).Some?
    ensures |p| >= OVERHEAD
    ensures Spliced(p, |Unframe(p).value| + 1, block) == Framed(Unframe(p).value + [block])
  {
    var blocks := Unframe(p).value;
    FramedUnframe(p);
    HeadPatched(p, |blocks| + 1);
    BytesOfSpans(p[PREFIX..|p| - 32], CountIn(p));
    BlockLoops.BodyBytesAppend(blocks, block);
    Assoc(Head(|blocks| + 1), Block.BodyBytes(blocks), BlockLoops.Prefixed(block));
  }
}
