/** Block headers, length-prefixed bodies and whole blocks (src/stn_block.c). */
module Block {
  import opened BigEndian
  import opened Status
  import opened Layout
  import opened Sequences
  import Transaction
  import Pow

  const HEADER_SIZE: nat := 168
  const MAX_TRANSACTIONS: nat := 32
  const MIN_BODY: nat := 81 // length word and the smallest transaction
  const MAX_ENTRY: nat := 66885 // length word and the largest transaction
  const MAX_BODY: nat := 2140320 // 32 of them
  const MAX_SIZE: nat := 2140488
  const MAGIC: seq<byte> := [0x53, 0x54, 0x4e, 0x42]
  const WIDTHS: seq<nat> := [4, 2, 2, 32, 32, 8, 8, 32, 32, 8, 4, 4]

  /** stn_transaction_validate_structure: what a body asks of each transaction. */
  type TxCheck = seq<byte> -> Outcome<()>

  datatype Header = Header(
    version: nat, flags: nat, network: seq<byte>, previous: seq<byte>, height: nat,
    timestamp: nat, commitment: seq<byte>, target: seq<byte>, nonce: nat,
    count: nat, bodyLength: nat)

  datatype Block = Block(header: Header, transactions: seq<seq<byte>>)

  predicate NonZero(s: seq<byte>) { exists i :: 0 <= i < |s| && s[i] != 0 }

  /** header_valid. */
  function CheckHeader(h: Header): Outcome<()> {
    if h.version != 1 && h.version != Pow.POW_BLOCK_VERSION then Err(Version)
    else if h.flags != 0 || (h.version == 1 && (h.nonce != 0 || NonZero(h.target))) then Err(Content)
    else if h.version == Pow.POW_BLOCK_VERSION && !Pow.ValidTarget(h.target) then Err(Target)
    else if (h.height == 0) == NonZero(h.previous) then Err(Content)
    else if h.count == 0 then if h.bodyLength != 0 then Err(Length) else Ok(())
    else if h.count > MAX_TRANSACTIONS || h.bodyLength < h.count * MIN_BODY
            || h.bodyLength > h.count * MAX_ENTRY then Err(Length)
    else Ok(())
  }

  function HeaderFields(h: Header): seq<seq<byte>> {
    [MAGIC, Bytes(2, h.version), Bytes(2, h.flags), h.network, h.previous, Bytes(8, h.height),
     Bytes(8, h.timestamp), h.commitment, h.target, Bytes(8, h.nonce), Bytes(4, h.count),
     Bytes(4, h.bodyLength)]
  }

  function FieldsHeader(f: seq<seq<byte>>): Header
    requires |f| == 12
  {
    Header(Value(f[1]), Value(f[2]), f[3], f[4], Value(f[5]), Value(f[6]), f[7], f[8],
           Value(f[9]), Value(f[10]), Value(f[11]))
  }

  function EncodeHeader(h: Header): seq<byte> { Join(HeaderFields(h)) }

  lemma WidthsTotal()
    ensures Sum(WIDTHS) == HEADER_SIZE
  {
    assert WIDTHS[1..] == [2, 2, 32, 32, 8, 8, 32, 32, 8, 4, 4];
    assert Sum([8, 8, 32, 32, 8, 4, 4]) == 96;
    assert Sum([2, 2, 32, 32, 8, 8, 32, 32, 8, 4, 4]) == 164;
  }

  function DecodeHeader(b: seq<byte>): Outcome<Header> {
    if |b| != HEADER_SIZE then Err(Length)
    else
      WidthsTotal();
      var f := Cut(b, WIDTHS);
      var h := FieldsHeader(f);
      if f[0] != MAGIC then Err(Magic)
      else if CheckHeader(h).Err? then Err(CheckHeader(h).status)
      else Ok(h)
  }

  /** The C types of the header's members. */
  predicate HeaderTyped(h: Header) {
    && h.version < 0x1_0000 && h.flags < 0x1_0000
    && |h.network| == |h.previous| == |h.commitment| == |h.target| == 32
    && h.height < TWO_64 && h.timestamp < TWO_64 && h.nonce < TWO_64
    && h.count < 0x1_0000_0000 && h.bodyLength < 0x1_0000_0000
  }

  lemma FieldsOfHeader(h: Header)
    requires HeaderTyped(h)
    ensures Fits(HeaderFields(h), WIDTHS)
    ensures FieldsHeader(HeaderFields(h)) == h
  {
    PowTable();
    Field(2, h.version);
    Field(2, h.flags);
    Field(8, h.height);
    Field(8, h.timestamp);
    Field(8, h.nonce);
    Field(4, h.count);
    Field(4, h.bodyLength);
  }

  lemma HeaderOfFields(f: seq<seq<byte>>)
    requires Fits(f, WIDTHS)
    ensures HeaderTyped(FieldsHeader(f))
    ensures f[0] == MAGIC ==> HeaderFields(FieldsHeader(f)) == f
  {
    PowTable();
    FieldSizes(f);
    FieldFacts(f);
  }

  lemma FieldSizes(f: seq<seq<byte>>)
    requires Fits(f, WIDTHS)
    ensures |f| == 12 && |f[0]| == |MAGIC|
    ensures |f[1]| == 2 && |f[2]| == 2 && |f[5]| == 8 && |f[6]| == 8 && |f[9]| == 8 && |f[10]| == 4 && |f[11]| == 4
    ensures |f[3]| == 32 && |f[4]| == 32 && |f[7]| == 32 && |f[8]| == 32
  {
  }

  lemma FieldFacts(f: seq<seq<byte>>)
    ensures forall k :: 0 <= k < |f| ==> Value(f[k]) < Pow256(|f[k]|) && Bytes(|f[k]|, Value(f[k])) == f[k]
  {
    forall k | 0 <= k < |f| ensures Value(f[k]) < Pow256(|f[k]|) && Bytes(|f[k]|, Value(f[k])) == f[k] {
      ValueBound(f[k]);
      BytesOfValue(f[k]);
    }
  }

  lemma DecodeEncodeHeader(h: Header)
    requires HeaderTyped(h) && CheckHeader(h).Ok?
    ensures DecodeHeader(EncodeHeader(h)) == Ok(h)
  {
    WidthsTotal();
    FieldsOfHeader(h);
    CutOfJoin(HeaderFields(h), WIDTHS);
  }

  lemma EncodeDecodeHeader(b: seq<byte>)
    requires DecodeHeader(b).Ok?
    ensures EncodeHeader(DecodeHeader(b).value) == b
    ensures HeaderTyped(DecodeHeader(b).value) && CheckHeader(DecodeHeader(b).value).Ok?
  {
    WidthsTotal();
    HeaderOfFields(Cut(b, WIDTHS));
    JoinOfCut(b, WIDTHS);
  }

  // -------------------------------------------------------------------------- bodies

  /** The transactions of a body, read front to back; the first defect decides. */
  function Parse(check: TxCheck, b: seq<byte>, count: nat): Outcome<seq<seq<byte>>>
    decreases count
  {
    if count == 0 then if b == [] then Ok([]) else Err(Length)
    else if |b| < 4 then Err(Length)
    else
      var n := Value(b[..4]);
      if n < Transaction.MIN_SIZE || n > Transaction.MAX_SIZE || n > |b| - 4 then Err(Length)
      else if check(b[4..4 + n]).Err? then Err(Content)
      else
        var rest := Parse(check, b[4 + n..], count - 1);
        if rest.Err? then rest else Ok([b[4..4 + n]] + rest.value)
  }

  /** stn_block_body_validate_structure, returning what it recognised. */
  function ParseBody(check: TxCheck, b: seq<byte>, count: nat): Outcome<seq<seq<byte>>> {
    if count == 0 then if b == [] then Ok([]) else Err(Length)
    else if count > MAX_TRANSACTIONS || |b| > MAX_BODY || |b| < count * MIN_BODY then Err(Length)
    else Parse(check, b, count)
  }

  /** Length-prefixed concatenation, the canonical body. */
  function BodyBytes(txs: seq<seq<byte>>): seq<byte> {
    if txs == [] then [] else Bytes(4, |txs[0]|) + txs[0] + BodyBytes(txs[1..])
  }

  ghost predicate Transactions(check: TxCheck, txs: seq<seq<byte>>) {
    forall i :: 0 <= i < |txs| ==>
      77 <= |txs[i]| <= 66881 && check(txs[i]).Ok?
  }

  lemma {:induction false} ParseBodyBytes(check: TxCheck, txs: seq<seq<byte>>)
    requires Transactions(check, txs)
    ensures Parse(check, BodyBytes(txs), |txs|) == Ok(txs)
  {
    if txs != [] {
      var n := |txs[0]|;
      var b := BodyBytes(txs);
      PowTable();
      Field(4, n);
      Slices(Bytes(4, n), txs[0], BodyBytes(txs[1..]));
      ParseBodyBytes(check, txs[1..]);
      assert [txs[0]] + txs[1..] == txs;
    }
  }

  lemma ThreeParts(b: seq<byte>, n: nat)
    requires 4 + n <= |b|
    ensures b == b[..4] + b[4..4 + n] + b[4 + n..]
  {
  }

  lemma ParseOne(check: TxCheck, b: seq<byte>, count: nat)
    requires count > 0 && Parse(check, b, count).Ok?
    ensures |b| >= 4 && Transaction.MIN_SIZE <= Value(b[..4]) <= Transaction.MAX_SIZE && Value(b[..4]) <= |b| - 4
    ensures var n := Value(b[..4]);
      && check(b[4..4 + n]).Ok? && Parse(check, b[4 + n..], count - 1).Ok?
      && Parse(check, b, count).value == [b[4..4 + n]] + Parse(check, b[4 + n..], count - 1).value
  {
  }

  lemma {:induction false} BodyBytesParse(check: TxCheck, b: seq<byte>, count: nat)
    requires Parse(check, b, count).Ok?
    ensures var txs := Parse(check, b, count).value;
      |txs| == count && Transactions(check, txs) && BodyBytes(txs) == b
    decreases count
  {
    if count > 0 {
      ParseOne(check, b, count);
      var n := Value(b[..4]);
      var first, rest := b[4..4 + n], Parse(check, b[4 + n..], count - 1).value;
      BodyBytesParse(check, b[4 + n..], count - 1);
      Joined(b, n, rest);
      ConsTransactions(check, first, rest);
    }
  }

  lemma Joined(b: seq<byte>, n: nat, rest: seq<seq<byte>>)
    requires 4 + n <= |b| && n == Value(b[..4]) && BodyBytes(rest) == b[4 + n..]
    ensures BodyBytes([b[4..4 + n]] + rest) == b
  {
    BytesOfValue(b[..4]);
    ThreeParts(b, n);
    ConsBody(b[4..4 + n], rest);
  }

  lemma ConsBody(t: seq<byte>, rest: seq<seq<byte>>)
    ensures BodyBytes([t] + rest) == Bytes(4, |t|) + t + BodyBytes(rest)
  {
    assert ([t] + rest)[1..] == rest;
  }

  lemma ConsTransactions(check: TxCheck, t: seq<byte>, rest: seq<seq<byte>>)
    requires Transaction.MIN_SIZE <= |t| <= Transaction.MAX_SIZE && check(t).Ok?
    requires Transactions(check, rest)
    ensures Transactions(check, [t] + rest)
  {
  }

  lemma {:induction false} BodySize(check: TxCheck, txs: seq<seq<byte>>)
    requires Transactions(check, txs)
    ensures |txs| * MIN_BODY <= |BodyBytes(txs)| <= |txs| * MAX_ENTRY
  {
    if txs != [] { BodySize(check, txs[1..]); }
  }

  /** Bodies of up to 32 transactions are uniquely readable. */
  lemma BodyRoundTrip(check: TxCheck, txs: seq<seq<byte>>)
    requires Transactions(check, txs) && |txs| <= MAX_TRANSACTIONS
    ensures ParseBody(check, BodyBytes(txs), |txs|) == Ok(txs)
  {
    ParseBodyBytes(check, txs);
    BodySize(check, txs);
  }

  lemma BodyCanonical(check: TxCheck, b: seq<byte>, count: nat)
    requires ParseBody(check, b, count).Ok?
    ensures var txs := ParseBody(check, b, count).value;
      |txs| == count <= MAX_TRANSACTIONS && Transactions(check, txs) && BodyBytes(txs) == b
  {
    if count != 0 { BodyBytesParse(check, b, count); }
  }

  // -------------------------------------------------------------------------- blocks

  /** stn_block_decode. */
  function Decode(check: TxCheck, b: seq<byte>): Outcome<Block> {
    if |b| < HEADER_SIZE || |b| > MAX_SIZE then Err(Length)
    else
      var h := DecodeHeader(b[..HEADER_SIZE]);
      if h.Err? then Err(h.status)
      else if |b| - HEADER_SIZE != h.value.bodyLength then Err(Length)
      else
        var txs := ParseBody(check, b[HEADER_SIZE..], h.value.count);
        if txs.Err? then Err(txs.status) else Ok(Block(h.value, txs.value))
  }

  function Encode(b: Block): seq<byte> { EncodeHeader(b.header) + BodyBytes(b.transactions) }

  ghost predicate WellFormed(check: TxCheck, b: Block) {
    && HeaderTyped(b.header) && CheckHeader(b.header).Ok?
    && b.header.count == |b.transactions|
    && Transactions(check, b.transactions)
    && b.header.bodyLength == |BodyBytes(b.transactions)|
  }

  lemma DecodeEncode(check: TxCheck, b: Block)
    requires WellFormed(check, b)
    ensures Decode(check, Encode(b)) == Ok(b)
  {
    DecodeEncodeHeader(b.header);
    JoinLengthOfHeader(b.header);
    var e := Encode(b);
    assert e[..HEADER_SIZE] == EncodeHeader(b.header);
    assert e[HEADER_SIZE..] == BodyBytes(b.transactions);
    BodyRoundTrip(check, b.transactions);
    BodySize(check, b.transactions);
  }

  lemma JoinLengthOfHeader(h: Header)
    requires HeaderTyped(h)
    ensures |EncodeHeader(h)| == HEADER_SIZE
  {
    WidthsTotal();
    FieldsOfHeader(h);
    JoinLength(HeaderFields(h), WIDTHS);
  }

  /** Two byte strings that decode to the same block are the same bytes. */
  lemma EncodeDecode(check: TxCheck, b: seq<byte>)
    requires Decode(check, b).Ok?
    ensures WellFormed(check, Decode(check, b).value)
    ensures Encode(Decode(check, b).value) == b
  {
    var block := Decode(check, b).value;
    EncodeDecodeHeader(b[..HEADER_SIZE]);
    BodyCanonical(check, b[HEADER_SIZE..], block.header.count);
    assert b == b[..HEADER_SIZE] + b[HEADER_SIZE..];
  }

  /** No decoded block carries more than 32 transactions. */
  lemma DecodedCount(check: TxCheck, b: seq<byte>)
    requires Decode(check, b).Ok?
    ensures |Decode(check, b).value.transactions| <= MAX_TRANSACTIONS
  {
    BodyCanonical(check, b[HEADER_SIZE..], Decode(check, b).value.header.count);
  }
}
