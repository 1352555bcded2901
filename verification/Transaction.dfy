/** The transaction envelope of src/stn_transaction.c. The per-type record decoders are a
    parameter: only the envelope and the fixed lifecycle sizes are modelled here. */
module Transaction {
  import opened BigEndian
  import opened Status
  import opened Layout

  const HEADER_SIZE: nat := 12
  const MIN_SIZE: nat := 77 // header and a compensation destination
  const MAX_SIZE: nat := 66881 // header and the largest contract action
  const MAGIC: seq<byte> := [0x53, 0x54, 0x4e, 0x54]
  const WIDTHS: seq<nat> := [4, 2, 2, 4]

  const PUBLICATION: nat := 1
  const AUTHORITY_GRANT: nat := 2
  const AUTHORITY_REVOKE: nat := 3
  const IDENTITY_ROTATE: nat := 4
  const CONTRACT_ACTION: nat := 5
  const SHARE_EVIDENCE: nat := 6
  const COMPENSATION_DESTINATION: nat := 7
  const ISSUANCE: nat := 8
  const TRANSFER: nat := 9
  const BLOCK_COMPENSATION_EVIDENCE: nat := 10

  datatype Tx = Tx(kind: nat, record: seq<byte>)

  /** Whether the decoder of a record type accepts these bytes. */
  type RecordCheck = (nat, seq<byte>) -> bool

  function LifecycleSize(kind: nat): nat {
    if kind == AUTHORITY_GRANT then 194
    else if kind == AUTHORITY_REVOKE || kind == IDENTITY_ROTATE then 129
    else 0
  }

  predicate IsLifecycle(kind: nat) { AUTHORITY_GRANT <= kind <= IDENTITY_ROTATE }

  function CheckRecord(check: RecordCheck, t: Tx): Outcome<()> {
    if IsLifecycle(t.kind) then
      if |t.record| == LifecycleSize(t.kind) then Ok(()) else Err(Length)
    else if check(t.kind, t.record) then Ok(()) else Err(Content)
  }

  /** stn_transaction_decode; the checks are made in this order. */
  function Decode(check: RecordCheck, b: seq<byte>): Outcome<Tx> {
    if |b| < HEADER_SIZE || |b| > MAX_SIZE then Err(Length)
    else
      var f := Cut(b[..HEADER_SIZE], WIDTHS);
      var t := Tx(Value(f[2]), b[HEADER_SIZE..]);
      if f[0] != MAGIC then Err(Magic)
      else if Value(f[1]) != 1 then Err(Version)
      else if t.kind < PUBLICATION || t.kind > BLOCK_COMPENSATION_EVIDENCE then Err(Type)
      else if Value(f[3]) != |t.record| then Err(Length)
      else if CheckRecord(check, t).Err? then Err(CheckRecord(check, t).status)
      else Ok(t)
  }

  /** stn_transaction_validate_structure. */
  function Structure(check: RecordCheck): seq<byte> -> Outcome<()> {
    b => if Decode(check, b).Ok? then Ok(()) else Err(Decode(check, b).status)
  }

  function Encode(t: Tx): seq<byte> {
    Join([MAGIC, Bytes(2, 1), Bytes(2, t.kind), Bytes(4, |t.record|)]) + t.record
  }

  predicate WellFormed(check: RecordCheck, t: Tx) {
    && 1 <= t.kind <= 10 && |t.record| <= 66869
    && CheckRecord(check, t).Ok?
  }

  lemma DecodeEncode(check: RecordCheck, t: Tx)
    requires WellFormed(check, t)
    ensures Decode(check, Encode(t)) == Ok(t)
  {
    var fields := [MAGIC, Bytes(2, 1), Bytes(2, t.kind), Bytes(4, |t.record|)];
    CutOfJoin(fields, WIDTHS);
    PowTable();
    Field(2, 1);
    Field(2, t.kind);
    Field(4, |t.record|);
    var b := Encode(t);
    assert b[..HEADER_SIZE] == Join(fields) && b[HEADER_SIZE..] == t.record;
  }

  /** Accepted envelopes are canonical: the decoded transaction determines every byte. */
  lemma EncodeDecode(check: RecordCheck, b: seq<byte>)
    requires Decode(check, b).Ok?
    ensures WellFormed(check, Decode(check, b).value)
    ensures Encode(Decode(check, b).value) == b
  {
    var head := b[..HEADER_SIZE];
    var f := Cut(head, WIDTHS);
    JoinOfCut(head, WIDTHS);
    BytesOfValue(f[1]);
    BytesOfValue(f[2]);
    BytesOfValue(f[3]);
    assert f == [f[0], f[1], f[2], f[3]];
    assert b == head + b[HEADER_SIZE..];
  }
}
