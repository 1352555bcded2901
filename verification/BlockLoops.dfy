/** The offset-advancing loops of src/stn_block.c, proved against module Block. */
module BlockLoops {
  import opened BigEndian
  import opened Status
  import opened Hashing
  import opened Block
  import opened Sequences
  import Transaction

  function Verdict<T>(r: Outcome<T>): Outcome<()> {
    if r.Err? then Err(r.status) else Ok(())
  }

  /** Where the entry at `offset` ends, or why it is refused. */
  function EntryEnd(check: TxCheck, b: seq<byte>, offset: nat): (r: Outcome<nat>)
    requires offset <= |b|
    ensures r.Ok? ==> offset + 4 <= r.value <= |b|
  {
    if |b| - offset < 4 then Err(Length)
    else
      var n := Value(b[offset..offset + 4]);
      var at := offset + 4;
      if n < Transaction.MIN_SIZE || n > Transaction.MAX_SIZE || n > |b| - at then Err(Length)
      else if check(b[at..at + n]).Err? then Err(Content)
      else Ok(at + n)
  }

  /** One turn of the validation loop. */
  method EntryValidate(check: TxCheck, b: seq<byte>, offset: nat) returns (r: Outcome<nat>)
    requires offset <= |b|
    ensures r == EntryEnd(check, b, offset)
  {
    if |b| - offset < 4 { return Err(Length); }
    var n := WireRead(b[offset..offset + 4]);
    var at := offset + 4;
    if n < Transaction.MIN_SIZE || n > Transaction.MAX_SIZE || n > |b| - at { return Err(Length); }
    if check(b[at..at + n]).Err? { return Err(Content); }
    r := Ok(at + n);
  }

  /** stn_block_body_validate_structure. */
  method BodyValidate(check: TxCheck, b: seq<byte>, count: nat) returns (r: Outcome<()>)
    ensures r == Verdict(ParseBody(check, b, count))
  {
    if count == 0 { return if |b| == 0 then Ok(()) else Err(Length); }
    if count > MAX_TRANSACTIONS || |b| > MAX_BODY || |b| < count * MIN_BODY { return Err(Length); }
    var offset := 0;
    for i := 0 to count
      invariant 0 <= offset <= |b|
      invariant Verdict(Parse(check, b[offset..], count - i)) == Verdict(Parse(check, b, count))
    {
      ParseStep(check, b, offset, count - i);
      var next := EntryValidate(check, b, offset);
      if next.Err? { return Err(next.status); }
      offset := next.value;
    }
    r := if offset == |b| then Ok(()) else Err(Length);
  }

  /** What the parse of the remaining bytes does with the entry at `offset`. */
  lemma ParseStep(check: TxCheck, b: seq<byte>, offset: nat, k: nat)
    requires offset <= |b| && k > 0
    ensures Verdict(Parse(check, b[offset..], k))
      == if EntryEnd(check, b, offset).Err? then Err(EntryEnd(check, b, offset).status)
         else Verdict(Parse(check, b[EntryEnd(check, b, offset).value..], k - 1))
  {
    var rest := b[offset..];
    if |rest| >= 4 {
      assert b[offset..offset + 4] == rest[..4];
      var n := Value(rest[..4]);
      if n <= |rest| - 4 {
        assert b[offset + 4..offset + 4 + n] == rest[4..4 + n];
        assert b[offset + 4 + n..] == rest[4 + n..];
      }
    }
  }

  method Copy(dst: array<byte>, at: nat, src: seq<byte>)
    requires at + |src| <= dst.Length
    modifies dst
    ensures dst[..] == old(dst[..at]) + src + old(dst[at + |src|..])
  {
    for i := 0 to |src|
      invariant dst[..] == old(dst[..at]) + src[..i] + old(dst[at + i..])
    {
      dst[at + i] := src[i];
    }
  }

  /** The status of the first transaction that is not well formed. */
  function CheckAll(check: TxCheck, txs: seq<seq<byte>>): Outcome<()> {
    if txs == [] then Ok(())
    else if check(txs[0]).Err? then Err(check(txs[0]).status)
    else CheckAll(check, txs[1..])
  }

  function EncodeBody(check: TxCheck, txs: seq<seq<byte>>, capacity: nat): Outcome<seq<byte>> {
    if txs == [] then Ok([])
    else if |txs| > MAX_TRANSACTIONS then Err(Length)
    else if CheckAll(check, txs).Err? then Err(CheckAll(check, txs).status)
    else if capacity < |BodyBytes(txs)| then Err(Capacity)
    else Ok(BodyBytes(txs))
  }

  /** A transaction as it stands in a body. */
  function Prefixed(t: seq<byte>): seq<byte> { Bytes(4, |t|) + t }

  lemma {:induction false} BodyBytesAppend(txs: seq<seq<byte>>, t: seq<byte>)
    ensures BodyBytes(txs + [t]) == BodyBytes(txs) + Prefixed(t)
  {
    if txs == [] {
      assert txs + [t] == [t];
      assert [t][1..] == [];
    } else {
      assert (txs + [t])[1..] == txs[1..] + [t];
      BodyBytesAppend(txs[1..], t);
      Assoc(Prefixed(txs[0]), BodyBytes(txs[1..]), Prefixed(t));
    }
  }

  lemma {:induction false} BodyBytesSplit(txs: seq<seq<byte>>, i: nat)
    requires i <= |txs|
    ensures |BodyBytes(txs[..i])| + |BodyBytes(txs[i..])| == |BodyBytes(txs)|
  {
    if i == 0 {
      assert txs[..0] == [] && txs[0..] == txs;
    } else {
      BodyBytesSplit(txs[1..], i - 1);
      assert txs[..i][1..] == txs[1..][..i - 1] && txs[1..][i - 1..] == txs[i..];
    }
  }

  /** stn_block_body_encode: the output is written only on success. */
  method BodyEncode(check: TxCheck, txs: seq<seq<byte>>, out: array<byte>)
    returns (r: Outcome<nat>)
    modifies out
    ensures match EncodeBody(check, txs, out.Length)
      case Ok(body) => r == Ok(|body|) && out[..] == body + old(out[|body|..])
      case Err(s) => r == Err(s) && out[..] == old(out[..])
  {
    if |txs| == 0 { return Ok(0); }
    if |txs| > MAX_TRANSACTIONS { return Err(Length); }
    var total := 0;
    for i := 0 to |txs|
      invariant total == |BodyBytes(txs[..i])|
      invariant CheckAll(check, txs) == CheckAll(check, txs[i..])
      invariant out[..] == old(out[..])
    {
      var t := check(txs[i]);
      if t.Err? { return Err(t.status); }
      assert txs[i..][1..] == txs[i + 1..];
      NextEntry(txs, i);
      total := total + 4 + |txs[i]|;
    }
    assert txs[..|txs|] == txs;
    if out.Length < total { return Err(Capacity); }
    WriteBody(txs, out, total);
    r := Ok(total);
  }

  method WriteBody(txs: seq<seq<byte>>, out: array<byte>, total: nat)
    requires total == |BodyBytes(txs)| <= out.Length
    modifies out
    ensures out[..] == BodyBytes(txs) + old(out[total..])
  {
    var offset := 0;
    for i := 0 to |txs|
      invariant offset == |BodyBytes(txs[..i])| <= total
      invariant out[..offset] == BodyBytes(txs[..i]) && out[offset..] == old(out[offset..])
    {
      NextEntry(txs, i);
      offset := WriteEntry(txs[i], out, offset);
    }
    assert txs[..|txs|] == txs && out[..] == out[..offset] + out[offset..];
  }

  /** One turn of the encoding loop: a length and a transaction. */
  method WriteEntry(t: seq<byte>, out: array<byte>, offset: nat) returns (next: nat)
    requires offset + |Prefixed(t)| <= out.Length
    modifies out
    ensures next == offset + |Prefixed(t)|
    ensures out[..next] == old(out[..offset]) + Prefixed(t) && out[next..] == old(out[next..])
  {
    Copy(out, offset, Prefixed(t));
    next := offset + |Prefixed(t)|;
  }

  lemma NextEntry(txs: seq<seq<byte>>, i: nat)
    requires i < |txs|
    ensures BodyBytes(txs[..i + 1]) == BodyBytes(txs[..i]) + Prefixed(txs[i])
    ensures |BodyBytes(txs[..i])| + |Prefixed(txs[i])| <= |BodyBytes(txs)|
  {
    BodyBytesAppend(txs[..i], txs[i]);
    assert txs[..i] + [txs[i]] == txs[..i + 1];
    BodyBytesSplit(txs, i + 1);
  }

  // ----------------------------------------------------------------------- integrity

  function TransactionIdOf(check: TxCheck, hash: HashFunction, provider: Option<nat>, t: seq<byte>): Outcome<Hash> {
    if check(t).Err? then Err(check(t).status)
    else Digest(hash, provider, TransactionId, t)
  }

  /** Identifiers are computed in order; a repeated one is a duplicate. */
  function UniqueIds(check: TxCheck, hash: HashFunction, provider: Option<nat>, txs: seq<seq<byte>>, seen: seq<Hash>): Outcome<()>
    decreases |txs|
  {
    if txs == [] then Ok(())
    else
      var id := TransactionIdOf(check, hash, provider, txs[0]);
      if id.Err? then Err(id.status)
      else if id.value in seen then Err(Duplicate)
      else UniqueIds(check, hash, provider, txs[1..], seen + [id.value])
  }

  /** stn_block_check_integrity on a decoded block. */
  function Integrity(check: TxCheck, hash: HashFunction, provider: Option<nat>, b: Block): Outcome<()> {
    var ids := UniqueIds(check, hash, provider, b.transactions, []);
    if ids.Err? then ids
    else
      var commitment := Digest(hash, provider, BlockBody, BodyBytes(b.transactions));
      if commitment.Err? then Err(commitment.status)
      else if commitment.value == b.header.commitment then Ok(()) else Err(Commitment)
  }

  lemma {:induction false} IdsDistinct(check: TxCheck, hash: HashFunction, provider: Option<nat>,
                                       txs: seq<seq<byte>>, seen: seq<Hash>, i: nat)
    requires UniqueIds(check, hash, provider, txs, seen).Ok? && i < |txs|
    ensures TransactionIdOf(check, hash, provider, txs[i]).Ok?
    ensures TransactionIdOf(check, hash, provider, txs[i]).value !in seen
    ensures forall j :: 0 <= j < i ==> TransactionIdOf(check, hash, provider, txs[j]) != TransactionIdOf(check, hash, provider, txs[i])
    decreases |txs|
  {
    if i > 0 {
      var seen' := seen + [TransactionIdOf(check, hash, provider, txs[0]).value];
      IdsDistinct(check, hash, provider, txs[1..], seen', i - 1);
      assert txs[1..][i - 1] == txs[i];
      assert seen'[|seen|] in seen' && forall h :: h in seen ==> h in seen';
      forall j | 0 <= j < i
        ensures TransactionIdOf(check, hash, provider, txs[j]) != TransactionIdOf(check, hash, provider, txs[i])
      {
        if j > 0 { assert txs[1..][j - 1] == txs[j]; }
      }
    }
  }

  /** An intact block never carries the same transaction twice. */
  lemma IntactBlockHasNoRepeats(check: TxCheck, hash: HashFunction, provider: Option<nat>, b: Block)
    requires Integrity(check, hash, provider, b).Ok?
    ensures forall i, j :: 0 <= i < j < |b.transactions| ==> b.transactions[i] != b.transactions[j]
    ensures Digest(hash, provider, BlockBody, BodyBytes(b.transactions)) == Ok(b.header.commitment)
  {
    forall i, j | 0 <= i < j < |b.transactions| ensures b.transactions[i] != b.transactions[j] {
      IdsDistinct(check, hash, provider, b.transactions, [], j);
    }
  }

  /** Every transaction has an identifier, and no two the same one. */
  ghost predicate Identified(check: TxCheck, hash: HashFunction, provider: Option<nat>, txs: seq<seq<byte>>) {
    && (forall i :: 0 <= i < |txs| ==> TransactionIdOf(check, hash, provider, txs[i]).Ok?)
    && (forall i, j :: 0 <= i < j < |txs| ==>
          TransactionIdOf(check, hash, provider, txs[i]) != TransactionIdOf(check, hash, provider, txs[j]))
  }

  lemma {:induction false} UniqueWhen(check: TxCheck, hash: HashFunction, provider: Option<nat>, txs: seq<seq<byte>>, seen: seq<Hash>)
    requires Identified(check, hash, provider, txs)
    requires forall i :: 0 <= i < |txs| ==> TransactionIdOf(check, hash, provider, txs[i]).value !in seen
    ensures UniqueIds(check, hash, provider, txs, seen).Ok?
    decreases |txs|
  {
    if txs != [] {
      var id := TransactionIdOf(check, hash, provider, txs[0]);
      assert id.Ok?;
      forall i | 0 <= i < |txs[1..]|
        ensures txs[1..][i] == txs[i + 1] && TransactionIdOf(check, hash, provider, txs[1..][i]).value !in seen + [id.value]
      {
        assert TransactionIdOf(check, hash, provider, txs[0]) != TransactionIdOf(check, hash, provider, txs[i + 1]);
      }
      UniqueWhen(check, hash, provider, txs[1..], seen + [id.value]);
    }
  }

  /** A block is intact exactly when its transactions have different identifiers and its header
      carries the hash of its body. */
  lemma IntactWhen(check: TxCheck, hash: HashFunction, provider: Option<nat>, b: Block)
    ensures Integrity(check, hash, provider, b).Ok? <==>
      && Identified(check, hash, provider, b.transactions)
      && Digest(hash, provider, BlockBody, BodyBytes(b.transactions)) == Ok(b.header.commitment)
  {
    if Identified(check, hash, provider, b.transactions) {
      UniqueWhen(check, hash, provider, b.transactions, []);
    } else if UniqueIds(check, hash, provider, b.transactions, []).Ok? {
      forall i | 0 <= i < |b.transactions| ensures TransactionIdOf(check, hash, provider, b.transactions[i]).Ok? {
        IdsDistinct(check, hash, provider, b.transactions, [], i);
      }
      forall i, j | 0 <= i < j < |b.transactions|
        ensures TransactionIdOf(check, hash, provider, b.transactions[i]) != TransactionIdOf(check, hash, provider, b.transactions[j])
      {
        IdsDistinct(check, hash, provider, b.transactions, [], j);
      }
    }
  }

  method CheckIntegrity(check: TxCheck, hash: HashFunction, provider: Option<nat>, b: Block)
    returns (r: Outcome<()>)
    ensures r == Integrity(check, hash, provider, b)
  {
    var ids: seq<Hash> := [];
    for i := 0 to |b.transactions|
      invariant UniqueIds(check, hash, provider, b.transactions, [])
             == UniqueIds(check, hash, provider, b.transactions[i..], ids)
    {
      assert b.transactions[i..][1..] == b.transactions[i + 1..];
      var id := TransactionIdOf(check, hash, provider, b.transactions[i]);
      if id.Err? { return Err(id.status); }
      for j := 0 to |ids|
        invariant id.value !in ids[..j]
      {
        if id.value == ids[j] { return Err(Duplicate); }
      }
      assert ids[..|ids|] == ids;
      ids := ids + [id.value];
    }
    var commitment := Digest(hash, provider, BlockBody, BodyBytes(b.transactions));
    if commitment.Err? { return Err(commitment.status); }
    r := if commitment.value == b.header.commitment then Ok(()) else Err(Commitment);
  }
}
