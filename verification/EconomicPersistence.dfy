/** The persisted economic state (src/stn_economic_persistence.c): a version byte, the
    supply, the entry count and forty bytes per balance. */
module EconomicPersistence {
  import opened BigEndian
  import opened Sequences
  import opened Status
  import opened Table
  import opened Ledger
  import BlockLoops

  const VERSION: byte := 1
  const HEADER_SIZE: nat := 17
  const ENTRY_SIZE: nat := 40
  const MAX_COUNT: nat := (TWO_64 - 1 - HEADER_SIZE) / ENTRY_SIZE

  /** The C types of a ledger's members. */
  ghost predicate Typed(b: seq<Balance>) {
    forall i :: 0 <= i < |b| ==> b[i].key < TWO_256 && b[i].value < TWO_64
  }

  /** valid(): ascending wallets, no 64-bit overflow of the running sum, sum == supply. */
  function CheckFrom(l: Ledger, i: nat, sum: nat): Outcome<()>
    requires i <= |l.balances|
    decreases |l.balances| - i
  {
    if i == |l.balances| then if sum == l.supply then Ok(()) else Err(Content)
    else if i != 0 && l.balances[i - 1].key >= l.balances[i].key then Err(Content)
    else if sum + l.balances[i].value > UINT64_MAX then Err(Overflow)
    else CheckFrom(l, i + 1, sum + l.balances[i].value)
  }

  function Check(l: Ledger): Outcome<()> {
    if |l.balances| > l.capacity then Err(Content) else CheckFrom(l, 0, 0)
  }

  lemma PrefixTotal(b: seq<Balance>, i: nat)
    requires i < |b|
    ensures Total(b[..i + 1]) == Total(b[..i]) + b[i].value <= Total(b)
  {
    assert b[..i + 1][..i] == b[..i];
    TotalConcat(b[..i + 1], b[i + 1..]);
    assert b == b[..i + 1] + b[i + 1..];
  }

  lemma PrefixSorted(b: seq<Balance>, i: nat)
    requires i < |b| && Sorted(b[..i])
    ensures Sorted(b[..i + 1]) <==> i == 0 || b[i - 1].key < b[i].key
    ensures Sorted(b) ==> Sorted(b[..i + 1])
  {
    var p, q := b[..i], b[..i + 1];
    if i > 0 && b[i - 1].key < b[i].key {
      forall j | 0 <= j < i ensures q[j].key < q[i].key {
        assert p[j].key <= p[i - 1].key;
      }
    }
    if i > 0 { assert q[i - 1] == b[i - 1] && q[i] == b[i]; }
  }

  lemma {:induction false} CheckedFrom(l: Ledger, i: nat)
    requires i <= |l.balances| && Sorted(l.balances[..i]) && Total(l.balances[..i]) <= UINT64_MAX
    ensures CheckFrom(l, i, Total(l.balances[..i])).Ok?
      <==> Sorted(l.balances) && Total(l.balances) == l.supply <= UINT64_MAX
    decreases |l.balances| - i
  {
    var b := l.balances;
    if i == |b| {
      assert b[..i] == b;
    } else {
      PrefixTotal(b, i);
      PrefixSorted(b, i);
      if Sorted(b[..i + 1]) && Total(b[..i + 1]) <= UINT64_MAX { CheckedFrom(l, i + 1); }
    }
  }

  /** The self-check accepts exactly the valid ledgers. */
  lemma CheckIsValid(l: Ledger)
    ensures Check(l).Ok? <==> ValidLedger(l)
  {
    CheckedFrom(l, 0);
  }

  method CheckState(l: Ledger) returns (r: Outcome<()>)
    ensures r == Check(l)
  {
    if |l.balances| > l.capacity { return Err(Content); }
    var sum: nat := 0;
    for i := 0 to |l.balances|
      invariant CheckFrom(l, i, sum) == CheckFrom(l, 0, 0)
    {
      if i != 0 && l.balances[i - 1].key >= l.balances[i].key { return Err(Content); }
      if sum + l.balances[i].value > UINT64_MAX { return Err(Overflow); }
      sum := sum + l.balances[i].value;
    }
    r := if sum == l.supply then Ok(()) else Err(Content);
  }

  // --------------------------------------------------------------------------- codec

  function EntryBytes(b: seq<Balance>): seq<byte> {
    if b == [] then []
    else EntryBytes(b[..|b| - 1]) + Bytes(32, b[|b| - 1].key) + Bytes(8, b[|b| - 1].value)
  }

  lemma {:induction false} EntrySize(b: seq<Balance>)
    ensures |EntryBytes(b)| == ENTRY_SIZE * |b|
  {
    if b != [] { EntrySize(b[..|b| - 1]); }
  }

  function HeaderBytes(supply: nat, count: nat): (h: seq<byte>)
    ensures |h| == HEADER_SIZE
  {
    [VERSION] + Bytes(8, supply) + Bytes(8, count)
  }

  function Encode(l: Ledger): seq<byte> {
    HeaderBytes(l.supply, |l.balances|) + EntryBytes(l.balances)
  }

  function ReadEntries(s: seq<byte>, count: nat): (b: seq<Balance>)
    requires |s| == ENTRY_SIZE * count
    ensures |b| == count
  {
    if count == 0 then []
    else
      var at := ENTRY_SIZE * (count - 1);
      ReadEntries(s[..at], count - 1) + [Entry(Value(s[at..at + 32]), Value(s[at + 32..]))]
  }

  /** stn_economic_persistence_decode into storage of the given capacity. */
  function Decode(s: seq<byte>, capacity: nat): Outcome<Ledger> {
    if |s| < HEADER_SIZE then Err(Length)
    else if s[0] != VERSION then Err(Version)
    else
      var count := Value(s[9..17]);
      if count > MAX_COUNT then Err(Overflow)
      else if |s| != HEADER_SIZE + ENTRY_SIZE * count then Err(Length)
      else if count > capacity then Err(Capacity)
      else
        var l := Ledger(ReadEntries(s[HEADER_SIZE..], count), capacity, Value(s[1..9]));
        if Check(l).Err? then Err(Content) else Ok(l)
  }

  lemma ReadAppend(front: seq<byte>, id: seq<byte>, units: seq<byte>, count: nat)
    requires |front| == ENTRY_SIZE * count && |id| == 32 && |units| == 8
    ensures ReadEntries(front + id + units, count + 1) == ReadEntries(front, count) + [Entry(Value(id), Value(units))]
  {
    Slices(front, id, units);
  }

  lemma EntryReads(x: Balance)
    requires x.key < TWO_256 && x.value < TWO_64
    ensures Entry(Value(Bytes(32, x.key)), Value(Bytes(8, x.value))) == x
  {
    PowTable();
    ValueOfBytes(32, x.key);
    ValueOfBytes(8, x.value);
  }

  lemma {:induction false} ReadWritten(b: seq<Balance>)
    requires Typed(b)
    ensures |EntryBytes(b)| == ENTRY_SIZE * |b| && ReadEntries(EntryBytes(b), |b|) == b
  {
    EntrySize(b);
    if b != [] {
      var n := |b| - 1;
      ReadWritten(b[..n]);
      EntryReads(b[n]);
      ReadAppend(EntryBytes(b[..n]), Bytes(32, b[n].key), Bytes(8, b[n].value), n);
    }
  }

  lemma {:induction false} WriteRead(s: seq<byte>, count: nat)
    requires |s| == ENTRY_SIZE * count
    ensures EntryBytes(ReadEntries(s, count)) == s && Typed(ReadEntries(s, count))
  {
    if count > 0 {
      var at := ENTRY_SIZE * (count - 1);
      var front, id, units := s[..at], s[at..at + 32], s[at + 32..];
      assert s == front + id + units;
      WriteRead(front, count - 1);
      EntryRoundTrip(id, units);
      ReadAppend(front, id, units, count - 1);
      EntryAppend(ReadEntries(front, count - 1), Entry(Value(id), Value(units)));
    }
  }

  lemma EntryAppend(b: seq<Balance>, x: Balance)
    ensures EntryBytes(b + [x]) == EntryBytes(b) + Bytes(32, x.key) + Bytes(8, x.value)
    ensures Typed(b) && x.key < TWO_256 && x.value < TWO_64 ==> Typed(b + [x])
  {
    assert (b + [x])[..|b|] == b;
  }

  lemma EntryRoundTrip(id: seq<byte>, units: seq<byte>)
    requires |id| == 32 && |units| == 8
    ensures Bytes(32, Value(id)) == id && Value(id) < TWO_256
    ensures Bytes(8, Value(units)) == units && Value(units) < TWO_64
  {
    PowTable();
    BytesOfValue(id);
    BytesOfValue(units);
    ValueBound(id);
    ValueBound(units);
  }

  lemma HeaderParts(s: seq<byte>, supply: nat, count: nat)
    requires |s| >= HEADER_SIZE && s[..HEADER_SIZE] == HeaderBytes(supply, count)
    requires supply < TWO_64 && count < TWO_64
    ensures s[0] == VERSION && Value(s[1..9]) == supply && Value(s[9..17]) == count
  {
    var h := s[..HEADER_SIZE];
    assert s[0] == h[0];
    assert s[1..9] == h[1..9] == Bytes(8, supply);
    assert s[9..17] == h[9..17] == Bytes(8, count);
    PowTable();
    ValueOfBytes(8, supply);
    ValueOfBytes(8, count);
  }

  /** A valid ledger survives being persisted. */
  lemma DecodeEncode(l: Ledger, capacity: nat)
    requires ValidLedger(l) && Typed(l.balances) && |l.balances| <= MAX_COUNT
    ensures Decode(Encode(l), capacity)
      == if |l.balances| <= capacity then Ok(l.(capacity := capacity)) else Err(Capacity)
  {
    var s := Encode(l);
    EntrySize(l.balances);
    assert s[..HEADER_SIZE] == HeaderBytes(l.supply, |l.balances|);
    assert s[HEADER_SIZE..] == EntryBytes(l.balances);
    HeaderParts(s, l.supply, |l.balances|);
    ReadWritten(l.balances);
    if |l.balances| <= capacity { CheckIsValid(l.(capacity := capacity)); }
  }

  /** Only canonical bytes of valid ledgers are accepted. */
  lemma EncodeDecode(s: seq<byte>, capacity: nat)
    requires Decode(s, capacity).Ok?
    ensures ValidLedger(Decode(s, capacity).value) && Typed(Decode(s, capacity).value.balances)
    ensures Encode(Decode(s, capacity).value) == s
  {
    var l := Decode(s, capacity).value;
    CheckIsValid(l);
    WriteRead(s[HEADER_SIZE..], |l.balances|);
    HeaderOfParts(s);
    assert s == s[..HEADER_SIZE] + s[HEADER_SIZE..];
  }

  lemma HeaderOfParts(s: seq<byte>)
    requires |s| >= HEADER_SIZE && s[0] == VERSION
    ensures HeaderBytes(Value(s[1..9]), Value(s[9..17])) == s[..HEADER_SIZE]
  {
    BytesOfValue(s[1..9]);
    BytesOfValue(s[9..17]);
    assert s[..HEADER_SIZE] == [s[0]] + s[1..9] + s[9..17];
  }

  // --------------------------------------------------------------------------- loops

  /** stn_economic_persistence_encode: `out` is written only on success. */
  method EncodeState(l: Ledger, out: array<byte>) returns (r: Outcome<nat>)
    modifies out
    ensures r == if Check(l).Err? then Err(Check(l).status)
                 else if |l.balances| > MAX_COUNT then Err(Overflow)
                 else if out.Length < |Encode(l)| then Err(Capacity) else Ok(|Encode(l)|)
    ensures r.Ok? ==> out[..] == Encode(l) + old(out[|Encode(l)|..])
    ensures r.Err? ==> out[..] == old(out[..])
  {
    var status := CheckState(l);
    if status.Err? { return Err(status.status); }
    if |l.balances| > MAX_COUNT { return Err(Overflow); }
    EntrySize(l.balances);
    var need := HEADER_SIZE + ENTRY_SIZE * |l.balances|;
    if out.Length < need { return Err(Capacity); }
    BlockLoops.Copy(out, 0, HeaderBytes(l.supply, |l.balances|));
    WriteEntries(l.balances, out, HEADER_SIZE);
    r := Ok(need);
  }

  method WriteEntries(b: seq<Balance>, out: array<byte>, start: nat)
    requires start + ENTRY_SIZE * |b| <= out.Length
    modifies out
    ensures |EntryBytes(b)| == ENTRY_SIZE * |b|
    ensures out[..] == old(out[..start]) + EntryBytes(b) + old(out[start + ENTRY_SIZE * |b|..])
  {
    var at := start;
    for i := 0 to |b|
      invariant at == start + ENTRY_SIZE * i <= out.Length
      invariant |EntryBytes(b[..i])| == ENTRY_SIZE * i
      invariant out[..] == old(out[..start]) + EntryBytes(b[..i]) + old(out[at..])
    {
      assert b[..i + 1][..i] == b[..i];
      var entry := Bytes(32, b[i].key) + Bytes(8, b[i].value);
      assert EntryBytes(b[..i + 1]) == EntryBytes(b[..i]) + entry;
      BlockLoops.Copy(out, at, entry);
      at := at + ENTRY_SIZE;
    }
    assert b[..|b|] == b;
  }

  /** stn_economic_persistence_decode: fields are read at the advancing offset. */
  method DecodeState(s: seq<byte>, capacity: nat) returns (r: Outcome<Ledger>)
    ensures r == Decode(s, capacity)
  {
    if |s| < HEADER_SIZE { return Err(Length); }
    if s[0] != VERSION { return Err(Version); }
    var count := WireRead(s[9..17]);
    if count > MAX_COUNT { return Err(Overflow); }
    if |s| != HEADER_SIZE + ENTRY_SIZE * count { return Err(Length); }
    if count > capacity { return Err(Capacity); }
    var supply := WireRead(s[1..9]);
    var storage := ReadAll(s[HEADER_SIZE..], count);
    var l := Ledger(storage, capacity, supply);
    var status := CheckState(l);
    r := if status.Err? then Err(Content) else Ok(l);
  }

  method ReadAll(s: seq<byte>, count: nat) returns (storage: seq<Balance>)
    requires |s| == ENTRY_SIZE * count
    ensures storage == ReadEntries(s, count)
  {
    storage := [];
    var at := 0;
    for i := 0 to count
      invariant at == ENTRY_SIZE * i
      invariant storage == ReadEntries(s[..at], i)
    {
      var units := WireRead(s[at + 32..at + 40]);
      var entry := s[..at + 40];
      assert entry[..at] == s[..at] && entry[at..at + 32] == s[at..at + 32] && entry[at + 32..] == s[at + 32..at + 40];
      storage := storage + [Entry(Value(s[at..at + 32]), units)];
      at := at + 40;
    }
    assert s[..at] == s;
  }
}
