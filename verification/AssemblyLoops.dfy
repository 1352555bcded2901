/** Assembly as the program runs it: a selection loop, the body encoder, and a loop that
    appends whole pairs to the caller's buffer. */
module AssemblyLoops {
  import opened BigEndian
  import opened Status
  import opened Hashing
  import opened Sequences
  import Block
  import BlockLoops
  import Economy
  import Table
  import StorageState
  import opened Assembly

  /** The borrowing loop that leaves the compensation transactions aside. */
  method CollectGeneric(p: Policy, pool: seq<Entry>) returns (r: Outcome<seq<Entry>>)
    ensures r == if exists i :: 0 <= i < |pool| && DecodeTx(p, pool[i].value).Err? then Err(Content) else Ok(Generic(p, pool))
  {
    var generic: seq<Entry> := [];
    var i: nat := 0;
    assert pool[0..] == pool;
    while i < |pool|
      invariant i <= |pool| && forall k :: 0 <= k < i ==> DecodeTx(p, pool[k].value).Ok?
      invariant generic + Generic(p, pool[i..]) == Generic(p, pool)
    {
      var e := pool[i];
      assert pool[i..][1..] == pool[i + 1..];
      if DecodeTx(p, e.value).Err? { return Err(Content); }
      if IsGeneric(p, e.value) {
        Assoc(generic, [e], Generic(p, pool[i + 1..]));
        generic := generic + [e];
      }
      i := i + 1;
    }
    assert pool[i..] == [] && generic + [] == generic;
    r := Ok(generic);
  }

  lemma ChosenMore(done: seq<Entry>, e: Entry, rest: Outcome<seq<Entry>>)
    ensures Chosen(done, Chosen([e], rest)) == Chosen(done + [e], rest)
  {
    if rest.Ok? { Assoc(done, [e], rest.value); }
  }

  lemma ChosenNothing(rest: Outcome<seq<Entry>>)
    ensures Chosen([], rest) == rest
  {
    if rest.Ok? { assert [] + rest.value == rest.value; }
  }

  /** What one decision does to the selection still to be made. */
  ghost predicate Turned(p: Policy, rest: seq<Entry>, capacity: nat, chosen: seq<Entry>, total: nat, e: Entry, goal: Outcome<seq<Entry>>)
    requires total <= capacity
  {
    match Decide(p, e, capacity, total)
    case Stop => goal == Ok(chosen)
    case Fail(s) => goal == Err(s)
    case Pass => goal == Chosen(chosen, Select(p, rest, capacity, |chosen|, total))
    case Take => goal == Chosen(chosen + [e], Select(p, rest, capacity, |chosen| + 1, total + |e.value| + 4))
  }

  lemma SelectTurn(p: Policy, pool: seq<Entry>, i: nat, capacity: nat, chosen: seq<Entry>, total: nat)
    requires i < |pool| && |chosen| < Block.MAX_TRANSACTIONS && total <= capacity
    ensures Turned(p, pool[i + 1..], capacity, chosen, total, pool[i],
                   Chosen(chosen, Select(p, pool[i..], capacity, |chosen|, total)))
  {
    var e, rest := pool[i], pool[i + 1..];
    assert pool[i..][0] == e && pool[i..][1..] == rest;
    assert chosen + [] == chosen;
    if Decide(p, e, capacity, total).Take? {
      ChosenMore(chosen, e, Select(p, rest, capacity, |chosen| + 1, total + |e.value| + 4));
    }
  }

  /** The selection loop of stn_pending_assemble. */
  method SelectLoop(p: Policy, pool: seq<Entry>, capacity: nat) returns (r: Outcome<seq<Entry>>)
    ensures r == Select(p, pool, capacity, 0, 0)
  {
    var chosen: seq<Entry> := [];
    var total: nat, i: nat := 0, 0;
    assert pool[0..] == pool;
    ghost var all := Select(p, pool, capacity, 0, 0);
    ChosenNothing(all);
    while i < |pool| && |chosen| < Block.MAX_TRANSACTIONS
      invariant i <= |pool| && total <= capacity
      invariant Chosen(chosen, Select(p, pool[i..], capacity, |chosen|, total)) == all
    {
      SelectTurn(p, pool, i, capacity, chosen, total);
      match Decide(p, pool[i], capacity, total) {
        case Stop => return Ok(chosen);
        case Fail(e) => return Err(e);
        case Pass =>
        case Take => chosen, total := chosen + [pool[i]], total + |pool[i].value| + 4;
      }
      i := i + 1;
    }
    assert chosen + [] == chosen;
    r := Ok(chosen);
  }

  /** The inner search for an evidence's issuance. */
  method FindPartner(p: Policy, pool: seq<Entry>, e: Economy.Evidence) returns (r: Option<seq<byte>>)
    ensures r == Partner(p, pool, e)
  {
    var j: nat := 0;
    assert pool[0..] == pool;
    while j < |pool|
      invariant j <= |pool| && Partner(p, pool[j..], e) == Partner(p, pool, e)
    {
      assert pool[j..][0] == pool[j] && pool[j..][1..] == pool[j + 1..];
      var t := DecodeTx(p, pool[j].value);
      if t.Ok? && IsBlockIssuance(p, t.value) && p.binds(p.issuance(t.value.record).value, e) { return Some(pool[j].value); }
      j := j + 1;
    }
    r := None;
  }

  /** append_transaction: refuses what does not fit, otherwise writes one more record. */
  method AppendTransaction(out: array<byte>, ghost txs: seq<seq<byte>>, written: nat, count: nat, b: seq<byte>)
    returns (ok: bool)
    requires written == |Block.BodyBytes(txs)| <= out.Length && count == |txs|
    requires out[..written] == Block.BodyBytes(txs)
    modifies out
    ensures ok <==> written + 4 + |b| <= out.Length && count < Block.MAX_TRANSACTIONS
    ensures ok ==> written + 4 + |b| == |Block.BodyBytes(txs + [b])| && out[..written + 4 + |b|] == Block.BodyBytes(txs + [b])
    ensures !ok ==> out[..] == old(out[..])
  {
    if |b| + 4 > out.Length - written || count >= Block.MAX_TRANSACTIONS { return false; }
    BlockLoops.BodyBytesAppend(txs, b);
    StorageState.Put(out, written, BlockLoops.Prefixed(b));
    ok := true;
  }

  /** The two appends of a pair: once pair_fits has agreed, neither of them can fail. */
  method AppendPair(out: array<byte>, ghost txs: seq<seq<byte>>, written: nat, count: nat, e: seq<byte>, i: seq<byte>)
    requires written == |Block.BodyBytes(txs)| <= out.Length && count == |txs|
    requires out[..written] == Block.BodyBytes(txs) && PairFits(written, count, out.Length, e, i)
    modifies out
    ensures written + 8 + |e| + |i| == |Block.BodyBytes(txs + [e, i])| <= out.Length
    ensures out[..written + 8 + |e| + |i|] == Block.BodyBytes(txs + [e, i])
  {
    var first := AppendTransaction(out, txs, written, count, e);
    assert first;
    var second := AppendTransaction(out, txs + [e], written + 4 + |e|, count + 1, i);
    assert second;
    assert txs + [e, i] == (txs + [e]) + [i];
  }

  /** What one pool entry adds to the body, with the unreadable ones reported. */
  method NextPair(p: Policy, pool: seq<Entry>, b: seq<byte>) returns (r: Outcome<Option<(seq<byte>, seq<byte>)>>)
    ensures r == if Unreadable(p, b) then Err(Content) else Ok(PairOf(p, pool, b))
  {
    var t := DecodeTx(p, b);
    if t.Err? { return Err(Content); }
    if !IsEvidence(t.value) { return Ok(None); }
    var e := p.evidence(t.value.record);
    if e.None? { return Err(Content); }
    if !p.payable(e.value) { return Ok(None); }
    var i := FindPartner(p, pool, e.value);
    r := Ok(if i.None? then None else Some((b, i.value)));
  }

  /** The pair loop over the whole pool. */
  method AppendPairs(p: Policy, pool: seq<Entry>, out: array<byte>, ghost start: seq<seq<byte>>, startWritten: nat, startCount: nat)
    returns (failed: Option<DataStatus>, written: nat, count: nat)
    requires startWritten == |Block.BodyBytes(start)| <= out.Length && startCount == |start|
    requires out[..startWritten] == Block.BodyBytes(start)
    modifies out
    ensures failed == (if exists i :: 0 <= i < |pool| && Unreadable(p, pool[i].value) then Some(Content) else None)
    ensures failed.None? ==>
      var txs := AddPairs(p, pool, pool, out.Length, start);
      count == |txs| && written == |Block.BodyBytes(txs)| <= out.Length && out[..written] == Block.BodyBytes(txs)
  {
    ghost var txs := start;
    written, count := startWritten, startCount;
    var i: nat := 0;
    assert pool[0..] == pool;
    while i < |pool|
      invariant i <= |pool| && forall k :: 0 <= k < i ==> !Unreadable(p, pool[k].value)
      invariant count == |txs| && written == |Block.BodyBytes(txs)| <= out.Length
      invariant out[..written] == Block.BodyBytes(txs)
      invariant AddPairs(p, pool, pool[i..], out.Length, txs) == AddPairs(p, pool, pool, out.Length, start)
    {
      assert pool[i..][0] == pool[i] && pool[i..][1..] == pool[i + 1..];
      var pair := NextPair(p, pool, pool[i].value);
      if pair.Err? { return Some(Content), written, count; }
      if pair.value.Some? {
        var (e, q) := pair.value.value;
        if PairFits(written, count, out.Length, e, q) {
          AppendPair(out, txs, written, count, e, q);
          txs := txs + [e, q];
          written, count := written + 8 + |e| + |q|, count + 2;
        }
      }
      i := i + 1;
    }
    failed := None;
  }

  /** stn_block_compensation_pending_assemble into the caller's buffer. */
  method AssembleInto(p: Policy, pool: seq<Entry>, out: array<byte>)
    returns (failed: Option<DataStatus>, written: nat, count: nat)
    requires Table.Sorted(pool) && Standard(p)
    modifies out
    ensures match Assemble(p, pool, out.Length)
      case Err(e) => failed == Some(e)
      case Ok(txs) => failed == None && count == |txs| && written == |Block.BodyBytes(txs)| <= out.Length
                      && out[..written] == Block.BodyBytes(txs)
  {
    written, count := 0, 0;
    var generic := CollectGeneric(p, pool);
    if generic.Err? { return Some(generic.status), 0, 0; }
    DecodedPool(p, pool);
    var chosen: Outcome<seq<Entry>> := Ok([]);
    if |generic.value| != 0 {
      if !p.scanned { return Some(Content), 0, 0; }
      chosen := SelectLoop(p, generic.value, out.Length);
      if chosen.Err? { return Some(chosen.status), 0, 0; }
    }
    GenericBodyFits(p, pool, out.Length);
    var start := Values(chosen.value);
    var body := BlockLoops.BodyEncode(Check(p), start, out);
    assert out[..body.value] == Block.BodyBytes(start);
    failed, written, count := AppendPairs(p, pool, out, start, body.value, |start|);
  }

  /** The encoder accepts every generic selection. */
  lemma GenericBodyFits(p: Policy, pool: seq<Entry>, capacity: nat)
    requires Table.Sorted(pool) && WellFormedPool(p, pool) && AssembleGeneric(p, Generic(p, pool), capacity).Ok?
    ensures var txs := Values(AssembleGeneric(p, Generic(p, pool), capacity).value);
      BlockLoops.EncodeBody(Check(p), txs, capacity) == Ok(Block.BodyBytes(txs))
  {
    var chosen := AssembleGeneric(p, Generic(p, pool), capacity).value;
    GenericMeaning(p, pool);
    if Generic(p, pool) != [] { SelectMeaning(p, Generic(p, pool), capacity, 0, 0); }
    ValuesRoom(chosen);
    ValuesDrawn(pool, chosen);
    DrawnIsWellFormed(p, pool, Values(chosen));
    AllChecked(p, Values(chosen));
  }

  lemma {:induction false} AllChecked(p: Policy, txs: seq<seq<byte>>)
    requires Block.Transactions(Check(p), txs)
    ensures BlockLoops.CheckAll(Check(p), txs).Ok?
  {
    if txs != [] { AllChecked(p, txs[1..]); }
  }
}
