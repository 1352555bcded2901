/** The storage operations step by step: buffers are filled by loops, the provider's snapshot
    is replaced as a whole, and a node's active state moves only after that. */
module StorageState {
  import opened BigEndian
  import opened Status
  import opened Hashing
  import opened Sequences
  import Block
  import BlockLoops
  import opened Chain
  import opened Fork
  import opened StorageFormat
  import opened Storage

  // -------------------------------------------------------------------------- buffers

  /** The record loop of stn_storage_decode over p[12 .. |p| - 32). */
  method ReadSpans(b: seq<byte>, count: nat) returns (r: Option<seq<seq<byte>>>)
    ensures r == Spans(b, count)
  {
    var blocks: seq<seq<byte>> := [];
    var offset: nat, i: nat := 0, 0;
    PrependNothing(Spans(b[0..], count));
    assert b[0..] == b;
    while i < count
      invariant i <= count && offset <= |b|
      invariant Spans(b, count) == Prepend(blocks, Spans(b[offset..], count - i))
    {
      SpanStep(b, offset, count - i);
      if |b| - offset < 4 { return None; }
      var n := Value(b[offset..offset + 4]);
      offset := offset + 4;
      if n < Block.HEADER_SIZE || n > Block.MAX_SIZE || n > |b| - offset { return None; }
      PrependMore(blocks, b[offset..offset + n], Spans(b[offset + n..], count - i - 1));
      blocks := blocks + [b[offset..offset + n]];
      offset := offset + n;
      i := i + 1;
    }
    assert blocks + [] == blocks;
    r := if offset == |b| then Some(blocks) else None;
  }

  function Prepend(blocks: seq<seq<byte>>, rest: Option<seq<seq<byte>>>): Option<seq<seq<byte>>> {
    match rest
    case None => None
    case Some(more) => Some(blocks + more)
  }

  lemma PrependNothing(rest: Option<seq<seq<byte>>>)
    ensures Prepend([], rest) == rest
  {
    if rest.Some? { assert [] + rest.value == rest.value; }
  }

  lemma PrependMore(blocks: seq<seq<byte>>, b: seq<byte>, rest: Option<seq<seq<byte>>>)
    ensures Prepend(blocks, Prepend([b], rest)) == Prepend(blocks + [b], rest)
  {
    if rest.Some? { Assoc(blocks, [b], rest.value); }
  }

  /** What the parse of the remaining bytes does with the record at `offset`. */
  lemma SpanStep(b: seq<byte>, offset: nat, k: nat)
    requires offset <= |b| && k > 0
    ensures var s := Spans(b[offset..], k);
      if |b| - offset < 4 then s == None
      else
        var n, at := Value(b[offset..offset + 4]), offset + 4;
        if n < Block.HEADER_SIZE || n > Block.MAX_SIZE || n > |b| - at then s == None
        else s == Prepend([b[at..at + n]], Spans(b[at + n..], k - 1))
  {
    var rest := b[offset..];
    if |rest| >= 4 {
      assert b[offset..offset + 4] == rest[..4];
      var n := Value(rest[..4]);
      if n <= |rest| - 4 {
        assert b[offset + 4..offset + 4 + n] == rest[4..4 + n];
        assert b[offset + 4 + n..] == rest[4 + n..];
      }
    }
  }

  /** Writing consecutive pieces from the front of a buffer. */
  method Put(out: array<byte>, at: nat, piece: seq<byte>)
    requires at + |piece| <= out.Length
    modifies out
    ensures out[..at + |piece|] == old(out[..at]) + piece
  {
    ghost var before := out[..];
    BlockLoops.Copy(out, at, piece);
    assert out[..at + |piece|] == before[..at] + piece;
  }

  /** The record loop of stn_storage_encode behind an already written head. */
  method WriteRecords(out: array<byte>, at: nat, blocks: seq<seq<byte>>) returns (end: nat)
    requires at + |Block.BodyBytes(blocks)| <= out.Length
    modifies out
    ensures end == at + |Block.BodyBytes(blocks)| && out[..end] == old(out[..at]) + Block.BodyBytes(blocks)
  {
    end := at;
    ghost var head := out[..at];
    var i: nat := 0;
    assert head + Block.BodyBytes([]) == head;
    while i < |blocks|
      invariant i <= |blocks| && end == at + |Block.BodyBytes(blocks[..i])| <= out.Length
      invariant out[..end] == head + Block.BodyBytes(blocks[..i])
    {
      BlockLoops.NextEntry(blocks, i);
      var e := BlockLoops.Prefixed(blocks[i]);
      Assoc(head, Block.BodyBytes(blocks[..i]), e);
      Put(out, end, e);
      end := end + |e|;
      i := i + 1;
    }
    assert blocks[..i] == blocks;
  }

  /** stn_storage_encode into a caller's buffer. */
  method EncodeInto(core: Core, blocks: seq<seq<byte>>, out: array<byte>) returns (r: Stored<nat>)
    modifies out
    ensures Filled(r, out[..], Encode(core, blocks, out.Length))
  {
    if |blocks| >= 0x1_0000_0000 { return Bad(OutOfCapacity); }
    var s := Accept(core, blocks);
    if s.Bad? { return Bad(s.status); }
    var total := OVERHEAD + |Block.BodyBytes(blocks)|;
    if total > out.Length { return Bad(OutOfCapacity); }
    HeadReads(|blocks|);
    Put(out, 0, Head(|blocks|));
    assert out[..PREFIX] == Head(|blocks|);
    var end := WriteRecords(out, PREFIX, blocks);
    var h := DigestOf(core, out[..end]);
    if h.Bad? { return Bad(h.status); }
    Put(out, end, h.value);
    r := Fine(total);
  }

  /** On success the buffer starts with exactly the specified bytes. */
  ghost predicate Filled(r: Stored<nat>, out: seq<byte>, spec: Stored<seq<byte>>) {
    match spec
    case Bad(e) => r == Bad(e)
    case Fine(b) => r == Fine(|b|) && |b| <= |out| && out[..|b|] == b
  }

  /** The fast append of stn_storage_extend: copy, patch the count, add one record, digest. */
  method AppendInto(core: Core, p: seq<byte>, n: nat, block: seq<byte>, out: array<byte>) returns (r: Stored<nat>)
    requires |p| >= OVERHEAD
    modifies out
    ensures Filled(r, out[..], Append(core, p, n, block, out.Length))
  {
    var encoded := |p| + 4 + |block|;
    if encoded > out.Length { return Bad(OutOfCapacity); }
    var offset := |p| - 32;
    Put(out, 0, p[..8]);
    Put(out, 8, Bytes(4, n));
    Put(out, PREFIX, p[PREFIX..offset]);
    Put(out, offset, Bytes(4, |block|));
    Put(out, offset + 4, block);
    assert out[..encoded - 32] == Spliced(p, n, block);
    var h := DigestOf(core, out[..encoded - 32]);
    if h.Bad? { return Bad(h.status); }
    Put(out, encoded - 32, h.value);
    r := Fine(encoded);
  }

  // ------------------------------------------------------------------ provider, nodes

  class Provider {
    var disk: Disk

    constructor (d: Disk)
      ensures disk == d
    {
      disk := d;
    }

    /** Replacing publishes all bytes or nothing. */
    method Replace(bytes: seq<byte>, fault: Option<StorageStatus>) returns (failed: Option<StorageStatus>)
      modifies this
      ensures failed == (if fault.Some? then Some(IoStatus(fault.value)) else None)
      ensures disk == if fault.Some? then old(disk) else Holding(bytes)
    {
      if fault.Some? { return Some(IoStatus(fault.value)); }
      disk := Holding(bytes);
      failed := None;
    }
  }

  class Node {
    var active: ChainState

    constructor (s: ChainState)
      ensures active == s
    {
      active := s;
    }
  }

  /** A failure leaves provider and node as they were; a success is the specified one. */
  ghost predicate Effect(failed: Option<StorageStatus>, spec: Stored<Publication>,
                         diskBefore: Disk, diskAfter: Disk, before: ChainState, after: ChainState) {
    match spec
    case Bad(e) => failed == Some(e) && diskAfter == diskBefore && after == before
    case Fine(p) => failed == None && diskAfter == Holding(p.bytes) && after == p.active
  }

  /** The common end of all four operations: encode, replace, and only then move the state. */
  method Finish(core: Core, blocks: seq<seq<byte>>, next: ChainState, out: array<byte>, fault: Option<StorageStatus>,
                p: Provider, node: Node)
    returns (failed: Option<StorageStatus>)
    modifies p, node, out
    ensures Effect(failed, Publish(Encode(core, blocks, out.Length), next, fault), old(p.disk), p.disk, old(node.active), node.active)
  {
    var n := EncodeInto(core, blocks, out);
    if n.Bad? { return Some(n.status); }
    failed := p.Replace(out[..n.value], fault);
    if failed.None? { node.active := next; }
  }

  method CreateStore(core: Core, blocks: seq<seq<byte>>, scratch: array<byte>, f: Faults, p: Provider, node: Node)
    returns (failed: Option<StorageStatus>)
    modifies p, node, scratch
    ensures Effect(failed, Create(core, old(p.disk), blocks, scratch.Length, f), old(p.disk), p.disk, old(node.active), node.active)
  {
    var s := Accept(core, blocks);
    if s.Bad? { return Some(s.status); }
    if f.acquire.Some? { return Some(IoStatus(f.acquire.value)); }
    var r := Read(p.disk, 0, f.read);
    if r.Fine? || r.status == OutOfCapacity { return Some(Exists); }
    if r.status != NotFound { return Some(r.status); }
    failed := Finish(core, blocks, s.value, scratch, f.replace, p, node);
  }

  method ApplyPlan(core: Core, blocks: seq<seq<byte>>, plan: Plan, room: nat, out: array<byte>, f: Faults, p: Provider, node: Node)
    returns (failed: Option<StorageStatus>)
    modifies p, node, out
    ensures Effect(failed, Apply(core, old(p.disk), old(node.active), blocks, plan, room, out.Length, f),
                   old(p.disk), p.disk, old(node.active), node.active)
  {
    if f.acquire.Some? { return Some(IoStatus(f.acquire.value)); }
    var v := ReadLocked(core, p.disk, room, f.read);
    if v.Bad? { return Some(v.status); }
    if !StateEqual(node.active, v.value.state) { return Some(Stale); }
    var e := if core.pow then Weigh(core.rebuild, core.id, v.value.blocks, blocks) else NoPlan(Unsupported);
    if e.result != PreferCandidate { return Some(NotCandidate(e.result)); }
    if e.NoPlan? || !PlanEqual(plan, e.plan) { return Some(Stale); }
    failed := Finish(core, blocks, e.plan.candidate, out, f.replace, p, node);
  }

  method ExtendStore(core: Core, block: seq<byte>, room: nat, out: array<byte>, f: Faults, p: Provider, node: Node)
    returns (failed: Option<StorageStatus>)
    modifies p, node, out
    ensures Effect(failed, Storage.Extend(core, old(p.disk), old(node.active), block, room, out.Length, f),
                   old(p.disk), p.disk, old(node.active), node.active)
  {
    if f.acquire.Some? { return Some(IoStatus(f.acquire.value)); }
    var bytes := Read(p.disk, room, f.read);
    if bytes.Bad? { return Some(bytes.status); }
    var v := Decode(core, bytes.value);
    if v.Bad? { return Some(v.status); }
    if !StateEqual(node.active, v.value.state) { return Some(Stale); }
    if |v.value.blocks| >= 0xffff_ffff { return Some(OutOfCapacity); }
    var r := core.rebuild(v.value.blocks + [block]);
    if r.Failed? { return Some(if AcceptanceOf(r) == UnresolvedYet then UnresolvedHash else ValidationError); }
    DecodedIsLong(core, bytes.value);
    var n := AppendInto(core, bytes.value, |v.value.blocks| + 1, block, out);
    if n.Bad? { return Some(n.status); }
    failed := p.Replace(out[..n.value], f.replace);
    if failed.None? { node.active := r.state; }
  }

  method AdoptHistory(core: Core, blocks: seq<seq<byte>>, room: nat, out: array<byte>, f: Faults, p: Provider, node: Node)
    returns (failed: Option<StorageStatus>)
    modifies p, node, out
    ensures Effect(failed, Adopt(core, old(p.disk), blocks, room, out.Length, f), old(p.disk), p.disk, old(node.active), node.active)
  {
    var s := Accept(core, blocks);
    if s.Bad? { return Some(s.status); }
    if f.acquire.Some? { return Some(IoStatus(f.acquire.value)); }
    var local := Recover(core, p.disk, room, f.read);
    if local.Bad? { return Some(local.status); }
    var way := GivesWay(core, local.value, blocks);
    if way.Bad? { return Some(way.status); }
    failed := Finish(core, blocks, s.value, out, f.replace, p, node);
  }

  /** The salvage loop of recovery_locked. */
  method SalvageRecords(core: Core, p: seq<byte>, count: nat, start: ChainState) returns (r: Stored<seq<seq<byte>>>)
    ensures r == Salvage(core, p, count, start)
  {
    var blocks: seq<seq<byte>> := [];
    var s, offset: nat, i: nat := start, 0, 0;
    BeforeNothing(Salvage(core, p[0..], count, start));
    assert p[0..] == p;
    while i < count
      invariant i <= count && offset <= |p|
      invariant Salvage(core, p, count, start) == Before(blocks, Salvage(core, p[offset..], count - i, s))
    {
      ghost var rest := p[offset..];
      if |p| - offset < 4 { break; }
      assert p[offset..offset + 4] == rest[..4];
      var n := Value(p[offset..offset + 4]);
      if n < Block.HEADER_SIZE || n > Block.MAX_SIZE || n > |p| - offset - 4 { break; }
      var b := p[offset + 4..offset + 4 + n];
      assert b == rest[4..4 + n] && p[offset + 4 + n..] == rest[4 + n..];
      var report := core.recheck(s, b);
      var verdict := AcceptanceOf(report);
      if verdict == UnresolvedYet { return Bad(UnresolvedHash); }
      if verdict == Faulty { return Bad(IoError); }
      if verdict == Rejected { break; }
      BeforeMore(blocks, b, Salvage(core, p[offset + 4 + n..], count - i - 1, report.state));
      blocks, s := blocks + [b], report.state;
      offset, i := offset + 4 + n, i + 1;
    }
    assert blocks + [] == blocks;
    r := Fine(blocks);
  }

  function Before(blocks: seq<seq<byte>>, rest: Stored<seq<seq<byte>>>): Stored<seq<seq<byte>>> {
    match rest
    case Bad(e) => Bad(e)
    case Fine(more) => Fine(blocks + more)
  }

  lemma BeforeNothing(rest: Stored<seq<seq<byte>>>)
    ensures Before([], rest) == rest
  {
    if rest.Fine? { assert [] + rest.value == rest.value; }
  }

  lemma BeforeMore(blocks: seq<seq<byte>>, b: seq<byte>, rest: Stored<seq<seq<byte>>>)
    ensures Before(blocks, Before([b], rest)) == Before(blocks + [b], rest)
  {
    if rest.Fine? { Assoc(blocks, [b], rest.value); }
  }
}
