/** When a call on the store succeeds: exactly when the provider does its part, the caller is
    up to date, the history is acceptable and everything fits. */
module StorageProgress {
  import opened BigEndian
  import opened Status
  import opened Hashing
  import Block
  import opened Chain
  import opened Fork
  import opened StorageFormat
  import opened Storage
  import opened StorageRecovery

  /** The provider fails nowhere. */
  predicate Faultless(f: Faults) { f.acquire.None? && f.read.None? && f.replace.None? }

  /** An accepted history whose snapshot fits and can be hashed. */
  ghost predicate Encodable(core: Core, blocks: seq<seq<byte>>, capacity: nat) {
    && core.pow && blocks != [] && core.rebuild(blocks).Accepted?
    && |blocks| < 0x1_0000_0000 && 44 + |Block.BodyBytes(blocks)| <= capacity && core.digest(Framed(blocks)).Ok?
  }

  lemma EncodeWhen(core: Core, blocks: seq<seq<byte>>, capacity: nat)
    ensures Encode(core, blocks, capacity).Fine? <==> Encodable(core, blocks, capacity)
    ensures Accept(core, blocks).Fine? <==> core.pow && blocks != [] && core.rebuild(blocks).Accepted?
  {
  }

  /** Create succeeds exactly on an absent store, for an accepted history that fits. */
  lemma CreateWhen(core: Core, d: Disk, blocks: seq<seq<byte>>, capacity: nat, f: Faults)
    ensures Create(core, d, blocks, capacity, f).Fine? <==> d == Empty && Faultless(f) && Encodable(core, blocks, capacity)
  {
    EncodeWhen(core, blocks, capacity);
  }

  /** Extend succeeds exactly for a caller whose state is the stored history's, with a block
      that history accepts and room for the longer snapshot. */
  lemma ExtendWhen(core: Core, d: Disk, active: ChainState, block: seq<byte>, room: nat, capacity: nat, f: Faults)
    requires Reliable(core)
    ensures Storage.Extend(core, d, active, block, room, capacity, f).Fine? <==>
      && Faultless(f) && Current(core, d, active) && |d.bytes| <= room
      && |Decode(core, d.bytes).value.blocks| < 0xffff_ffff
      && Encodable(core, Decode(core, d.bytes).value.blocks + [block], capacity)
  {
    if Faultless(f) && Current(core, d, active) && |d.bytes| <= room && |Decode(core, d.bytes).value.blocks| < 0xffff_ffff {
      ReadExtends(core, d, active, block, room, capacity, f);
    }
  }

  lemma ReadExtends(core: Core, d: Disk, active: ChainState, block: seq<byte>, room: nat, capacity: nat, f: Faults)
    requires Reliable(core) && Faultless(f) && Current(core, d, active) && |d.bytes| <= room
    requires |Decode(core, d.bytes).value.blocks| < 0xffff_ffff
    ensures Storage.Extend(core, d, active, block, room, capacity, f).Fine? <==>
      Encodable(core, Decode(core, d.bytes).value.blocks + [block], capacity)
  {
    var x := Decode(core, d.bytes).value.blocks;
    DecodeMeans(core, d.bytes);
    DecodedIsLong(core, d.bytes);
    EncodeWhen(core, x + [block], capacity);
    if core.rebuild(x + [block]).Accepted? {
      AppendIsEncode(core, d.bytes, block, capacity, core.rebuild(x + [block]).state);
    }
  }

  /** Apply succeeds exactly for a caller whose state is the stored history's and whose plan is
      the one fork choice makes of the two histories, preferring the new one. */
  lemma ApplyWhen(core: Core, d: Disk, active: ChainState, blocks: seq<seq<byte>>, plan: Plan, room: nat, capacity: nat, f: Faults)
    ensures Apply(core, d, active, blocks, plan, room, capacity, f).Fine? <==>
      && Faultless(f) && Current(core, d, active) && |d.bytes| <= room && Encodable(core, blocks, capacity)
      && var e := Weigh(core.rebuild, core.id, Decode(core, d.bytes).value.blocks, blocks);
         e.result == PreferCandidate && e.Planned? && PlanEqual(plan, e.plan)
  {
    EncodeWhen(core, blocks, capacity);
    if d.Holding? && Decode(core, d.bytes).Fine? { DecodeMeans(core, d.bytes); }
  }

  /** Adopt succeeds exactly for an accepted history that fits, when the store could be read
      or recovered and what it holds gives way. */
  lemma AdoptWhen(core: Core, d: Disk, blocks: seq<seq<byte>>, room: nat, capacity: nat, f: Faults)
    ensures Adopt(core, d, blocks, room, capacity, f).Fine? <==>
      && Faultless(f) && Encodable(core, blocks, capacity) && Recover(core, d, room, None).Fine?
      && Yields(core, Recover(core, d, room, None).value, blocks)
  {
    EncodeWhen(core, blocks, capacity);
    if Recover(core, d, room, None).Fine? { YieldsWhen(core, Recover(core, d, room, None).value, blocks); }
  }

  /** Nothing is held, or fork choice prefers the new history, or a recovered one has the same
      work and the same tip. */
  ghost predicate Yields(core: Core, local: Recovery, blocks: seq<seq<byte>>) {
    local.blocks == []
    || var e := Weigh(core.rebuild, core.id, local.blocks, blocks);
       e.result == PreferCandidate
       || (local.recovering && e.result == Tie && e.Planned? && e.plan.current.tipId == e.plan.candidate.tipId)
  }

  lemma YieldsWhen(core: Core, local: Recovery, blocks: seq<seq<byte>>)
    ensures GivesWay(core, local, blocks).Fine? <==> Yields(core, local, blocks)
  {
  }

  /** What recovery reads: nothing from an absent store, the history of one that decodes, and
      otherwise what can be salvaged. */
  lemma RecoverWhen(core: Core, d: Disk, room: nat)
    requires core.pow && core.start.Ok?
    ensures d == Empty ==> Recover(core, d, room, None) == Fine(Recovery([], true))
    ensures d.Holding? && |d.bytes| > room ==> Recover(core, d, room, None) == Bad(OutOfCapacity)
    ensures d.Holding? && |d.bytes| <= room && Decode(core, d.bytes).Fine? ==>
      Recover(core, d, room, None) == Fine(Recovery(Decode(core, d.bytes).value.blocks, false))
    ensures d.Holding? && |d.bytes| <= room && (Decode(core, d.bytes) == Bad(FormatError) || Decode(core, d.bytes) == Bad(ValidationError)) ==>
      match SalvageFrom(core, d.bytes, core.start.value)
      case Fine(kept) => Recover(core, d, room, None) == Fine(Recovery(kept, true))
      case Bad(e) => Recover(core, d, room, None) == Bad(e)
  {
  }

  /** Why a call is refused when the provider fails nowhere: create finds a store, a caller of
      apply or extend is behind, or the history offered to apply or adopt has no more work. */
  lemma RefusedBecause(core: Core, d: Disk, active: ChainState, blocks: seq<seq<byte>>, block: seq<byte>, plan: Plan,
                       room: nat, capacity: nat, f: Faults)
    requires Faultless(f) && d.Holding? && |d.bytes| <= room && Decode(core, d.bytes).Fine? && Accept(core, blocks).Fine?
    ensures Create(core, d, blocks, capacity, f) == Bad(Exists)
    ensures !Current(core, d, active) ==>
      && Apply(core, d, active, blocks, plan, room, capacity, f) == Bad(Stale)
      && Storage.Extend(core, d, active, block, room, capacity, f) == Bad(Stale)
    ensures Weigh(core.rebuild, core.id, Decode(core, d.bytes).value.blocks, blocks).result in {PreferCurrent, Tie} ==>
      && (Current(core, d, active) ==> Apply(core, d, active, blocks, plan, room, capacity, f) == Bad(NotPreferred))
      && (core.start.Ok? ==> Adopt(core, d, blocks, room, capacity, f) == Bad(NotPreferred))
  {
    DecodeMeans(core, d.bytes);
  }
}
