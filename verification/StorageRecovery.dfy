/** What recovery keeps of a store that no longer decodes (src/stn_storage.c, recovery_locked
    and stn_storage_adopt): exactly the records that can be taken one after the other. */
module StorageRecovery {
  import opened BigEndian
  import opened Hashing
  import Block
  import opened Chain
  import opened Fork
  import opened StorageFormat
  import opened Storage

  /** A record that is cut short or has no legal size. */
  predicate Broken(p: seq<byte>) {
    |p| < 4 || Value(p[..4]) < 168 || Value(p[..4]) > 2140488 || Value(p[..4]) > |p| - 4
  }

  /** The block in the first record. */
  function First(p: seq<byte>): seq<byte>
    requires !Broken(p)
  {
    p[4..4 + Value(p[..4])]
  }

  /** These records lie at the front of `p`, and each was accepted in the state the one before
      it left. */
  ghost predicate Walked(core: Core, p: seq<byte>, s: ChainState, kept: seq<seq<byte>>, states: seq<ChainState>) {
    && AllSized(kept) && Block.BodyBytes(kept) <= p
    && |states| == |kept| + 1 && states[0] == s
    && forall i :: 0 <= i < |kept| ==> core.recheck(states[i], kept[i]) == Accepted(states[i + 1])
  }

  /** Why the walk ended in state `s` with `left` records to go and `rest` to read, and what
      it answers then. */
  ghost predicate Ended(core: Core, rest: seq<byte>, left: nat, s: ChainState, kept: seq<seq<byte>>, r: Stored<seq<seq<byte>>>) {
    if left == 0 || Broken(rest) then r == Fine(kept)
    else
      match AcceptanceOf(core.recheck(s, First(rest)))
      case UnderContext => false
      case Rejected => r == Fine(kept)
      case UnresolvedYet => r == Bad(UnresolvedHash)
      case Faulty => r == Bad(IoError)
  }

  ghost predicate WalkEnds(core: Core, p: seq<byte>, count: nat, s: ChainState, kept: seq<seq<byte>>, states: seq<ChainState>,
                           r: Stored<seq<seq<byte>>>) {
    && Walked(core, p, s, kept, states) && |kept| <= count
    && Ended(core, p[|Block.BodyBytes(kept)|..], count - |kept|, states[|kept|], kept, r)
  }

  /** Salvage keeps the longest run of records that can be taken one after the other: it stops
      at the count, at a record that is cut short or out of size, or at one that is rejected
      in the state reached so far, and fails only at one that cannot be judged there. */
  lemma {:induction false} SalvageMeaning(core: Core, p: seq<byte>, count: nat, s: ChainState)
    ensures exists kept, states :: WalkEnds(core, p, count, s, kept, states, Salvage(core, p, count, s))
    decreases count
  {
    var r := Salvage(core, p, count, s);
    if count == 0 || Broken(p) || !core.recheck(s, First(p)).Accepted? {
      assert WalkEnds(core, p, count, s, [], [s], r);
    } else {
      var b, n := First(p), core.recheck(s, First(p)).state;
      var rest := p[4 + |b|..];
      SalvageMeaning(core, rest, count - 1, n);
      var kept, states :| WalkEnds(core, rest, count - 1, n, kept, states, Salvage(core, rest, count - 1, n));
      SalvageUnfolds(core, p, count, s);
      WalkLonger(core, p, count, s, kept, states, Salvage(core, rest, count - 1, n));
    }
  }

  /** The loop's answer, with a record put in front of what is kept behind it. */
  function Behind(b: seq<byte>, r: Stored<seq<seq<byte>>>): Stored<seq<seq<byte>>> {
    match r
    case Fine(more) => Fine([b] + more)
    case Bad(e) => Bad(e)
  }

  lemma SalvageUnfolds(core: Core, p: seq<byte>, count: nat, s: ChainState)
    requires count > 0 && !Broken(p) && core.recheck(s, First(p)).Accepted?
    ensures Salvage(core, p, count, s)
      == Behind(First(p), Salvage(core, p[4 + |First(p)|..], count - 1, core.recheck(s, First(p)).state))
  {
  }

  lemma WalkLonger(core: Core, p: seq<byte>, count: nat, s: ChainState, kept: seq<seq<byte>>, states: seq<ChainState>,
                   r: Stored<seq<seq<byte>>>)
    requires count > 0 && !Broken(p) && core.recheck(s, First(p)).Accepted?
    requires WalkEnds(core, p[4 + |First(p)|..], count - 1, core.recheck(s, First(p)).state, kept, states, r)
    ensures WalkEnds(core, p, count, s, [First(p)] + kept, [s] + states, Behind(First(p), r))
  {
    var b, rest := First(p), p[4 + |First(p)|..];
    var all, trail := [b] + kept, [s] + states;
    FirstRecord(p, kept);
    ConsSized(b, kept);
    forall i | 0 <= i < |all| ensures core.recheck(trail[i], all[i]) == Accepted(trail[i + 1]) {
      if i > 0 { assert core.recheck(states[i - 1], kept[i - 1]) == Accepted(states[i]); }
    }
    EndedLonger(core, p[|Block.BodyBytes(all)|..], count - |all|, states[|kept|], b, kept, r);
    assert trail[|all|] == states[|kept|];
  }

  lemma EndedLonger(core: Core, rest: seq<byte>, left: nat, s: ChainState, b: seq<byte>, kept: seq<seq<byte>>, r: Stored<seq<seq<byte>>>)
    requires Ended(core, rest, left, s, kept, r)
    ensures Ended(core, rest, left, s, [b] + kept, Behind(b, r))
  {
  }

  /** A record in front of records. */
  lemma FirstRecord(p: seq<byte>, kept: seq<seq<byte>>)
    requires !Broken(p) && Block.BodyBytes(kept) <= p[4 + |First(p)|..]
    ensures var all := [First(p)] + kept;
      && Block.BodyBytes(all) <= p
      && p[|Block.BodyBytes(all)|..] == p[4 + |First(p)|..][|Block.BodyBytes(kept)|..]
  {
    var b, all, body := First(p), [First(p)] + kept, Block.BodyBytes(kept);
    assert all[1..] == kept;
    BytesOfValue(p[..4]);
    assert Block.BodyBytes(all) == Bytes(4, |b|) + b + body;
    assert p == p[..4] + b + p[4 + |b|..];
    assert p[..4 + |b| + |body|] == p[..4] + b + p[4 + |b|..][..|body|];
  }

  // ---------------------------------------------------------------------- the store

  /** The records start behind twelve bytes and are as many as these announce; framing of
      another kind is not guessed at. */
  lemma HeadedSalvage(core: Core, p: seq<byte>, s: ChainState)
    ensures |p| < 12 || !GoodHead(p) ==> SalvageFrom(core, p, s) == Fine([])
    ensures |p| >= 12 && GoodHead(p) ==>
      exists kept, states :: WalkEnds(core, p[12..], CountIn(p), s, kept, states, SalvageFrom(core, p, s))
  {
    if |p| >= 12 && GoodHead(p) { WalkFromHead(core, p, s); }
  }

  lemma WalkFromHead(core: Core, p: seq<byte>, s: ChainState)
    requires |p| >= 12 && GoodHead(p)
    ensures exists kept, states :: WalkEnds(core, p[12..], CountIn(p), s, kept, states, SalvageFrom(core, p, s))
  {
    var most := (|p| - 12) / 172;
    var count := Min(CountIn(p), most);
    SalvageMeaning(core, p[12..], count, s);
    var r := SalvageFrom(core, p, s);
    var kept, states :| WalkEnds(core, p[12..], count, s, kept, states, r);
    if count < CountIn(p) { BoundIsFree(core, p[12..], count, CountIn(p), s, kept, states, r); }
  }

  /** Bounding the count by what the bytes could hold changes nothing. */
  lemma BoundIsFree(core: Core, p: seq<byte>, count: nat, more: nat, s: ChainState, kept: seq<seq<byte>>,
                    states: seq<ChainState>, r: Stored<seq<seq<byte>>>)
    requires WalkEnds(core, p, count, s, kept, states, r) && count == |p| / 172 <= more
    ensures WalkEnds(core, p, more, s, kept, states, r)
  {
    if |kept| == count {
      RecordsAreLong(kept);
      assert Broken(p[|Block.BodyBytes(kept)|..]);
    }
  }

  /** A tie between two accepted histories. */
  lemma TieMeans(rebuild: Rebuild, id: Identify, x: seq<seq<byte>>, y: seq<seq<byte>>)
    requires Weigh(rebuild, id, x, y).result == Tie && Weigh(rebuild, id, x, y).Planned?
    ensures var p := Weigh(rebuild, id, x, y).plan;
      && rebuild(x) == Accepted(p.current) && rebuild(y) == Accepted(p.candidate)
      && Value(p.current.work) == Value(p.candidate.work)
  {
  }

  /** Nothing was kept, or what was kept is an accepted history that the adopted one beats,
      or ties with under the same tip. */
  ghost predicate Outweighs(core: Core, kept: seq<seq<byte>>, blocks: seq<seq<byte>>) {
    kept == []
    || (core.rebuild(kept).Accepted? && core.rebuild(blocks).Accepted?
        && var k, n := core.rebuild(kept).state, core.rebuild(blocks).state;
           Value(k.work) < Value(n.work) || (Value(k.work) == Value(n.work) && k.tipId == n.tipId))
  }

  lemma WayGiven(core: Core, local: Recovery, blocks: seq<seq<byte>>)
    requires GivesWay(core, local, blocks).Fine?
    ensures Outweighs(core, local.blocks, blocks)
  {
    if local.blocks != [] {
      var e := Weigh(core.rebuild, core.id, local.blocks, blocks);
      if e.result == PreferCandidate {
        PreferredWins(core.rebuild, core.id, local.blocks, blocks);
      } else {
        TieMeans(core.rebuild, core.id, local.blocks, blocks);
      }
    }
  }

  /** Adoption over a store that does not decode: the walk over its records came to an end
      without a record that could not be judged, and what it kept does not outweigh the
      adopted history. */
  lemma AdoptOverDamage(core: Core, d: Disk, blocks: seq<seq<byte>>, room: nat, capacity: nat, f: Faults)
    requires Adopt(core, d, blocks, room, capacity, f).Fine? && d.Holding? && Decode(core, d.bytes).Bad?
    ensures core.start.Ok? && SalvageFrom(core, d.bytes, core.start.value).Fine?
    ensures Outweighs(core, SalvageFrom(core, d.bytes, core.start.value).value, blocks)
    ensures core.rebuild(blocks) == Accepted(Adopt(core, d, blocks, room, capacity, f).value.active)
  {
    AdoptFacts(core, d, blocks, room, capacity, f);
    AcceptMeans(core, blocks);
    WayGiven(core, Recover(core, d, room, f.read).value, blocks);
  }
}
