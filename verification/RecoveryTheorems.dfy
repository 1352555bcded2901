/** What recovery does to a damaged store that the real chain validator wrote. */
module RecoveryTheorems {
  import opened BigEndian
  import opened Status
  import opened Hashing
  import opened Sequences
  import Block
  import opened Chain
  import ChainTheorems
  import opened ChainRecovery
  import opened Fork
  import opened StorageFormat
  import opened Storage
  import opened StorageRecovery
  import opened StorageState
  import opened StorageTheorems

  /** What a walk over records of `x` and a tail answers, by what judging `x` answers. */
  ghost predicate Over(core: Core, j: Report, x: seq<seq<byte>>, tail: seq<byte>, left: nat, r: Stored<seq<seq<byte>>>) {
    && (j.Accepted? ==> r == Before(x, Salvage(core, tail, left, j.state)))
    && (j.Failed? && j.detail == Unresolved ==> r == Bad(UnresolvedHash))
  }

  lemma OverLonger(core: Core, j: Report, b: seq<byte>, rest: seq<seq<byte>>, tail: seq<byte>, left: nat, r: Stored<seq<seq<byte>>>)
    requires Over(core, j, rest, tail, left, r)
    ensures Over(core, j, [b] + rest, tail, left, Behind(b, r))
  {
    if j.Accepted? { BeforeOne(b, rest, Salvage(core, tail, left, j.state)); }
  }

  ghost predicate Walks(core: Core, x: seq<seq<byte>>, tail: seq<byte>, count: nat, s: ChainState) {
    && |x| <= count
    && Over(core, Judged(core.recheck, s, x), x, tail, count - |x|, Salvage(core, Block.BodyBytes(x) + tail, count, s))
  }

  lemma {:induction false} SalvageOver(core: Core, x: seq<seq<byte>>, tail: seq<byte>, count: nat, s: ChainState)
    requires AllSized(x) && |x| <= count
    ensures Walks(core, x, tail, count, s)
    decreases |x|
  {
    if x == [] {
      OverNothing(core, tail, count, s);
    } else {
      var b, rest := x[0], x[1..];
      if core.recheck(s, b).Accepted? { SalvageOver(core, rest, tail, count - 1, core.recheck(s, b).state); }
      OverStep(core, b, rest, tail, count, s);
      assert [b] + rest == x;
    }
  }

  lemma OverNothing(core: Core, tail: seq<byte>, count: nat, s: ChainState)
    ensures Walks(core, [], tail, count, s)
  {
    assert [] + tail == tail;
    BeforeNothing(Salvage(core, tail, count, s));
  }

  lemma OverStep(core: Core, b: seq<byte>, rest: seq<seq<byte>>, tail: seq<byte>, count: nat, s: ChainState)
    requires Sized(b) && |rest| < count
    requires core.recheck(s, b).Accepted? ==> Walks(core, rest, tail, count - 1, core.recheck(s, b).state)
    ensures Walks(core, [b] + rest, tail, count, s)
  {
    JudgedFront(core.recheck, s, b, rest);
    if core.recheck(s, b).Accepted? {
      var n := core.recheck(s, b).state;
      SalvageFirst(core, b, rest, tail, count, s);
      OverLonger(core, Judged(core.recheck, n, rest), b, rest, tail, count - 1 - |rest|,
                 Salvage(core, Block.BodyBytes(rest) + tail, count - 1, n));
    } else if core.recheck(s, b).detail == Unresolved {
      RecordInFront(b, rest, tail);
      SalvageRefuses(core, Block.BodyBytes([b] + rest) + tail, count, s);
    }
  }

  lemma SalvageFirst(core: Core, b: seq<byte>, rest: seq<seq<byte>>, tail: seq<byte>, count: nat, s: ChainState)
    requires Sized(b) && |rest| < count && core.recheck(s, b).Accepted?
    ensures var n, x := core.recheck(s, b).state, [b] + rest;
      Salvage(core, Block.BodyBytes(x) + tail, count, s) == Behind(b, Salvage(core, Block.BodyBytes(rest) + tail, count - 1, n))
  {
    RecordInFront(b, rest, tail);
    SalvageAfter(core, Block.BodyBytes([b] + rest) + tail, b, Block.BodyBytes(rest) + tail, count, s);
  }

  lemma SalvageAfter(core: Core, p: seq<byte>, b: seq<byte>, q: seq<byte>, count: nat, s: ChainState)
    requires count > 0 && !Broken(p) && First(p) == b && p[4 + |b|..] == q && core.recheck(s, b).Accepted?
    ensures Salvage(core, p, count, s) == Behind(b, Salvage(core, q, count - 1, core.recheck(s, b).state))
  {
    SalvageUnfolds(core, p, count, s);
  }

  lemma BeforeOne(b: seq<byte>, rest: seq<seq<byte>>, r: Stored<seq<seq<byte>>>)
    ensures Behind(b, Before(rest, r)) == Before([b] + rest, r)
  {
    if r.Fine? { Assoc([b], rest, r.value); }
  }

  lemma SalvageRefuses(core: Core, p: seq<byte>, count: nat, s: ChainState)
    requires count > 0 && !Broken(p) && core.recheck(s, First(p)).Failed? && core.recheck(s, First(p)).detail == Unresolved
    ensures Salvage(core, p, count, s) == Bad(UnresolvedHash)
  {
  }

  lemma RecordInFront(b: seq<byte>, rest: seq<seq<byte>>, tail: seq<byte>)
    requires Sized(b)
    ensures var p := Block.BodyBytes([b] + rest) + tail;
      !Broken(p) && First(p) == b && p[4 + |b|..] == Block.BodyBytes(rest) + tail
  {
    assert ([b] + rest)[1..] == rest;
    PowTable();
    ValueOfBytes(4, |b|);
    WordInFront(Bytes(4, |b|), b, Block.BodyBytes(rest), tail);
  }

  lemma WordInFront(word: seq<byte>, b: seq<byte>, body: seq<byte>, tail: seq<byte>)
    requires |word| == 4
    ensures var p := word + b + body + tail;
      p[..4] == word && p[4..4 + |b|] == b && p[4 + |b|..] == body + tail
  {
  }

  /** A snapshot that starts like the one of `x`, and then goes on with anything. */
  function Damaged(x: seq<seq<byte>>, count: nat, tail: seq<byte>): seq<byte> {
    Head(count) + (Block.BodyBytes(x) + tail)
  }

  ghost predicate Reads(core: Core, x: seq<seq<byte>>, count: nat, tail: seq<byte>, s: ChainState, most: nat) {
    SalvageFrom(core, Damaged(x, count, tail), s) == Salvage(core, Block.BodyBytes(x) + tail, most, s)
  }

  lemma DamagedReads(core: Core, x: seq<seq<byte>>, count: nat, tail: seq<byte>, s: ChainState)
    requires AllSized(x) && |x| <= count < 0x1_0000_0000
    ensures exists most: nat :: |x| <= most <= count && Reads(core, x, count, tail, s, most)
  {
    var p, body := Damaged(x, count, tail), Block.BodyBytes(x) + tail;
    HeadReads(count);
    RecordsAreLong(x);
    assert p[..PREFIX] == Head(count) && p[PREFIX..] == body;
    CountFits(|x|, |body|);
    assert Reads(core, x, count, tail, s, Min(count, |body| / MIN_RECORD));
  }

  /** What the walk over such a snapshot answers, by what judging the front of it answers. */
  lemma DamagedSalvage(core: Core, x: seq<seq<byte>>, count: nat, tail: seq<byte>, s: ChainState)
    requires AllSized(x) && |x| <= count < 0x1_0000_0000
    ensures var j, r := Judged(core.recheck, s, x), SalvageFrom(core, Damaged(x, count, tail), s);
      && (j.Accepted? && r.Fine? ==> x <= r.value)
      && (j.Accepted? && tail == [] ==> r == Fine(x))
      && (j.Failed? && j.detail == Unresolved ==> r == Bad(UnresolvedHash))
  {
    DamagedReads(core, x, count, tail, s);
    var most: nat :| |x| <= most <= count && Reads(core, x, count, tail, s, most);
    SalvageOver(core, x, tail, most, s);
    if tail == [] { assert x + [] == x; }
  }

  /** However a store was damaged behind a history the validator accepted, recovery never
      cuts into that history: it keeps all of it, or reports that it could not be judged. */
  lemma RecoveryKeepsHistory(env: Env, c: Context, x: seq<seq<byte>>, count: nat, tail: seq<byte>)
    requires After(env, c, x).Accepted? && |x| <= count < 0x1_0000_0000
    ensures Initialize(env, c).Ok?
    ensures var r := SalvageFrom(CoreOf(env, c), Damaged(x, count, tail), Initialize(env, c).value);
      && (r.Fine? ==> x <= r.value)
      && (tail == [] ==> r == Fine(x) || r == Bad(UnresolvedHash))
      && (tail == [] && r == Fine(x) ==> Judged(Alone(env, c), Initialize(env, c).value, x) == After(env, c, x))
  {
    HistoryJudged(env, c, x);
    AcceptedSized(env, c, x);
    SameJudge(env, c, Initialize(env, c).value, x);
    DamagedSalvage(CoreOf(env, c), x, count, tail, Initialize(env, c).value);
  }

  lemma SameJudge(env: Env, c: Context, s: ChainState, x: seq<seq<byte>>)
    ensures Judged(CoreOf(env, c).recheck, s, x) == Judged(Alone(env, c), s, x)
    decreases |x|
  {
    if x != [] { SameJudge(env, c, s, x[..|x| - 1]); }
  }

  lemma AcceptedSized(env: Env, c: Context, x: seq<seq<byte>>)
    requires After(env, c, x).Accepted?
    ensures AllSized(x)
  {
    ChainTheorems.AcceptedObeysRules(env, c, x);
    RuledIsSized(env, c, x);
  }

  /** Share evidence stops recovery: a damaged store that starts with an accepted history
      holding some is never taken over by adopting another one. */
  lemma SharesStopRecovery(env: Env, c: Context, x: seq<seq<byte>>, count: nat, tail: seq<byte>)
    requires After(env, c, x).Accepted? && |x| <= count < 0x1_0000_0000
    requires HoldsShare(env, x) && NeighboursDiffer(env, c, x)
    ensures Initialize(env, c).Ok?
    ensures SalvageFrom(CoreOf(env, c), Damaged(x, count, tail), Initialize(env, c).value) == Bad(UnresolvedHash)
  {
    HistoryJudged(env, c, x);
    AcceptedSized(env, c, x);
    var core, s := CoreOf(env, c), Initialize(env, c).value;
    if Judged(Alone(env, c), s, x).Accepted? { KeptIsHistory(env, c, x); }
    SameJudge(env, c, s, x);
    DamagedSalvage(core, x, count, tail, s);
  }

  lemma AdoptIsStuck(env: Env, c: Context, x: seq<seq<byte>>, count: nat, tail: seq<byte>, blocks: seq<seq<byte>>,
                     room: nat, capacity: nat, f: Faults)
    requires After(env, c, x).Accepted? && |x| <= count < 0x1_0000_0000
    requires HoldsShare(env, x) && NeighboursDiffer(env, c, x)
    requires Decode(CoreOf(env, c), Damaged(x, count, tail)).Bad?
    ensures Adopt(CoreOf(env, c), Holding(Damaged(x, count, tail)), blocks, room, capacity, f).Bad?
  {
    SharesStopRecovery(env, c, x, count, tail);
    var core, d := CoreOf(env, c), Holding(Damaged(x, count, tail));
    if Adopt(core, d, blocks, room, capacity, f).Fine? { AdoptOverDamage(core, d, blocks, room, capacity, f); }
  }
}
