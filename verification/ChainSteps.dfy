/** One accepted block extends what the state says about its history. */
module ChainSteps {
  import opened BigEndian
  import opened Status
  import opened Hashing
  import Pow
  import Block
  import opened Economy
  import opened Chain
  import opened ChainHeaders

  /** What the checks before the transaction loop establish about a block. */
  ghost predicate Fresh(env: Env, c: Context, s: ChainState, b: seq<byte>) {
    var h := HeaderOf(env, b);
    && DecodeBlock(env, b).Ok? && h.version == (if c.bootstrap.Some? then 3 else 1)
    && CheckLink(c, s, h, b).None? && CheckTarget(env, c, s, h).Ok?
    && IdOf(env, c.provider, b).Ok? && !Zero(IdOf(env, c.provider, b).value)
    && (c.bootstrap.Some? ==> CheckWork(IdOf(env, c.provider, b).value, h.target).Ok? && AddWork(s.work, h.target).Ok?)
  }

  lemma PassedIsFresh(env: Env, c: Context, s: ChainState, b: seq<byte>)
    requires CheckBlock(env, c, s, b).None?
    ensures Fresh(env, c, s, b) && ContextValid(env, c).Ok?
    ensures DecodeTxs(env, DecodeBlock(env, b).value.transactions).Ok?
    ensures CheckIdentifier(env, c, s, HeaderOf(env, b), b).None?
  {
    PassedChecks(env, c, s, b);
    PassedIdentifier(env, c, s, HeaderOf(env, b), b);
  }

  lemma PassedChecks(env: Env, c: Context, s: ChainState, b: seq<byte>)
    requires CheckBlock(env, c, s, b).None?
    ensures ContextValid(env, c).Ok? && DecodeBlock(env, b).Ok?
    ensures HeaderOf(env, b).version == (if c.bootstrap.Some? then 3 else 1)
    ensures CheckLink(c, s, HeaderOf(env, b), b).None? && CheckTarget(env, c, s, HeaderOf(env, b)).Ok?
    ensures DecodeTxs(env, DecodeBlock(env, b).value.transactions).Ok?
    ensures CheckIdentifier(env, c, s, HeaderOf(env, b), b).None?
  {
  }

  lemma PassedBody(env: Env, c: Context, s: ChainState, b: seq<byte>)
    requires CheckBlock(env, c, s, b).None?
    ensures DecodeBlock(env, b).Ok? && BodyRefusal(env, c, s, DecodeBlock(env, b).value, b).None?
  {
    PassedChecks(env, c, s, b);
  }

  lemma PassedIdentifier(env: Env, c: Context, s: ChainState, h: Block.Header, b: seq<byte>)
    requires CheckIdentifier(env, c, s, h, b).None?
    ensures IdOf(env, c.provider, b).Ok? && !Zero(IdOf(env, c.provider, b).value)
    ensures c.bootstrap.Some? ==> CheckWork(IdOf(env, c.provider, b).value, h.target).Ok? && AddWork(s.work, h.target).Ok?
  {
  }

  lemma LastOf<T>(s: seq<T>, x: T)
    ensures (s + [x])[..|s + [x]| - 1] == s && (s + [x])[|s|] == x
  {
  }

  /** The stores of a state play no part in its header invariant. */
  lemma StoresIgnored(env: Env, c: Context, blocks: seq<seq<byte>>, s: ChainState, n: ChainState)
    requires Matches(env, c, blocks, s)
    requires n == s.(books := n.books, lifecycle := n.lifecycle, contracts := n.contracts)
    ensures Matches(env, c, blocks, n)
  {
    if c.bootstrap.Some? && blocks != [] { assert PowMatches(env, c.bootstrap.value, blocks, n); }
  }

  // --------------------------------------------------------------------------- tip

  lemma StepTip(env: Env, c: Context, blocks: seq<seq<byte>>, s: ChainState, b: seq<byte>)
    requires Matches(env, c, blocks, s) && Fresh(env, c, s, b)
    ensures TipMatches(env, c, blocks + [b], Advance(c, s, HeaderOf(env, b), IdentityOf(env, c, b)))
    ensures HeaderOf(env, b).height == |blocks|
  {
    LastOf(blocks, b);
    HeightIs(env, c, blocks, s, b);
    if blocks == [] {
      assert blocks + [b] == [b];
    } else {
      assert (blocks + [b])[0] == blocks[0];
    }
  }

  lemma HeightIs(env: Env, c: Context, blocks: seq<seq<byte>>, s: ChainState, b: seq<byte>)
    requires Matches(env, c, blocks, s) && CheckLink(c, s, HeaderOf(env, b), b).None?
    ensures HeaderOf(env, b).height == |blocks| && (blocks == [] ==> b == c.genesis)
    ensures blocks != [] ==> s.height == |blocks| - 1 < UINT64_MAX && s.timestamp <= HeaderOf(env, b).timestamp
  {
    GenesisHeight(env, c);
  }

  lemma GenesisHeight(env: Env, c: Context)
    requires ContextValid(env, c).Ok?
    ensures HeaderOf(env, c.genesis).height == 0
  {
  }

  // -------------------------------------------------------------------------- work

  lemma WorkStep(work: seq<byte>, before: nat, target: seq<byte>, n: nat)
    requires Pow.ValidTarget(target) && work == Bytes(40, before) && before <= n * TWO_255 && n < TWO_64
    ensures before + Pow.UnitWork(target) <= (n + 1) * TWO_255
    ensures AddWork(work, target) == Ok(Bytes(40, before + Pow.UnitWork(target)))
  {
    Pow.UnitWorkBounds(target);
    Pow.WorkProduct(TWO_255, n + 1);
    Pow.WorkSumOf(before, Pow.UnitWork(target));
  }

  lemma TotalStep(env: Env, blocks: seq<seq<byte>>, b: seq<byte>)
    ensures TotalWork(env, blocks + [b]) == TotalWork(env, blocks) + Pow.UnitWork(TargetOf(env, b))
  {
    LastOf(blocks, b);
  }

  // ------------------------------------------------------------------------ window

  lemma PeriodStep(n: nat)
    requires n > 0
    ensures n % 60 == 0 ==> PeriodStart(n + 1) == n
    ensures n % 60 != 0 ==> PeriodStart(n + 1) == PeriodStart(n)
  {
  }

  lemma WindowOne(env: Env, b: seq<byte>)
    ensures WindowOf(env, [b]) == [WindowEntry(env, b)]
  {
    assert [b][..0] == [];
    assert WindowOf(env, [b]) == WindowOf(env, []) + [WindowEntry(env, b)];
  }

  lemma WindowMore(env: Env, blocks: seq<seq<byte>>, b: seq<byte>, start: nat)
    requires start <= |blocks|
    ensures WindowOf(env, (blocks + [b])[start..]) == WindowOf(env, blocks[start..]) + [WindowEntry(env, b)]
  {
    assert (blocks + [b])[start..] == blocks[start..] + [b];
    LastOf(blocks[start..], b);
  }

  lemma StepWindow(env: Env, blocks: seq<seq<byte>>, s: ChainState, b: seq<byte>)
    requires HeaderOf(env, b).height == |blocks|
    requires blocks != [] ==> s.window == WindowOf(env, blocks[PeriodStart(|blocks|)..])
    requires blocks == [] ==> s.window == []
    ensures NextWindow(s.window, HeaderOf(env, b)) == WindowOf(env, (blocks + [b])[PeriodStart(|blocks| + 1)..])
  {
    var n := |blocks|;
    if n == 0 || n % 60 == 0 {
      if n > 0 { PeriodStep(n); }
      assert (blocks + [b])[n..] == [b];
      WindowOne(env, b);
      assert [] + [WindowEntry(env, b)] == [WindowEntry(env, b)];
    } else {
      PeriodStep(n);
      WindowMore(env, blocks, b, PeriodStart(n));
    }
  }

  /** Inside a period the target does not move, so one target still serves the window. */
  lemma StepMatchesWindow(env: Env, bootstrap: seq<byte>, blocks: seq<seq<byte>>, s: ChainState, h: Block.Header, n: ChainState)
    requires blocks != [] ==> PowMatches(env, bootstrap, blocks, s)
    requires blocks == [] ==> s.window == []
    requires h.height == |blocks| && h.target == NextRule(env, bootstrap, blocks)
    requires blocks != [] ==> HeaderOf(env, blocks[|blocks| - 1]).timestamp <= h.timestamp
    requires n.window == NextWindow(s.window, h) && n.currentTarget == h.target
    ensures WindowMatches(n, |blocks| + 1)
  {
    if blocks != [] { WindowShape(env, bootstrap, blocks, s); }
  }

  lemma WorkSoFar(env: Env, bootstrap: seq<byte>, blocks: seq<seq<byte>>, s: ChainState)
    requires blocks != [] ==> PowMatches(env, bootstrap, blocks, s)
    requires blocks == [] ==> s.work == Bytes(40, 0)
    ensures s.work == Bytes(40, TotalWork(env, blocks)) && TotalWork(env, blocks) <= |blocks| * TWO_255
  {
  }

  ghost predicate WorkGrows(env: Env, blocks: seq<seq<byte>>, work: seq<byte>, target: seq<byte>) {
    var total := TotalWork(env, blocks) + Pow.UnitWork(target);
    AddWork(work, target) == Ok(Bytes(40, total)) && 0 < total <= (|blocks| + 1) * TWO_255
  }

  lemma StepWork(env: Env, bootstrap: seq<byte>, blocks: seq<seq<byte>>, s: ChainState, target: seq<byte>)
    requires blocks != [] ==> PowMatches(env, bootstrap, blocks, s)
    requires blocks == [] ==> s.work == Bytes(40, 0)
    requires |blocks| < TWO_64 && Pow.ValidTarget(target)
    ensures WorkGrows(env, blocks, s.work, target)
  {
    WorkSoFar(env, bootstrap, blocks, s);
    WorkGrowsFrom(env, blocks, s.work, target);
  }

  lemma WorkGrowsFrom(env: Env, blocks: seq<seq<byte>>, work: seq<byte>, target: seq<byte>)
    requires work == Bytes(40, TotalWork(env, blocks)) && TotalWork(env, blocks) <= |blocks| * TWO_255
    requires |blocks| < TWO_64 && Pow.ValidTarget(target)
    ensures WorkGrows(env, blocks, work, target)
  {
    WorkStep(work, TotalWork(env, blocks), target, |blocks|);
    Pow.UnitWorkBounds(target);
  }

  /** The target a fresh block carries is the one the rule demands. */
  lemma FreshTarget(env: Env, c: Context, blocks: seq<seq<byte>>, s: ChainState, b: seq<byte>)
    requires Matches(env, c, blocks, s) && ValidBooks(s.books) && Fresh(env, c, s, b) && c.bootstrap.Some?
    ensures TargetOf(env, b) == NextRule(env, c.bootstrap.value, blocks) && Pow.ValidTarget(TargetOf(env, b))
  {
    RequiredIsRule(env, c, blocks, s);
    RuleIsValid(env, c, blocks, s);
  }

  /** The proof-of-work part of one step, from the facts about the new header alone. */
  lemma PowStep(env: Env, c: Context, blocks: seq<seq<byte>>, s: ChainState, b: seq<byte>)
    requires c.bootstrap.Some? && |blocks| < TWO_64
    requires blocks != [] ==> PowMatches(env, c.bootstrap.value, blocks, s)
    requires blocks == [] ==> s.work == Bytes(40, 0) && s.window == []
    requires HeaderOf(env, b).height == |blocks|
    requires TargetOf(env, b) == NextRule(env, c.bootstrap.value, blocks) && Pow.ValidTarget(TargetOf(env, b))
    requires blocks != [] ==> HeaderOf(env, blocks[|blocks| - 1]).timestamp <= HeaderOf(env, b).timestamp
    ensures PowMatches(env, c.bootstrap.value, blocks + [b], Advance(c, s, HeaderOf(env, b), IdentityOf(env, c, b)))
  {
    StepWork(env, c.bootstrap.value, blocks, s, TargetOf(env, b));
    if |blocks| < 60 {
      EarlyBefore(env, c.bootstrap.value, blocks, s);
      EarlyStep(env, c.bootstrap.value, blocks, b);
    }
    StepWindow(env, blocks, s, b);
    AdvanceMatchesWindow(env, c, blocks, s, HeaderOf(env, b), IdentityOf(env, c, b));
    PowExtends(env, c, blocks, s, b, IdentityOf(env, c, b));
  }

  lemma AdvanceMatchesWindow(env: Env, c: Context, blocks: seq<seq<byte>>, s: ChainState, h: Block.Header, id: Hash)
    requires c.bootstrap.Some? && AddWork(s.work, h.target).Ok?
    requires blocks != [] ==> PowMatches(env, c.bootstrap.value, blocks, s)
    requires blocks == [] ==> s.window == []
    requires h.height == |blocks| && h.target == NextRule(env, c.bootstrap.value, blocks)
    requires blocks != [] ==> HeaderOf(env, blocks[|blocks| - 1]).timestamp <= h.timestamp
    ensures WindowMatches(Advance(c, s, h, id), |blocks| + 1)
  {
    StepMatchesWindow(env, c.bootstrap.value, blocks, s, h, Advance(c, s, h, id));
  }

  lemma StepPow(env: Env, c: Context, blocks: seq<seq<byte>>, s: ChainState, b: seq<byte>)
    requires Matches(env, c, blocks, s) && ValidBooks(s.books) && Fresh(env, c, s, b) && c.bootstrap.Some?
    requires HeaderOf(env, b).height == |blocks|
    ensures TargetOf(env, b) == NextRule(env, c.bootstrap.value, blocks) && Pow.ValidTarget(TargetOf(env, b))
    ensures PowMatches(env, c.bootstrap.value, blocks + [b], Advance(c, s, HeaderOf(env, b), IdentityOf(env, c, b)))
  {
    FreshTarget(env, c, blocks, s, b);
    PowStep(env, c, blocks, s, b);
  }

  /** Putting the pieces of the proof-of-work invariant together again. */
  lemma PowExtends(env: Env, c: Context, blocks: seq<seq<byte>>, s: ChainState, b: seq<byte>, id: Hash)
    requires c.bootstrap.Some? && Pow.ValidTarget(TargetOf(env, b)) && HeaderOf(env, b).height == |blocks|
    requires WorkGrows(env, blocks, s.work, TargetOf(env, b))
    requires |blocks| < 60 ==> TargetOf(env, b) == c.bootstrap.value
    requires |blocks| < 60 ==> EarlyTotal(env, c.bootstrap.value, blocks + [b])
    requires NextWindow(s.window, HeaderOf(env, b)) == WindowOf(env, (blocks + [b])[PeriodStart(|blocks| + 1)..])
    requires WindowMatches(Advance(c, s, HeaderOf(env, b), id), |blocks| + 1)
    ensures PowMatches(env, c.bootstrap.value, blocks + [b], Advance(c, s, HeaderOf(env, b), id))
  {
    LastOf(blocks, b);
    TotalStep(env, blocks, b);
  }

  /** Below height 60 the closed form keeps up with the sum. */
  lemma EarlyStep(env: Env, bootstrap: seq<byte>, blocks: seq<seq<byte>>, b: seq<byte>)
    requires EarlyTotal(env, bootstrap, blocks) && TargetOf(env, b) == bootstrap
    ensures EarlyTotal(env, bootstrap, blocks + [b])
  {
    TotalStep(env, blocks, b);
    Pow.StepProduct(|blocks| + 1, Pow.UnitWork(bootstrap));
  }

  lemma EarlyBefore(env: Env, bootstrap: seq<byte>, blocks: seq<seq<byte>>, s: ChainState)
    requires blocks != [] ==> PowMatches(env, bootstrap, blocks, s)
    requires |blocks| < 60
    ensures EarlyTotal(env, bootstrap, blocks)
  {
  }

  /** The header invariant survives every block that passes the checks. */
  lemma StepMatches(env: Env, c: Context, blocks: seq<seq<byte>>, s: ChainState, b: seq<byte>)
    requires Matches(env, c, blocks, s) && ValidBooks(s.books) && CheckBlock(env, c, s, b).None?
    ensures Matches(env, c, blocks + [b], Advance(c, s, HeaderOf(env, b), IdentityOf(env, c, b)))
    ensures Fresh(env, c, s, b) && HeaderOf(env, b).height == |blocks|
    ensures c.bootstrap.Some? ==>
      TargetOf(env, b) == NextRule(env, c.bootstrap.value, blocks) && Pow.ValidTarget(TargetOf(env, b))
  {
    PassedIsFresh(env, c, s, b);
    StepTip(env, c, blocks, s, b);
    if c.bootstrap.Some? { StepPow(env, c, blocks, s, b); }
  }
}
