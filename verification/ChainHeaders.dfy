/** The header side of the fold: what the state of an accepted history says about its
    blocks, and why the validator's self-checks never refuse such a state. */
module ChainHeaders {
  import opened BigEndian
  import opened Status
  import opened Hashing
  import Pow
  import Block
  import opened Economy
  import opened Chain

  function TargetOf(env: Env, b: seq<byte>): seq<byte> { HeaderOf(env, b).target }

  /** The expected hashes behind a history. */
  function TotalWork(env: Env, blocks: seq<seq<byte>>): nat {
    if blocks == [] then 0
    else TotalWork(env, blocks[..|blocks| - 1]) + Pow.UnitWork(TargetOf(env, blocks[|blocks| - 1]))
  }

  /** The difficulty rule for the block at height `i`: the bootstrap target for the first 60
      blocks, the parent's target inside a period, the adjusted one where a period starts. */
  ghost predicate TargetRule(env: Env, bootstrap: seq<byte>, blocks: seq<seq<byte>>, i: nat)
    requires i < |blocks|
  {
    if i < 60 then TargetOf(env, blocks[i]) == bootstrap
    else if i % 60 != 0 then TargetOf(env, blocks[i]) == TargetOf(env, blocks[i - 1])
    else TargetOf(env, blocks[i])
         == Bytes(32, Pow.Retarget(Value(TargetOf(env, blocks[i - 1])),
                                   HeaderOf(env, blocks[i - 60]).timestamp, HeaderOf(env, blocks[i - 1]).timestamp))
  }

  function WindowEntry(env: Env, b: seq<byte>): Pow.WindowHeader {
    var h := HeaderOf(env, b);
    Pow.WindowHeader(3, h.height, h.timestamp, h.target)
  }

  function WindowOf(env: Env, blocks: seq<seq<byte>>): seq<Pow.WindowHeader> {
    if blocks == [] then [] else WindowOf(env, blocks[..|blocks| - 1]) + [WindowEntry(env, blocks[|blocks| - 1])]
  }

  /** Where the difficulty period of the last block starts. */
  function PeriodStart(n: nat): (r: nat)
    requires n > 0
    ensures r < n && n - r == (n - 1) % 60 + 1
  {
    n - 1 - (n - 1) % 60
  }

  // ---------------------------------------------------------------------- invariant

  /** A fresh state. */
  ghost predicate Blank(s: ChainState) {
    && !s.hasTip && s.height == 0 && s.timestamp == 0 && s.tipId == ZERO_HASH && s.genesisId == ZERO_HASH
    && s.currentTarget == Bytes(32, 0) && s.work == Bytes(40, 0) && s.window == []
  }

  ghost predicate TipMatches(env: Env, c: Context, blocks: seq<seq<byte>>, s: ChainState)
    requires blocks != []
  {
    var last := HeaderOf(env, blocks[|blocks| - 1]);
    && s.hasTip && s.height == |blocks| - 1 < TWO_64 && s.timestamp == last.timestamp
    && blocks[0] == c.genesis && HeaderOf(env, c.genesis).timestamp <= s.timestamp
    && (s.height == 0 ==> s.tipId == s.genesisId)
    && IdOf(env, c.provider, blocks[|blocks| - 1]) == Ok(s.tipId) && !Zero(s.tipId)
    && IdOf(env, c.provider, c.genesis) == Ok(s.genesisId) && !Zero(s.genesisId)
  }

  /** While every block carries the bootstrap target the sum has a closed form. */
  ghost predicate EarlyTotal(env: Env, bootstrap: seq<byte>, blocks: seq<seq<byte>>) {
    TotalWork(env, blocks) == |blocks| * Pow.UnitWork(bootstrap)
  }

  ghost predicate PowMatches(env: Env, bootstrap: seq<byte>, blocks: seq<seq<byte>>, s: ChainState)
    requires blocks != []
  {
    var n := |blocks|;
    && s.currentTarget == TargetOf(env, blocks[n - 1]) && Pow.ValidTarget(s.currentTarget)
    && 0 < TotalWork(env, blocks) <= n * TWO_255
    && s.work == Bytes(40, TotalWork(env, blocks))
    && s.window == WindowOf(env, blocks[PeriodStart(n)..])
    && WindowMatches(s, n)
    && (n <= 60 ==> s.currentTarget == bootstrap && EarlyTotal(env, bootstrap, blocks))
  }

  /** The header part of a state agrees with its history. */
  ghost predicate Matches(env: Env, c: Context, blocks: seq<seq<byte>>, s: ChainState) {
    && ContextValid(env, c).Ok? && env.activation(c.genesis) == Ok(s.activation) && s.network == c.network
    && (blocks == [] ==> Blank(s))
    && (blocks != [] ==> TipMatches(env, c, blocks, s))
    && (c.bootstrap.None? ==> s.currentTarget == Bytes(32, 0) && s.work == Bytes(40, 0))
    && (c.bootstrap.Some? && blocks != [] ==> PowMatches(env, c.bootstrap.value, blocks, s))
  }

  // ---------------------------------------------------------------- small arithmetic

  lemma ZeroBytes(n: nat)
    ensures !Block.NonZero(Bytes(n, 0))
  {
    ZerosAreZero(n);
  }

  lemma {:induction false} ZerosAreZero(n: nat)
    ensures forall i :: 0 <= i < n ==> Bytes(n, 0)[i] == 0
  {
    if n > 0 { ZerosAreZero(n - 1); }
  }

  lemma ZeroHashIsZero()
    ensures Zero(ZERO_HASH)
  {
    ZerosAreZero(32);
  }

  lemma PositiveIsNonZero(n: nat, v: nat)
    requires 0 < v < Pow256(n)
    ensures Block.NonZero(Bytes(n, v))
  {
    ValueOfBytes(n, v);
    if !Block.NonZero(Bytes(n, v)) { ValueOfZeros(Bytes(n, v)); }
  }

  lemma WorkIsNonZero(w: nat, n: nat)
    requires 0 < w <= n * TWO_255 && n <= TWO_64
    ensures w < TWO_320 && Block.NonZero(Bytes(40, w)) && Value(Bytes(40, w)) == w
  {
    Pow.WorkProduct(TWO_255, n);
    Pow.WorkValue(w);
    PowTable();
    PositiveIsNonZero(40, w);
  }

  // --------------------------------------------------------------------- self-checks

  lemma TargetStateAccepts(env: Env, c: Context, blocks: seq<seq<byte>>, s: ChainState)
    requires Matches(env, c, blocks, s)
    ensures TargetStateValid(c, s).Ok?
  {
    ZeroBytes(32);
    ZeroBytes(40);
    if c.bootstrap.Some? && blocks != [] {
      WorkIsNonZero(TotalWork(env, blocks), |blocks|);
    }
  }

  lemma AnchorAccepts(env: Env, c: Context, blocks: seq<seq<byte>>, s: ChainState)
    requires Matches(env, c, blocks, s) && blocks != []
    ensures AnchorValid(env, c, s).Ok?
  {
  }

  /** prior_valid accepts every state the fold produced. */
  lemma PriorAccepts(env: Env, c: Context, blocks: seq<seq<byte>>, s: ChainState)
    requires Matches(env, c, blocks, s) && ValidBooks(s.books)
    ensures PriorValid(env, c, s).Ok?
  {
    TargetStateAccepts(env, c, blocks, s);
    if blocks == [] { ZeroHashIsZero(); } else { AnchorAccepts(env, c, blocks, s); }
  }

  // ----------------------------------------------------------------- required target

  /** The target the rule demands of the block after `blocks`. */
  function NextRule(env: Env, bootstrap: seq<byte>, blocks: seq<seq<byte>>): seq<byte> {
    var n := |blocks|;
    if n < 60 then bootstrap
    else if n % 60 != 0 then TargetOf(env, blocks[n - 1])
    else Bytes(32, Pow.Retarget(Value(TargetOf(env, blocks[n - 1])),
                                HeaderOf(env, blocks[n - 60]).timestamp, HeaderOf(env, blocks[n - 1]).timestamp))
  }

  lemma {:induction false} WindowAt(env: Env, blocks: seq<seq<byte>>)
    ensures |WindowOf(env, blocks)| == |blocks|
    ensures forall i :: 0 <= i < |blocks| ==> WindowOf(env, blocks)[i] == WindowEntry(env, blocks[i])
  {
    if blocks != [] { WindowAt(env, blocks[..|blocks| - 1]); }
  }

  lemma {:induction false} EntriesOk(height: nat, bootstrap: seq<byte>, history: seq<Pow.WindowHeader>, i: nat)
    requires i <= |history|
    requires forall k :: i <= k < |history| ==> Pow.CheckEntry(history[k], height, |history|, k, bootstrap).Ok?
    ensures Pow.CheckEntries(height, bootstrap, history, i).Ok?
    decreases |history| - i
  {
    if i < |history| { EntriesOk(height, bootstrap, history, i + 1); }
  }

  lemma WindowPasses(s: ChainState, n: nat, bootstrap: seq<byte>)
    requires WindowMatches(s, n) && Pow.ValidTarget(s.currentTarget) && (n <= 60 ==> s.currentTarget == bootstrap)
    ensures Pow.CheckEntries(n, bootstrap, s.window, 0).Ok?
  {
    var w := s.window;
    EntriesOk(n, bootstrap, w, 0);
  }

  lemma FullPeriod(n: nat)
    requires n > 0 && n % 60 == 0
    ensures n >= 60 && PeriodStart(n) == n - 60
  {
  }

  lemma WindowSlice(env: Env, blocks: seq<seq<byte>>, start: nat, w: seq<Pow.WindowHeader>)
    requires start <= |blocks| && w == WindowOf(env, blocks[start..])
    ensures |w| == |blocks| - start
    ensures forall k :: 0 <= k < |w| ==> w[k] == WindowEntry(env, blocks[start + k])
  {
    WindowAt(env, blocks[start..]);
  }

  lemma BoundaryWindow(env: Env, bootstrap: seq<byte>, blocks: seq<seq<byte>>, s: ChainState)
    requires blocks != [] && PowMatches(env, bootstrap, blocks, s) && |blocks| % 60 == 0
    ensures |s.window| == 60 && |blocks| >= 60
    ensures s.window[0] == WindowEntry(env, blocks[|blocks| - 60])
    ensures s.window[59] == WindowEntry(env, blocks[|blocks| - 1])
  {
    FullPeriod(|blocks|);
    WindowSlice(env, blocks, |blocks| - 60, s.window);
  }

  lemma NextAtBoundary(height: nat, bootstrap: seq<byte>, w: seq<Pow.WindowHeader>)
    requires height >= 60 && height % 60 == 0 && |w| == 60 && Pow.ValidTarget(bootstrap)
    requires Pow.CheckEntries(height, bootstrap, w, 0).Ok?
    ensures Pow.NextTarget(height, bootstrap, w)
         == Ok(Bytes(32, Pow.Retarget(Value(w[59].target), w[0].timestamp, w[59].timestamp)))
  {
  }

  /** What the rule reads at a period boundary: the first and the last entry of the window. */
  lemma BoundaryTarget(env: Env, bootstrap: seq<byte>, blocks: seq<seq<byte>>, s: ChainState)
    requires blocks != [] && PowMatches(env, bootstrap, blocks, s) && Pow.ValidTarget(bootstrap)
    requires |blocks| % 60 == 0
    ensures |s.window| == 60 && Pow.NextTarget(|blocks|, bootstrap, s.window) == Ok(NextRule(env, bootstrap, blocks))
  {
    BoundaryWindow(env, bootstrap, blocks, s);
    WindowPasses(s, |blocks|, bootstrap);
    NextAtBoundary(|blocks|, bootstrap, s.window);
  }

  lemma InnerTarget(env: Env, bootstrap: seq<byte>, blocks: seq<seq<byte>>, s: ChainState)
    requires blocks != [] && PowMatches(env, bootstrap, blocks, s) && Pow.ValidTarget(bootstrap)
    requires |blocks| % 60 != 0
    ensures |s.window| > 0
    ensures Pow.NextTarget(|blocks|, bootstrap, [s.window[|s.window| - 1]]) == Ok(NextRule(env, bootstrap, blocks))
  {
    var n := |blocks|;
    WindowAt(env, blocks[PeriodStart(n)..]);
    var last := s.window[|s.window| - 1];
    assert last == WindowEntry(env, blocks[n - 1]);
    EntriesOk(n, bootstrap, [last], 0);
  }

  lemma WindowShape(env: Env, bootstrap: seq<byte>, blocks: seq<seq<byte>>, s: ChainState)
    requires blocks != [] && PowMatches(env, bootstrap, blocks, s)
    ensures |s.window| == (|blocks| - 1) % 60 + 1
    ensures s.window[|s.window| - 1].timestamp == HeaderOf(env, blocks[|blocks| - 1]).timestamp
  {
    WindowAt(env, blocks[PeriodStart(|blocks|)..]);
  }

  function RuleInput(s: ChainState, height: nat): seq<Pow.WindowHeader> {
    if height != 0 && height % 60 == 0 then s.window
    else if |s.window| == 0 then [] else [s.window[|s.window| - 1]]
  }

  lemma RequiredUnfolds(env: Env, c: Context, s: ChainState, height: nat)
    requires ContextValid(env, c).Ok? && c.bootstrap.Some? && PriorValid(env, c, s).Ok?
    requires height == (if s.hasTip then s.height + 1 else 0) && (s.hasTip ==> s.height < UINT64_MAX)
    requires |s.window| == (if s.hasTip then s.height % 60 + 1 else 0) && WindowMatches(s, height)
    requires |s.window| != 0 ==> s.window[|s.window| - 1].timestamp == s.timestamp
    ensures RequiredTarget(env, c, s) == Pow.NextTarget(height, c.bootstrap.value, RuleInput(s, height))
  {
  }

  lemma RuleFromWindow(env: Env, bootstrap: seq<byte>, blocks: seq<seq<byte>>, s: ChainState)
    requires blocks != [] && PowMatches(env, bootstrap, blocks, s) && Pow.ValidTarget(bootstrap)
    ensures Pow.NextTarget(|blocks|, bootstrap, RuleInput(s, |blocks|)) == Ok(NextRule(env, bootstrap, blocks))
  {
    WindowShape(env, bootstrap, blocks, s);
    if |blocks| % 60 == 0 {
      BoundaryTarget(env, bootstrap, blocks, s);
    } else {
      InnerTarget(env, bootstrap, blocks, s);
    }
  }

  lemma ContextTarget(env: Env, c: Context)
    requires ContextValid(env, c).Ok? && c.bootstrap.Some?
    ensures Pow.ValidTarget(c.bootstrap.value)
    ensures DecodeBlock(env, c.genesis).Ok? && HeaderOf(env, c.genesis).height == 0
  {
  }

  /** stn_chain_required_target never refuses a state the fold produced (short of the last
      64-bit height) and answers exactly the difficulty rule. */
  lemma RequiredIsRule(env: Env, c: Context, blocks: seq<seq<byte>>, s: ChainState)
    requires Matches(env, c, blocks, s) && ValidBooks(s.books) && c.bootstrap.Some?
    requires s.hasTip ==> s.height < UINT64_MAX
    ensures RequiredTarget(env, c, s) == Ok(NextRule(env, c.bootstrap.value, blocks))
  {
    PriorAccepts(env, c, blocks, s);
    ContextTarget(env, c);
    if blocks == [] { RequiredUnfolds(env, c, s, 0); } else { RequiredLater(env, c, blocks, s); }
  }

  lemma RequiredLater(env: Env, c: Context, blocks: seq<seq<byte>>, s: ChainState)
    requires ContextValid(env, c).Ok? && PriorValid(env, c, s).Ok? && c.bootstrap.Some?
    requires blocks != [] && TipMatches(env, c, blocks, s) && PowMatches(env, c.bootstrap.value, blocks, s)
    requires s.height < UINT64_MAX && Pow.ValidTarget(c.bootstrap.value)
    ensures RequiredTarget(env, c, s) == Ok(NextRule(env, c.bootstrap.value, blocks))
  {
    WindowShape(env, c.bootstrap.value, blocks, s);
    RuleFromWindow(env, c.bootstrap.value, blocks, s);
    RequiredUnfolds(env, c, s, |blocks|);
  }

  lemma RuleIsValid(env: Env, c: Context, blocks: seq<seq<byte>>, s: ChainState)
    requires Matches(env, c, blocks, s) && c.bootstrap.Some?
    ensures Pow.ValidTarget(NextRule(env, c.bootstrap.value, blocks))
  {
    ContextTarget(env, c);
    if blocks != [] && |blocks| >= 60 && |blocks| % 60 == 0 {
      Pow.RetargetIsValid(s.currentTarget, HeaderOf(env, blocks[|blocks| - 60]).timestamp,
                          HeaderOf(env, blocks[|blocks| - 1]).timestamp);
    }
  }
}
