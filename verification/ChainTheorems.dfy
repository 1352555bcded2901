/** The consensus guarantees, for every history the chain validator accepts. */
module ChainTheorems {
  import opened BigEndian
  import opened Status
  import opened Hashing
  import opened Sequences
  import Pow
  import Block
  import BlockLoops
  import Transaction
  import Ledger
  import Replay
  import opened Economy
  import opened Chain
  import opened ChainHeaders
  import opened ChainSteps
  import opened ChainBooks
  import opened ChainHistory
  import LP = LifecycleProofs
  import C = Contracts
  import Contract
  import CP = ContractProofs

  // -------------------------------------------------------------------- block rules

  /** What consensus demands of the block at height `i`. */
  ghost predicate BlockRule(env: Env, c: Context, blocks: seq<seq<byte>>, i: nat)
    requires i < |blocks|
  {
    var h, id := HeaderOf(env, blocks[i]), IdOf(env, c.provider, blocks[i]);
    && DecodeBlock(env, blocks[i]).Ok? && h.height == i && h.network == c.network
    && id.Ok? && !Zero(id.value) && Committed(env, c, blocks[i])
    && (i == 0 ==> blocks[i] == c.genesis)
    && (i > 0 ==> h.previous == IdentityOf(env, c, blocks[i - 1])
                  && HeaderOf(env, blocks[i - 1]).timestamp <= h.timestamp)
    && (c.bootstrap.Some? ==> TargetRule(env, c.bootstrap.value, blocks, i) && Value(id.value) <= Value(h.target))
  }

  /** The header carries the hash of the body. */
  predicate Committed(env: Env, c: Context, b: seq<byte>) {
    DecodeBlock(env, b).Ok?
    && Digest(env.hash, c.provider, BlockBody, Block.BodyBytes(DecodeBlock(env, b).value.transactions))
       == Ok(HeaderOf(env, b).commitment)
  }

  lemma PassedIsCommitted(env: Env, c: Context, s: ChainState, b: seq<byte>)
    requires CheckBlock(env, c, s, b).None?
    ensures Committed(env, c, b)
  {
    PassedIsIntact(env, c, s, b);
    BlockLoops.IntactBlockHasNoRepeats(Check(env), env.hash, c.provider, DecodeBlock(env, b).value);
  }

  lemma PassedIsIntact(env: Env, c: Context, s: ChainState, b: seq<byte>)
    requires CheckBlock(env, c, s, b).None?
    ensures DecodeBlock(env, b).Ok?
    ensures BlockLoops.Integrity(Check(env), env.hash, c.provider, DecodeBlock(env, b).value).Ok?
  {
    PassedBody(env, c, s, b);
    BodyIsIntact(env, c, s, DecodeBlock(env, b).value, b);
  }

  lemma BodyIsIntact(env: Env, c: Context, s: ChainState, block: Block.Block, b: seq<byte>)
    requires BodyRefusal(env, c, s, block, b).None?
    ensures BlockLoops.Integrity(Check(env), env.hash, c.provider, block).Ok?
  {
  }

  ghost predicate AllRules(env: Env, c: Context, blocks: seq<seq<byte>>) {
    forall i :: 0 <= i < |blocks| ==> BlockRule(env, c, blocks, i)
  }

  lemma RuleStays(env: Env, c: Context, blocks: seq<seq<byte>>, b: seq<byte>, i: nat)
    requires i < |blocks| && BlockRule(env, c, blocks, i)
    ensures BlockRule(env, c, blocks + [b], i)
  {
    assert (blocks + [b])[i] == blocks[i];
    if i > 0 { assert (blocks + [b])[i - 1] == blocks[i - 1]; }
    if i >= 60 { assert (blocks + [b])[i - 60] == blocks[i - 60]; }
  }

  lemma NewTarget(env: Env, bootstrap: seq<byte>, blocks: seq<seq<byte>>, b: seq<byte>)
    requires TargetOf(env, b) == NextRule(env, bootstrap, blocks)
    ensures TargetRule(env, bootstrap, blocks + [b], |blocks|)
  {
    var all, n := blocks + [b], |blocks|;
    assert all[n] == b;
    if n > 0 { assert all[n - 1] == blocks[n - 1]; }
    if n >= 60 { assert all[n - 60] == blocks[n - 60]; }
  }

  /** A fresh block is numbered and linked behind its history. */
  lemma NewLink(env: Env, c: Context, blocks: seq<seq<byte>>, s: ChainState, b: seq<byte>)
    requires Matches(env, c, blocks, s) && Fresh(env, c, s, b) && HeaderOf(env, b).height == |blocks|
    ensures HeaderOf(env, b).network == c.network && (blocks == [] ==> b == c.genesis)
    ensures blocks != [] ==>
      && HeaderOf(env, b).previous == IdentityOf(env, c, blocks[|blocks| - 1])
      && HeaderOf(env, blocks[|blocks| - 1]).timestamp <= HeaderOf(env, b).timestamp
  {
  }

  lemma NewRule(env: Env, c: Context, blocks: seq<seq<byte>>, s: ChainState, b: seq<byte>)
    requires Matches(env, c, blocks, s) && Fresh(env, c, s, b) && HeaderOf(env, b).height == |blocks|
    requires Committed(env, c, b)
    requires c.bootstrap.Some? ==> TargetOf(env, b) == NextRule(env, c.bootstrap.value, blocks)
    ensures BlockRule(env, c, blocks + [b], |blocks|)
  {
    LastOf(blocks, b);
    NewLink(env, c, blocks, s, b);
    if c.bootstrap.Some? { NewTarget(env, c.bootstrap.value, blocks, b); }
    if blocks != [] { assert (blocks + [b])[|blocks| - 1] == blocks[|blocks| - 1]; }
  }

  lemma RulesExtend(env: Env, c: Context, blocks: seq<seq<byte>>, s: ChainState, b: seq<byte>)
    requires AllRules(env, c, blocks) && Reached(env, c, blocks, s) && Validate(env, c, s, Some(blocks), b).Accepted?
    ensures AllRules(env, c, blocks + [b])
  {
    StepReached(env, c, blocks, s, b);
    ValidateShape(env, c, s, Some(blocks), b);
    PassedIsCommitted(env, c, s, b);
    NewRule(env, c, blocks, s, b);
    forall i | 0 <= i < |blocks| + 1 ensures BlockRule(env, c, blocks + [b], i) {
      if i < |blocks| { RuleStays(env, c, blocks, b, i); }
    }
  }

  /** Every block of an accepted history obeys the rules at its own height: numbered from
      genesis, linked by identifier, never back in time, with exactly the target the
      difficulty rule demands and a hash that meets it. */
  lemma AcceptedObeysRules(env: Env, c: Context, blocks: seq<seq<byte>>)
    requires After(env, c, blocks).Accepted?
    ensures AllRules(env, c, blocks)
  {
    if Start(env, c).Accepted? { InitialReached(env, c); }
    forall s, h, b | Reached(env, c, h, s) && AllRules(env, c, h) && Extend(env, c)(s, h, b).Accepted?
      ensures Reached(env, c, h + [b], Extend(env, c)(s, h, b).state) && AllRules(env, c, h + [b])
    {
      StepReached(env, c, h, s, b);
      RulesExtend(env, c, h, s, b);
    }
    FoldKeeps(Extend(env, c), Start(env, c), blocks, (h, s) => Reached(env, c, h, s) && AllRules(env, c, h));
  }

  // ------------------------------------------------------------------- work and time

  /** The state's work is the sum of its blocks' expected hashes, each
      floor(2^256 / (target + 1)); its window is the current period's headers; the
      validator's self-checks accept it and answer the rule for the next block. */
  lemma WorkAndTarget(env: Env, c: Context, blocks: seq<seq<byte>>)
    requires After(env, c, blocks).Accepted? && c.bootstrap.Some? && blocks != []
    ensures var s := After(env, c, blocks).state;
      && Value(s.work) == TotalWork(env, blocks)
      && s.window == WindowOf(env, blocks[PeriodStart(|blocks|)..]) && |s.window| == s.height % 60 + 1
      && PriorValid(env, c, s).Ok?
      && (s.height < UINT64_MAX ==> RequiredTarget(env, c, s) == Ok(NextRule(env, c.bootstrap.value, blocks)))
  {
    AcceptedIsReached(env, c, blocks);
    var s := After(env, c, blocks).state;
    WorkIsNonZero(TotalWork(env, blocks), |blocks|);
    WindowShape(env, c.bootstrap.value, blocks, s);
    PriorAccepts(env, c, blocks, s);
    if s.height < UINT64_MAX { RequiredIsRule(env, c, blocks, s); }
  }

  /** The target of every block of an accepted history, in numbers and seconds. */
  ghost predicate TargetInSeconds(env: Env, bootstrap: seq<byte>, blocks: seq<seq<byte>>, i: nat)
    requires i < |blocks|
  {
    Pow.InSeconds(i, bootstrap,
                  if i < 1 then [] else TargetOf(env, blocks[i - 1]),
                  if i < 60 then 0 else HeaderOf(env, blocks[i - 60]).timestamp,
                  if i < 1 then 0 else HeaderOf(env, blocks[i - 1]).timestamp,
                  TargetOf(env, blocks[i]))
  }

  lemma RuleInSeconds(env: Env, bootstrap: seq<byte>, blocks: seq<seq<byte>>, i: nat)
    requires i < |blocks| && TargetRule(env, bootstrap, blocks, i)
    requires i > 0 ==> Pow.ValidTarget(TargetOf(env, blocks[i - 1]))
    ensures TargetInSeconds(env, bootstrap, blocks, i)
  {
    if i >= 60 && i % 60 == 0 {
      var own, before := TargetOf(env, blocks[i]), TargetOf(env, blocks[i - 1]);
      var first, last := HeaderOf(env, blocks[i - 60]).timestamp, HeaderOf(env, blocks[i - 1]).timestamp;
      Pow.RetargetRescales(before, own, first, last);
      assert Pow.InSeconds(i, bootstrap, before, first, last, own);
    }
  }

  lemma TargetsInSeconds(env: Env, c: Context, blocks: seq<seq<byte>>)
    requires After(env, c, blocks).Accepted? && c.bootstrap.Some?
    ensures forall i :: 0 <= i < |blocks| ==> TargetInSeconds(env, c.bootstrap.value, blocks, i)
  {
    AcceptedObeysRules(env, c, blocks);
    forall i | 0 <= i < |blocks| ensures TargetInSeconds(env, c.bootstrap.value, blocks, i) {
      OneInSeconds(env, c, blocks, i);
    }
  }

  lemma OneInSeconds(env: Env, c: Context, blocks: seq<seq<byte>>, i: nat)
    requires After(env, c, blocks).Accepted? && AllRules(env, c, blocks) && c.bootstrap.Some? && i < |blocks|
    ensures TargetInSeconds(env, c.bootstrap.value, blocks, i)
  {
    RuledTarget(env, c, blocks, i);
    if i > 0 { AcceptedTarget(env, c, blocks, i - 1); }
    RuleInSeconds(env, c.bootstrap.value, blocks, i);
  }

  lemma RuledTarget(env: Env, c: Context, blocks: seq<seq<byte>>, i: nat)
    requires AllRules(env, c, blocks) && c.bootstrap.Some? && i < |blocks|
    ensures TargetRule(env, c.bootstrap.value, blocks, i)
  {
    assert BlockRule(env, c, blocks, i);
  }

  /** Every block of an accepted history claims a valid target. */
  lemma AcceptedTarget(env: Env, c: Context, blocks: seq<seq<byte>>, i: nat)
    requires After(env, c, blocks).Accepted? && c.bootstrap.Some? && i < |blocks|
    ensures Pow.ValidTarget(TargetOf(env, blocks[i]))
  {
    PrefixAccepted(env, c, blocks, i + 1);
    AcceptedIsReached(env, c, blocks[..i + 1]);
    assert blocks[..i + 1][i] == blocks[i];
  }

  /** Every prefix of an accepted history is accepted. */
  lemma {:induction false} FoldPrefix(turn: Turn, start: Report, blocks: seq<seq<byte>>, k: nat)
    requires Fold(turn, start, blocks).Accepted? && k <= |blocks|
    ensures Fold(turn, start, blocks[..k]).Accepted?
    decreases |blocks|
  {
    if k == |blocks| {
      assert blocks[..k] == blocks;
    } else {
      var n := |blocks| - 1;
      FoldPrefix(turn, start, blocks[..n], k);
      assert blocks[..n][..k] == blocks[..k];
    }
  }

  lemma PrefixAccepted(env: Env, c: Context, blocks: seq<seq<byte>>, k: nat)
    requires After(env, c, blocks).Accepted? && k <= |blocks|
    ensures After(env, c, blocks[..k]).Accepted?
  {
    FoldPrefix(Extend(env, c), Start(env, c), blocks, k);
  }

  // --------------------------------------------------------------------- economics

  /** Total supply is 100 units per share payment and 10000 per compensated block, and it
      is exactly the sum of all balances. */
  lemma SupplyIsPaid(env: Env, c: Context, blocks: seq<seq<byte>>)
    requires After(env, c, blocks).Accepted?
    ensures var l, txs := After(env, c, blocks).state.books.ledger, AllTxs(env, blocks);
      var pairs := Count(txs, Transaction.BLOCK_COMPENSATION_EVIDENCE);
      && l.supply == 100 * (Count(txs, Transaction.ISSUANCE) - pairs) + 10000 * pairs
      && Ledger.Total(l.balances) == l.supply
  {
    AcceptedIsReached(env, c, blocks);
  }

  /** No (controller, nonce) transfer, no compensated evidence and no share appears twice
      in a history, and the replay lists hold exactly what the history spent. */
  lemma NothingSpentTwice(env: Env, c: Context, blocks: seq<seq<byte>>)
    requires After(env, c, blocks).Accepted?
    ensures var b, txs := After(env, c, blocks).state.books, AllTxs(env, blocks);
      && b.transfers.keys == TransferKeys(env, txs) && Replay.NoRepeats(TransferKeys(env, txs))
      && b.pairs.keys == PairIds(env, txs) && Replay.NoRepeats(PairIds(env, txs))
      && b.shares.keys == ShareKeys(env, txs) && Replay.NoRepeats(ShareKeys(env, txs))
  {
    AcceptedIsReached(env, c, blocks);
    var b, txs := After(env, c, blocks).state.books, AllTxs(env, blocks);
    assert [] + TransferKeys(env, txs) == TransferKeys(env, txs);
    assert [] + PairIds(env, txs) == PairIds(env, txs);
    assert [] + ShareKeys(env, txs) == ShareKeys(env, txs);
  }

  /** A refusal for lack of capacity never comes from balances, transfers, shares or
      mappings, whatever the block holds: the refused transaction is a contract action, or
      a compensation pair behind exactly 4096 pairs that were compensated before it. */
  lemma CapacityNeverShort(env: Env, c: Context, blocks: seq<seq<byte>>, b: seq<byte>)
    requires After(env, c, blocks).Accepted? && QuietRules(env.rules)
    requires Settle(env, c, After(env, c, blocks).state, Some(blocks), b) == Failed(Body, Capacity)
    ensures var s, txs, h := After(env, c, blocks).state, TxsOf(env, b), HeaderOf(env, b).height;
      var k := Refused(env, c, Frame(s, h, Some(blocks)), Open(s, h, txs), txs);
      && k < |txs|
      && (txs[k].kind == Transaction.CONTRACT_ACTION
          || (txs[k].kind == Transaction.BLOCK_COMPENSATION_EVIDENCE
              && |PairIds(env, AllTxs(env, blocks) + txs[..k])| == 4096))
  {
    var s, txs, h := After(env, c, blocks).state, TxsOf(env, b), HeaderOf(env, b).height;
    var f, w := Frame(s, h, Some(blocks)), Open(s, h, txs);
    AcceptedIsReached(env, c, blocks);
    BodyIsBounded(env, b);
    OnlyPairsAndContractsFill(env, c, f, s, h, txs);
    PairsSoFar(env, c, f, w, s.books, AllTxs(env, blocks), txs[..Refused(env, c, f, w, txs)]);
  }

  /** The pair list behind a history and part of a block. */
  lemma PairsSoFar(env: Env, c: Context, f: Frame, w: Candidate, b: Books, before: seq<Tx>, txs: seq<Tx>)
    requires BooksOf(env, b, before) && ValidBooks(w.books) && w.books.pairs == b.pairs
    requires ApplyTxs(env, c, f, w, txs).Ok?
    ensures ApplyTxs(env, c, f, w, txs).value.books.pairs.keys == PairIds(env, before + txs)
  {
    TxsBooked(env, c, f, w, txs);
    FlatConcat(PairIdOf(env), before, txs);
  }

  lemma BodyIsBounded(env: Env, b: seq<byte>)
    ensures |TxsOf(env, b)| <= SLACK
  {
    if DecodeBlock(env, b).Ok? && DecodeTxs(env, DecodeBlock(env, b).value.transactions).Ok? {
      Block.DecodedCount(Check(env), b);
      DecodedLength(env, DecodeBlock(env, b).value.transactions);
    }
  }

  lemma {:induction false} DecodedLength(env: Env, txs: seq<seq<byte>>)
    requires DecodeTxs(env, txs).Ok?
    ensures |DecodeTxs(env, txs).value| == |txs|
  {
    if txs != [] { DecodedLength(env, txs[1..]); }
  }

  // ------------------------------------------------------------ authority, contracts

  /** In every accepted history's state the identity rotations form one simple path out of
      a genesis identity, and nothing retired is ever current again. */
  lemma RotationsArePath(env: Env, c: Context, blocks: seq<seq<byte>>)
    requires After(env, c, blocks).Accepted?
    ensures var s := After(env, c, blocks).state.lifecycle;
      s.rotation.olds != [] ==>
        var p := LP.Path(s.rotation);
        && p[0] in s.initials && Replay.NoRepeats(p)
        && (forall i :: 0 <= i < |s.rotation.olds| ==> p[i] == s.rotation.olds[i] && p[i + 1] == s.rotation.news[i])
  {
    AcceptedIsReached(env, c, blocks);
    var s := After(env, c, blocks).state.lifecycle;
    if s.rotation.olds != [] { LP.PathFacts(env.lifecycle(c.roots, c.provider), s); }
  }

  /** In every accepted history's state a contract awaiting attestation or executed has the
      recorded votes of a strict majority of the approvers its draft names, one that
      collects approvals has some but no majority, and one before that has none. */
  lemma ContractsHaveMajorities(env: Env, c: Context, blocks: seq<seq<byte>>, i: nat)
    requires After(env, c, blocks).Accepted? && i < |After(env, c, blocks).state.contracts.entries|
    ensures var s := After(env, c, blocks).state.contracts;
      var e := s.entries[i];
      && CP.Voters(s, e) <= CP.Roll(e)
      && (e.current.state in {Contract.ATTESTATION, Contract.EXECUTED} ==> 2 * |CP.Voters(s, e)| > |CP.Roll(e)|)
      && (e.current.state == Contract.APPROVALS ==> 0 < |CP.Voters(s, e)| && 2 * |CP.Voters(s, e)| <= |CP.Roll(e)|)
      && (e.current.state in {Contract.DRAFT, Contract.ISSUED, Contract.REVIEW} ==> CP.Voters(s, e) == {})
  {
    AcceptedIsReached(env, c, blocks);
    var s := After(env, c, blocks).state.contracts;
    CP.VotersCounted(env.oracle, s, i);
    assert C.EntrySound(env.oracle, s.votes, s.entries[i]);
  }
}
