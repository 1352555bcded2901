/** What the transactions of an accepted history rest on: every payment on evidence in an
    earlier block, every share on an earlier block, every transfer on a signature, and every
    contract action and publication on an authorization from the state it was applied to. */
module ChainEarnings {
  import opened BigEndian
  import opened Status
  import opened Hashing
  import Block
  import Transaction
  import Ledger
  import Compensation
  import Authority
  import LP = LifecycleProofs
  import CP = ContractProofs
  import opened Economy
  import opened Chain
  import opened ChainHistory
  import opened ChainLoops

  type Tx = Transaction.Tx

  /** A body taken turn by turn from candidate `w`: every single transaction and every pair
      is good in the candidate state the loop applies it to. */
  ghost predicate Covered(one: Step, pair: PairStep, goodOne: (Candidate, Tx) -> bool, goodPair: (Candidate, Tx, Tx) -> bool,
                          w: Candidate, txs: seq<Tx>)
    decreases |txs|
  {
    if txs == [] then true
    else
      && TurnOf(one, pair, w, txs).Ok?
      && var n := TurnOf(one, pair, w, txs).value;
      if txs[0].kind == Transaction.BLOCK_COMPENSATION_EVIDENCE then
        goodPair(w, txs[0], txs[1]) && Covered(one, pair, goodOne, goodPair, n, txs[2..])
      else goodOne(w, txs[0]) && Covered(one, pair, goodOne, goodPair, n, txs[1..])
  }

  /** What every successful step establishes where the invariant holds, holds all over a body
      that was applied. */
  lemma {:induction false} ApplyCovers(one: Step, pair: PairStep, goodOne: (Candidate, Tx) -> bool,
                                       goodPair: (Candidate, Tx, Tx) -> bool, inv: Candidate -> bool,
                                       w: Candidate, txs: seq<Tx>)
    requires forall x, t :: inv(x) && one(x, t).Ok? ==> goodOne(x, t) && inv(one(x, t).value)
    requires forall x, e, i :: inv(x) && pair(x, e, i).Ok? ==> goodPair(x, e, i) && inv(pair(x, e, i).value)
    requires inv(w) && Apply(one, pair, w, txs).Ok?
    ensures Covered(one, pair, goodOne, goodPair, w, txs)
    decreases |txs|
  {
    if txs == [] {
    } else if txs[0].kind == Transaction.BLOCK_COMPENSATION_EVIDENCE {
      ApplyCovers(one, pair, goodOne, goodPair, inv, pair(w, txs[0], txs[1]).value, txs[2..]);
    } else {
      ApplyCovers(one, pair, goodOne, goodPair, inv, one(w, txs[0]).value, txs[1..]);
    }
  }

  // ------------------------------------------------------------------------- payments

  /** An issuance of this kind to this miner for the evidence with this identifier. */
  predicate Pays(r: Ledger.Issuance, reason: nat, units: nat, miner: Ledger.Address, id: Outcome<Hash>) {
    && r.reason == reason && r.units == units && id == Ok(r.evidence)
    && miner.kind == Ledger.Identity && r.identity == miner && r.wallet.kind == Ledger.Wallet
  }

  /** A BLOCK payment: 10000 units to the miner its evidence names, for a block that was
      accepted before. */
  ghost predicate PairEarned(env: Env, c: Context, history: seq<seq<byte>>, e: Tx, i: Tx) {
    && i.kind == Transaction.ISSUANCE && env.evidence(e.record).Some? && env.issuance(i.record).Some?
    && var v := env.evidence(e.record).value;
    && Pays(env.issuance(i.record).value, Ledger.REASON_BLOCK, Ledger.BLOCK_UNITS, v.miner, env.rules.evidenceId(v))
    && exists k :: 0 <= k < |history| && IdOf(env, c.provider, history[k]) == Ok(v.block)
  }

  /** A share in this block that the issuance pays for. */
  ghost predicate PaidShareIn(env: Env, r: Ledger.Issuance, b: seq<byte>) {
    exists j :: 0 <= j < |TxsOf(env, b)| && PaidShare(env, r, TxsOf(env, b)[j])
  }

  predicate PaidShare(env: Env, r: Ledger.Issuance, t: Tx) {
    && t.kind == Transaction.SHARE_EVIDENCE && env.share(t.record).Some?
    && var s := env.share(t.record).value;
    Pays(r, Ledger.REASON_SHARE, Ledger.SHARE_UNITS, s.miner, env.rules.shareId(s))
  }

  /** A SHARE payment: 100 units to the miner of a share accepted in an earlier block. */
  ghost predicate ShareEarned(env: Env, history: seq<seq<byte>>, record: seq<byte>) {
    && env.issuance(record).Some?
    && exists k :: 0 <= k < |history| && PaidShareIn(env, env.issuance(record).value, history[k])
  }

  /** A share: proven work on a template that extends a block accepted before. */
  ghost predicate ShareWorked(env: Env, c: Context, history: seq<seq<byte>>, record: seq<byte>) {
    && env.share(record).Some? && env.proof(env.share(record).value)
    && Block.DecodeHeader(env.share(record).value.template).Ok?
    && var h := Block.DecodeHeader(env.share(record).value.template).value;
    && h.network == c.network && h.commitment == env.share(record).value.commitment
    && 0 < h.height <= |history| && IdOf(env, c.provider, history[h.height - 1]) == Ok(h.previous)
  }

  predicate TransferSigned(env: Env, record: seq<byte>) {
    env.transfer(record).Some? && env.rules.authorize(env.transfer(record).value).Ok?
  }

  /** The contract action was authorized by the lifecycle it was applied in, against the
      draft that was on record for its contract. */
  predicate ActionAuthorized(env: Env, c: Context, w: Candidate, record: seq<byte>) {
    && env.contract(record).Some?
    && var a := env.contract(record).value;
    env.authorize(c.provider, w.lifecycle, a, CP.DraftOf(env.oracle, w.contracts, a)).Ok?
  }

  /** From this height on publications pass through the lifecycle. */
  predicate Activated(env: Env, c: Context, height: nat) {
    env.activation(c.genesis).Ok? && height >= env.activation(c.genesis).value
  }

  /** The publication is signed by an identity that was not rotated away, under a root's
      grant that was not revoked. */
  ghost predicate PublicationAuthorized(env: Env, c: Context, w: Candidate, record: seq<byte>) {
    && env.publication(record).Some?
    && var life, p, s := env.lifecycle(c.roots, c.provider), env.publication(record).value, w.lifecycle;
    && life.signed(p) == Authority.Valid && p.signer !in s.rotation.olds
    && exists k :: 0 <= k < |s.grants| && s.grants[k].issuer in life.roots && LP.Covers(life, s, s.grants[k], p)
  }

  /** What a single transaction applied to `w` rests on, behind an accepted prefix. */
  ghost predicate Earned(env: Env, c: Context, history: seq<seq<byte>>, w: Candidate, t: Tx) {
    && (t.kind == Transaction.ISSUANCE ==> ShareEarned(env, history, t.record))
    && (t.kind == Transaction.SHARE_EVIDENCE ==> ShareWorked(env, c, history, t.record))
    && (t.kind == Transaction.TRANSFER ==> TransferSigned(env, t.record))
    && (t.kind == Transaction.CONTRACT_ACTION ==> ActionAuthorized(env, c, w, t.record))
    && (t.kind == Transaction.PUBLICATION && Activated(env, c, |history|) ==> PublicationAuthorized(env, c, w, t.record))
  }

  lemma BoundPays(r: Ledger.Issuance, miner: Ledger.Address, id: Outcome<Hash>, d: Compensation.Destinations)
    requires BindCommon(r, miner, id, d).Ok?
    ensures Pays(r, r.reason, r.units, miner, id)
  {
  }

  /** A search that succeeds has found a block. */
  lemma {:induction false} SearchFinds(ask: Question, history: seq<seq<byte>>) returns (k: nat)
    requires Search(ask, history) == Ok(true)
    ensures k < |history| && ask(history[k]) == Ok(true)
  {
    if ask(history[0]) == Ok(true) { return 0; }
    k := SearchFinds(ask, history[1..]);
    k := k + 1;
  }

  lemma PairIsEarned(env: Env, c: Context, f: Frame, w: Candidate, e: Tx, i: Tx)
    requires f.history.Some? && ApplyPair(env, c, f, w, e, i).Ok?
    ensures PairEarned(env, c, f.history.value, e, i)
  {
    var v, r := env.evidence(e.record).value, env.issuance(i.record).value;
    var k := SearchFinds(Named(env, c.provider, v.block), f.history.value);
    BoundPays(r, v.miner, env.rules.evidenceId(v), w.books.destinations);
  }

  lemma BoundInBlock(env: Env, r: Ledger.Issuance, d: Compensation.Destinations, b: seq<byte>)
    requires BoundIn(env, r, d, TxsOf(env, b))
    ensures PaidShareIn(env, r, b)
  {
    var txs := TxsOf(env, b);
    var j :| 0 <= j < |txs| && txs[j].kind == Transaction.SHARE_EVIDENCE
      && env.share(txs[j].record).Some? && BindShare(env.rules, r, env.share(txs[j].record).value, d).Ok?;
    var s := env.share(txs[j].record).value;
    BoundPays(r, s.miner, env.rules.shareId(s), d);
    assert PaidShare(env, r, txs[j]);
  }

  lemma PaymentIsEarned(env: Env, f: Frame, w: Candidate, record: seq<byte>)
    requires f.history.Some? && ApplyIssuance(env, f, w, record).Ok?
    ensures ShareEarned(env, f.history.value, record)
  {
    var r, d := env.issuance(record).value, w.books.destinations;
    var k := SearchFinds(Binding(env, r, d), f.history.value);
    BoundInBlock(env, r, d, f.history.value[k]);
  }

  lemma OneIsEarned(env: Env, c: Context, f: Frame, w: Candidate, t: Tx)
    requires f.history.Some? && f.height == |f.history.value| && env.activation(c.genesis) == Ok(f.prior.activation)
    requires StoresSound(env, c, w) && ApplyOne(env, c, f, w, t).Ok?
    ensures Earned(env, c, f.history.value, w, t)
  {
    if t.kind == Transaction.ISSUANCE {
      PaymentIsEarned(env, f, w, t.record);
    } else if t.kind == Transaction.SHARE_EVIDENCE {
      ShareIsWorked(env, c, f, w, t.record);
    } else if t.kind == Transaction.CONTRACT_ACTION {
      ActionIsAuthorized(env, c, w, t.record);
    } else if t.kind == Transaction.PUBLICATION && f.height >= f.prior.activation {
      PublicationIsAuthorized(env, c, w, t);
    }
  }

  lemma ShareIsWorked(env: Env, c: Context, f: Frame, w: Candidate, record: seq<byte>)
    requires f.history.Some? && f.height == |f.history.value| && ApplyShare(env, c, f, w, record).Ok?
    ensures ShareWorked(env, c, f.history.value, record)
  {
  }

  lemma ActionIsAuthorized(env: Env, c: Context, w: Candidate, record: seq<byte>)
    requires ApplyContract(env, c, w, record).Ok?
    ensures ActionAuthorized(env, c, w, record)
  {
    var a := env.contract(record).value;
    var authorized := draft => env.authorize(c.provider, w.lifecycle, a, draft);
    CP.ActionIsAuthorized(env.oracle, w.contracts, a, authorized);
    assert authorized(CP.DraftOf(env.oracle, w.contracts, a)).Ok?;
  }

  lemma PublicationIsAuthorized(env: Env, c: Context, w: Candidate, t: Tx)
    requires StoresSound(env, c, w) && t.kind == Transaction.PUBLICATION && ApplyLifecycle(env, c, w, t).Ok?
    ensures PublicationAuthorized(env, c, w, t.record)
  {
    LP.PublicationIsAuthorized(env.lifecycle(c.roots, c.provider), w.lifecycle, env.publication(t.record).value);
  }

  // ------------------------------------------------------------------- whole histories

  /** A body whose transactions are earned where this frame applies them. */
  ghost predicate BodyEarned(env: Env, c: Context, f: Frame, history: seq<seq<byte>>, w: Candidate, txs: seq<Tx>) {
    Covered(OneOf(env, c, f), PairOf(env, c, f),
            (x, t) => Earned(env, c, history, x, t), (x, e, i) => PairEarned(env, c, history, e, i), w, txs)
  }

  /** A block whose transactions are earned from the state its accepted prefix leads to. */
  ghost predicate BlockEarned(env: Env, c: Context, history: seq<seq<byte>>, b: seq<byte>) {
    && After(env, c, history).Accepted?
    && var s, txs := After(env, c, history).state, TxsOf(env, b);
    BodyEarned(env, c, Frame(s, |history|, Some(history)), history, Open(s, |history|, txs), txs)
  }

  ghost predicate AllEarned(env: Env, c: Context, blocks: seq<seq<byte>>) {
    forall i :: 0 <= i < |blocks| ==> BlockEarned(env, c, blocks[..i], blocks[i])
  }

  lemma TxsAreEarned(env: Env, c: Context, f: Frame, w: Candidate, txs: seq<Tx>)
    requires f.history.Some? && f.height == |f.history.value| && env.activation(c.genesis) == Ok(f.prior.activation)
    requires StoresSound(env, c, w) && ApplyTxs(env, c, f, w, txs).Ok?
    ensures BodyEarned(env, c, f, f.history.value, w, txs)
  {
    var one, pair, inv := OneOf(env, c, f), PairOf(env, c, f), x => StoresSound(env, c, x);
    var history := f.history.value;
    forall x, t | inv(x) && one(x, t).Ok? ensures Earned(env, c, history, x, t) && inv(one(x, t).value) {
      OneIsEarned(env, c, f, x, t);
      OneKeepsStores(env, c, f, x, t);
    }
    forall x, e, i | inv(x) && pair(x, e, i).Ok? ensures PairEarned(env, c, history, e, i) && inv(pair(x, e, i).value) {
      PairIsEarned(env, c, f, x, e, i);
      PairKeepsStores(env, c, f, x, e, i);
    }
    ApplyIsApplyTxs(env, c, f, w, txs);
    ApplyCovers(one, pair, (x, t) => Earned(env, c, history, x, t), (x, e, i) => PairEarned(env, c, history, e, i), inv, w, txs);
  }

  lemma BlockIsEarned(env: Env, c: Context, blocks: seq<seq<byte>>, s: ChainState, b: seq<byte>)
    requires Reached(env, c, blocks, s) && After(env, c, blocks) == Accepted(s)
    requires Validate(env, c, s, Some(blocks), b).Accepted?
    ensures BlockEarned(env, c, blocks, b)
  {
    StepReached(env, c, blocks, s, b);
    ValidateShape(env, c, s, Some(blocks), b);
    SettleShape(env, c, s, Some(blocks), b);
    var h, txs := HeaderOf(env, b), TxsOf(env, b);
    OpenKeepsStores(env, c, s, h.height, txs);
    TxsAreEarned(env, c, Frame(s, h.height, Some(blocks)), Open(s, h.height, txs), txs);
  }

  lemma EarnedExtends(env: Env, c: Context, blocks: seq<seq<byte>>, b: seq<byte>)
    requires AllEarned(env, c, blocks) && BlockEarned(env, c, blocks, b)
    ensures AllEarned(env, c, blocks + [b])
  {
    var all := blocks + [b];
    forall i | 0 <= i < |all| ensures BlockEarned(env, c, all[..i], all[i]) {
      assert all[..i] == blocks[..i];
      if i < |blocks| { assert BlockEarned(env, c, blocks[..i], blocks[i]); } else { assert blocks[..i] == blocks; }
    }
  }

  lemma AfterOneMore(env: Env, c: Context, blocks: seq<seq<byte>>, s: ChainState, b: seq<byte>)
    requires After(env, c, blocks) == Accepted(s)
    ensures After(env, c, blocks + [b]) == Extend(env, c)(s, blocks, b)
  {
    assert (blocks + [b])[..|blocks|] == blocks;
  }

  /** In every accepted history each BLOCK payment stands behind evidence of an earlier
      block, each SHARE payment has its share in an earlier block, each share is proven work
      on an earlier block, transfers are signed, and contract actions and publications are
      authorized by the lifecycle and the contracts of the state they were applied to. */
  lemma AcceptedIsEarned(env: Env, c: Context, blocks: seq<seq<byte>>)
    requires After(env, c, blocks).Accepted?
    ensures AllEarned(env, c, blocks)
  {
    var inv := (h, s) => Reached(env, c, h, s) && After(env, c, h) == Accepted(s) && AllEarned(env, c, h);
    if Start(env, c).Accepted? { InitialReached(env, c); }
    forall s, h, b | inv(h, s) && Extend(env, c)(s, h, b).Accepted? ensures inv(h + [b], Extend(env, c)(s, h, b).state) {
      StepReached(env, c, h, s, b);
      BlockIsEarned(env, c, h, s, b);
      EarnedExtends(env, c, h, b);
      AfterOneMore(env, c, h, s, b);
    }
    FoldKeeps(Extend(env, c), Start(env, c), blocks, inv);
  }
}
