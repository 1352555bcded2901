/** What holds of every history the chain validator accepts. */
module ChainHistory {
  import opened BigEndian
  import opened Status
  import opened Hashing
  import Transaction
  import Ledger
  import opened Economy
  import opened Chain
  import opened ChainHeaders
  import opened ChainSteps
  import opened ChainLoops
  import opened ChainBooks
  import L = Lifecycle
  import LP = LifecycleProofs
  import C = Contracts
  import CP = ContractProofs

  // ------------------------------------------------------- lifecycle and contracts

  ghost predicate StoresSound(env: Env, c: Context, w: Candidate) {
    L.Coherent(env.lifecycle(c.roots, c.provider), w.lifecycle) && C.Sound(env.oracle, w.contracts)
  }

  lemma OneKeepsStores(env: Env, c: Context, f: Frame, w: Candidate, t: Tx)
    requires StoresSound(env, c, w) && ApplyOne(env, c, f, w, t).Ok?
    ensures StoresSound(env, c, ApplyOne(env, c, f, w, t).value)
  {
    if IsMoney(t) || (t.kind == Transaction.PUBLICATION && f.height < f.prior.activation) {
      MoneyLeavesStores(env, c, f, w, t);
    } else if t.kind == Transaction.CONTRACT_ACTION {
      ContractKeepsStores(env, c, w, t.record);
    } else {
      LifecycleKeepsStores(env, c, w, t);
    }
  }

  predicate IsMoney(t: Tx) {
    || t.kind == Transaction.ISSUANCE || t.kind == Transaction.TRANSFER
    || t.kind == Transaction.COMPENSATION_DESTINATION || t.kind == Transaction.SHARE_EVIDENCE
  }

  lemma MoneyLeavesStores(env: Env, c: Context, f: Frame, w: Candidate, t: Tx)
    requires IsMoney(t) || (t.kind == Transaction.PUBLICATION && f.height < f.prior.activation)
    requires ApplyOne(env, c, f, w, t).Ok?
    ensures var n := ApplyOne(env, c, f, w, t).value;
      n.lifecycle == w.lifecycle && n.contracts == w.contracts
  {
  }

  lemma ContractKeepsStores(env: Env, c: Context, w: Candidate, record: seq<byte>)
    requires StoresSound(env, c, w) && ApplyContract(env, c, w, record).Ok?
    ensures StoresSound(env, c, ApplyContract(env, c, w, record).value)
  {
    CP.ApplyKeeps(env.oracle, w.contracts, env.contract(record).value,
                  draft => env.authorize(c.provider, w.lifecycle, env.contract(record).value, draft));
  }

  lemma LifecycleKeepsStores(env: Env, c: Context, w: Candidate, t: Tx)
    requires StoresSound(env, c, w) && ApplyLifecycle(env, c, w, t).Ok?
    ensures StoresSound(env, c, ApplyLifecycle(env, c, w, t).value)
  {
    var life := env.lifecycle(c.roots, c.provider);
    if t.kind == Transaction.PUBLICATION {
      LP.ApplyKeeps(life, w.lifecycle, L.PublishAction(env.publication(t.record).value));
    } else {
      LP.ApplyKeeps(life, w.lifecycle, env.action(t.kind, t.record).value);
    }
  }

  lemma PairKeepsStores(env: Env, c: Context, f: Frame, w: Candidate, e: Tx, i: Tx)
    requires StoresSound(env, c, w) && ApplyPair(env, c, f, w, e, i).Ok?
    ensures StoresSound(env, c, ApplyPair(env, c, f, w, e, i).value)
  {
  }

  lemma TxsKeepStores(env: Env, c: Context, f: Frame, w: Candidate, txs: seq<Tx>)
    requires StoresSound(env, c, w) && ApplyTxs(env, c, f, w, txs).Ok?
    ensures StoresSound(env, c, ApplyTxs(env, c, f, w, txs).value)
  {
    var one, pair, inv := OneOf(env, c, f), PairOf(env, c, f), x => StoresSound(env, c, x);
    forall x, t | inv(x) && one(x, t).Ok? ensures inv(one(x, t).value) { OneKeepsStores(env, c, f, x, t); }
    forall x, e, i | inv(x) && pair(x, e, i).Ok? ensures inv(pair(x, e, i).value) { PairKeepsStores(env, c, f, x, e, i); }
    ApplyIsApplyTxs(env, c, f, w, txs);
    ApplyKeeps(one, pair, inv, w, txs);
  }

  lemma OpenKeepsStores(env: Env, c: Context, s: ChainState, height: nat, txs: seq<Tx>)
    requires StoresSound(env, c, Candidate(s.books, s.lifecycle, s.contracts))
    ensures StoresSound(env, c, Open(s, height, txs))
  {
  }

  // -------------------------------------------------------------------- invariant

  /** Every transaction of a history, in order. */
  function AllTxs(env: Env, blocks: seq<seq<byte>>): seq<Tx> {
    if blocks == [] then [] else AllTxs(env, blocks[..|blocks| - 1]) + TxsOf(env, blocks[|blocks| - 1])
  }

  /** The books are exactly what the transactions add up to. */
  ghost predicate BooksOf(env: Env, b: Books, txs: seq<Tx>) {
    ValidBooks(b) && Listed(env, EMPTY_BOOKS, b, txs) && Supplied(b, txs)
  }

  predicate Supplied(b: Books, txs: seq<Tx>) {
    b.ledger.supply == Ledger.SHARE_UNITS * Count(txs, Transaction.ISSUANCE)
      + (Ledger.BLOCK_UNITS - Ledger.SHARE_UNITS) * Count(txs, Transaction.BLOCK_COMPENSATION_EVIDENCE)
  }

  /** Everything the fold maintains. */
  ghost predicate Reached(env: Env, c: Context, blocks: seq<seq<byte>>, s: ChainState) {
    && Matches(env, c, blocks, s)
    && BooksOf(env, s.books, AllTxs(env, blocks))
    && StoresSound(env, c, Candidate(s.books, s.lifecycle, s.contracts))
  }

  lemma InitialReached(env: Env, c: Context)
    requires Initialize(env, c).Ok?
    ensures Reached(env, c, [], Initialize(env, c).value)
  {
    var initial := if c.initials == [] then 0 else c.initials[0];
    LP.InitializeCoherent(env.lifecycle(c.roots, c.provider), initial, c.initials, 0, 0);
    CP.NoContractsSound(env.oracle);
    NoBooks(env);
  }

  lemma NoBooks(env: Env)
    ensures BooksOf(env, EMPTY_BOOKS, AllTxs(env, []))
  {
  }

  lemma OpenedBooks(b: Books, txs: seq<Tx>)
    requires ValidBooks(b)
    ensures ValidBooks(OpenBooks(b, txs))
    ensures OpenBooks(b, txs).transfers.keys == b.transfers.keys && OpenBooks(b, txs).pairs.keys == b.pairs.keys
    ensures OpenBooks(b, txs).shares.keys == b.shares.keys && OpenBooks(b, txs).ledger.supply == b.ledger.supply
  {
  }

  lemma BooksGrow(env: Env, b: Books, n: Books, old_: seq<Tx>, txs: seq<Tx>)
    requires BooksOf(env, b, old_) && Booked(env, OpenBooks(b, txs), n, txs)
    ensures BooksOf(env, n, old_ + txs)
  {
    OpenedBooks(b, txs);
    ListedTwice(env, EMPTY_BOOKS, b, n, old_, txs);
    CountConcat(old_, txs, Transaction.ISSUANCE);
    CountConcat(old_, txs, Transaction.BLOCK_COMPENSATION_EVIDENCE);
  }

  lemma ValidateShape(env: Env, c: Context, s: ChainState, history: Option<seq<seq<byte>>>, b: seq<byte>)
    requires Validate(env, c, s, history, b).Accepted?
    ensures CheckBlock(env, c, s, b).None?
    ensures Validate(env, c, s, history, b) == Settle(env, c, s, history, b)
  {
  }

  /** What the transactions of an accepted candidate did. */
  ghost predicate Settled(env: Env, c: Context, s: ChainState, history: Option<seq<seq<byte>>>, b: seq<byte>, n: ChainState) {
    var h, txs := HeaderOf(env, b), TxsOf(env, b);
    && ApplyTxs(env, c, Frame(s, h.height, history), Open(s, h.height, txs), txs) == Ok(Candidate(n.books, n.lifecycle, n.contracts))
    && n == Advance(c, s, h, IdentityOf(env, c, b)).(books := n.books, lifecycle := n.lifecycle, contracts := n.contracts)
  }

  lemma SettleShape(env: Env, c: Context, s: ChainState, history: Option<seq<seq<byte>>>, b: seq<byte>)
    requires Settle(env, c, s, history, b).Accepted?
    ensures Settled(env, c, s, history, b, Settle(env, c, s, history, b).state)
  {
  }

  /** The stores of a settled candidate are sound and their transactions are booked. */
  lemma SettledStores(env: Env, c: Context, blocks: seq<seq<byte>>, s: ChainState, b: seq<byte>, n: ChainState)
    requires BooksOf(env, s.books, AllTxs(env, blocks))
    requires StoresSound(env, c, Candidate(s.books, s.lifecycle, s.contracts))
    requires Settled(env, c, s, Some(blocks), b, n)
    ensures BooksOf(env, n.books, AllTxs(env, blocks + [b]))
    ensures StoresSound(env, c, Candidate(n.books, n.lifecycle, n.contracts))
  {
    var h, txs := HeaderOf(env, b), TxsOf(env, b);
    SettledBooks(env, c, blocks, s, b, n);
    OpenKeepsStores(env, c, s, h.height, txs);
    TxsKeepStores(env, c, Frame(s, h.height, Some(blocks)), Open(s, h.height, txs), txs);
  }

  lemma SettledBooks(env: Env, c: Context, blocks: seq<seq<byte>>, s: ChainState, b: seq<byte>, n: ChainState)
    requires BooksOf(env, s.books, AllTxs(env, blocks)) && Settled(env, c, s, Some(blocks), b, n)
    ensures BooksOf(env, n.books, AllTxs(env, blocks + [b]))
  {
    var h, txs := HeaderOf(env, b), TxsOf(env, b);
    OpenedBooks(s.books, txs);
    TxsBooked(env, c, Frame(s, h.height, Some(blocks)), Open(s, h.height, txs), txs);
    BooksGrow(env, s.books, n.books, AllTxs(env, blocks), txs);
    LastOf(blocks, b);
  }

  /** One accepted block: the invariant moves on, with that block's transactions booked. */
  lemma StepReached(env: Env, c: Context, blocks: seq<seq<byte>>, s: ChainState, b: seq<byte>)
    requires Reached(env, c, blocks, s)
    requires Validate(env, c, s, Some(blocks), b).Accepted?
    ensures Reached(env, c, blocks + [b], Validate(env, c, s, Some(blocks), b).state)
    ensures Fresh(env, c, s, b) && HeaderOf(env, b).height == |blocks|
    ensures c.bootstrap.Some? ==> TargetOf(env, b) == NextRule(env, c.bootstrap.value, blocks)
  {
    var n := Validate(env, c, s, Some(blocks), b).state;
    ValidateShape(env, c, s, Some(blocks), b);
    SettleShape(env, c, s, Some(blocks), b);
    SettledStores(env, c, blocks, s, b, n);
    StepMatches(env, c, blocks, s, b);
    StoresIgnored(env, c, blocks + [b], Advance(c, s, HeaderOf(env, b), IdentityOf(env, c, b)), n);
  }

  /** Induction over a fold: what the start satisfies and every turn keeps. */
  lemma {:induction false} FoldKeeps(turn: Turn, start: Report, blocks: seq<seq<byte>>, inv: (seq<seq<byte>>, ChainState) -> bool)
    requires start.Accepted? ==> inv([], start.state)
    requires forall s, h, b :: inv(h, s) && turn(s, h, b).Accepted? ==> inv(h + [b], turn(s, h, b).state)
    requires Fold(turn, start, blocks).Accepted?
    ensures inv(blocks, Fold(turn, start, blocks).state)
    decreases |blocks|
  {
    if blocks != [] {
      var n := |blocks| - 1;
      FoldKeeps(turn, start, blocks[..n], inv);
      assert blocks[..n] + [blocks[n]] == blocks;
    }
  }

  /** Every accepted history has left exactly the state its blocks describe. */
  lemma AcceptedIsReached(env: Env, c: Context, blocks: seq<seq<byte>>)
    requires After(env, c, blocks).Accepted?
    ensures Reached(env, c, blocks, After(env, c, blocks).state)
  {
    if Start(env, c).Accepted? { InitialReached(env, c); }
    forall s, h, b | Reached(env, c, h, s) && Extend(env, c)(s, h, b).Accepted?
      ensures Reached(env, c, h + [b], Extend(env, c)(s, h, b).state)
    {
      StepReached(env, c, h, s, b);
    }
    FoldKeeps(Extend(env, c), Start(env, c), blocks, (h, s) => Reached(env, c, h, s));
  }
}
