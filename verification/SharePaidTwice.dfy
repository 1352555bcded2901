/** A history in which one SHARE issuance is paid in two blocks: a destination, a share, and
    the same payment twice. Built for any hash that answers; the records are sixty-five
    zero bytes whose meaning the environment's decoders give. */
module SharePaidTwice {
  import opened BigEndian
  import opened Status
  import opened Hashing
  import Pow
  import Transaction
  import Block
  import BlockLoops
  import Ledger
  import Replay
  import Compensation
  import Authority
  import Contract
  import L = Lifecycle
  import C = Contracts
  import opened Economy
  import opened Chain
  import opened ChainBooks
  import opened ChainHeaders
  import opened ChainHistory
  import opened SharePayments

  const RECORD: seq<byte> := Bytes(65, 0)
  const NETWORK: seq<byte> := Bytes(32, 1)
  const MINER: Ledger.Address := Ledger.Address(Ledger.Identity, 1)
  const WALLET: Ledger.Address := Ledger.Address(Ledger.Wallet, 2)
  const PAYMENT: Ledger.Issuance :=
    Ledger.Issuance(Ledger.REASON_SHARE, Ledger.SHARE_UNITS, MINER, WALLET, ZERO_HASH)

  /** Provider 0 answers everywhere, and never with zero. */
  ghost predicate Answers(hash: HashFunction) {
    forall d, b :: hash(0, d, b).Ok? && !Zero(hash(0, d, b).value)
  }

  function HashOf(hash: HashFunction, d: Domain, b: seq<byte>): Hash {
    match hash(0, d, b)
    case Ok(h) => h
    case Err(_) => ZERO_HASH
  }

  /** Version 1 rules, provider 0, and records of sixty-five bytes. */
  ghost predicate Plain(env: Env, c: Context, hash: HashFunction) {
    && Answers(hash) && env.hash == hash && (forall k, r :: env.record(k, r) <==> |r| == 65)
    && c.provider == Some(0) && c.bootstrap == None && |c.network| == 32
    && env.rootsValid(c.roots) && env.identitiesValid(c.initials) && env.activation(c.genesis) == Ok(0)
  }

  // ---------------------------------------------------------------------- single blocks

  predicate Plainest(kind: nat) { Transaction.SHARE_EVIDENCE <= kind <= Transaction.ISSUANCE }

  function TxFor(kind: nat): Tx { Transaction.Tx(kind, RECORD) }

  /** The body of a block with one such transaction, or none. */
  function BodyFor(kind: Option<nat>): seq<seq<byte>> {
    match kind
    case None => []
    case Some(k) => [Transaction.Encode(TxFor(k))]
  }

  function Sealed(hash: HashFunction, network: seq<byte>, previous: Hash, height: nat, kind: Option<nat>): Block.Block {
    var body := Block.BodyBytes(BodyFor(kind));
    Block.Block(Block.Header(1, 0, network, previous, height, 0, HashOf(hash, BlockBody, body), ZERO_HASH, 0,
                             |BodyFor(kind)|, |body|), BodyFor(kind))
  }

  lemma TxDecodes(check: Transaction.RecordCheck, kind: nat)
    requires Plainest(kind) && forall k, r :: check(k, r) <==> |r| == 65
    ensures var b := Transaction.Encode(TxFor(kind)); |b| == 77 && Transaction.Decode(check, b) == Ok(TxFor(kind))
  {
    Transaction.DecodeEncode(check, TxFor(kind));
    var b := Transaction.Encode(TxFor(kind));
    assert |b[Transaction.HEADER_SIZE..]| == |RECORD|;
  }

  lemma BodyFits(check: Transaction.RecordCheck, kind: Option<nat>)
    requires (kind.Some? ==> Plainest(kind.value)) && forall k, r :: check(k, r) <==> |r| == 65
    ensures Block.Transactions(Transaction.Structure(check), BodyFor(kind))
    ensures |Block.BodyBytes(BodyFor(kind))| == if kind.None? then 0 else 81
  {
    if kind.Some? {
      TxDecodes(check, kind.value);
      assert BodyFor(kind)[1..] == [];
    }
  }

  /** A sealed block decodes to itself. */
  lemma SealedDecodes(env: Env, c: Context, hash: HashFunction, previous: Hash, height: nat, kind: Option<nat>)
    requires Plain(env, c, hash) && height < TWO_64 && (height == 0 <==> Zero(previous))
    requires kind.Some? ==> Plainest(kind.value)
    ensures DecodeBlock(env, Block.Encode(Sealed(hash, c.network, previous, height, kind)))
         == Ok(Sealed(hash, c.network, previous, height, kind))
  {
    var b := Sealed(hash, c.network, previous, height, kind);
    BodyFits(env.record, kind);
    ZeroMeans(previous);
    ZeroHashIsZero();
    ZeroMeans(ZERO_HASH);
    assert Block.CheckHeader(b.header).Ok?;
    Block.DecodeEncode(Check(env), b);
  }

  lemma ZeroMeans(h: Hash)
    ensures Zero(h) <==> !Block.NonZero(h)
  {
  }

  /** The bytes of a sealed block, and what its place demands of it. */
  ghost predicate IsSealed(env: Env, c: Context, hash: HashFunction, previous: Hash, height: nat, kind: Option<nat>, b: seq<byte>) {
    && Plain(env, c, hash) && height < TWO_64 && (height == 0 <==> Zero(previous)) && (kind.Some? ==> Plainest(kind.value))
    && b == Block.Encode(Sealed(hash, c.network, previous, height, kind))
  }

  function TxsFor(kind: Option<nat>): seq<Tx> {
    match kind
    case None => []
    case Some(k) => [TxFor(k)]
  }

  lemma SealedTxs(env: Env, c: Context, hash: HashFunction, previous: Hash, height: nat, kind: Option<nat>, b: seq<byte>)
    requires IsSealed(env, c, hash, previous, height, kind, b)
    ensures HeaderOf(env, b) == Sealed(hash, c.network, previous, height, kind).header
    ensures DecodeTxs(env, BodyFor(kind)) == Ok(TxsFor(kind)) && TxsOf(env, b) == TxsFor(kind)
  {
    SealedDecodes(env, c, hash, previous, height, kind);
    BodyDecodes(env, kind);
  }

  lemma BodyDecodes(env: Env, kind: Option<nat>)
    requires (kind.Some? ==> Plainest(kind.value)) && forall k, r :: env.record(k, r) <==> |r| == 65
    ensures DecodeTxs(env, BodyFor(kind)) == Ok(TxsFor(kind))
  {
    if kind.Some? {
      TxDecodes(env.record, kind.value);
      OneDecodes(env, BodyFor(kind)[0], TxFor(kind.value));
    }
  }

  lemma OneDecodes(env: Env, b: seq<byte>, t: Tx)
    requires DecodeTx(env, b) == Ok(t)
    ensures DecodeTxs(env, [b]) == Ok([t])
  {
    assert [b][1..] == [] && [t] + [] == [t];
  }

  lemma SealedId(env: Env, c: Context, hash: HashFunction, previous: Hash, height: nat, kind: Option<nat>, b: seq<byte>)
    requires IsSealed(env, c, hash, previous, height, kind, b)
    ensures IdOf(env, c.provider, b).Ok? && !Zero(IdOf(env, c.provider, b).value)
  {
    SealedDecodes(env, c, hash, previous, height, kind);
    var h := hash(0, Domain.BlockId, b[..Block.HEADER_SIZE]);
    assert h.Ok? && !Zero(h.value);
    assert Digest(env.hash, c.provider, Domain.BlockId, b[..Block.HEADER_SIZE]) == Ok(h.value);
  }

  lemma SealedIsIntact(env: Env, c: Context, hash: HashFunction, previous: Hash, height: nat, kind: Option<nat>)
    requires Plain(env, c, hash) && (kind.Some? ==> Plainest(kind.value))
    ensures BlockLoops.Integrity(Check(env), env.hash, c.provider, Sealed(hash, c.network, previous, height, kind)).Ok?
  {
    if kind.Some? {
      TxDecodes(env.record, kind.value);
      assert BodyFor(kind)[1..] == [];
      assert BlockLoops.TransactionIdOf(Check(env), env.hash, c.provider, BodyFor(kind)[0]).Ok?;
    }
  }

  lemma SealedPasses(env: Env, c: Context, hash: HashFunction, previous: Hash, height: nat, kind: Option<nat>, b: seq<byte>, s: ChainState)
    requires IsSealed(env, c, hash, previous, height, kind, b)
    ensures BodyRefusal(env, c, s, Sealed(hash, c.network, previous, height, kind), b).None?
  {
    SealedIsIntact(env, c, hash, previous, height, kind);
    BodyDecodes(env, kind);
    SealedId(env, c, hash, previous, height, kind, b);
    NothingPublished(env, c.network, kind);
  }

  lemma NothingPublished(env: Env, network: seq<byte>, kind: Option<nat>)
    requires kind.Some? ==> Plainest(kind.value)
    ensures CheckPublications(env, network, TxsFor(kind)).None?
  {
    if kind.Some? { assert TxsFor(kind)[1..] == []; }
  }

  /** Behind an accepted history a sealed block of the right height and parent passes. */
  lemma NextPasses(env: Env, c: Context, hash: HashFunction, blocks: seq<seq<byte>>, s: ChainState, kind: nat, b: seq<byte>)
    requires blocks != [] && |blocks| < TWO_64 && Reached(env, c, blocks, s) && s.timestamp == 0
    requires IsSealed(env, c, hash, s.tipId, |blocks|, Some(kind), b)
    ensures CheckBlock(env, c, s, b).None? && TxsOf(env, b) == [TxFor(kind)] && HeaderOf(env, b).height == |blocks|
    ensures HeaderOf(env, b).timestamp == 0
  {
    SealedDecodes(env, c, hash, s.tipId, |blocks|, Some(kind));
    SealedTxs(env, c, hash, s.tipId, |blocks|, Some(kind), b);
    SealedPasses(env, c, hash, s.tipId, |blocks|, Some(kind), b, s);
    PriorAccepts(env, c, blocks, s);
  }

  /** Such a block is accepted as soon as its transaction applies. */
  lemma NextAccepted(env: Env, c: Context, hash: HashFunction, blocks: seq<seq<byte>>, kind: nat, b: seq<byte>)
    requires blocks != [] && |blocks| < TWO_64 && After(env, c, blocks).Accepted? && After(env, c, blocks).state.timestamp == 0
    requires IsSealed(env, c, hash, After(env, c, blocks).state.tipId, |blocks|, Some(kind), b)
    requires var s := After(env, c, blocks).state;
      ApplyOne(env, c, Frame(s, |blocks|, Some(blocks)), Open(s, |blocks|, [TxFor(kind)]), TxFor(kind)).Ok?
    ensures var s, n := After(env, c, blocks).state, After(env, c, blocks + [b]);
      && CheckBlock(env, c, s, b).None? && TxsOf(env, b) == [TxFor(kind)]
      && n.Accepted? && n.state.timestamp == 0
      && n.state.books == ApplyOne(env, c, Frame(s, |blocks|, Some(blocks)), Open(s, |blocks|, [TxFor(kind)]), TxFor(kind)).value.books
  {
    var s := After(env, c, blocks).state;
    AcceptedIsReached(env, c, blocks);
    NextPasses(env, c, hash, blocks, s, kind, b);
    SingleTx(env, c, Frame(s, |blocks|, Some(blocks)), Open(s, |blocks|, [TxFor(kind)]), TxFor(kind));
    SettlesAs(env, c, blocks, s, b, [TxFor(kind)]);
    SettledTime(env, c, blocks, s, b);
    AfterLast(env, c, blocks, b);
  }

  lemma SettledTime(env: Env, c: Context, blocks: seq<seq<byte>>, s: ChainState, b: seq<byte>)
    requires Settle(env, c, s, Some(blocks), b).Accepted?
    ensures Settle(env, c, s, Some(blocks), b).state.timestamp == HeaderOf(env, b).timestamp
  {
  }

  /** Genesis alone is an accepted history with empty books. */
  lemma GenesisAccepted(env: Env, c: Context, hash: HashFunction)
    requires IsSealed(env, c, hash, ZERO_HASH, 0, None, c.genesis)
    ensures After(env, c, [c.genesis]).Accepted?
    ensures After(env, c, [c.genesis]).state.timestamp == 0 && SameEntries(After(env, c, [c.genesis]).state.books, EMPTY_BOOKS)
  {
    SealedDecodes(env, c, hash, ZERO_HASH, 0, None);
    SealedTxs(env, c, hash, ZERO_HASH, 0, None, c.genesis);
    GenesisContext(env, c, hash);
    InitialReached(env, c);
    var s := Initialize(env, c).value;
    PriorAccepts(env, c, [], s);
    SealedPasses(env, c, hash, ZERO_HASH, 0, None, c.genesis, s);
    assert CheckBlock(env, c, s, c.genesis).None?;
    SettlesAs(env, c, [], s, c.genesis, []);
    SettledTime(env, c, [], s, c.genesis);
    FirstBlock(env, c, c.genesis);
  }

  lemma GenesisContext(env: Env, c: Context, hash: HashFunction)
    requires IsSealed(env, c, hash, ZERO_HASH, 0, None, c.genesis)
    ensures ContextValid(env, c).Ok? && Initialize(env, c).Ok?
  {
    SealedDecodes(env, c, hash, ZERO_HASH, 0, None);
  }

  lemma FirstBlock(env: Env, c: Context, b: seq<byte>)
    requires Initialize(env, c).Ok?
    ensures After(env, c, [b]) == Validate(env, c, Initialize(env, c).value, Some([]), b)
  {
    FoldOne(Extend(env, c), Start(env, c), b);
  }

  lemma FoldOne(turn: Turn, start: Report, b: seq<byte>)
    requires start.Accepted?
    ensures Fold(turn, start, [b]) == turn(start.state, [], b)
  {
    assert [b][..0] == [];
  }

  predicate SameEntries(b: Books, n: Books) {
    && b.ledger.balances == n.ledger.balances && b.ledger.supply == n.ledger.supply
    && b.shares.keys == n.shares.keys && b.destinations.entries == n.destinations.entries
  }

  // -------------------------------------------------------------------------- the story

  /** What the records of the example mean. */
  ghost predicate Records(env: Env, share: Share) {
    && env.destination(RECORD) == Some(Compensation.Destination(MINER, WALLET))
    && env.share(RECORD) == Some(share) && env.proof(share) && share.miner == MINER
    && env.issuance(RECORD) == Some(PAYMENT) && env.rules.shareId(share) == Ok(ZERO_HASH)
  }

  ghost predicate Means(env: Env, c: Context, share: Share) {
    && Records(env, share)
    && Block.DecodeHeader(share.template).Ok? && Mined(env, c, share, Block.DecodeHeader(share.template).value)
  }

  /** Work on the block behind genesis. */
  predicate Mined(env: Env, c: Context, share: Share, h: Block.Header) {
    && h.version == Pow.POW_BLOCK_VERSION && h.nonce == 0 && h.height == 1
    && h.commitment == share.commitment && h.network == c.network && IdOf(env, c.provider, c.genesis) == Ok(h.previous)
  }

  lemma DestinationApplies(env: Env, c: Context, f: Frame, w: Candidate, share: Share)
    requires Records(env, share) && ValidBooks(w.books)
    requires w.books.destinations.entries == [] && w.books.destinations.capacity > 0
    ensures var t := TxFor(Transaction.COMPENSATION_DESTINATION);
      && ApplyOne(env, c, f, w, t).Ok?
      && var n := ApplyOne(env, c, f, w, t).value.books;
         && n.ledger == w.books.ledger && n.shares == w.books.shares
         && Compensation.Lookup(n.destinations, MINER) == Ok(WALLET.id)
  {
    Compensation.AssignMeaning(w.books.destinations, Compensation.Destination(MINER, WALLET));
  }

  lemma ShareApplies(env: Env, c: Context, f: Frame, w: Candidate, share: Share)
    requires Means(env, c, share) && w.books.shares.keys == [] && w.books.shares.capacity > 0
    requires f.height == 2 && f.prior.hasTip && f.prior.height < UINT64_MAX
    requires f.history.Some? && |f.history.value| == 2 && f.history.value[0] == c.genesis
    ensures var t := TxFor(Transaction.SHARE_EVIDENCE);
      && ApplyOne(env, c, f, w, t).Ok?
      && ApplyOne(env, c, f, w, t).value.books.ledger == w.books.ledger
      && ApplyOne(env, c, f, w, t).value.books.destinations == w.books.destinations
  {
    ParentIsGenesis(env, c, f, share, Block.DecodeHeader(share.template).value);
    FirstShare(w.books.shares, share);
    assert ApplyShare(env, c, f, w, TxFor(Transaction.SHARE_EVIDENCE).record)
        == Ok(w.(books := w.books.(shares := AcceptShare(w.books.shares, share).value)));
  }

  lemma ParentIsGenesis(env: Env, c: Context, f: Frame, share: Share, h: Block.Header)
    requires Mined(env, c, share, h)
    requires f.history.Some? && |f.history.value| == 2 && f.history.value[0] == c.genesis
    ensures ShareParent(env, c, f, h).Ok?
  {
  }

  lemma FirstShare(used: Replay.Consumed<ShareKey>, share: Share)
    requires used.keys == [] && used.capacity > 0 && ShareKeyOf(share).Some?
    ensures AcceptShare(used, share).Ok?
  {
  }

  lemma PaymentApplies(env: Env, c: Context, f: Frame, w: Candidate, share: Share)
    requires Records(env, share) && ValidBooks(w.books) && f.history.Some?
    requires Compensation.Lookup(w.books.destinations, MINER) == Ok(WALLET.id)
    requires w.books.ledger.balances == [] && w.books.ledger.supply == 0 && w.books.ledger.capacity > 0
    requires Search(Binding(env, PAYMENT, w.books.destinations), f.history.value) == Ok(true)
    ensures var t := TxFor(Transaction.ISSUANCE);
      && ApplyOne(env, c, f, w, t).Ok? && ApplyOne(env, c, f, w, t).value.books.ledger.supply == 100
  {
    Ledger.IssueFailsOnlyWhen(w.books.ledger, PAYMENT);
    Ledger.IssueMeaning(w.books.ledger, PAYMENT);
  }

  /** What a block answers to the search for the payment's share. */
  lemma BlockAnswers(env: Env, c: Context, hash: HashFunction, share: Share, d: Compensation.Destinations,
                     previous: Hash, height: nat, kind: Option<nat>, b: seq<byte>)
    requires Records(env, share) && IsSealed(env, c, hash, previous, height, kind, b)
    requires Compensation.Lookup(d, MINER) == Ok(WALLET.id)
    ensures Binding(env, PAYMENT, d)(b) == Ok(kind == Some(Transaction.SHARE_EVIDENCE))
  {
    SealedDecodes(env, c, hash, previous, height, kind);
    BodyDecodes(env, kind);
    BindingIs(env, d, b, TxsFor(kind));
    if kind == Some(Transaction.SHARE_EVIDENCE) { ShareBinds(env, share, d); }
  }

  lemma BindingIs(env: Env, d: Compensation.Destinations, b: seq<byte>, txs: seq<Tx>)
    requires DecodeBlock(env, b).Ok? && DecodeTxs(env, DecodeBlock(env, b).value.transactions) == Ok(txs)
    ensures Binding(env, PAYMENT, d)(b) == Ok(BoundIn(env, PAYMENT, d, txs))
  {
  }

  lemma ShareBinds(env: Env, share: Share, d: Compensation.Destinations)
    requires Records(env, share) && Compensation.Lookup(d, MINER) == Ok(WALLET.id)
    ensures BoundIn(env, PAYMENT, d, [TxFor(Transaction.SHARE_EVIDENCE)])
  {
    assert [TxFor(Transaction.SHARE_EVIDENCE)][0] == TxFor(Transaction.SHARE_EVIDENCE);
  }

  lemma TipIs(env: Env, c: Context, blocks: seq<seq<byte>>)
    requires After(env, c, blocks).Accepted? && blocks != []
    ensures After(env, c, blocks).state.tipId == IdentityOf(env, c, blocks[|blocks| - 1])
    ensures After(env, c, blocks).state.hasTip && After(env, c, blocks).state.height == |blocks| - 1 < TWO_64
    ensures ValidBooks(After(env, c, blocks).state.books)
  {
    AcceptedIsReached(env, c, blocks);
  }

  /** Whether the books still hold no money, and whether they know the miner's wallet. */
  predicate Poor(b: Books) { b.ledger.balances == [] && b.ledger.supply == 0 }

  predicate Knows(b: Books) { Compensation.Lookup(b.destinations, MINER) == Ok(WALLET.id) }

  /** An accepted history that knows the miner's wallet and has not paid anybody yet. */
  ghost predicate Paying(r: Report) {
    r.Accepted? && r.state.timestamp == 0 && Poor(r.state.books) && Knows(r.state.books)
  }

  lemma DestinationStep(env: Env, c: Context, hash: HashFunction, share: Share, blocks: seq<seq<byte>>, b: seq<byte>)
    requires Records(env, share) && blocks != [] && After(env, c, blocks).Accepted?
    requires After(env, c, blocks).state.timestamp == 0 && SameEntries(After(env, c, blocks).state.books, EMPTY_BOOKS)
    requires IsSealed(env, c, hash, IdentityOf(env, c, blocks[|blocks| - 1]), |blocks|, Some(Transaction.COMPENSATION_DESTINATION), b)
    ensures var n := After(env, c, blocks + [b]);
      Paying(n) && n.state.books.shares.keys == []
  {
    var s, t := After(env, c, blocks).state, TxFor(Transaction.COMPENSATION_DESTINATION);
    TipIs(env, c, blocks);
    OpenedBooks(s.books, [t]);
    assert [t][0].kind == Transaction.COMPENSATION_DESTINATION;
    DestinationApplies(env, c, Frame(s, |blocks|, Some(blocks)), Open(s, |blocks|, [t]), share);
    NextAccepted(env, c, hash, blocks, Transaction.COMPENSATION_DESTINATION, b);
  }

  lemma ShareStep(env: Env, c: Context, hash: HashFunction, share: Share, blocks: seq<seq<byte>>, b: seq<byte>)
    requires Means(env, c, share) && |blocks| == 2 && blocks[0] == c.genesis
    requires Paying(After(env, c, blocks)) && After(env, c, blocks).state.books.shares.keys == []
    requires IsSealed(env, c, hash, IdentityOf(env, c, blocks[1]), 2, Some(Transaction.SHARE_EVIDENCE), b)
    ensures Paying(After(env, c, blocks + [b]))
  {
    var s, t := After(env, c, blocks).state, TxFor(Transaction.SHARE_EVIDENCE);
    TipIs(env, c, blocks);
    OpenedBooks(s.books, [t]);
    assert [t][0].kind == Transaction.SHARE_EVIDENCE;
    ShareApplies(env, c, Frame(s, 2, Some(blocks)), Open(s, 2, [t]), share);
    NextAccepted(env, c, hash, blocks, Transaction.SHARE_EVIDENCE, b);
  }

  lemma PaymentOpens(b: Books)
    requires ValidBooks(b)
    ensures var o := OpenBooks(b, [TxFor(Transaction.ISSUANCE)]);
      && ValidBooks(o) && o.destinations == b.destinations && o.ledger.capacity > 0
      && o.ledger.balances == b.ledger.balances && o.ledger.supply == b.ledger.supply
  {
    var t := TxFor(Transaction.ISSUANCE);
    OpenedBooks(b, [t]);
    assert [t][0].kind == Transaction.ISSUANCE;
  }

  lemma PaymentStep(env: Env, c: Context, hash: HashFunction, share: Share, blocks: seq<seq<byte>>, b: seq<byte>)
    requires Records(env, share) && blocks != [] && After(env, c, blocks).Accepted?
    requires var s := After(env, c, blocks).state;
      && s.timestamp == 0 && Poor(s.books) && Knows(s.books)
      && Search(Binding(env, PAYMENT, s.books.destinations), blocks) == Ok(true)
    requires IsSealed(env, c, hash, IdentityOf(env, c, blocks[|blocks| - 1]), |blocks|, Some(Transaction.ISSUANCE), b)
    ensures var n := After(env, c, blocks + [b]);
      n.Accepted? && n.state.timestamp == 0 && n.state.books.ledger.supply == 100
    ensures TxsOf(env, b) == [TxFor(Transaction.ISSUANCE)]
  {
    var s, t := After(env, c, blocks).state, TxFor(Transaction.ISSUANCE);
    TipIs(env, c, blocks);
    PaymentOpens(s.books);
    PaymentApplies(env, c, Frame(s, |blocks|, Some(blocks)), Open(s, |blocks|, [t]), share);
    NextAccepted(env, c, hash, blocks, Transaction.ISSUANCE, b);
  }

  lemma AgainStep(env: Env, c: Context, hash: HashFunction, share: Share, blocks: seq<seq<byte>>, b: seq<byte>)
    requires Records(env, share) && blocks != [] && After(env, c, blocks).Accepted?
    requires After(env, c, blocks).state.timestamp == 0 && After(env, c, blocks).state.books.ledger.supply == 100
    requires TxFor(Transaction.ISSUANCE) in AllTxs(env, blocks)
    requires IsSealed(env, c, hash, IdentityOf(env, c, blocks[|blocks| - 1]), |blocks|, Some(Transaction.ISSUANCE), b)
    ensures After(env, c, blocks + [b]).Accepted? && After(env, c, blocks + [b]).state.books.ledger.supply == 200
    ensures TxsOf(env, b) == [TxFor(Transaction.ISSUANCE)]
  {
    TipIs(env, c, blocks);
    AcceptedIsReached(env, c, blocks);
    NextPasses(env, c, hash, blocks, After(env, c, blocks).state, Transaction.ISSUANCE, b);
    ShareIsPaidAgain(env, c, blocks, TxFor(Transaction.ISSUANCE), b);
  }

  // ----------------------------------------------------------------------- the history

  function IdFor(hash: HashFunction, b: seq<byte>): Hash {
    if |b| < Block.HEADER_SIZE then ZERO_HASH else HashOf(hash, Domain.BlockId, b[..Block.HEADER_SIZE])
  }

  /** A block with one transaction of this kind behind `parent`. */
  function Next(hash: HashFunction, network: seq<byte>, parent: seq<byte>, height: nat, kind: nat): seq<byte> {
    Block.Encode(Sealed(hash, network, IdFor(hash, parent), height, Some(kind)))
  }

  lemma SealedIdentity(env: Env, c: Context, hash: HashFunction, previous: Hash, height: nat, kind: Option<nat>, b: seq<byte>)
    requires IsSealed(env, c, hash, previous, height, kind, b)
    ensures IdentityOf(env, c, b) == IdFor(hash, b) && !Zero(IdFor(hash, b))
  {
    SealedDecodes(env, c, hash, previous, height, kind);
    SealedId(env, c, hash, previous, height, kind, b);
  }

  lemma NextIsSealed(env: Env, c: Context, hash: HashFunction, previous: Hash, height: nat, kind: Option<nat>, b: seq<byte>, next: nat)
    requires IsSealed(env, c, hash, previous, height, kind, b) && height + 1 < TWO_64 && Plainest(next)
    ensures IsSealed(env, c, hash, IdentityOf(env, c, b), height + 1, Some(next), Next(hash, c.network, b, height + 1, next))
  {
    SealedIdentity(env, c, hash, previous, height, kind, b);
  }

  /** Genesis, a destination, a share, and the same payment in two blocks. */
  function Story(hash: HashFunction, network: seq<byte>, genesis: seq<byte>): seq<seq<byte>> {
    var b1 := Next(hash, network, genesis, 1, Transaction.COMPENSATION_DESTINATION);
    var b2 := Next(hash, network, b1, 2, Transaction.SHARE_EVIDENCE);
    var b3 := Next(hash, network, b2, 3, Transaction.ISSUANCE);
    var b4 := Next(hash, network, b3, 4, Transaction.ISSUANCE);
    [genesis, b1, b2, b3, b4]
  }

  ghost predicate StorySealed(env: Env, c: Context, hash: HashFunction, h: seq<seq<byte>>) {
    && |h| == 5 && h[0] == c.genesis && IsSealed(env, c, hash, ZERO_HASH, 0, None, h[0])
    && IsSealed(env, c, hash, IdentityOf(env, c, h[0]), 1, Some(Transaction.COMPENSATION_DESTINATION), h[1])
    && IsSealed(env, c, hash, IdentityOf(env, c, h[1]), 2, Some(Transaction.SHARE_EVIDENCE), h[2])
    && IsSealed(env, c, hash, IdentityOf(env, c, h[2]), 3, Some(Transaction.ISSUANCE), h[3])
    && IsSealed(env, c, hash, IdentityOf(env, c, h[3]), 4, Some(Transaction.ISSUANCE), h[4])
  }

  lemma EarlySealed(env: Env, c: Context, hash: HashFunction, g: seq<byte>, b1: seq<byte>, b2: seq<byte>)
    requires IsSealed(env, c, hash, ZERO_HASH, 0, None, g)
    requires b1 == Next(hash, c.network, g, 1, Transaction.COMPENSATION_DESTINATION)
    requires b2 == Next(hash, c.network, b1, 2, Transaction.SHARE_EVIDENCE)
    ensures IsSealed(env, c, hash, IdentityOf(env, c, g), 1, Some(Transaction.COMPENSATION_DESTINATION), b1)
    ensures IsSealed(env, c, hash, IdentityOf(env, c, b1), 2, Some(Transaction.SHARE_EVIDENCE), b2)
  {
    NextIsSealed(env, c, hash, ZERO_HASH, 0, None, g, Transaction.COMPENSATION_DESTINATION);
    NextIsSealed(env, c, hash, IdentityOf(env, c, g), 1, Some(Transaction.COMPENSATION_DESTINATION), b1, Transaction.SHARE_EVIDENCE);
  }

  lemma LateSealed(env: Env, c: Context, hash: HashFunction, previous: Hash, b2: seq<byte>, b3: seq<byte>, b4: seq<byte>)
    requires IsSealed(env, c, hash, previous, 2, Some(Transaction.SHARE_EVIDENCE), b2)
    requires b3 == Next(hash, c.network, b2, 3, Transaction.ISSUANCE) && b4 == Next(hash, c.network, b3, 4, Transaction.ISSUANCE)
    ensures IsSealed(env, c, hash, IdentityOf(env, c, b2), 3, Some(Transaction.ISSUANCE), b3)
    ensures IsSealed(env, c, hash, IdentityOf(env, c, b3), 4, Some(Transaction.ISSUANCE), b4)
  {
    NextIsSealed(env, c, hash, previous, 2, Some(Transaction.SHARE_EVIDENCE), b2, Transaction.ISSUANCE);
    NextIsSealed(env, c, hash, IdentityOf(env, c, b2), 3, Some(Transaction.ISSUANCE), b3, Transaction.ISSUANCE);
  }

  lemma StoryIsSealed(env: Env, c: Context, hash: HashFunction)
    requires IsSealed(env, c, hash, ZERO_HASH, 0, None, c.genesis)
    ensures StorySealed(env, c, hash, Story(hash, c.network, c.genesis))
  {
    var h := Story(hash, c.network, c.genesis);
    EarlySealed(env, c, hash, h[0], h[1], h[2]);
    LateSealed(env, c, hash, IdentityOf(env, c, h[1]), h[2], h[3], h[4]);
  }

  lemma SearchThird(ask: Question, x: seq<byte>, y: seq<byte>, z: seq<byte>)
    requires ask(x) == Ok(false) && ask(y) == Ok(false) && ask(z) == Ok(true)
    ensures Search(ask, [x] + [y] + [z]) == Ok(true)
  {
    assert ([x] + [y] + [z])[1..] == [y, z] && [y, z][1..] == [z];
    assert Search(ask, [z]) == Ok(true) && Search(ask, [y, z]) == Ok(true);
  }

  lemma ShareIsFound(env: Env, c: Context, hash: HashFunction, share: Share, h: seq<seq<byte>>, d: Compensation.Destinations)
    requires Records(env, share) && StorySealed(env, c, hash, h) && Compensation.Lookup(d, MINER) == Ok(WALLET.id)
    ensures Search(Binding(env, PAYMENT, d), [h[0]] + [h[1]] + [h[2]]) == Ok(true)
  {
    BlockAnswers(env, c, hash, share, d, ZERO_HASH, 0, None, h[0]);
    BlockAnswers(env, c, hash, share, d, IdentityOf(env, c, h[0]), 1, Some(Transaction.COMPENSATION_DESTINATION), h[1]);
    BlockAnswers(env, c, hash, share, d, IdentityOf(env, c, h[1]), 2, Some(Transaction.SHARE_EVIDENCE), h[2]);
    SearchThird(Binding(env, PAYMENT, d), h[0], h[1], h[2]);
  }

  lemma FirstTwo(env: Env, c: Context, hash: HashFunction, share: Share, h: seq<seq<byte>>)
    requires Means(env, c, share) && StorySealed(env, c, hash, h)
    ensures var n := After(env, c, [h[0]] + [h[1]]);
      Paying(n) && n.state.books.shares.keys == []
  {
    GenesisAccepted(env, c, hash);
    DestinationStep(env, c, hash, share, [h[0]], h[1]);
  }

  lemma FirstThree(env: Env, c: Context, hash: HashFunction, share: Share, h: seq<seq<byte>>, x: seq<seq<byte>>)
    requires Means(env, c, share) && StorySealed(env, c, hash, h) && x == [h[0]] + [h[1]]
    ensures Paying(After(env, c, x + [h[2]]))
  {
    FirstTwo(env, c, hash, share, h);
    ShareStep(env, c, hash, share, x, h[2]);
  }

  lemma FirstFour(env: Env, c: Context, hash: HashFunction, share: Share, h: seq<seq<byte>>)
    requires Means(env, c, share) && StorySealed(env, c, hash, h)
    ensures var n := After(env, c, [h[0]] + [h[1]] + [h[2]] + [h[3]]);
      n.Accepted? && n.state.timestamp == 0 && n.state.books.ledger.supply == 100
    ensures TxsOf(env, h[3]) == [TxFor(Transaction.ISSUANCE)]
  {
    var x := [h[0]] + [h[1]] + [h[2]];
    FirstThree(env, c, hash, share, h, [h[0]] + [h[1]]);
    ShareIsFound(env, c, hash, share, h, After(env, c, x).state.books.destinations);
    PaymentStep(env, c, hash, share, x, h[3]);
  }

  lemma AllFive(env: Env, c: Context, hash: HashFunction, share: Share, h: seq<seq<byte>>)
    requires Means(env, c, share) && StorySealed(env, c, hash, h)
    ensures After(env, c, h).Accepted? && After(env, c, h).state.books.ledger.supply == 200
    ensures TxsOf(env, h[3]) == TxsOf(env, h[4]) == [TxFor(Transaction.ISSUANCE)]
  {
    FirstFour(env, c, hash, share, h);
    FourAndOne(h);
    LastPayment(env, c, hash, share, [h[0]] + [h[1]] + [h[2]] + [h[3]], h[4], h);
  }

  lemma FourAndOne<T>(h: seq<T>)
    requires |h| == 5
    ensures var x := [h[0]] + [h[1]] + [h[2]] + [h[3]];
      |x| == 4 && x[3] == h[3] && x + [h[4]] == h
  {
  }

  lemma LastPayment(env: Env, c: Context, hash: HashFunction, share: Share, x: seq<seq<byte>>, b: seq<byte>, h: seq<seq<byte>>)
    requires Records(env, share) && |x| == 4 && x + [b] == h && TxsOf(env, x[3]) == [TxFor(Transaction.ISSUANCE)]
    requires After(env, c, x).Accepted? && After(env, c, x).state.timestamp == 0 && After(env, c, x).state.books.ledger.supply == 100
    requires IsSealed(env, c, hash, IdentityOf(env, c, x[3]), 4, Some(Transaction.ISSUANCE), b)
    ensures After(env, c, h).Accepted? && After(env, c, h).state.books.ledger.supply == 200
    ensures TxsOf(env, b) == [TxFor(Transaction.ISSUANCE)]
  {
    PaymentListed(env, x);
    AgainStep(env, c, hash, share, x, b);
  }

  /** The whole history is accepted: one share, one issuance in two blocks, 200 units. */
  lemma StoryIsAccepted(env: Env, c: Context, hash: HashFunction, share: Share)
    requires Means(env, c, share) && IsSealed(env, c, hash, ZERO_HASH, 0, None, c.genesis)
    ensures var h := Story(hash, c.network, c.genesis);
      && After(env, c, h).Accepted? && After(env, c, h).state.books.ledger.supply == 200
      && TxsOf(env, h[3]) == TxsOf(env, h[4]) == [TxFor(Transaction.ISSUANCE)]
      && IsSharePayment(env, TxFor(Transaction.ISSUANCE))
  {
    StoryIsSealed(env, c, hash);
    AllFive(env, c, hash, share, Story(hash, c.network, c.genesis));
  }

  lemma PaymentListed(env: Env, x: seq<seq<byte>>)
    requires x != [] && TxsOf(env, x[|x| - 1]) == [TxFor(Transaction.ISSUANCE)]
    ensures TxFor(Transaction.ISSUANCE) in AllTxs(env, x)
  {
    assert [TxFor(Transaction.ISSUANCE)][0] in TxsOf(env, x[|x| - 1]);
  }

  // ------------------------------------------------------------------------ one instance

  function GenesisFor(hash: HashFunction): seq<byte> { Block.Encode(Sealed(hash, NETWORK, ZERO_HASH, 0, None)) }

  /** The header the share's work was done on: version 3, behind genesis. */
  function TemplateFor(hash: HashFunction): Block.Header {
    Block.Header(Pow.POW_BLOCK_VERSION, 0, NETWORK, IdFor(hash, GenesisFor(hash)), 1, 0, ZERO_HASH, Bytes(32, 1), 0, 0, 0)
  }

  function ShareFor(hash: HashFunction): Share {
    Share(ZERO_HASH, MINER, 0, Block.EncodeHeader(TemplateFor(hash)), ZERO_HASH)
  }

  function NoLifecycle(): L.Env {
    L.Env(Authority.Crypto(_ => false, _ => false, (_, _, _) => Authority.Invalid, _ => Err(Unresolved)),
          [], _ => Err(Unresolved), _ => Authority.Invalid, (_, _) => false)
  }

  function EnvFor(hash: HashFunction): Env {
    Env(hash, (k, r) => |r| == 65, _ => Ok(0), _ => None, (k, r) => None, _ => None,
        r => Some(ShareFor(hash)), _ => None, r => Some(PAYMENT), _ => None,
        r => Some(Compensation.Destination(MINER, WALLET)), s => true,
        Rules(_ => true, _ => Err(Unresolved), _ => Err(Unresolved), s => Ok(ZERO_HASH)),
        (roots, provider) => NoLifecycle(), C.Oracle(b => Contract.Decode(b), _ => None, _ => false),
        (p, l, a, d) => Err(Unresolved), _ => true, _ => true)
  }

  function ContextFor(hash: HashFunction): Context { Context(NETWORK, GenesisFor(hash), [], [], Some(0), None) }

  lemma InstanceIsSealed(hash: HashFunction)
    requires Answers(hash)
    ensures IsSealed(EnvFor(hash), ContextFor(hash), hash, ZERO_HASH, 0, None, GenesisFor(hash))
  {
    ZeroHashIsZero();
  }

  lemma InstanceMeans(hash: HashFunction)
    requires Answers(hash)
    ensures Means(EnvFor(hash), ContextFor(hash), ShareFor(hash))
  {
    var env, c, t := EnvFor(hash), ContextFor(hash), TemplateFor(hash);
    InstanceIsSealed(hash);
    SealedIdentity(env, c, hash, ZERO_HASH, 0, None, GenesisFor(hash));
    SealedId(env, c, hash, ZERO_HASH, 0, None, GenesisFor(hash));
    TemplateIsGood(hash);
    Block.DecodeEncodeHeader(t);
  }

  lemma OneIsTarget()
    ensures Pow.ValidTarget(Bytes(32, 1))
  {
    PowTable();
    ValueOfBytes(32, 1);
  }

  lemma TemplateIsGood(hash: HashFunction)
    requires !Zero(IdFor(hash, GenesisFor(hash)))
    ensures Block.HeaderTyped(TemplateFor(hash)) && Block.CheckHeader(TemplateFor(hash)).Ok?
  {
    OneIsTarget();
    ZeroMeans(IdFor(hash, GenesisFor(hash)));
  }

  /** An accepted history that pays one SHARE issuance twice, for every hash that answers. */
  lemma PaidTwice(hash: HashFunction)
    requires Answers(hash)
    ensures var env, c := EnvFor(hash), ContextFor(hash);
      var h := Story(hash, NETWORK, GenesisFor(hash));
      && After(env, c, h).Accepted? && After(env, c, h).state.books.ledger.supply == 200
      && TxsOf(env, h[3]) == TxsOf(env, h[4]) == [TxFor(Transaction.ISSUANCE)]
      && IsSharePayment(env, TxFor(Transaction.ISSUANCE))
  {
    InstanceIsSealed(hash);
    InstanceMeans(hash);
    StoryIsAccepted(EnvFor(hash), ContextFor(hash), hash, ShareFor(hash));
  }
}
