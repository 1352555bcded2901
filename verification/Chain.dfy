/** The chain validator (src/stn_chain.c): what one candidate block must satisfy against the
    state its history left behind, and the fold over a whole history. */
module Chain {
  import opened BigEndian
  import opened Status
  import opened Hashing
  import Pow
  import Transaction
  import Block
  import BlockLoops
  import Ledger
  import Compensation
  import opened Economy
  import L = Lifecycle
  import C = Contracts

  const SLACK: nat := 32 // STN_BLOCK_MAX_TRANSACTIONS free slots in every opened store

  datatype Context = Context(
    network: seq<byte>, genesis: seq<byte>, roots: seq<nat>, initials: seq<nat>,
    provider: Option<nat>, bootstrap: Option<seq<byte>>)

  /** Deterministic functions the validator calls: hashing, record decoders, signatures. */
  datatype Env = Env(
    hash: HashFunction,
    record: Transaction.RecordCheck,
    activation: seq<byte> -> Outcome<nat>,
    publication: seq<byte> -> Option<L.Publication>,
    action: (nat, seq<byte>) -> Option<L.Action>,
    contract: seq<byte> -> Option<C.ContractAction>,
    share: seq<byte> -> Option<Share>,
    evidence: seq<byte> -> Option<Evidence>,
    issuance: seq<byte> -> Option<Ledger.Issuance>,
    transfer: seq<byte> -> Option<Envelope>,
    destination: seq<byte> -> Option<Compensation.Destination>,
    proof: Share -> bool,
    rules: Rules,
    lifecycle: (seq<nat>, Option<nat>) -> L.Env,
    oracle: C.Oracle,
    authorize: (Option<nat>, L.Paired, C.ContractAction, seq<byte>) -> Outcome<()>,
    identitiesValid: seq<nat> -> bool,
    rootsValid: seq<nat> -> bool)

  datatype ChainState = ChainState(
    network: seq<byte>, genesisId: Hash, tipId: Hash, height: nat, timestamp: nat, hasTip: bool,
    currentTarget: seq<byte>, work: seq<byte>, window: seq<Pow.WindowHeader>, activation: nat,
    books: Books, lifecycle: L.Paired, contracts: C.Store)

  datatype Reason =
    | BadArgument | BadContext | BadState | Structure | Network | Genesis | Height | Parent
    | Timestamp | TargetReason | Body | HashReason | ZeroId | PowReason | WorkReason

  datatype Refusal = Refusal(reason: Reason, detail: DataStatus)

  datatype Report = Accepted(state: ChainState) | Failed(reason: Reason, detail: DataStatus)

  datatype Acceptance = UnderContext | Rejected | UnresolvedYet | Faulty

  /** `fail`: the detail decides how final the refusal is. */
  function AcceptanceOf(r: Report): Acceptance {
    match r
    case Accepted(_) => UnderContext
    case Failed(_, d) =>
      if d == Unresolved then UnresolvedYet
      else if d == ProviderError || d == Argument then Faulty
      else Rejected
  }

  const ZERO_HASH: Hash := Bytes(32, 0)

  function Check(env: Env): Block.TxCheck { Transaction.Structure(env.record) }

  function DecodeBlock(env: Env, b: seq<byte>): Outcome<Block.Block> { Block.Decode(Check(env), b) }

  // ------------------------------------------------------------------------ context

  function ContextValid(env: Env, c: Context): Outcome<()> {
    if !env.rootsValid(c.roots) || !env.identitiesValid(c.initials) then Err(Content)
    else
      var g := DecodeBlock(env, c.genesis);
      if g.Err? || g.value.header.height != 0 || g.value.header.network != c.network then Err(Content)
      else
        var h := g.value.header;
        match c.bootstrap
        case Some(t) =>
          if h.version != Pow.POW_BLOCK_VERSION || !Pow.ValidTarget(t) || h.target != t then Err(Target) else Ok(())
        case None => if h.version != 1 then Err(Version) else Ok(())
  }

  /** stn_chain_initialize. */
  function Initialize(env: Env, c: Context): Outcome<ChainState> {
    if ContextValid(env, c).Err? then Err(ContextValid(env, c).status)
    else if env.activation(c.genesis).Err? then Err(env.activation(c.genesis).status)
    else
      var initial := if c.initials == [] then 0 else c.initials[0];
      var life := L.Initialize(env.lifecycle(c.roots, c.provider), initial, c.initials, 0, 0);
      Ok(ChainState(c.network, ZERO_HASH, ZERO_HASH, 0, 0, false, Bytes(32, 0), Bytes(40, 0), [],
                    env.activation(c.genesis).value, EMPTY_BOOKS, life, C.NO_CONTRACTS))
  }

  /** stn_chain_block_id: the hash of the header of a well-formed block. */
  function IdOf(env: Env, provider: Option<nat>, b: seq<byte>): Outcome<Hash> {
    if DecodeBlock(env, b).Err? then Err(DecodeBlock(env, b).status)
    else Digest(env.hash, provider, Domain.BlockId, b[..Block.HEADER_SIZE])
  }

  // -------------------------------------------------------------------- prior state

  function TargetStateValid(c: Context, s: ChainState): Outcome<()> {
    if !s.hasTip || c.bootstrap.None? then
      if Block.NonZero(s.currentTarget) || Block.NonZero(s.work) then Err(Content) else Ok(())
    else if !Pow.ValidTarget(s.currentTarget) || !Block.NonZero(s.work) then Err(Content)
    else if s.height < 60 then
      var expected := Pow.WorkAt(c.bootstrap.value, s.height);
      if expected.Err? then Err(expected.status)
      else if s.currentTarget != c.bootstrap.value || s.work != expected.value then Err(Content)
      else Ok(())
    else Ok(())
  }

  function AnchorValid(env: Env, c: Context, s: ChainState): Outcome<()> {
    var anchor := IdOf(env, c.provider, c.genesis);
    if anchor.Err? then Err(anchor.status)
    else if Zero(anchor.value) || Zero(s.tipId) || anchor.value != s.genesisId then Err(Content)
    else if DecodeBlock(env, c.genesis).Err? then Err(DecodeBlock(env, c.genesis).status)
    else
      var start := DecodeBlock(env, c.genesis).value.header.timestamp;
      if s.timestamp < start || (s.height == 0 && (s.tipId != anchor.value || s.timestamp != start)) then Err(Content)
      else Ok(())
  }

  /** prior_valid. */
  function PriorValid(env: Env, c: Context, s: ChainState): Outcome<()> {
    if env.activation(c.genesis).Err? then Err(env.activation(c.genesis).status)
    else if s.activation != env.activation(c.genesis).value || s.network != c.network then Err(Content)
    else if |s.books.pairs.keys| > PAIR_CAPACITY || |s.books.transfers.keys| > s.books.transfers.capacity then Err(Content)
    else if TargetStateValid(c, s).Err? then TargetStateValid(c, s)
    else if !s.hasTip then
      if s.height == 0 && s.timestamp == 0 && Zero(s.tipId) && Zero(s.genesisId) then Ok(()) else Err(Content)
    else AnchorValid(env, c, s)
  }

  /** Heights run up to the parent's, times never fall, and one target serves them all. */
  predicate WindowMatches(s: ChainState, height: nat) {
    && (forall i :: 0 <= i < |s.window| ==>
          && s.window[i].height == height - |s.window| + i && s.window[i].version == Pow.POW_BLOCK_VERSION
          && s.window[i].target == s.currentTarget)
    && (forall i :: 0 < i < |s.window| ==> s.window[i - 1].timestamp <= s.window[i].timestamp)
  }

  /** stn_chain_required_target. */
  function RequiredTarget(env: Env, c: Context, s: ChainState): Outcome<seq<byte>> {
    if ContextValid(env, c).Err? then Err(ContextValid(env, c).status)
    else if c.bootstrap.None? then Err(Unresolved)
    else if PriorValid(env, c, s).Err? then Err(PriorValid(env, c, s).status)
    else if s.hasTip && s.height == UINT64_MAX then Err(Overflow)
    else
      var height := if s.hasTip then s.height + 1 else 0;
      var n := |s.window|;
      if n != (if s.hasTip then s.height % 60 + 1 else 0) then Err(Content)
      else if !WindowMatches(s, height) then Err(Content)
      else if n != 0 && s.window[n - 1].timestamp != s.timestamp then Err(Content)
      else
        var history := if height != 0 && height % 60 == 0 then s.window else if n == 0 then [] else [s.window[n - 1]];
        Pow.NextTarget(height, c.bootstrap.value, history)
  }

  // --------------------------------------------------------------------- candidates

  datatype Candidate = Candidate(books: Books, lifecycle: L.Paired, contracts: C.Store)

  /** What a transaction is checked against besides the candidate state. */
  datatype Frame = Frame(prior: ChainState, height: nat, history: Option<seq<seq<byte>>>)

  function DecodeTx(env: Env, b: seq<byte>): Outcome<Transaction.Tx> { Transaction.Decode(env.record, b) }

  function DecodeTxs(env: Env, txs: seq<seq<byte>>): Outcome<seq<Transaction.Tx>> {
    if txs == [] then Ok([])
    else if DecodeTx(env, txs[0]).Err? then Err(Content)
    else
      var rest := DecodeTxs(env, txs[1..]);
      if rest.Err? then rest else Ok([DecodeTx(env, txs[0]).value] + rest.value)
  }

  /** The first pass over a body: publications must decode and name this network. */
  function CheckPublications(env: Env, network: seq<byte>, txs: seq<Transaction.Tx>): Option<Refusal> {
    if txs == [] then None
    else if txs[0].kind != Transaction.PUBLICATION then CheckPublications(env, network, txs[1..])
    else if env.publication(txs[0].record).None? then Some(Refusal(Body, Content))
    else if env.publication(txs[0].record).value.network != network then Some(Refusal(Network, Content))
    else CheckPublications(env, network, txs[1..])
  }

  /** What a search asks of one block of the accepted prefix. */
  type Question = seq<byte> -> Outcome<bool>

  /** Block after block, until one answers yes or cannot answer. */
  function Search(ask: Question, history: seq<seq<byte>>): Outcome<bool> {
    if history == [] then Ok(false)
    else if ask(history[0]) == Ok(false) then Search(ask, history[1..])
    else ask(history[0])
  }

  /** Whether a block has this identifier. */
  function Named(env: Env, provider: Option<nat>, id: Hash): Question {
    b => if IdOf(env, provider, b).Err? then Err(ProviderError) else Ok(IdOf(env, provider, b).value == id)
  }

  function EvidenceBlock(env: Env, c: Context, f: Frame, id: Hash): Outcome<()> {
    match f.history
    case Some(blocks) =>
      var found := Search(Named(env, c.provider, id), blocks);
      if found.Err? then Err(found.status) else if found.value then Ok(()) else Err(Content)
    case None => if f.prior.hasTip && f.prior.tipId == id then Ok(()) else Err(Unresolved)
  }

  /** A BLOCK compensation pair: evidence of an accepted block and, right behind it, the
      issuance that pays for it. */
  function ApplyPair(env: Env, c: Context, f: Frame, w: Candidate, e: Transaction.Tx, i: Transaction.Tx): Outcome<Candidate> {
    if env.evidence(e.record).None? then Err(Content)
    else if EvidenceBlock(env, c, f, env.evidence(e.record).value.block).Err? then
      Err(EvidenceBlock(env, c, f, env.evidence(e.record).value.block).status)
    else if i.kind != Transaction.ISSUANCE then Err(Content)
    else if env.issuance(i.record).None? then Err(Content)
    else if env.issuance(i.record).value.reason != Ledger.REASON_BLOCK then Err(Type)
    else
      match AcceptPair(env.rules, w.books.ledger, w.books.pairs, w.books.destinations,
                       env.evidence(e.record).value, env.issuance(i.record).value)
      case Err(s) => Err(s)
      case Ok((l, pairs)) => Ok(w.(books := w.books.(ledger := l, pairs := pairs)))
  }

  /** Whether some share evidence among these transactions binds the issuance. */
  function BoundIn(env: Env, r: Ledger.Issuance, d: Compensation.Destinations, txs: seq<Transaction.Tx>): bool {
    exists i :: 0 <= i < |txs| && txs[i].kind == Transaction.SHARE_EVIDENCE
      && env.share(txs[i].record).Some? && BindShare(env.rules, r, env.share(txs[i].record).value, d).Ok?
  }

  /** Whether a block holds share evidence that binds the issuance. */
  function Binding(env: Env, r: Ledger.Issuance, d: Compensation.Destinations): Question {
    b => if DecodeBlock(env, b).Err? || DecodeTxs(env, DecodeBlock(env, b).value.transactions).Err? then Err(Content)
         else Ok(BoundIn(env, r, d, DecodeTxs(env, DecodeBlock(env, b).value.transactions).value))
  }

  /** An issuance on its own: it must be a SHARE payment bound to earlier evidence. */
  function ApplyIssuance(env: Env, f: Frame, w: Candidate, record: seq<byte>): Outcome<Candidate> {
    var d := w.books.destinations;
    if env.issuance(record).None? then Err(Content)
    else
      var r := env.issuance(record).value;
      if r.reason != Ledger.REASON_SHARE then Err(Content)
      else if Compensation.Lookup(d, r.identity) != Ok(r.wallet.id) then Err(Content)
      else if f.history.None? then Err(Unresolved)
      else if Search(Binding(env, r, d), f.history.value) != Ok(true) then Err(Content)
      else
        match Ledger.Issue(w.books.ledger, r)
        case Err(s) => Err(s)
        case Ok(l) => Ok(w.(books := w.books.(ledger := l)))
  }

  function ApplyTransfer(env: Env, w: Candidate, record: seq<byte>): Outcome<Candidate> {
    if env.transfer(record).None? then Err(Content)
    else
      match AcceptTransfer(env.rules, w.books.ledger, w.books.transfers, env.transfer(record).value)
      case Err(s) => Err(s)
      case Ok((l, used)) => Ok(w.(books := w.books.(ledger := l, transfers := used)))
  }

  function ApplyDestination(env: Env, w: Candidate, record: seq<byte>): Outcome<Candidate> {
    if env.destination(record).None? then Err(Content)
    else
      match Compensation.Assign(w.books.destinations, env.destination(record).value)
      case Err(s) => Err(s)
      case Ok(d) => Ok(w.(books := w.books.(destinations := d)))
  }

  function ApplyContract(env: Env, c: Context, w: Candidate, record: seq<byte>): Outcome<Candidate> {
    if env.contract(record).None? then Err(Content)
    else
      var a := env.contract(record).value;
      match C.Apply(env.oracle, w.contracts, a, draft => env.authorize(c.provider, w.lifecycle, a, draft))
      case Err(s) => Err(s)
      case Ok(n) => Ok(w.(contracts := n))
  }

  /** The work header a share was mined on must name the accepted block it extends. */
  function ShareParent(env: Env, c: Context, f: Frame, h: Block.Header): Outcome<()>
    requires h.height > 0
  {
    match f.history
    case Some(blocks) =>
      if h.height - 1 >= |blocks| || IdOf(env, c.provider, blocks[h.height - 1]).Err?
         || IdOf(env, c.provider, blocks[h.height - 1]).value != h.previous then Err(Content)
      else Ok(())
    case None =>
      if h.height + 1 != f.height || h.previous != f.prior.tipId then Err(Unresolved) else Ok(())
  }

  function ApplyShare(env: Env, c: Context, f: Frame, w: Candidate, record: seq<byte>): Outcome<Candidate> {
    if env.share(record).None? then Err(Content)
    else
      var s := env.share(record).value;
      var h := Block.DecodeHeader(s.template);
      if h.Err? || h.value.version != Pow.POW_BLOCK_VERSION || h.value.nonce != 0
         || h.value.commitment != s.commitment || h.value.network != c.network
         || !f.prior.hasTip || f.prior.height == UINT64_MAX
         || h.value.height >= f.height || h.value.height == 0 || !env.proof(s) then Err(Content)
      else if ShareParent(env, c, f, h.value).Err? then Err(ShareParent(env, c, f, h.value).status)
      else
        match AcceptShare(w.books.shares, s)
        case Err(e) => Err(e)
        case Ok(used) => Ok(w.(books := w.books.(shares := used)))
  }

  function LifecycleFailure(r: L.Result): DataStatus {
    if r == L.NoCapacity || r == L.ProviderFailure then ProviderError else Content
  }

  /** A grant, revocation or rotation, or a publication at or above the activation height. */
  function ApplyLifecycle(env: Env, c: Context, w: Candidate, t: Transaction.Tx): Outcome<Candidate>
  {
    var life := env.lifecycle(c.roots, c.provider);
    var action :=
      if t.kind == Transaction.PUBLICATION then
        if env.publication(t.record).None? then None else Some(L.PublishAction(env.publication(t.record).value))
      else env.action(t.kind, t.record);
    if action.None? then Err(Content)
    else if action.value.PublishAction? && L.CheckPublication(life, w.lifecycle, action.value.publication) != L.Done then
      Err(LifecycleFailure(L.CheckPublication(life, w.lifecycle, action.value.publication)))
    else
      var (r, n) := L.Apply(life, w.lifecycle, action.value);
      if r != L.Done then Err(LifecycleFailure(r)) else Ok(w.(lifecycle := n))
  }

  function ApplyOne(env: Env, c: Context, f: Frame, w: Candidate, t: Transaction.Tx): Outcome<Candidate> {
    if t.kind == Transaction.ISSUANCE then ApplyIssuance(env, f, w, t.record)
    else if t.kind == Transaction.TRANSFER then ApplyTransfer(env, w, t.record)
    else if t.kind == Transaction.COMPENSATION_DESTINATION then ApplyDestination(env, w, t.record)
    else if t.kind == Transaction.CONTRACT_ACTION then ApplyContract(env, c, w, t.record)
    else if t.kind == Transaction.SHARE_EVIDENCE then ApplyShare(env, c, f, w, t.record)
    else if t.kind == Transaction.PUBLICATION && f.height < f.prior.activation then Ok(w)
    else ApplyLifecycle(env, c, w, t)
  }

  /** The transaction loop; a BLOCK evidence takes the transaction behind it along. */
  function ApplyTxs(env: Env, c: Context, f: Frame, w: Candidate, txs: seq<Transaction.Tx>): Outcome<Candidate>
    decreases |txs|
  {
    if txs == [] then Ok(w)
    else if txs[0].kind == Transaction.BLOCK_COMPENSATION_EVIDENCE then
      if |txs| < 2 then Err(Content)
      else
        var n := ApplyPair(env, c, f, w, txs[0], txs[1]);
        if n.Err? then n else ApplyTxs(env, c, f, n.value, txs[2..])
    else
      var n := ApplyOne(env, c, f, w, txs[0]);
      if n.Err? then n else ApplyTxs(env, c, f, n.value, txs[1..])
  }

  predicate HasKind(txs: seq<Transaction.Tx>, kind: nat) {
    exists i :: 0 <= i < |txs| && txs[i].kind == kind
  }

  predicate NeedsLifecycle(s: ChainState, height: nat, txs: seq<Transaction.Tx>) {
    || HasKind(txs, Transaction.AUTHORITY_GRANT) || HasKind(txs, Transaction.AUTHORITY_REVOKE)
    || HasKind(txs, Transaction.IDENTITY_ROTATE)
    || (HasKind(txs, Transaction.PUBLICATION) && height >= s.activation)
  }

  /** The clones: each store a block touches is copied with 32 free slots. */
  function OpenBooks(b: Books, txs: seq<Transaction.Tx>): Books {
    var money := HasKind(txs, Transaction.ISSUANCE) || HasKind(txs, Transaction.TRANSFER)
                 || HasKind(txs, Transaction.BLOCK_COMPENSATION_EVIDENCE);
    Books(
      if money then b.ledger.(capacity := |b.ledger.balances| + SLACK) else b.ledger,
      if money then b.transfers.(capacity := |b.transfers.keys| + SLACK) else b.transfers,
      b.pairs,
      if HasKind(txs, Transaction.SHARE_EVIDENCE) then b.shares.(capacity := |b.shares.keys| + SLACK) else b.shares,
      if HasKind(txs, Transaction.COMPENSATION_DESTINATION)
      then b.destinations.(capacity := |b.destinations.entries| + SLACK) else b.destinations)
  }

  function OpenLifecycle(s: ChainState, height: nat, txs: seq<Transaction.Tx>): L.Paired {
    var l := s.lifecycle;
    if NeedsLifecycle(s, height, txs)
    then l.(grantCapacity := |l.grants| + SLACK, replay := l.replay.(capacity := |l.replay.keys| + SLACK)) else l
  }

  function Open(s: ChainState, height: nat, txs: seq<Transaction.Tx>): Candidate {
    Candidate(OpenBooks(s.books, txs), OpenLifecycle(s, height, txs), s.contracts)
  }

  // ---------------------------------------------------------------------- one block

  /** The candidate's place on the chain: genesis bytes, or height, parent and time. */
  function CheckLink(c: Context, s: ChainState, h: Block.Header, bytes: seq<byte>): Option<Reason> {
    if h.network != c.network then Some(Network)
    else if !s.hasTip then if bytes != c.genesis then Some(Genesis) else None
    else if s.height == UINT64_MAX || h.height != s.height + 1 then Some(Height)
    else if h.previous != s.tipId then Some(Parent)
    else if h.timestamp < s.timestamp then Some(Timestamp)
    else None
  }

  function CheckTarget(env: Env, c: Context, s: ChainState, h: Block.Header): Outcome<()> {
    if c.bootstrap.None? then Ok(())
    else
      var required := RequiredTarget(env, c, s);
      if required.Err? then Err(required.status)
      else if h.target != required.value then Err(Target)
      else Ok(())
  }

  /** Whether a hash meets the target it claims. */
  function CheckWork(id: Hash, target: seq<byte>): Outcome<()> {
    if Pow.CheckTarget(target).Err? then Pow.CheckTarget(target)
    else if Value(id) <= Value(target) then Ok(()) else Err(Work)
  }

  function AddWork(work: seq<byte>, target: seq<byte>): Outcome<seq<byte>> {
    var unit := Pow.TargetWorkOf(target);
    if unit.Err? then unit else Pow.WorkSum(work, unit.value)
  }

  function NextWindow(window: seq<Pow.WindowHeader>, h: Block.Header): seq<Pow.WindowHeader> {
    (if h.height % 60 == 0 then [] else window) + [Pow.WindowHeader(3, h.height, h.timestamp, h.target)]
  }

  /** The header part of the successor state; the stores are still those of `s`. */
  function Advance(c: Context, s: ChainState, h: Block.Header, id: Hash): ChainState {
    var n := s.(hasTip := true, height := h.height, timestamp := h.timestamp, tipId := id,
                genesisId := if s.hasTip then s.genesisId else id);
    if c.bootstrap.None? || AddWork(s.work, h.target).Err? then n
    else n.(work := AddWork(s.work, h.target).value, currentTarget := h.target, window := NextWindow(s.window, h))
  }

  /** Everything checked before a block's transactions take effect. */
  function CheckBlock(env: Env, c: Context, s: ChainState, bytes: seq<byte>): Option<Refusal> {
    if ContextValid(env, c).Err? then Some(Refusal(BadContext, ContextValid(env, c).status))
    else if DecodeBlock(env, bytes).Err? then Some(Refusal(Structure, DecodeBlock(env, bytes).status))
    else
      var b := DecodeBlock(env, bytes).value;
      var h := b.header;
      if h.version != (if c.bootstrap.Some? then Pow.POW_BLOCK_VERSION else 1) then Some(Refusal(BadContext, Version))
      else if PriorValid(env, c, s).Err? then Some(Refusal(BadState, PriorValid(env, c, s).status))
      else if CheckLink(c, s, h, bytes).Some? then Some(Refusal(CheckLink(c, s, h, bytes).value, Content))
      else if CheckTarget(env, c, s, h).Err? then Some(Refusal(TargetReason, CheckTarget(env, c, s, h).status))
      else BodyRefusal(env, c, s, b, bytes)
  }

  function BodyRefusal(env: Env, c: Context, s: ChainState, b: Block.Block, bytes: seq<byte>): Option<Refusal> {
    var intact := BlockLoops.Integrity(Check(env), env.hash, c.provider, b);
    if intact.Err? then Some(Refusal(Body, intact.status))
    else
      var txs := DecodeTxs(env, b.transactions);
      if txs.Err? then Some(Refusal(Body, Content))
      else if CheckPublications(env, c.network, txs.value).Some? then CheckPublications(env, c.network, txs.value)
      else CheckIdentifier(env, c, s, b.header, bytes)
  }

  function CheckIdentifier(env: Env, c: Context, s: ChainState, h: Block.Header, bytes: seq<byte>): Option<Refusal> {
    var id := IdOf(env, c.provider, bytes);
    if id.Err? then Some(Refusal(HashReason, id.status))
    else if Zero(id.value) then Some(Refusal(ZeroId, Content))
    else if c.bootstrap.None? then None
    else if CheckWork(id.value, h.target).Err? then Some(Refusal(PowReason, CheckWork(id.value, h.target).status))
    else if AddWork(s.work, h.target).Err? then Some(Refusal(WorkReason, AddWork(s.work, h.target).status))
    else None
  }

  function HeaderOf(env: Env, b: seq<byte>): Block.Header {
    match DecodeBlock(env, b)
    case Ok(block) => block.header
    case Err(_) => Block.Header(0, 0, [], [], 0, 0, [], [], 0, 0, 0)
  }

  /** The identifier of a block, zero when it has none. */
  function IdentityOf(env: Env, c: Context, b: seq<byte>): Hash {
    match IdOf(env, c.provider, b)
    case Ok(id) => id
    case Err(_) => ZERO_HASH
  }

  function TxsOf(env: Env, b: seq<byte>): seq<Transaction.Tx> {
    if DecodeBlock(env, b).Err? then []
    else
      match DecodeTxs(env, DecodeBlock(env, b).value.transactions)
      case Ok(txs) => txs
      case Err(_) => []
  }

  /** The transactions of a checked block take effect, all or none, on the opened stores. */
  function Settle(env: Env, c: Context, s: ChainState, history: Option<seq<seq<byte>>>, bytes: seq<byte>): Report {
    var h, txs := HeaderOf(env, bytes), TxsOf(env, bytes);
    match ApplyTxs(env, c, Frame(s, h.height, history), Open(s, h.height, txs), txs)
    case Err(e) => Failed(Body, e)
    case Ok(w) =>
      Accepted(Advance(c, s, h, IdentityOf(env, c, bytes)).(books := w.books, lifecycle := w.lifecycle, contracts := w.contracts))
  }

  /** validate_candidate. */
  function Validate(env: Env, c: Context, s: ChainState, history: Option<seq<seq<byte>>>, bytes: seq<byte>): Report {
    match CheckBlock(env, c, s, bytes)
    case Some(r) => Failed(r.reason, r.detail)
    case None => Settle(env, c, s, history, bytes)
  }

  // -------------------------------------------------------------------- whole chains

  /** What a block does to the state its history left behind. */
  type Turn = (ChainState, seq<seq<byte>>, seq<byte>) -> Report

  /** Block after block, each seeing the ones before it; the first refusal stays. */
  function Fold(turn: Turn, start: Report, blocks: seq<seq<byte>>): Report {
    if blocks == [] then start
    else
      var n := |blocks| - 1;
      match Fold(turn, start, blocks[..n])
      case Accepted(s) => turn(s, blocks[..n], blocks[n])
      case Failed(r, d) => Failed(r, d)
  }

  function Start(env: Env, c: Context): Report {
    match Initialize(env, c)
    case Ok(s) => Accepted(s)
    case Err(e) => Failed(BadContext, e)
  }

  /** The validator with the accepted prefix at hand. */
  function Extend(env: Env, c: Context): Turn {
    (s: ChainState, history: seq<seq<byte>>, b: seq<byte>) => Validate(env, c, s, Some(history), b)
  }

  /** The state a history leads to. */
  function After(env: Env, c: Context, blocks: seq<seq<byte>>): Report {
    Fold(Extend(env, c), Start(env, c), blocks)
  }

  /** stn_chain_reconstruct_history. */
  function Reconstruct(env: Env, c: Context, blocks: seq<seq<byte>>): Report {
    if blocks == [] then Failed(BadArgument, Argument) else After(env, c, blocks)
  }
}
