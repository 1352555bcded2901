/** The economic side of the accepted chain state and the rules that change it
    (src/stn_transfer_envelope_acceptance.c, src/stn_block_compensation_acceptance.c,
    src/stn_issuance_binding.c, the share and destination branches of src/stn_chain.c). */
module Economy {
  import opened BigEndian
  import opened Status
  import opened Hashing
  import opened Table
  import opened Ledger
  import opened Replay
  import opened Compensation

  const PAIR_CAPACITY: nat := 4096

  datatype Evidence = Evidence(block: Hash, miner: Address)
  datatype Envelope = Envelope(controller: nat, nonce: nat, transfer: Transfer)
  datatype Share = Share(work: Hash, miner: Address, nonce: nat, template: seq<byte>, commitment: Hash)
  datatype TransferKey = TransferKey(controller: nat, nonce: nat)
  datatype ShareKey = ShareKey(work: Hash, miner: nat, nonce: nat)

  /** Signature checks and identifier derivations, as deterministic functions. */
  datatype Rules = Rules(
    identityValid: nat -> bool,
    authorize: Envelope -> Outcome<()>,
    evidenceId: Evidence -> Outcome<Hash>,
    shareId: Share -> Outcome<Hash>)

  datatype Books = Books(
    ledger: Ledger,
    transfers: Consumed<TransferKey>,
    pairs: Consumed<Hash>,
    shares: Consumed<ShareKey>,
    destinations: Destinations)

  predicate Zero(h: Hash) { forall i :: 0 <= i < |h| ==> h[i] == 0 }

  ghost predicate ValidBooks(b: Books) {
    && ValidLedger(b.ledger)
    && Replay.Valid(b.transfers) && Replay.Valid(b.pairs) && Replay.Valid(b.shares)
    && b.pairs.capacity == PAIR_CAPACITY
    && (forall i :: 0 <= i < |b.pairs.keys| ==> !Zero(b.pairs.keys[i]))
    && Compensation.Valid(b.destinations)
  }

  const EMPTY_BOOKS: Books :=
    Books(Ledger([], 0, 0), Consumed([], 0), Consumed([], PAIR_CAPACITY), Consumed([], 0), Destinations([], 0))

  // -------------------------------------------------------------------------- rules

  /** The (controller, nonce) pair that makes a transfer unique. */
  function KeyOf(rules: Rules, e: Envelope): Option<TransferKey> {
    if rules.identityValid(e.controller) && e.nonce != 0 then Some(TransferKey(e.controller, e.nonce)) else None
  }

  /** stn_transfer_envelope_accept; the order of the checks decides the status. */
  function AcceptTransfer(rules: Rules, l: Ledger, used: Consumed<TransferKey>, e: Envelope): Outcome<(Ledger, Consumed<TransferKey>)> {
    if rules.authorize(e).Err? then Err(rules.authorize(e).status)
    else if KeyOf(rules, e).None? then Err(Argument)
    else if KeyOf(rules, e).value in used.keys then Err(Duplicate)
    else if |used.keys| == used.capacity then Err(Capacity)
    else
      var moved := Move(l, e.transfer);
      if moved.Err? then Err(moved.status)
      else Ok((moved.value, used.(keys := used.keys + [KeyOf(rules, e).value])))
  }

  function BindCommon(r: Issuance, miner: Address, id: Outcome<Hash>, d: Destinations): Outcome<()> {
    if miner.kind != Identity || r.identity.kind != Identity || r.wallet.kind != Wallet then Err(Type)
    else if r.identity.id != miner.id then Err(Content)
    else if id.Err? then Err(id.status)
    else if r.evidence != id.value then Err(Content)
    else if Lookup(d, miner).Err? then Err(Lookup(d, miner).status)
    else if Lookup(d, miner).value != r.wallet.id then Err(Content)
    else Ok(())
  }

  /** stn_issuance_bind_share. */
  function BindShare(rules: Rules, r: Issuance, s: Share, d: Destinations): Outcome<()> {
    if r.reason != REASON_SHARE || r.units != SHARE_UNITS then Err(Content)
    else BindCommon(r, s.miner, rules.shareId(s), d)
  }

  /** stn_issuance_bind_block. */
  function BindBlock(rules: Rules, r: Issuance, e: Evidence, d: Destinations): Outcome<()> {
    if r.reason != REASON_BLOCK || r.units != BLOCK_UNITS then Err(Content)
    else BindCommon(r, e.miner, rules.evidenceId(e), d)
  }

  /** stn_block_compensation_replay_consume_evidence. */
  function ConsumeEvidence(rules: Rules, used: Consumed<Hash>, e: Evidence): Outcome<Consumed<Hash>> {
    var id := rules.evidenceId(e);
    if id.Err? then Err(id.status)
    else if Zero(id.value) then Err(Content)
    else
      match Consume(used, id.value)
      case Fresh(next) => Ok(next)
      case Repeated => Err(Duplicate)
      case Full => Err(Capacity)
  }

  /** stn_block_compensation_accept: replay and ledger change together or not at all. */
  function AcceptPair(rules: Rules, l: Ledger, used: Consumed<Hash>, d: Destinations, e: Evidence, r: Issuance)
    : Outcome<(Ledger, Consumed<Hash>)>
  {
    if BindBlock(rules, r, e, d).Err? then Err(BindBlock(rules, r, e, d).status)
    else if ConsumeEvidence(rules, used, e).Err? then Err(ConsumeEvidence(rules, used, e).status)
    else if Issue(l, r).Err? then Err(Issue(l, r).status)
    else Ok((Issue(l, r).value, ConsumeEvidence(rules, used, e).value))
  }

  function ShareKeyOf(s: Share): Option<ShareKey> {
    if s.miner.kind == Identity then Some(ShareKey(s.work, s.miner.id, s.nonce)) else None
  }

  /** stn_share_replay_consume as the validator reports it. */
  function AcceptShare(used: Consumed<ShareKey>, s: Share): Outcome<Consumed<ShareKey>> {
    if ShareKeyOf(s).None? then Err(Duplicate)
    else
      match Consume(used, ShareKeyOf(s).value)
      case Fresh(next) => Ok(next)
      case Repeated => Err(Duplicate)
      case Full => Err(Capacity)
  }

  // ----------------------------------------------------------------------- meanings

  /** An accepted transfer is authorized, fresh and covered by the source's balance; it takes
      its units from the source, gives them to the destination and leaves the supply and
      every other wallet alone. */
  lemma TransferAccepted(rules: Rules, l: Ledger, used: Consumed<TransferKey>, e: Envelope)
    requires ValidLedger(l) && Replay.Valid(used) && AcceptTransfer(rules, l, used, e).Ok?
    ensures var (n, used') := AcceptTransfer(rules, l, used, e).value;
      && ValidLedger(n) && n.supply == l.supply && n.capacity == l.capacity
      && |n.balances| <= |l.balances| + 1
      && Replay.Valid(used') && used'.capacity == used.capacity
      && rules.authorize(e).Ok? && KeyOf(rules, e).Some? && KeyOf(rules, e).value !in used.keys
      && used'.keys == used.keys + [KeyOf(rules, e).value]
      && e.transfer.units <= Units(l.balances, e.transfer.source.id)
      && forall v :: Units(n.balances, v) + Bonus(e.transfer.source.id, v, e.transfer.units)
                  == Units(l.balances, v) + Bonus(e.transfer.destination.id, v, e.transfer.units)
  {
    MoveMeaning(l, e.transfer);
    ConsumeOnce(used, KeyOf(rules, e).value);
  }

  /** A transfer between two wallets is accepted exactly when it is signed, its key is fresh
      and finds room, and the source owns the units and the destination an entry or room. */
  lemma TransferAcceptedWhen(rules: Rules, l: Ledger, used: Consumed<TransferKey>, e: Envelope)
    requires ValidLedger(l) && Replay.Valid(used)
    ensures var t := e.transfer;
      AcceptTransfer(rules, l, used, e).Ok? <==>
        && rules.authorize(e).Ok? && rules.identityValid(e.controller) && e.nonce != 0
        && TransferKey(e.controller, e.nonce) !in used.keys && |used.keys| < used.capacity
        && t.source.kind == Wallet && t.destination.kind == Wallet && t.source.id != t.destination.id
        && 0 < t.units <= Units(l.balances, t.source.id)
        && (Has(l.balances, t.destination.id) || |l.balances| < l.capacity)
  {
    if CheckTransfer(e.transfer).Ok? { MoveFailsOnlyWhen(l, e.transfer); }
  }

  /** An accepted pair pays exactly 10000 units to the wallet its miner registered, and
      its evidence can never be paid again. */
  lemma PairAccepted(rules: Rules, l: Ledger, used: Consumed<Hash>, d: Destinations, e: Evidence, r: Issuance)
    requires ValidLedger(l) && Replay.Valid(used) && AcceptPair(rules, l, used, d, e, r).Ok?
    ensures var (n, used') := AcceptPair(rules, l, used, d, e, r).value;
      && ValidLedger(n) && n.supply == l.supply + BLOCK_UNITS && n.capacity == l.capacity
      && |n.balances| <= |l.balances| + 1
      && Lookup(d, e.miner) == Ok(r.wallet.id)
      && (forall v :: Units(n.balances, v) == Units(l.balances, v) + Bonus(r.wallet.id, v, 10000))
      && Replay.Valid(used') && used'.capacity == used.capacity
      && rules.evidenceId(e).Ok? && rules.evidenceId(e).value !in used.keys && !Zero(rules.evidenceId(e).value)
      && used'.keys == used.keys + [rules.evidenceId(e).value]
      && AcceptPair(rules, n, used', d, e, r) == Err(Duplicate)
  {
    IssueMeaning(l, r);
    ConsumeOnce(used, rules.evidenceId(e).value);
  }

  lemma ShareAccepted(used: Consumed<ShareKey>, s: Share)
    requires Replay.Valid(used) && AcceptShare(used, s).Ok?
    ensures var used' := AcceptShare(used, s).value;
      && Replay.Valid(used') && used'.capacity == used.capacity
      && ShareKeyOf(s).Some? && ShareKeyOf(s).value !in used.keys
      && used'.keys == used.keys + [ShareKeyOf(s).value]
  {
    ConsumeOnce(used, ShareKeyOf(s).value);
  }
}
