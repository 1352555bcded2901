/** The acceptance routines that update two stores at once, in place. */
module Acceptance {
  import opened Status
  import opened Hashing
  import opened Economy
  import L = Ledger
  import opened EconomicState
  import opened ReplayState
  import opened CompensationState

  /** stn_transfer_envelope_accept: the key is consumed only after the money has moved. */
  method TransferEnvelopeAccept(rules: Rules, economy: EconomicState, replay: ReplayState<TransferKey>, e: Envelope)
    returns (status: Outcome<()>)
    requires economy.Valid() && replay.Valid()
    modifies economy, economy.balances, replay`count, replay.consumed
    ensures economy.Valid() && replay.Valid() && economy.balances == old(economy.balances)
    ensures match AcceptTransfer(rules, old(economy.View()), old(replay.View()), e)
      case Ok(next) => status == Ok(()) && economy.View() == next.0 && replay.View() == next.1
      case Err(s) => status == Err(s) && economy.View() == old(economy.View()) && replay.View() == old(replay.View())
  {
    status := rules.authorize(e);
    if status.Err? { return; }
    var key := KeyOf(rules, e);
    if key.None? { return Err(Argument); }
    var known := replay.Check(key.value);
    if known { return Err(Duplicate); }
    if replay.count == replay.consumed.Length { return Err(Capacity); }
    status := economy.Move(e.transfer);
    if status.Err? { return; }
    var used := replay.Consume(key.value);
    status := if used.Fresh? then Ok(()) else Err(Argument);
  }

  method BindBlockTo(rules: Rules, r: L.Issuance, e: Evidence, d: CompensationState) returns (status: Outcome<()>)
    requires d.Valid()
    ensures status == BindBlock(rules, r, e, d.View())
  {
    if r.reason != L.REASON_BLOCK || r.units != L.BLOCK_UNITS { return Err(Content); }
    if e.miner.kind != L.Identity || r.identity.kind != L.Identity || r.wallet.kind != L.Wallet { return Err(Type); }
    if r.identity.id != e.miner.id { return Err(Content); }
    var id := rules.evidenceId(e);
    if id.Err? { return Err(id.status); }
    if r.evidence != id.value { return Err(Content); }
    var wallet := d.Lookup(e.miner);
    if wallet.Err? { return Err(wallet.status); }
    status := if wallet.value != r.wallet.id then Err(Content) else Ok(());
  }

  /** The copy of the replay list, with the evidence consumed in it. */
  method ConsumeInCopy(rules: Rules, replay: ReplayState<Hash>, e: Evidence)
    returns (status: Outcome<()>, prepared: ReplayState<Hash>)
    requires replay.Valid()
    ensures fresh(prepared) && fresh(prepared.consumed) && prepared.Valid()
    ensures match ConsumeEvidence(rules, replay.View(), e)
      case Ok(used) => status == Ok(()) && prepared.View() == used
      case Err(s) => status == Err(s)
  {
    prepared := new ReplayState(replay.View(), replay.consumed.Length - replay.count);
    var id := rules.evidenceId(e);
    if id.Err? { return Err(id.status), prepared; }
    if Zero(id.value) { return Err(Content), prepared; }
    var used := prepared.Consume(id.value);
    status := if used.Fresh? then Ok(()) else if used.Repeated? then Err(Duplicate) else Err(Capacity);
  }

  /** The scratch balances, with the issuance paid from them. */
  method PayInCopy(economy: EconomicState, r: L.Issuance) returns (status: Outcome<()>, scratch: EconomicState)
    requires economy.Valid()
    ensures fresh(scratch) && fresh(scratch.balances) && scratch.Valid()
    ensures match L.Issue(economy.View(), r)
      case Ok(l) => status == Ok(()) && scratch.View() == l && scratch.balances.Length == economy.balances.Length
      case Err(s) => status == Err(s)
  {
    var before := economy.View();
    scratch := new EconomicState(before, before.capacity - |before.balances|);
    status := scratch.Issue(r);
  }

  /** stn_block_compensation_accept: both stores are prepared as copies and written back
      only when every step has succeeded. */
  method BlockCompensationAccept(rules: Rules, replay: ReplayState<Hash>, e: Evidence, r: L.Issuance,
                                 d: CompensationState, economy: EconomicState)
    returns (status: Outcome<()>)
    requires replay.Valid() && d.Valid() && economy.Valid()
    requires d.entries as object != economy.balances
    modifies economy, economy.balances, replay`count, replay.consumed
    ensures economy.Valid() && replay.Valid() && economy.balances == old(economy.balances)
    ensures match AcceptPair(rules, old(economy.View()), old(replay.View()), old(d.View()), e, r)
      case Ok(next) => status == Ok(()) && economy.View() == next.0 && replay.View() == next.1
      case Err(s) => status == Err(s) && economy.View() == old(economy.View()) && replay.View() == old(replay.View())
  {
    status := BindBlockTo(rules, r, e, d);
    if status.Err? { return; }
    var prepared;
    status, prepared := ConsumeInCopy(rules, replay, e);
    if status.Err? { return; }
    var scratch;
    status, scratch := PayInCopy(economy, r);
    if status.Err? { return; }
    WriteBack(economy, scratch);
    replay.Assign(prepared);
  }

  /** Copy the prepared balances over the originals. */
  method WriteBack(economy: EconomicState, scratch: EconomicState)
    requires economy.Valid() && scratch.Valid() && economy != scratch
    requires economy.balances != scratch.balances && economy.balances.Length == scratch.balances.Length
    modifies economy, economy.balances
    ensures economy.Valid() && economy.balances == old(economy.balances)
    ensures economy.View() == scratch.View() == old(scratch.View())
  {
    for i := 0 to scratch.count
      invariant economy.balances == old(economy.balances)
      invariant economy.balances[..i] == scratch.balances[..i]
    {
      economy.balances[i] := scratch.balances[i];
    }
    economy.count := scratch.count;
    economy.supply := scratch.supply;
  }
}
