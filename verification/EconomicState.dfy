/** The economic state updated in place (src/stn_economic_state.c): a caller-owned array of
    balances kept sorted by shifting, a count and the total supply. */
module EconomicState {
  import opened BigEndian
  import opened Status
  import opened Table
  import TableLoops
  import L = Ledger

  class EconomicState {
    var balances: array<L.Balance>
    var count: nat
    var supply: nat

    ghost predicate Valid()
      reads this, balances
    {
      count <= balances.Length && Sorted(balances[..count])
    }

    /** The ledger this object stores. */
    function View(): L.Ledger
      requires count <= balances.Length
      reads this, balances
    {
      L.Ledger(balances[..count], balances.Length, supply)
    }

    /** A fresh copy of a ledger with room for `slack` further entries. */
    constructor (l: L.Ledger, slack: nat)
      requires Sorted(l.balances)
      ensures Valid() && fresh(balances)
      ensures View() == l.(capacity := |l.balances| + slack)
    {
      count := |l.balances|;
      supply := l.supply;
      balances := new L.Balance[|l.balances| + slack](i =>
        if 0 <= i < |l.balances| then l.balances[i] else Entry(0, 0));
      new;
      assert balances[..count] == l.balances;
    }

    /** The write both operations end with: add to the entry found, or insert a new one. */
    method Credit(w: nat, units: nat, found: bool, at: nat)
      requires Valid() && at == Position(balances[..count], w) && found == Has(balances[..count], w)
      requires !found ==> count < balances.Length
      modifies this`count, balances
      ensures Valid() && balances == old(balances)
      ensures balances[..count] == L.Credited(old(balances[..count]), w, units)
    {
      L.CreditSorted(balances[..count], w, units);
      if found {
        balances[at] := Entry(w, balances[at].value + units);
      } else {
        TableLoops.Insert(balances, count, at, Entry(w, units));
        count := count + 1;
      }
    }

    /** stn_economic_state_apply: on failure nothing has changed. */
    method Issue(r: L.Issuance) returns (status: Outcome<()>)
      requires Valid()
      modifies this, balances
      ensures Valid() && balances == old(balances)
      ensures match L.Issue(old(View()), r)
        case Ok(l) => status == Ok(()) && View() == l
        case Err(s) => status == Err(s) && View() == old(View())
    {
      status := L.CheckIssuance(r);
      if status.Err? { return; }
      if UINT64_MAX - supply < r.units { return Err(Overflow); }
      var at := TableLoops.Scan(balances, count, r.wallet.id);
      var found := at < count && balances[at].key == r.wallet.id;
      if found {
        if UINT64_MAX - balances[at].value < r.units { return Err(Overflow); }
      } else if count == balances.Length {
        return Err(Capacity);
      }
      Credit(r.wallet.id, r.units, found, at);
      supply := supply + r.units;
    }

    /** The transfer scan looks at every entry for both wallets. */
    method FindBoth(source: nat, destination: nat)
      returns (sourceFound: bool, sourceAt: nat, destinationFound: bool, destinationAt: nat)
      requires Valid()
      ensures sourceFound == Has(balances[..count], source)
      ensures sourceFound ==> sourceAt == Position(balances[..count], source)
      ensures destinationFound == Has(balances[..count], destination)
      ensures destinationFound ==> destinationAt == Position(balances[..count], destination)
    {
      sourceFound, sourceAt, destinationFound, destinationAt := false, 0, false, 0;
      ghost var b := balances[..count];
      for i := 0 to count
        invariant sourceFound <==> exists k :: 0 <= k < i && b[k].key == source
        invariant sourceFound ==> sourceAt < i && b[sourceAt].key == source
        invariant destinationFound <==> exists k :: 0 <= k < i && b[k].key == destination
        invariant destinationFound ==> destinationAt < i && b[destinationAt].key == destination
      {
        if balances[i].key == source { sourceFound, sourceAt := true, i; }
        if balances[i].key == destination { destinationFound, destinationAt := true, i; }
      }
      L.LookupExact(b, source);
      L.LookupExact(b, destination);
    }

    /** stn_economic_state_apply_transfer: on failure nothing has changed. */
    method Move(t: L.Transfer) returns (status: Outcome<()>)
      requires Valid()
      modifies this, balances
      ensures Valid() && balances == old(balances)
      ensures match L.Move(old(View()), t)
        case Ok(l) => status == Ok(()) && View() == l
        case Err(s) => status == Err(s) && View() == old(View())
    {
      var sourceAt, destinationFound, destinationAt;
      status, sourceAt, destinationFound, destinationAt := CheckMove(t);
      if status.Err? { return; }
      L.MoveIsDebitCredit(View(), t);
      Settle(t, sourceAt, destinationFound, destinationAt);
    }

    /** Everything stn_economic_state_apply_transfer decides before it writes. */
    method CheckMove(t: L.Transfer)
      returns (status: Outcome<()>, sourceAt: nat, destinationFound: bool, destinationAt: nat)
      requires Valid()
      ensures status == (if L.Move(View(), t).Ok? then Ok(()) else Err(L.Move(View(), t).status))
      ensures status.Ok? ==> Placed(t, sourceAt, destinationFound, destinationAt)
    {
      sourceAt, destinationFound, destinationAt := 0, false, 0;
      status := L.CheckTransfer(t);
      if status.Err? { return; }
      var sourceFound;
      sourceFound, sourceAt, destinationFound, destinationAt := FindBoth(t.source.id, t.destination.id);
      if !sourceFound || balances[sourceAt].value < t.units { return Err(Content), sourceAt, destinationFound, destinationAt; }
      if destinationFound {
        if UINT64_MAX - balances[destinationAt].value < t.units { status := Err(Overflow); }
      } else if count == balances.Length {
        status := Err(Capacity);
      } else {
        destinationAt := TableLoops.Scan(balances, count, t.destination.id);
      }
    }

    /** The source has the units, and the destination its place. */
    ghost predicate Placed(t: L.Transfer, sourceAt: nat, destinationFound: bool, destinationAt: nat)
      requires Valid()
      reads this, balances
    {
      && t.source.id != t.destination.id
      && Has(balances[..count], t.source.id) && sourceAt == Position(balances[..count], t.source.id)
      && t.units <= balances[sourceAt].value
      && destinationFound == Has(balances[..count], t.destination.id)
      && destinationAt == Position(balances[..count], t.destination.id)
      && (!destinationFound ==> count < balances.Length)
    }

    /** The two writes of a transfer whose checks have passed. */
    method Settle(t: L.Transfer, sourceAt: nat, destinationFound: bool, destinationAt: nat)
      requires Valid() && Placed(t, sourceAt, destinationFound, destinationAt)
      modifies this`count, balances
      ensures Valid() && balances == old(balances)
      ensures balances[..count]
        == L.Credited(L.Debited(old(balances[..count]), t.source.id, t.units), t.destination.id, t.units)
    {
      ghost var b := balances[..count];
      L.DebitSorted(b, t.source.id, t.units);
      L.DebitElsewhere(b, t.source.id, t.units, t.destination.id);
      balances[sourceAt] := Entry(t.source.id, balances[sourceAt].value - t.units);
      assert balances[..count] == L.Debited(b, t.source.id, t.units);
      Credit(t.destination.id, t.units, destinationFound, destinationAt);
    }

    /** stn_economic_state_balance: only wallets have balances, and the early exit of the
        ascending scan is exact. */
    method BalanceOf(wallet: L.Address) returns (r: Outcome<nat>)
      requires Valid()
      ensures r == if wallet.kind != L.Wallet then Err(Type) else Ok(L.Units(View().balances, wallet.id))
    {
      if wallet.kind != L.Wallet { return Err(Type); }
      var w := wallet.id;
      L.LookupExact(balances[..count], w);
      var at := TableLoops.Scan(balances, count, w);
      r := Ok(if at < count && balances[at].key == w then balances[at].value else 0);
    }
  }
}
