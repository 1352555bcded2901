/** The compensation destinations updated in place: an array kept sorted by shifting. */
module CompensationState {
  import opened Status
  import opened Table
  import TableLoops
  import opened Ledger
  import C = Compensation

  class CompensationState {
    var entries: array<Entry<nat>>
    var count: nat

    ghost predicate Valid()
      reads this, entries
    {
      count <= entries.Length && Sorted(entries[..count])
    }

    function View(): C.Destinations
      requires count <= entries.Length
      reads this, entries
    {
      C.Destinations(entries[..count], entries.Length)
    }

    constructor (s: C.Destinations, slack: nat)
      requires Sorted(s.entries)
      ensures Valid() && fresh(entries)
      ensures View() == C.Destinations(s.entries, |s.entries| + slack)
    {
      count := |s.entries|;
      entries := new Entry<nat>[|s.entries| + slack](i =>
        if 0 <= i < |s.entries| then s.entries[i] else Entry(0, 0));
      new;
      assert entries[..count] == s.entries;
    }

    method Assign(d: C.Destination) returns (status: Outcome<()>)
      requires Valid()
      modifies this`count, entries
      ensures Valid() && entries == old(entries)
      ensures match C.Assign(old(View()), d)
        case Ok(s) => status == Ok(()) && View() == s
        case Err(e) => status == Err(e) && View() == old(View())
    {
      if d.identity.kind != Identity || d.wallet.kind != Wallet { return Err(Type); }
      ghost var t := entries[..count];
      var at := TableLoops.Scan(entries, count, d.identity.id);
      if at < count && entries[at].key == d.identity.id {
        return if entries[at].value == d.wallet.id then Ok(()) else Err(Duplicate);
      }
      if count == entries.Length { return Err(Capacity); }
      InsertSorted(t, Entry(d.identity.id, d.wallet.id));
      TableLoops.Insert(entries, count, at, Entry(d.identity.id, d.wallet.id));
      count := count + 1;
      status := Ok(());
    }

    method Lookup(identity: Address) returns (wallet: Outcome<nat>)
      requires Valid()
      ensures wallet == C.Lookup(View(), identity)
    {
      if identity.kind != Identity { return Err(Type); }
      ghost var t := entries[..count];
      HasIffPresent(t, identity.id);
      for i := 0 to count
        invariant forall k :: 0 <= k < i ==> t[k].key < identity.id
      {
        if entries[i].key == identity.id { return Ok(entries[i].value); }
        if entries[i].key > identity.id {
          assert forall k :: i < k < count ==> t[i].key < t[k].key;
          break;
        }
      }
      wallet := Err(Unresolved);
    }
  }
}
