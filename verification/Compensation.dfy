/** The single-assignment map from mining identities to wallets
    (src/stn_compensation_state.c). */
module Compensation {
  import opened Status
  import opened Table
  import opened Ledger

  datatype Destination = Destination(identity: Address, wallet: Address)
  datatype Destinations = Destinations(entries: seq<Entry<nat>>, capacity: nat)

  ghost predicate Valid(s: Destinations) {
    Sorted(s.entries) && |s.entries| <= s.capacity
  }

  /** stn_compensation_state_apply. */
  function Assign(s: Destinations, d: Destination): Outcome<Destinations> {
    var at := Position(s.entries, d.identity.id);
    if d.identity.kind != Identity || d.wallet.kind != Wallet then Err(Type)
    else if Has(s.entries, d.identity.id) then
      if s.entries[at].value == d.wallet.id then Ok(s) else Err(Duplicate)
    else if |s.entries| == s.capacity then Err(Capacity)
    else Ok(s.(entries := InsertAt(s.entries, at, Entry(d.identity.id, d.wallet.id))))
  }

  /** stn_compensation_state_lookup. */
  function Lookup(s: Destinations, identity: Address): Outcome<nat> {
    if identity.kind != Identity then Err(Type)
    else if Has(s.entries, identity.id) then Ok(s.entries[Position(s.entries, identity.id)].value)
    else Err(Unresolved)
  }

  function IdentityAddress(id: nat): Address { Address(Identity, id) }

  /** Assigning binds the identity; no binding that was there is ever changed. */
  lemma AssignMeaning(s: Destinations, d: Destination)
    requires Valid(s) && Assign(s, d).Ok?
    ensures var n := Assign(s, d).value;
      && Valid(n) && n.capacity == s.capacity && |n.entries| <= |s.entries| + 1
      && Lookup(n, d.identity) == Ok(d.wallet.id)
      && forall id :: Lookup(n, IdentityAddress(id)) ==
           if id == d.identity.id then Ok(d.wallet.id) else Lookup(s, IdentityAddress(id))
  {
    var n := Assign(s, d).value;
    var at := Position(s.entries, d.identity.id);
    HasIffPresent(s.entries, d.identity.id);
    if !Has(s.entries, d.identity.id) {
      InsertSorted(s.entries, Entry(d.identity.id, d.wallet.id));
    }
    forall id
      ensures Lookup(n, IdentityAddress(id)) ==
        if id == d.identity.id then Ok(d.wallet.id) else Lookup(s, IdentityAddress(id))
    {
      LookupAfterInsert(s.entries, at, d.identity.id, d.wallet.id, n.entries, id);
    }
    assert d.identity == IdentityAddress(d.identity.id);
  }

  /** A wallet is bound to an identity once and for all, and only for lack of room is an
      unbound identity refused. */
  lemma AssignOnce(s: Destinations, d: Destination)
    requires Valid(s) && d.identity.kind == Identity && d.wallet.kind == Wallet
    ensures Assign(s, d).Ok? <==>
      || Lookup(s, d.identity) == Ok(d.wallet.id)
      || (Lookup(s, d.identity).Err? && |s.entries| < s.capacity)
  {
  }

  lemma LookupAfterInsert(t: seq<Entry<nat>>, at: nat, k: nat, v: nat, n: seq<Entry<nat>>, id: nat)
    requires Sorted(t) && Sorted(n) && at == Position(t, k)
    requires if Has(t, k) then n == t && t[at].value == v else n == InsertAt(t, at, Entry(k, v))
    ensures Has(n, id) <==> id == k || Has(t, id)
    ensures Has(n, id) ==> n[Position(n, id)].value == if id == k then v else t[Position(t, id)].value
  {
    if !Has(t, k) { InsertHas(t, Entry(k, v), id); }
  }
}
