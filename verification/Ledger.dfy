/** The economic state as a value (src/stn_economic_state.c): what issuance and transfer
    do to a sorted table of balances, and what that means wallet by wallet. */
module Ledger {
  import opened BigEndian
  import opened Status
  import opened Hashing
  import opened Table
  import opened Sequences

  const REASON_SHARE: nat := 1
  const REASON_BLOCK: nat := 2
  const SHARE_UNITS: nat := 100
  const BLOCK_UNITS: nat := 10000

  datatype AddressType = Identity | Contract | Wallet
  /** An address; identifiers are compared with memcmp, so their value stands for them. */
  datatype Address = Address(kind: AddressType, id: nat)

  /** A wallet's identifier and the units it owns. */
  type Balance = Entry<nat>
  datatype Ledger = Ledger(balances: seq<Balance>, capacity: nat, supply: nat)

  datatype Issuance = Issuance(reason: nat, units: nat, identity: Address, wallet: Address, evidence: Hash)
  datatype Transfer = Transfer(source: Address, destination: Address, units: nat)

  // --------------------------------------------------------------------- the table

  function Total(b: seq<Balance>): nat {
    if b == [] then 0 else Total(b[..|b| - 1]) + b[|b| - 1].value
  }

  /** The units a wallet owns; a wallet without an entry owns none. */
  function Units(b: seq<Balance>, w: nat): nat {
    if b == [] then 0
    else if b[|b| - 1].key == w then b[|b| - 1].value
    else Units(b[..|b| - 1], w)
  }

  ghost predicate ValidLedger(l: Ledger) {
    && Sorted(l.balances) && |l.balances| <= l.capacity
    && l.supply <= UINT64_MAX
    && Total(l.balances) == l.supply
  }

  // --------------------------------------------------------------------- operations

  function CheckIssuance(r: Issuance): Outcome<()> {
    if r.identity.kind != Identity || r.wallet.kind != Wallet then Err(Type)
    else if (r.reason == REASON_SHARE && r.units == SHARE_UNITS) || (r.reason == REASON_BLOCK && r.units == BLOCK_UNITS) then Ok(())
    else Err(Content)
  }

  /** stn_economic_state_apply. */
  function Issue(l: Ledger, r: Issuance): Outcome<Ledger> {
    var b := l.balances;
    var w := r.wallet.id;
    var at := Position(b, w);
    if CheckIssuance(r).Err? then Err(CheckIssuance(r).status)
    else if l.supply + r.units > UINT64_MAX then Err(Overflow)
    else if Has(b, w) then
      if b[at].value + r.units > UINT64_MAX then Err(Overflow)
      else Ok(l.(balances := b[at := Entry(w, b[at].value + r.units)], supply := l.supply + r.units))
    else if |b| == l.capacity then Err(Capacity)
    else Ok(l.(balances := InsertAt(b, at, Entry(w, r.units)), supply := l.supply + r.units))
  }

  function CheckTransfer(t: Transfer): Outcome<()> {
    if t.source.kind != Wallet || t.destination.kind != Wallet then Err(Type)
    else if t.units == 0 || t.source.id == t.destination.id then Err(Content)
    else Ok(())
  }

  /** stn_economic_state_apply_transfer. */
  function Move(l: Ledger, t: Transfer): Outcome<Ledger> {
    var b := l.balances;
    var from := Position(b, t.source.id);
    var to := Position(b, t.destination.id);
    if CheckTransfer(t).Err? then Err(CheckTransfer(t).status)
    else if !Has(b, t.source.id) || b[from].value < t.units then Err(Content)
    else
      var paid := b[from := Entry(t.source.id, b[from].value - t.units)];
      if Has(b, t.destination.id) then
        if b[to].value + t.units > UINT64_MAX then Err(Overflow)
        else Ok(l.(balances := paid[to := Entry(t.destination.id, b[to].value + t.units)]))
      else if |b| == l.capacity then Err(Capacity)
      else Ok(l.(balances := InsertAt(paid, to, Entry(t.destination.id, t.units))))
  }

  // ------------------------------------------------------------------- table lemmas

  lemma {:induction false} TotalConcat(a: seq<Balance>, b: seq<Balance>)
    ensures Total(a + b) == Total(a) + Total(b)
  {
    if b == [] {
      assert a + b == a;
    } else {
      assert (a + b)[..|a + b| - 1] == a + b[..|b| - 1];
      TotalConcat(a, b[..|b| - 1]);
    }
  }

  lemma TotalSplit(b: seq<Balance>, at: nat)
    requires at < |b|
    ensures Total(b) == Total(b[..at]) + b[at].value + Total(b[at + 1..])
  {
    SplitAt(b, at);
    TotalConcat(b[..at + 1], b[at + 1..]);
    assert b[..at + 1][..at] == b[..at];
  }

  lemma TotalUpdate(b: seq<Balance>, at: nat, x: Balance)
    requires at < |b|
    ensures Total(b[at := x]) == Total(b) - b[at].value + x.value
  {
    TotalSplit(b, at);
    TotalSplit(b[at := x], at);
    assert b[at := x][..at] == b[..at] && b[at := x][at + 1..] == b[at + 1..];
  }

  lemma TotalInsert(b: seq<Balance>, at: nat, x: Balance)
    requires at <= |b|
    ensures Total(InsertAt(b, at, x)) == Total(b) + x.value
  {
    TotalConcat(b[..at] + [x], b[at..]);
    TotalConcat(b[..at], [x]);
    TotalConcat(b[..at], b[at..]);
    assert b == b[..at] + b[at..];
  }

  lemma {:induction false} UnitsAt(b: seq<Balance>, i: nat)
    requires Sorted(b) && i < |b|
    ensures Units(b, b[i].key) == b[i].value
  {
    if i < |b| - 1 { UnitsAt(b[..|b| - 1], i); }
  }

  lemma {:induction false} UnitsAbsent(b: seq<Balance>, w: nat)
    requires forall i :: 0 <= i < |b| ==> b[i].key != w
    ensures Units(b, w) == 0
  {
    if b != [] { UnitsAbsent(b[..|b| - 1], w); }
  }

  lemma {:induction false} UnitsWithin(b: seq<Balance>, w: nat)
    ensures Units(b, w) <= Total(b)
  {
    if b != [] { UnitsWithin(b[..|b| - 1], w); }
  }

  /** Two wallets together never own more than the total. */
  lemma {:induction false} PairWithin(b: seq<Balance>, w: nat, v: nat)
    requires w != v
    ensures Units(b, w) + Units(b, v) <= Total(b)
  {
    if b != [] {
      var front := b[..|b| - 1];
      UnitsWithin(front, w);
      UnitsWithin(front, v);
      PairWithin(front, w, v);
    }
  }

  /** In a sorted table the scan finds the wallet exactly when it has an entry. */
  lemma {:induction false} LookupExact(b: seq<Balance>, w: nat)
    requires Sorted(b)
    ensures Has(b, w) <==> exists i :: 0 <= i < |b| && b[i].key == w
    ensures Units(b, w) == if Has(b, w) then b[Position(b, w)].value else 0
  {
    HasIffPresent(b, w);
    if Has(b, w) { UnitsAt(b, Position(b, w)); } else { UnitsAbsent(b, w); }
  }

  /** The units of every wallet after one entry changed its amount. */
  lemma UnitsUpdate(b: seq<Balance>, at: nat, units: nat, v: nat)
    requires Sorted(b) && at < |b|
    ensures Sorted(b[at := Entry(b[at].key, units)])
    ensures Units(b[at := Entry(b[at].key, units)], v) == if v == b[at].key then units else Units(b, v)
  {
    var c := b[at := Entry(b[at].key, units)];
    if i :| 0 <= i < |b| && b[i].key == v {
      UnitsAt(b, i);
      UnitsAt(c, i);
    } else {
      UnitsAbsent(b, v);
      UnitsAbsent(c, v);
    }
  }

  /** The units of every wallet after a new entry was inserted at its place. */
  lemma UnitsInsert(b: seq<Balance>, x: Balance, v: nat)
    requires Sorted(b) && !Has(b, x.key)
    ensures var c := InsertAt(b, Position(b, x.key), x);
      Sorted(c) && Units(c, v) == if v == x.key then x.value else Units(b, v)
  {
    var c := InsertAt(b, Position(b, x.key), x);
    InsertSorted(b, x);
    InsertHas(b, x, v);
    LookupExact(b, v);
    LookupExact(c, v);
  }

  // ---------------------------------------------------------------------- meanings

  function Bonus(w: nat, v: nat, units: nat): nat { if w == v then units else 0 }

  /** Issuance adds its units to one wallet and to the supply and to nothing else. */
  lemma IssueMeaning(l: Ledger, r: Issuance)
    requires ValidLedger(l) && Issue(l, r).Ok?
    ensures var n := Issue(l, r).value;
      && ValidLedger(n) && n.capacity == l.capacity
      && n.supply == l.supply + r.units
      && |n.balances| <= |l.balances| + 1
      && forall v :: Units(n.balances, v) == Units(l.balances, v) + Bonus(r.wallet.id, v, r.units)
  {
    CreditMeaning(l.balances, r.wallet.id, r.units);
    assert Issue(l, r).value == l.(balances := Credited(l.balances, r.wallet.id, r.units), supply := l.supply + r.units);
  }

  /** On a valid ledger a well-formed issuance fails only when the supply would leave 64
      bits or a new entry has no room: the per-balance overflow return is unreachable. */
  lemma IssueFailsOnlyWhen(l: Ledger, r: Issuance)
    requires ValidLedger(l) && CheckIssuance(r).Ok?
    ensures Issue(l, r).Err? <==>
      l.supply + r.units > UINT64_MAX || (!Has(l.balances, r.wallet.id) && |l.balances| == l.capacity)
  {
    LookupExact(l.balances, r.wallet.id);
    UnitsWithin(l.balances, r.wallet.id);
  }

  function Debited(b: seq<Balance>, w: nat, units: nat): seq<Balance>
    requires Has(b, w) && units <= b[Position(b, w)].value
  {
    b[Position(b, w) := Entry(w, b[Position(b, w)].value - units)]
  }

  lemma DebitMeaning(b: seq<Balance>, w: nat, units: nat)
    requires Sorted(b) && Has(b, w) && units <= b[Position(b, w)].value
    ensures Sorted(Debited(b, w, units)) && Total(Debited(b, w, units)) == Total(b) - units
    ensures Units(b, w) >= units
    ensures forall v :: Units(Debited(b, w, units), v) == if v == w then Units(b, v) - units else Units(b, v)
  {
    var at := Position(b, w);
    UnitsAt(b, at);
    TotalUpdate(b, at, Entry(w, b[at].value - units));
    UpdateMeaning(b, at, b[at].value - units);
  }

  /** What an update of one entry means for every wallet. */
  lemma UpdateMeaning(b: seq<Balance>, at: nat, units: nat)
    requires Sorted(b) && at < |b|
    ensures Sorted(b[at := Entry(b[at].key, units)])
    ensures forall v :: Units(b[at := Entry(b[at].key, units)], v) == if v == b[at].key then units else Units(b, v)
  {
    UnitsUpdate(b, at, units, b[at].key);
    forall v ensures Units(b[at := Entry(b[at].key, units)], v) == if v == b[at].key then units else Units(b, v) {
      UnitsUpdate(b, at, units, v);
    }
  }

  /** What an inserted entry means for every wallet. */
  lemma InsertMeaning(b: seq<Balance>, x: Balance)
    requires Sorted(b) && !Has(b, x.key)
    ensures Sorted(InsertAt(b, Position(b, x.key), x))
    ensures forall v :: Units(InsertAt(b, Position(b, x.key), x), v) == if v == x.key then x.value else Units(b, v)
  {
    UnitsInsert(b, x, x.key);
    forall v ensures Units(InsertAt(b, Position(b, x.key), x), v) == if v == x.key then x.value else Units(b, v) {
      UnitsInsert(b, x, v);
    }
  }

  /** Changing one wallet's amount leaves the place and the entry of any other. */
  lemma DebitElsewhere(b: seq<Balance>, w: nat, units: nat, other: nat)
    requires Has(b, w) && units <= b[Position(b, w)].value && other != w
    ensures var d := Debited(b, w, units);
      && Has(d, other) == Has(b, other) && Position(d, other) == Position(b, other)
      && (Has(b, other) ==> d[Position(b, other)] == b[Position(b, other)])
  {
    UpdatePosition(b, Position(b, w), b[Position(b, w)].value - units, other);
  }

  /** Adding units to a wallet, with or without an entry, is the second half of a transfer. */
  function Credited(b: seq<Balance>, w: nat, units: nat): seq<Balance> {
    var at := Position(b, w);
    if Has(b, w) then b[at := Entry(w, b[at].value + units)] else InsertAt(b, at, Entry(w, units))
  }

  /** The total and every wallet's units after `units` were added to wallet `w`. */
  ghost predicate CreditedTo(b: seq<Balance>, c: seq<Balance>, w: nat, units: nat) {
    && Sorted(c) && Total(c) == Total(b) + units && |c| <= |b| + 1
    && forall v :: Units(c, v) == Units(b, v) + Bonus(w, v, units)
  }

  lemma CreditMeaning(b: seq<Balance>, w: nat, units: nat)
    requires Sorted(b)
    ensures CreditedTo(b, Credited(b, w, units), w, units)
  {
    CreditedIs(b, w, units);
    var c := Credited(b, w, units);
    if Has(b, w) { CreditPresent(b, Position(b, w), units); } else { CreditAbsent(b, w, units); }
    assert CreditedTo(b, c, w, units);
  }

  lemma CreditedIs(b: seq<Balance>, w: nat, units: nat)
    ensures var at, c := Position(b, w), Credited(b, w, units);
      if Has(b, w) then c == b[at := Entry(b[at].key, b[at].value + units)] && b[at].key == w
      else c == InsertAt(b, at, Entry(w, units))
  {
  }

  lemma CreditPresent(b: seq<Balance>, at: nat, units: nat)
    requires Sorted(b) && at < |b|
    ensures CreditedTo(b, b[at := Entry(b[at].key, b[at].value + units)], b[at].key, units)
  {
    UnitsAt(b, at);
    TotalUpdate(b, at, Entry(b[at].key, b[at].value + units));
    UpdateMeaning(b, at, b[at].value + units);
  }

  lemma CreditAbsent(b: seq<Balance>, w: nat, units: nat)
    requires Sorted(b) && !Has(b, w)
    ensures CreditedTo(b, InsertAt(b, Position(b, w), Entry(w, units)), w, units)
  {
    LookupExact(b, w);
    TotalInsert(b, Position(b, w), Entry(w, units));
    InsertMeaning(b, Entry(w, units));
  }

  /** A credit adds an entry for its wallet and drops none; a debit leaves all in place. */
  lemma CreditHas(b: seq<Balance>, w: nat, units: nat, k: nat)
    requires Sorted(b)
    ensures Has(Credited(b, w, units), k) <==> k == w || Has(b, k)
  {
    if Has(b, w) {
      UpdatePosition(b, Position(b, w), b[Position(b, w)].value + units, k);
    } else {
      InsertHas(b, Entry(w, units), k);
    }
  }

  lemma DebitHas(b: seq<Balance>, w: nat, units: nat, k: nat)
    requires Has(b, w) && units <= b[Position(b, w)].value
    ensures Has(Debited(b, w, units), k) == Has(b, k)
  {
    var at := Position(b, w);
    var left := b[at].value - units;
    assert Debited(b, w, units) == b[at := Entry(b[at].key, left)];
    UpdatePosition(b, at, left, k);
  }

  /** No operation ever drops an entry, and both end with an entry for the wallet they pay. */
  lemma IssueHas(l: Ledger, r: Issuance, k: nat)
    requires ValidLedger(l) && Issue(l, r).Ok?
    ensures Has(Issue(l, r).value.balances, k) <==> k == r.wallet.id || Has(l.balances, k)
  {
    CreditHas(l.balances, r.wallet.id, r.units, k);
  }

  lemma MoveHas(l: Ledger, t: Transfer, k: nat)
    requires ValidLedger(l) && Move(l, t).Ok?
    ensures Has(Move(l, t).value.balances, k) <==> k == t.destination.id || Has(l.balances, k)
  {
    MoveIsDebitCredit(l, t);
    DebitSorted(l.balances, t.source.id, t.units);
    CreditHas(Debited(l.balances, t.source.id, t.units), t.destination.id, t.units, k);
    DebitHas(l.balances, t.source.id, t.units, k);
  }

  /** A successful transfer is a debit followed by a credit. */
  lemma MoveIsDebitCredit(l: Ledger, t: Transfer)
    requires Move(l, t).Ok?
    ensures Has(l.balances, t.source.id) && t.units <= l.balances[Position(l.balances, t.source.id)].value
    ensures Move(l, t).value
      == l.(balances := Credited(Debited(l.balances, t.source.id, t.units), t.destination.id, t.units))
    ensures |Move(l, t).value.balances| <= |l.balances| + 1
    ensures |l.balances| <= l.capacity ==> |Move(l, t).value.balances| <= l.capacity
  {
    DebitElsewhere(l.balances, t.source.id, t.units, t.destination.id);
  }

  lemma DebitCredit(b: seq<Balance>, w: nat, d: nat, units: nat)
    requires Sorted(b) && Has(b, w) && units <= b[Position(b, w)].value
    ensures var c := Credited(Debited(b, w, units), d, units);
      && Sorted(c) && Total(c) == Total(b)
      && forall v :: Units(c, v) + Bonus(w, v, units) == Units(b, v) + Bonus(d, v, units)
    ensures Units(b, w) >= units
  {
    var paid := Debited(b, w, units);
    DebitMeaning(b, w, units);
    CreditMeaning(paid, d, units);
    forall v ensures Units(Credited(paid, d, units), v) + Bonus(w, v, units) == Units(b, v) + Bonus(d, v, units) {
      assert Units(paid, v) == if v == w then Units(b, v) - units else Units(b, v);
    }
  }

  lemma DebitSorted(b: seq<Balance>, w: nat, units: nat)
    requires Sorted(b) && Has(b, w) && units <= b[Position(b, w)].value
    ensures Sorted(Debited(b, w, units))
  {
    DebitMeaning(b, w, units);
  }

  lemma CreditSorted(b: seq<Balance>, w: nat, units: nat)
    requires Sorted(b)
    ensures Sorted(Credited(b, w, units))
  {
    CreditMeaning(b, w, units);
  }

  /** A transfer moves its units between two wallets; the supply and every third wallet
      stay as they were. */
  lemma MoveMeaning(l: Ledger, t: Transfer)
    requires ValidLedger(l) && Move(l, t).Ok?
    ensures var n := Move(l, t).value;
      && ValidLedger(n) && n.capacity == l.capacity && n.supply == l.supply
      && |n.balances| <= |l.balances| + 1
      && Units(l.balances, t.source.id) >= t.units
      && forall v :: Units(n.balances, v) + Bonus(t.source.id, v, t.units)
                  == Units(l.balances, v) + Bonus(t.destination.id, v, t.units)
  {
    MoveIsDebitCredit(l, t);
    DebitCredit(l.balances, t.source.id, t.destination.id, t.units);
  }

  /** On a valid ledger a well-formed transfer fails exactly when the source owns too
      little or a new destination has no room; the overflow return is unreachable. */
  lemma MoveFailsOnlyWhen(l: Ledger, t: Transfer)
    requires ValidLedger(l) && CheckTransfer(t).Ok?
    ensures Move(l, t).Err? <==>
      Units(l.balances, t.source.id) < t.units || (!Has(l.balances, t.destination.id) && |l.balances| == l.capacity)
  {
    LookupExact(l.balances, t.source.id);
    LookupExact(l.balances, t.destination.id);
    PairWithin(l.balances, t.source.id, t.destination.id);
  }
}
