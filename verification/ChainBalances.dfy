/** Where the money of an accepted history is: what every wallet was paid and sent, less what
    it sent, and the wallet every miner registered. */
module ChainBalances {
  import opened BigEndian
  import opened Status
  import opened Hashing
  import Transaction
  import Ledger
  import Compensation
  import opened Economy
  import opened Chain
  import opened ChainSteps
  import opened ChainLoops
  import opened ChainBooks
  import opened ChainHistory

  /** What a transaction gives to wallet `v`. */
  function Given(env: Env, v: nat, t: Tx): nat {
    if t.kind == Transaction.ISSUANCE && env.issuance(t.record).Some? then
      Ledger.Bonus(env.issuance(t.record).value.wallet.id, v, env.issuance(t.record).value.units)
    else if t.kind == Transaction.TRANSFER && env.transfer(t.record).Some? then
      var m := env.transfer(t.record).value.transfer;
      Ledger.Bonus(m.destination.id, v, m.units)
    else 0
  }

  /** What a transaction takes from wallet `v`. */
  function Taken(env: Env, v: nat, t: Tx): nat {
    if t.kind == Transaction.TRANSFER && env.transfer(t.record).Some? then
      var m := env.transfer(t.record).value.transfer;
      Ledger.Bonus(m.source.id, v, m.units)
    else 0
  }

  function GivenTo(env: Env, v: nat): Tx -> nat { (t: Tx) => Given(env, v, t) }

  function TakenFrom(env: Env, v: nat): Tx -> nat { (t: Tx) => Taken(env, v, t) }

  function Sum(amount: Tx -> nat, txs: seq<Tx>): nat {
    if txs == [] then 0 else amount(txs[0]) + Sum(amount, txs[1..])
  }

  lemma {:induction false} SumConcat(amount: Tx -> nat, a: seq<Tx>, b: seq<Tx>)
    ensures Sum(amount, a + b) == Sum(amount, a) + Sum(amount, b)
  {
    if a == [] {
      assert a + b == b;
    } else {
      SumConcat(amount, a[1..], b);
      assert (a + b)[1..] == a[1..] + b;
    }
  }

  lemma SumOne(amount: Tx -> nat, t: Tx)
    ensures Sum(amount, [t]) == amount(t)
  {
    assert [t][1..] == [];
  }

  // --------------------------------------------------------------------- what flows

  /** Wallet by wallet, the ledger changed by what these transactions gave and took. */
  ghost predicate Flowed(env: Env, l: Ledger.Ledger, n: Ledger.Ledger, txs: seq<Tx>) {
    forall v: nat :: FlowedFor(env, l, n, txs, v)
  }

  predicate FlowedFor(env: Env, l: Ledger.Ledger, n: Ledger.Ledger, txs: seq<Tx>, v: nat) {
    Ledger.Units(n.balances, v) + Sum(TakenFrom(env, v), txs) == Ledger.Units(l.balances, v) + Sum(GivenTo(env, v), txs)
  }

  lemma FlowNothing(env: Env, l: Ledger.Ledger)
    ensures Flowed(env, l, l, [])
  {
  }

  lemma FlowTwice(env: Env, l: Ledger.Ledger, m: Ledger.Ledger, n: Ledger.Ledger, x: seq<Tx>, y: seq<Tx>)
    requires Flowed(env, l, m, x) && Flowed(env, m, n, y)
    ensures Flowed(env, l, n, x + y)
  {
    forall v: nat ensures FlowedFor(env, l, n, x + y, v) {
      assert FlowedFor(env, l, m, x, v) && FlowedFor(env, m, n, y, v);
      SumConcat(TakenFrom(env, v), x, y);
      SumConcat(GivenTo(env, v), x, y);
    }
  }

  lemma IssuanceFlows(env: Env, f: Frame, w: Candidate, t: Tx)
    requires ValidBooks(w.books) && t.kind == Transaction.ISSUANCE && ApplyIssuance(env, f, w, t.record).Ok?
    ensures Flowed(env, w.books.ledger, ApplyIssuance(env, f, w, t.record).value.books.ledger, [t])
  {
    Ledger.IssueMeaning(w.books.ledger, env.issuance(t.record).value);
    forall v: nat ensures FlowedFor(env, w.books.ledger, ApplyIssuance(env, f, w, t.record).value.books.ledger, [t], v) {
      SumOne(TakenFrom(env, v), t);
      SumOne(GivenTo(env, v), t);
    }
  }

  lemma TransferFlows(env: Env, w: Candidate, t: Tx)
    requires ValidBooks(w.books) && t.kind == Transaction.TRANSFER && ApplyTransfer(env, w, t.record).Ok?
    ensures Flowed(env, w.books.ledger, ApplyTransfer(env, w, t.record).value.books.ledger, [t])
  {
    TransferAccepted(env.rules, w.books.ledger, w.books.transfers, env.transfer(t.record).value);
    forall v: nat ensures FlowedFor(env, w.books.ledger, ApplyTransfer(env, w, t.record).value.books.ledger, [t], v) {
      SumOne(TakenFrom(env, v), t);
      SumOne(GivenTo(env, v), t);
    }
  }

  /** Everything else leaves the ledger alone. */
  lemma RestFlows(env: Env, c: Context, f: Frame, w: Candidate, t: Tx)
    requires t.kind != Transaction.ISSUANCE && t.kind != Transaction.TRANSFER && ApplyOne(env, c, f, w, t).Ok?
    ensures Flowed(env, w.books.ledger, ApplyOne(env, c, f, w, t).value.books.ledger, [t])
  {
    var n := ApplyOne(env, c, f, w, t).value;
    assert n.books.ledger == w.books.ledger;
    forall v: nat ensures FlowedFor(env, w.books.ledger, n.books.ledger, [t], v) {
      SumOne(TakenFrom(env, v), t);
      SumOne(GivenTo(env, v), t);
    }
  }

  lemma OneFlows(env: Env, c: Context, f: Frame, w: Candidate, t: Tx)
    requires ValidBooks(w.books) && ApplyOne(env, c, f, w, t).Ok?
    ensures Flowed(env, w.books.ledger, ApplyOne(env, c, f, w, t).value.books.ledger, [t])
  {
    if t.kind == Transaction.ISSUANCE {
      IssuanceFlows(env, f, w, t);
    } else if t.kind == Transaction.TRANSFER {
      TransferFlows(env, w, t);
    } else {
      RestFlows(env, c, f, w, t);
    }
  }

  lemma PairFlows(env: Env, c: Context, f: Frame, w: Candidate, e: Tx, i: Tx)
    requires ValidBooks(w.books) && e.kind == Transaction.BLOCK_COMPENSATION_EVIDENCE && ApplyPair(env, c, f, w, e, i).Ok?
    ensures Flowed(env, w.books.ledger, ApplyPair(env, c, f, w, e, i).value.books.ledger, [e, i])
  {
    var r := env.issuance(i.record).value;
    PairAccepted(env.rules, w.books.ledger, w.books.pairs, w.books.destinations, env.evidence(e.record).value, r);
    assert r.units == 10000;
    forall v: nat ensures FlowedFor(env, w.books.ledger, ApplyPair(env, c, f, w, e, i).value.books.ledger, [e, i], v) {
      assert [e] + [i] == [e, i];
      SumConcat(TakenFrom(env, v), [e], [i]);
      SumConcat(GivenTo(env, v), [e], [i]);
      SumOne(TakenFrom(env, v), e);
      SumOne(TakenFrom(env, v), i);
      SumOne(GivenTo(env, v), e);
      SumOne(GivenTo(env, v), i);
    }
  }

  // ------------------------------------------------------------------- registrations

  /** A transaction that registers this wallet for this identity. */
  predicate Registers(env: Env, t: Tx, id: nat, wallet: nat) {
    && t.kind == Transaction.COMPENSATION_DESTINATION && env.destination(t.record).Some?
    && env.destination(t.record).value.identity.id == id && env.destination(t.record).value.wallet.id == wallet
  }

  ghost predicate Registered(env: Env, txs: seq<Tx>, id: nat, wallet: nat) {
    exists i :: 0 <= i < |txs| && Registers(env, txs[i], id, wallet)
  }

  function Bound(d: Compensation.Destinations, id: nat): Outcome<nat> {
    Compensation.Lookup(d, Compensation.IdentityAddress(id))
  }

  /** The mapping gained exactly what these transactions registered. */
  ghost predicate Mapped(env: Env, d: Compensation.Destinations, n: Compensation.Destinations, txs: seq<Tx>) {
    forall id: nat, wallet: nat :: Bound(n, id) == Ok(wallet) <==> Bound(d, id) == Ok(wallet) || Registered(env, txs, id, wallet)
  }

  lemma RegisteredConcat(env: Env, x: seq<Tx>, y: seq<Tx>, id: nat, wallet: nat)
    ensures Registered(env, x + y, id, wallet) <==> Registered(env, x, id, wallet) || Registered(env, y, id, wallet)
  {
    if Registered(env, x, id, wallet) {
      var i :| 0 <= i < |x| && Registers(env, x[i], id, wallet);
      assert (x + y)[i] == x[i];
    }
    if Registered(env, y, id, wallet) {
      var i :| 0 <= i < |y| && Registers(env, y[i], id, wallet);
      assert (x + y)[|x| + i] == y[i];
    }
  }

  lemma MapTwice(env: Env, d: Compensation.Destinations, m: Compensation.Destinations, n: Compensation.Destinations, x: seq<Tx>, y: seq<Tx>)
    requires Mapped(env, d, m, x) && Mapped(env, m, n, y)
    ensures Mapped(env, d, n, x + y)
  {
    forall id: nat, wallet: nat
      ensures Bound(n, id) == Ok(wallet) <==> Bound(d, id) == Ok(wallet) || Registered(env, x + y, id, wallet)
    {
      RegisteredConcat(env, x, y, id, wallet);
    }
  }

  lemma RegisteredOne(env: Env, t: Tx, id: nat, wallet: nat)
    ensures Registered(env, [t], id, wallet) <==> Registers(env, t, id, wallet)
  {
    assert [t][0] == t;
  }

  lemma AssignmentMaps(env: Env, d: Compensation.Destinations, r: Compensation.Destination, t: Tx)
    requires Compensation.Valid(d) && Compensation.Assign(d, r).Ok?
    requires t.kind == Transaction.COMPENSATION_DESTINATION && env.destination(t.record) == Some(r)
    ensures Mapped(env, d, Compensation.Assign(d, r).value, [t])
  {
    Compensation.AssignMeaning(d, r);
    Compensation.AssignOnce(d, r);
    assert r.identity == Compensation.IdentityAddress(r.identity.id);
    forall id: nat, wallet: nat
      ensures Bound(Compensation.Assign(d, r).value, id) == Ok(wallet) <==> Bound(d, id) == Ok(wallet) || Registered(env, [t], id, wallet)
    {
      RegisteredOne(env, t, id, wallet);
    }
  }

  lemma MapNothing(env: Env, d: Compensation.Destinations, t: Tx)
    requires t.kind != Transaction.COMPENSATION_DESTINATION
    ensures Mapped(env, d, d, [t])
  {
    forall id: nat, wallet: nat ensures !Registered(env, [t], id, wallet) { RegisteredOne(env, t, id, wallet); }
  }

  /** What one transaction does to the mapping. */
  lemma OneAssigns(env: Env, c: Context, f: Frame, w: Candidate, t: Tx)
    requires ApplyOne(env, c, f, w, t).Ok?
    ensures var n := ApplyOne(env, c, f, w, t).value.books.destinations;
      if t.kind == Transaction.COMPENSATION_DESTINATION
      then env.destination(t.record).Some? && Compensation.Assign(w.books.destinations, env.destination(t.record).value) == Ok(n)
      else n == w.books.destinations
  {
  }

  lemma OneMaps(env: Env, c: Context, f: Frame, w: Candidate, t: Tx)
    requires ValidBooks(w.books) && ApplyOne(env, c, f, w, t).Ok?
    ensures Mapped(env, w.books.destinations, ApplyOne(env, c, f, w, t).value.books.destinations, [t])
  {
    OneAssigns(env, c, f, w, t);
    if t.kind == Transaction.COMPENSATION_DESTINATION {
      AssignmentMaps(env, w.books.destinations, env.destination(t.record).value, t);
    } else {
      MapNothing(env, w.books.destinations, t);
    }
  }

  lemma PairMaps(env: Env, c: Context, f: Frame, w: Candidate, e: Tx, i: Tx)
    requires e.kind == Transaction.BLOCK_COMPENSATION_EVIDENCE && ApplyPair(env, c, f, w, e, i).Ok?
    ensures Mapped(env, w.books.destinations, ApplyPair(env, c, f, w, e, i).value.books.destinations, [e, i])
  {
    var d := w.books.destinations;
    MapNothing(env, d, e);
    MapNothing(env, d, i);
    MapTwice(env, d, d, d, [e], [i]);
    assert [e] + [i] == [e, i];
  }

  // -------------------------------------------------------------------- whole histories

  /** What a stretch of transactions did to balances and registrations. */
  ghost predicate Accounted(env: Env, b: Books, n: Books, txs: seq<Tx>) {
    Flowed(env, b.ledger, n.ledger, txs) && Mapped(env, b.destinations, n.destinations, txs)
  }

  lemma AccountTwice(env: Env, b: Books, m: Books, n: Books, x: seq<Tx>, y: seq<Tx>)
    requires Accounted(env, b, m, x) && Accounted(env, m, n, y)
    ensures Accounted(env, b, n, x + y)
  {
    FlowTwice(env, b.ledger, m.ledger, n.ledger, x, y);
    MapTwice(env, b.destinations, m.destinations, n.destinations, x, y);
  }

  lemma AccountNothing(env: Env, b: Books)
    ensures Accounted(env, b, b, [])
  {
    FlowNothing(env, b.ledger);
  }

  lemma OneAccounts(env: Env, c: Context, f: Frame, w: Candidate, t: Tx)
    requires ValidBooks(w.books) && t.kind != Transaction.BLOCK_COMPENSATION_EVIDENCE && ApplyOne(env, c, f, w, t).Ok?
    ensures var n := ApplyOne(env, c, f, w, t).value.books; ValidBooks(n) && Accounted(env, w.books, n, [t])
  {
    OneBooked(env, c, f, w, t);
    OneFlows(env, c, f, w, t);
    OneMaps(env, c, f, w, t);
  }

  lemma PairAccounts(env: Env, c: Context, f: Frame, w: Candidate, e: Tx, i: Tx)
    requires ValidBooks(w.books) && e.kind == Transaction.BLOCK_COMPENSATION_EVIDENCE && ApplyPair(env, c, f, w, e, i).Ok?
    ensures var n := ApplyPair(env, c, f, w, e, i).value.books; ValidBooks(n) && Accounted(env, w.books, n, [e, i])
  {
    PairBooked(env, c, f, w, e, i);
    PairFlows(env, c, f, w, e, i);
    PairMaps(env, c, f, w, e, i);
  }

  lemma TxsAccount(env: Env, c: Context, f: Frame, w: Candidate, txs: seq<Tx>)
    requires ValidBooks(w.books) && ApplyTxs(env, c, f, w, txs).Ok?
    ensures Accounted(env, w.books, ApplyTxs(env, c, f, w, txs).value.books, txs)
  {
    var one, pair := OneOf(env, c, f), PairOf(env, c, f);
    var inv := (x: Candidate) => ValidBooks(x.books);
    var rel := (x: Candidate, y: Candidate, a: seq<Tx>) => Accounted(env, x.books, y.books, a);
    forall x, t: Tx | t.kind != Transaction.BLOCK_COMPENSATION_EVIDENCE && inv(x) && one(x, t).Ok?
      ensures inv(one(x, t).value) && rel(x, one(x, t).value, [t]) { OneAccounts(env, c, f, x, t); }
    forall x, e: Tx, i | e.kind == Transaction.BLOCK_COMPENSATION_EVIDENCE && inv(x) && pair(x, e, i).Ok?
      ensures inv(pair(x, e, i).value) && rel(x, pair(x, e, i).value, [e, i]) { PairAccounts(env, c, f, x, e, i); }
    forall x ensures rel(x, x, []) { AccountNothing(env, x.books); }
    forall x, y, z, a, b | rel(x, y, a) && rel(y, z, b) ensures rel(x, z, a + b) {
      AccountTwice(env, x.books, y.books, z.books, a, b);
    }
    ApplyIsApplyTxs(env, c, f, w, txs);
    ApplyRelates(one, pair, inv, rel, w, txs);
  }

  lemma OpenedAccounts(env: Env, b: Books, txs: seq<Tx>)
    ensures Accounted(env, b, OpenBooks(b, txs), [])
  {
    FlowNothing(env, b.ledger);
  }

  lemma SettledAccounts(env: Env, c: Context, blocks: seq<seq<byte>>, s: ChainState, b: seq<byte>, n: ChainState)
    requires ValidBooks(s.books) && Accounted(env, EMPTY_BOOKS, s.books, AllTxs(env, blocks))
    requires Settled(env, c, s, Some(blocks), b, n)
    ensures Accounted(env, EMPTY_BOOKS, n.books, AllTxs(env, blocks + [b]))
  {
    var h, txs := HeaderOf(env, b), TxsOf(env, b);
    var o := OpenBooks(s.books, txs);
    OpenedBooks(s.books, txs);
    TxsAccount(env, c, Frame(s, h.height, Some(blocks)), Open(s, h.height, txs), txs);
    OpenedAccounts(env, s.books, txs);
    AccountTwice(env, s.books, o, n.books, [], txs);
    assert [] + txs == txs;
    AccountTwice(env, EMPTY_BOOKS, s.books, n.books, AllTxs(env, blocks), txs);
    LastOf(blocks, b);
  }

  /** Each wallet owns what these transactions gave it less what they took, and an identity is
      bound to exactly the wallet that they registered for it. */
  ghost predicate AccountOf(env: Env, b: Books, txs: seq<Tx>) {
    && (forall v: nat :: Ledger.Units(b.ledger.balances, v) + Sum(TakenFrom(env, v), txs) == Sum(GivenTo(env, v), txs))
    && (forall id: nat, wallet: nat :: Bound(b.destinations, id) == Ok(wallet) <==> Registered(env, txs, id, wallet))
  }

  lemma FromNothing(env: Env, b: Books, txs: seq<Tx>)
    requires Accounted(env, EMPTY_BOOKS, b, txs)
    ensures AccountOf(env, b, txs)
  {
    forall v: nat ensures Ledger.Units(b.ledger.balances, v) + Sum(TakenFrom(env, v), txs) == Sum(GivenTo(env, v), txs) {
      assert FlowedFor(env, EMPTY_BOOKS.ledger, b.ledger, txs, v);
    }
  }

  /** In every accepted history balances and bindings are the account of its transactions. */
  lemma BalancesAreFlows(env: Env, c: Context, blocks: seq<seq<byte>>)
    requires After(env, c, blocks).Accepted?
    ensures AccountOf(env, After(env, c, blocks).state.books, AllTxs(env, blocks))
  {
    var inv := (h, s) => Reached(env, c, h, s) && Accounted(env, EMPTY_BOOKS, s.books, AllTxs(env, h));
    if Start(env, c).Accepted? { InitialReached(env, c); AccountNothing(env, EMPTY_BOOKS); }
    forall s, h, b | inv(h, s) && Extend(env, c)(s, h, b).Accepted? ensures inv(h + [b], Extend(env, c)(s, h, b).state) {
      StepReached(env, c, h, s, b);
      ValidateShape(env, c, s, Some(h), b);
      SettleShape(env, c, s, Some(h), b);
      SettledAccounts(env, c, h, s, b, Validate(env, c, s, Some(h), b).state);
    }
    FoldKeeps(Extend(env, c), Start(env, c), blocks, inv);
    FromNothing(env, After(env, c, blocks).state.books, AllTxs(env, blocks));
  }
}
