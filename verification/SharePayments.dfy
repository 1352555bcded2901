/** Whether a SHARE payment can be made twice. Consensus remembers share evidence, transfers
    and BLOCK evidence, but no SHARE issuance: once made, a payment meets every condition
    again in every later block, save that the supply must still fit 64 bits. */
module SharePayments {
  import opened BigEndian
  import opened Status
  import opened Hashing
  import Transaction
  import Ledger
  import Table
  import Compensation
  import opened Economy
  import opened Chain
  import opened ChainLoops
  import opened ChainBooks
  import opened ChainHistory
  import opened ChainSteps

  /** An issuance that claims to pay for a share. */
  predicate IsSharePayment(env: Env, t: Tx) {
    && t.kind == Transaction.ISSUANCE && env.issuance(t.record).Some?
    && env.issuance(t.record).value.reason == Ledger.REASON_SHARE
  }

  /** Everything a SHARE payment asks of an accepted prefix and of the books, but for the
      supply; the wallet has an entry, so no room is needed either. */
  ghost predicate Payable(env: Env, history: seq<seq<byte>>, b: Books, r: Ledger.Issuance) {
    && Ledger.CheckIssuance(r).Ok? && r.reason == Ledger.REASON_SHARE
    && Compensation.Lookup(b.destinations, r.identity) == Ok(r.wallet.id)
    && Table.Has(b.ledger.balances, r.wallet.id)
    && Search(Binding(env, r, b.destinations), history) == Ok(true)
  }

  /** A payable issuance is accepted exactly when the supply still fits. */
  lemma PayableFits(env: Env, f: Frame, w: Candidate, record: seq<byte>)
    requires ValidBooks(w.books) && f.history.Some? && env.issuance(record).Some?
    requires Payable(env, f.history.value, w.books, env.issuance(record).value)
    ensures ApplyIssuance(env, f, w, record).Ok? <==> w.books.ledger.supply + 100 <= UINT64_MAX
    ensures ApplyIssuance(env, f, w, record).Ok? ==>
      ApplyIssuance(env, f, w, record).value.books.ledger == Ledger.Issue(w.books.ledger, env.issuance(record).value).value
  {
    Ledger.IssueFailsOnlyWhen(w.books.ledger, env.issuance(record).value);
  }

  lemma PaidIsPayable(env: Env, f: Frame, w: Candidate, record: seq<byte>)
    requires ValidBooks(w.books) && f.history.Some? && ApplyIssuance(env, f, w, record).Ok?
    ensures Payable(env, f.history.value, ApplyIssuance(env, f, w, record).value.books, env.issuance(record).value)
  {
    Ledger.IssueHas(w.books.ledger, env.issuance(record).value, env.issuance(record).value.wallet.id);
  }

  // ---------------------------------------------------------------------- persistence

  /** No binding changes and no balance entry disappears. */
  ghost predicate Persists(b: Books, n: Books) {
    && (forall id :: Compensation.Lookup(b.destinations, Compensation.IdentityAddress(id)).Ok? ==>
          Compensation.Lookup(n.destinations, Compensation.IdentityAddress(id))
            == Compensation.Lookup(b.destinations, Compensation.IdentityAddress(id)))
    && (forall w :: Table.Has(b.ledger.balances, w) ==> Table.Has(n.ledger.balances, w))
  }

  lemma BoundStays(env: Env, r: Ledger.Issuance, b: Books, n: Books)
    requires Persists(b, n) && Compensation.Lookup(b.destinations, r.identity).Ok?
    ensures Compensation.Lookup(n.destinations, r.identity) == Compensation.Lookup(b.destinations, r.identity)
  {
    assert r.identity == Compensation.IdentityAddress(r.identity.id);
  }

  /** Only the binding of the issuance's own identity matters to the search. */
  lemma SameBinding(env: Env, r: Ledger.Issuance, d: Compensation.Destinations, d': Compensation.Destinations, b: seq<byte>)
    requires Compensation.Lookup(d, r.identity) == Compensation.Lookup(d', r.identity)
    ensures Binding(env, r, d)(b) == Binding(env, r, d')(b)
  {
    if DecodeBlock(env, b).Ok? && DecodeTxs(env, DecodeBlock(env, b).value.transactions).Ok? {
      SameBoundIn(env, r, d, d', DecodeTxs(env, DecodeBlock(env, b).value.transactions).value);
    }
  }

  lemma SameBoundIn(env: Env, r: Ledger.Issuance, d: Compensation.Destinations, d': Compensation.Destinations, txs: seq<Tx>)
    requires Compensation.Lookup(d, r.identity) == Compensation.Lookup(d', r.identity)
    ensures BoundIn(env, r, d, txs) == BoundIn(env, r, d', txs)
  {
    forall s ensures BindShare(env.rules, r, s, d) == BindShare(env.rules, r, s, d') { SameBind(env.rules, r, s, d, d'); }
  }

  lemma SameBind(rules: Rules, r: Ledger.Issuance, s: Share, d: Compensation.Destinations, d': Compensation.Destinations)
    requires Compensation.Lookup(d, r.identity) == Compensation.Lookup(d', r.identity)
    ensures BindShare(rules, r, s, d) == BindShare(rules, r, s, d')
  {
    if r.identity.kind == Ledger.Identity && s.miner.kind == Ledger.Identity && r.identity.id == s.miner.id {
      assert r.identity == s.miner;
    }
  }

  /** What was found in a prefix is found in every longer history. */
  lemma {:induction false} SearchLonger(ask: Question, ask': Question, history: seq<seq<byte>>, more: seq<seq<byte>>)
    requires forall b :: ask(b) == ask'(b)
    requires Search(ask, history) == Ok(true)
    ensures Search(ask', history + more) == Ok(true)
    decreases |history|
  {
    assert (history + more)[1..] == history[1..] + more;
    if ask(history[0]) == Ok(false) { SearchLonger(ask, ask', history[1..], more); }
  }

  /** A payable issuance stays payable, whatever is accepted in between. */
  lemma PayableStays(env: Env, history: seq<seq<byte>>, more: seq<seq<byte>>, b: Books, n: Books, r: Ledger.Issuance)
    requires Payable(env, history, b, r) && Persists(b, n)
    ensures Payable(env, history + more, n, r)
  {
    BoundStays(env, r, b, n);
    var ask, ask' := Binding(env, r, b.destinations), Binding(env, r, n.destinations);
    forall x ensures ask(x) == ask'(x) { SameBinding(env, r, b.destinations, n.destinations, x); }
    SearchLonger(ask, ask', history, more);
  }

  lemma PersistsOn(b: Books, m: Books, n: Books)
    requires Persists(b, m) && Persists(m, n)
    ensures Persists(b, n)
  {
    forall id | Compensation.Lookup(b.destinations, Compensation.IdentityAddress(id)).Ok?
      ensures Compensation.Lookup(n.destinations, Compensation.IdentityAddress(id))
           == Compensation.Lookup(b.destinations, Compensation.IdentityAddress(id))
    {
      assert Compensation.Lookup(m.destinations, Compensation.IdentityAddress(id)).Ok?;
    }
  }

  lemma IssuePersists(b: Books, n: Books, r: Ledger.Issuance)
    requires ValidBooks(b) && Ledger.Issue(b.ledger, r).Ok?
    requires n.ledger == Ledger.Issue(b.ledger, r).value && n.destinations == b.destinations
    ensures Persists(b, n)
  {
    forall w | Table.Has(b.ledger.balances, w) ensures Table.Has(n.ledger.balances, w) {
      Ledger.IssueHas(b.ledger, r, w);
    }
  }

  lemma MovePersists(b: Books, n: Books, t: Ledger.Transfer)
    requires ValidBooks(b) && Ledger.Move(b.ledger, t).Ok?
    requires n.ledger == Ledger.Move(b.ledger, t).value && n.destinations == b.destinations
    ensures Persists(b, n)
  {
    forall w | Table.Has(b.ledger.balances, w) ensures Table.Has(n.ledger.balances, w) {
      Ledger.MoveHas(b.ledger, t, w);
    }
  }

  lemma AssignPersists(b: Books, n: Books, d: Compensation.Destination)
    requires ValidBooks(b) && Compensation.Assign(b.destinations, d).Ok?
    requires n.destinations == Compensation.Assign(b.destinations, d).value && n.ledger == b.ledger
    ensures Persists(b, n)
  {
    Compensation.AssignMeaning(b.destinations, d);
    assert d.identity == Compensation.IdentityAddress(d.identity.id);
    if Compensation.Lookup(b.destinations, d.identity).Ok? { KnownStays(b.destinations, d); }
  }

  lemma KnownStays(s: Compensation.Destinations, d: Compensation.Destination)
    requires Compensation.Valid(s) && Compensation.Assign(s, d).Ok?
    requires Compensation.Lookup(s, d.identity).Ok?
    ensures Compensation.Lookup(s, d.identity) == Ok(d.wallet.id)
  {
  }

  // ---------------------------------------------------------------------- whole bodies

  /** What a transaction leaves behind when it is a SHARE payment. */
  ghost predicate Stands(env: Env, history: seq<seq<byte>>, t: Tx, b: Books) {
    IsSharePayment(env, t) ==> Payable(env, history, b, env.issuance(t.record).value)
  }

  /** What a step establishes, and what it carries on, holds at the end of a body. */
  lemma {:induction false} ApplyStands(one: Step, pair: PairStep, sound: Candidate -> bool, keeps: (Candidate, Candidate) -> bool,
                                       stands: (Tx, Candidate) -> bool, w: Candidate, txs: seq<Tx>)
    requires sound(w) && Apply(one, pair, w, txs).Ok?
    requires forall x :: keeps(x, x)
    requires forall x, y, z :: keeps(x, y) && keeps(y, z) ==> keeps(x, z)
    requires forall t, x, y :: stands(t, x) && keeps(x, y) ==> stands(t, y)
    requires forall x, t: Tx :: sound(x) && t.kind != Transaction.BLOCK_COMPENSATION_EVIDENCE && one(x, t).Ok? ==>
      sound(one(x, t).value) && keeps(x, one(x, t).value) && stands(t, one(x, t).value)
    requires forall x, e: Tx, i :: sound(x) && e.kind == Transaction.BLOCK_COMPENSATION_EVIDENCE && pair(x, e, i).Ok? ==>
      sound(pair(x, e, i).value) && keeps(x, pair(x, e, i).value)
      && stands(e, pair(x, e, i).value) && stands(i, pair(x, e, i).value)
    ensures var n := Apply(one, pair, w, txs).value;
      sound(n) && keeps(w, n) && forall t :: t in txs ==> stands(t, n)
    decreases |txs|
  {
    if txs != [] {
      var width := if txs[0].kind == Transaction.BLOCK_COMPENSATION_EVIDENCE then 2 else 1;
      var m := TurnOf(one, pair, w, txs).value;
      ApplyStands(one, pair, sound, keeps, stands, m, txs[width..]);
      forall t | t in txs ensures stands(t, Apply(one, pair, w, txs).value) {
        if t !in txs[width..] { InFront(txs, width, t); }
      }
    }
  }

  lemma InFront<T>(s: seq<T>, k: nat, x: T)
    requires k <= |s| && x in s && x !in s[k..]
    ensures x in s[..k]
  {
    assert s == s[..k] + s[k..];
  }

  lemma SamePersists(b: Books, n: Books)
    requires n.ledger.balances == b.ledger.balances && n.destinations.entries == b.destinations.entries
    ensures Persists(b, n)
  {
  }

  lemma TransferPersists(env: Env, w: Candidate, record: seq<byte>)
    requires ValidBooks(w.books) && ApplyTransfer(env, w, record).Ok?
    ensures Persists(w.books, ApplyTransfer(env, w, record).value.books)
  {
    MovePersists(w.books, ApplyTransfer(env, w, record).value.books, env.transfer(record).value.transfer);
  }

  lemma DestinationPersists(env: Env, w: Candidate, record: seq<byte>)
    requires ValidBooks(w.books) && ApplyDestination(env, w, record).Ok?
    ensures Persists(w.books, ApplyDestination(env, w, record).value.books)
  {
    AssignPersists(w.books, ApplyDestination(env, w, record).value.books, env.destination(record).value);
  }

  lemma PaymentPersists(env: Env, f: Frame, w: Candidate, record: seq<byte>)
    requires ValidBooks(w.books) && ApplyIssuance(env, f, w, record).Ok?
    ensures Persists(w.books, ApplyIssuance(env, f, w, record).value.books)
  {
    IssuePersists(w.books, ApplyIssuance(env, f, w, record).value.books, env.issuance(record).value);
  }

  lemma SharePersists(env: Env, c: Context, f: Frame, w: Candidate, record: seq<byte>)
    requires ApplyShare(env, c, f, w, record).Ok?
    ensures Persists(w.books, ApplyShare(env, c, f, w, record).value.books)
  {
    SamePersists(w.books, ApplyShare(env, c, f, w, record).value.books);
  }

  lemma RestLeavesBooks(env: Env, c: Context, f: Frame, w: Candidate, t: Tx)
    requires t.kind !in {Transaction.ISSUANCE, Transaction.TRANSFER, Transaction.COMPENSATION_DESTINATION, Transaction.SHARE_EVIDENCE}
    requires ApplyOne(env, c, f, w, t).Ok?
    ensures ApplyOne(env, c, f, w, t).value.books == w.books
  {
  }

  lemma OnePersists(env: Env, c: Context, f: Frame, w: Candidate, t: Tx)
    requires ValidBooks(w.books) && ApplyOne(env, c, f, w, t).Ok?
    ensures Persists(w.books, ApplyOne(env, c, f, w, t).value.books)
  {
    if t.kind == Transaction.ISSUANCE {
      PaymentPersists(env, f, w, t.record);
    } else if t.kind == Transaction.TRANSFER {
      TransferPersists(env, w, t.record);
    } else if t.kind == Transaction.COMPENSATION_DESTINATION {
      DestinationPersists(env, w, t.record);
    } else if t.kind == Transaction.SHARE_EVIDENCE {
      SharePersists(env, c, f, w, t.record);
    } else {
      RestLeavesBooks(env, c, f, w, t);
      SamePersists(w.books, ApplyOne(env, c, f, w, t).value.books);
    }
  }

  lemma OneStands(env: Env, c: Context, f: Frame, w: Candidate, t: Tx)
    requires ValidBooks(w.books) && t.kind != Transaction.BLOCK_COMPENSATION_EVIDENCE
    requires f.history.Some? && ApplyOne(env, c, f, w, t).Ok?
    ensures var n := ApplyOne(env, c, f, w, t).value;
      ValidBooks(n.books) && Persists(w.books, n.books) && Stands(env, f.history.value, t, n.books)
  {
    OneBooked(env, c, f, w, t);
    OnePersists(env, c, f, w, t);
    if IsSharePayment(env, t) { PaidIsPayable(env, f, w, t.record); }
  }

  lemma PairStands(env: Env, c: Context, f: Frame, w: Candidate, e: Tx, i: Tx)
    requires ValidBooks(w.books) && e.kind == Transaction.BLOCK_COMPENSATION_EVIDENCE
    requires f.history.Some? && ApplyPair(env, c, f, w, e, i).Ok?
    ensures var n := ApplyPair(env, c, f, w, e, i).value;
      && ValidBooks(n.books) && Persists(w.books, n.books)
      && Stands(env, f.history.value, e, n.books) && Stands(env, f.history.value, i, n.books)
  {
    PairBooked(env, c, f, w, e, i);
    IssuePersists(w.books, ApplyPair(env, c, f, w, e, i).value.books, env.issuance(i.record).value);
  }

  lemma StandsOn(env: Env, history: seq<seq<byte>>, more: seq<seq<byte>>, t: Tx, b: Books, n: Books)
    requires Stands(env, history, t, b) && Persists(b, n)
    ensures Stands(env, history + more, t, n)
  {
    if IsSharePayment(env, t) { PayableStays(env, history, more, b, n, env.issuance(t.record).value); }
  }

  /** Every SHARE payment of an accepted body is payable again right behind that body. */
  lemma TxsStand(env: Env, c: Context, f: Frame, w: Candidate, txs: seq<Tx>)
    requires ValidBooks(w.books) && f.history.Some? && ApplyTxs(env, c, f, w, txs).Ok?
    ensures var n := ApplyTxs(env, c, f, w, txs).value;
      Persists(w.books, n.books) && forall t :: t in txs ==> Stands(env, f.history.value, t, n.books)
  {
    var history := f.history.value;
    var sound := (x: Candidate) => ValidBooks(x.books);
    var keeps := (x: Candidate, y: Candidate) => Persists(x.books, y.books);
    var stands := (t: Tx, x: Candidate) => Stands(env, history, t, x.books);
    forall x, y, z | keeps(x, y) && keeps(y, z) ensures keeps(x, z) { PersistsOn(x.books, y.books, z.books); }
    forall t, x, y | stands(t, x) && keeps(x, y) ensures stands(t, y) {
      StandsOn(env, history, [], t, x.books, y.books);
      assert history + [] == history;
    }
    forall x, t: Tx | sound(x) && t.kind != Transaction.BLOCK_COMPENSATION_EVIDENCE && OneOf(env, c, f)(x, t).Ok?
      ensures var n := OneOf(env, c, f)(x, t).value; sound(n) && keeps(x, n) && stands(t, n)
    {
      OneStands(env, c, f, x, t);
    }
    forall x, e: Tx, i | sound(x) && e.kind == Transaction.BLOCK_COMPENSATION_EVIDENCE && PairOf(env, c, f)(x, e, i).Ok?
      ensures var n := PairOf(env, c, f)(x, e, i).value; sound(n) && keeps(x, n) && stands(e, n) && stands(i, n)
    {
      PairStands(env, c, f, x, e, i);
    }
    ApplyIsApplyTxs(env, c, f, w, txs);
    ApplyStands(OneOf(env, c, f), PairOf(env, c, f), sound, keeps, stands, w, txs);
    assert forall t :: t in txs ==> stands(t, ApplyTxs(env, c, f, w, txs).value);
  }

  // ------------------------------------------------------------------- whole histories

  /** Every SHARE payment of a history is payable again behind it. */
  ghost predicate AllStand(env: Env, blocks: seq<seq<byte>>, b: Books) {
    forall t :: t in AllTxs(env, blocks) ==> Stands(env, blocks, t, b)
  }

  lemma SettledStands(env: Env, c: Context, blocks: seq<seq<byte>>, s: ChainState, b: seq<byte>, n: ChainState)
    requires ValidBooks(s.books) && AllStand(env, blocks, s.books) && Settled(env, c, s, Some(blocks), b, n)
    ensures AllStand(env, blocks + [b], n.books)
  {
    var h, txs := HeaderOf(env, b), TxsOf(env, b);
    OpenedBooks(s.books, txs);
    TxsStand(env, c, Frame(s, h.height, Some(blocks)), Open(s, h.height, txs), txs);
    LastOf(blocks, b);
    assert Persists(s.books, OpenBooks(s.books, txs));
    PersistsOn(s.books, OpenBooks(s.books, txs), n.books);
    forall t | t in AllTxs(env, blocks + [b]) ensures Stands(env, blocks + [b], t, n.books) {
      if t in txs {
        StandsOn(env, blocks, [b], t, n.books, n.books);
      } else {
        StandsOn(env, blocks, [b], t, s.books, n.books);
      }
    }
  }

  lemma AcceptedStands(env: Env, c: Context, blocks: seq<seq<byte>>)
    requires After(env, c, blocks).Accepted?
    ensures AllStand(env, blocks, After(env, c, blocks).state.books)
  {
    if Start(env, c).Accepted? { InitialReached(env, c); }
    forall s, h, b | Reached(env, c, h, s) && AllStand(env, h, s.books) && Extend(env, c)(s, h, b).Accepted?
      ensures Reached(env, c, h + [b], Extend(env, c)(s, h, b).state) && AllStand(env, h + [b], Extend(env, c)(s, h, b).state.books)
    {
      StepReached(env, c, h, s, b);
      ValidateShape(env, c, s, Some(h), b);
      SettleShape(env, c, s, Some(h), b);
      SettledStands(env, c, h, s, b, Validate(env, c, s, Some(h), b).state);
    }
    FoldKeeps(Extend(env, c), Start(env, c), blocks, (h, s) => Reached(env, c, h, s) && AllStand(env, h, s.books));
  }

  /** A body that is one SHARE issuance and was payable takes effect exactly when the supply
      still fits. */
  lemma PaymentSettles(env: Env, c: Context, blocks: seq<seq<byte>>, s: ChainState, t: Tx, b: seq<byte>)
    requires ValidBooks(s.books) && Stands(env, blocks, t, s.books) && IsSharePayment(env, t) && TxsOf(env, b) == [t]
    ensures Settle(env, c, s, Some(blocks), b).Accepted? <==> s.books.ledger.supply + 100 <= UINT64_MAX
    ensures Settle(env, c, s, Some(blocks), b).Accepted? ==>
      Settle(env, c, s, Some(blocks), b).state.books.ledger.supply == s.books.ledger.supply + 100
  {
    var h := HeaderOf(env, b);
    var f, w := Frame(s, h.height, Some(blocks)), Open(s, h.height, [t]);
    OpenedPayable(env, blocks, s.books, t);
    PayableFits(env, f, w, t.record);
    SingleTx(env, c, f, w, t);
    SettlesAs(env, c, blocks, s, b, [t]);
  }

  lemma OpenedPayable(env: Env, blocks: seq<seq<byte>>, b: Books, t: Tx)
    requires ValidBooks(b) && Stands(env, blocks, t, b) && IsSharePayment(env, t)
    ensures var o := OpenBooks(b, [t]);
      ValidBooks(o) && o.ledger.supply == b.ledger.supply && Payable(env, blocks, o, env.issuance(t.record).value)
  {
    OpenedBooks(b, [t]);
    SamePersists(b, OpenBooks(b, [t]));
    PayableStays(env, blocks, [], b, OpenBooks(b, [t]), env.issuance(t.record).value);
    assert blocks + [] == blocks;
  }

  /** A block settles exactly when its transactions apply, and takes their books. */
  lemma SettlesAs(env: Env, c: Context, blocks: seq<seq<byte>>, s: ChainState, b: seq<byte>, txs: seq<Tx>)
    requires TxsOf(env, b) == txs
    ensures var h := HeaderOf(env, b).height;
      var r := ApplyTxs(env, c, Frame(s, h, Some(blocks)), Open(s, h, txs), txs);
      && (Settle(env, c, s, Some(blocks), b).Accepted? <==> r.Ok?)
      && (r.Ok? ==> Settle(env, c, s, Some(blocks), b).state.books == r.value.books)
  {
  }

  lemma SingleTx(env: Env, c: Context, f: Frame, w: Candidate, t: Tx)
    requires t.kind != Transaction.BLOCK_COMPENSATION_EVIDENCE
    ensures ApplyTxs(env, c, f, w, [t]) == ApplyOne(env, c, f, w, t)
  {
    assert [t][1..] == [];
  }

  /** Only BLOCK compensation is protected against being paid twice. Whatever SHARE payment an
      accepted history holds, however long ago and whatever came in between, a next block
      that passes the checks and carries the same transaction alone is accepted, and pays
      again, exactly when the supply still fits 64 bits. */
  lemma ShareIsPaidAgain(env: Env, c: Context, blocks: seq<seq<byte>>, t: Tx, b: seq<byte>)
    requires After(env, c, blocks).Accepted? && t in AllTxs(env, blocks) && IsSharePayment(env, t)
    requires CheckBlock(env, c, After(env, c, blocks).state, b).None? && TxsOf(env, b) == [t]
    ensures var s, n := After(env, c, blocks).state, After(env, c, blocks + [b]);
      && (n.Accepted? <==> s.books.ledger.supply + 100 <= UINT64_MAX)
      && (n.Accepted? ==> n.state.books.ledger.supply == s.books.ledger.supply + 100)
  {
    AcceptedIsReached(env, c, blocks);
    AcceptedStands(env, c, blocks);
    PaymentSettles(env, c, blocks, After(env, c, blocks).state, t, b);
    LastOf(blocks, b);
    AfterLast(env, c, blocks, b);
  }

  lemma AfterLast(env: Env, c: Context, blocks: seq<seq<byte>>, b: seq<byte>)
    requires After(env, c, blocks).Accepted?
    ensures After(env, c, blocks + [b]) == Validate(env, c, After(env, c, blocks).state, Some(blocks), b)
  {
    LastOf(blocks, b);
  }
}
