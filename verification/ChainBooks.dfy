/** What a block's transactions do to the economic stores, and what the stores of a whole
    accepted history therefore contain. */
module ChainBooks {
  import opened BigEndian
  import opened Status
  import opened Hashing
  import opened Sequences
  import Transaction
  import Ledger
  import Compensation
  import opened Economy
  import opened Chain
  import opened ChainLoops

  type Tx = Transaction.Tx

  function Count(txs: seq<Tx>, kind: nat): nat {
    if txs == [] then 0 else (if txs[0].kind == kind then 1 else 0) + Count(txs[1..], kind)
  }

  /** The replay key of a transfer. */
  function TransferKeyOf(env: Env): Tx -> seq<TransferKey> {
    (t: Tx) =>
      if t.kind != Transaction.TRANSFER || env.transfer(t.record).None? then []
      else
        match KeyOf(env.rules, env.transfer(t.record).value)
        case Some(k) => [k]
        case None => []
  }

  /** The identifier of a compensation evidence. */
  function PairIdOf(env: Env): Tx -> seq<Hash> {
    (t: Tx) =>
      if t.kind != Transaction.BLOCK_COMPENSATION_EVIDENCE || env.evidence(t.record).None? then []
      else
        match env.rules.evidenceId(env.evidence(t.record).value)
        case Ok(id) => [id]
        case Err(_) => []
  }

  /** The replay key of a share. */
  function ShareKeyIn(env: Env): Tx -> seq<ShareKey> {
    (t: Tx) =>
      if t.kind != Transaction.SHARE_EVIDENCE || env.share(t.record).None? then []
      else
        match ShareKeyOf(env.share(t.record).value)
        case Some(k) => [k]
        case None => []
  }

  function TransferKeys(env: Env, txs: seq<Tx>): seq<TransferKey> { Flat(TransferKeyOf(env), txs) }

  function PairIds(env: Env, txs: seq<Tx>): seq<Hash> { Flat(PairIdOf(env), txs) }

  function ShareKeys(env: Env, txs: seq<Tx>): seq<ShareKey> { Flat(ShareKeyIn(env), txs) }

  /** What the transactions of an accepted stretch have done to the books. */
  ghost predicate Booked(env: Env, b: Books, n: Books, txs: seq<Tx>) {
    ValidBooks(n) && SameCapacities(b, n) && Listed(env, b, n, txs) && Counted(b, n, txs)
  }

  /** Each replay list grew by exactly the keys of these transactions. */
  predicate Listed(env: Env, b: Books, n: Books, txs: seq<Tx>) {
    && n.transfers.keys == b.transfers.keys + TransferKeys(env, txs)
    && n.pairs.keys == b.pairs.keys + PairIds(env, txs)
    && n.shares.keys == b.shares.keys + ShareKeys(env, txs)
  }

  /** Every issuance paid 100 units, or 10000 when it stands behind a compensation evidence. */
  predicate Counted(b: Books, n: Books, txs: seq<Tx>) {
    && n.ledger.supply == b.ledger.supply + Ledger.SHARE_UNITS * Count(txs, Transaction.ISSUANCE)
         + (Ledger.BLOCK_UNITS - Ledger.SHARE_UNITS) * Count(txs, Transaction.BLOCK_COMPENSATION_EVIDENCE)
    && |n.ledger.balances| <= |b.ledger.balances| + Count(txs, Transaction.ISSUANCE) + Count(txs, Transaction.TRANSFER)
    && |n.destinations.entries| <= |b.destinations.entries| + Count(txs, Transaction.COMPENSATION_DESTINATION)
  }

  predicate SameCapacities(b: Books, n: Books) {
    && n.ledger.capacity == b.ledger.capacity && n.transfers.capacity == b.transfers.capacity
    && n.pairs.capacity == b.pairs.capacity && n.shares.capacity == b.shares.capacity
    && n.destinations.capacity == b.destinations.capacity
  }

  lemma NothingBooked(env: Env, b: Books)
    requires ValidBooks(b)
    ensures Booked(env, b, b, [])
  {
  }

  // ---------------------------------------------------------------- one transaction

  lemma TransferBooked(env: Env, w: Candidate, t: Tx)
    requires ValidBooks(w.books) && t.kind == Transaction.TRANSFER && ApplyTransfer(env, w, t.record).Ok?
    ensures Booked(env, w.books, ApplyTransfer(env, w, t.record).value.books, [t])
  {
    TransferAccepted(env.rules, w.books.ledger, w.books.transfers, env.transfer(t.record).value);
    Singleton(env, t);
  }

  lemma Singleton(env: Env, t: Tx)
    ensures TransferKeys(env, [t]) == TransferKeyOf(env)(t)
    ensures PairIds(env, [t]) == PairIdOf(env)(t)
    ensures ShareKeys(env, [t]) == ShareKeyIn(env)(t)
    ensures forall k :: Count([t], k) == if t.kind == k then 1 else 0
  {
    FlatOne(TransferKeyOf(env), t);
    FlatOne(PairIdOf(env), t);
    FlatOne(ShareKeyIn(env), t);
    assert [t][1..] == [];
  }

  lemma DestinationBooked(env: Env, w: Candidate, t: Tx)
    requires ValidBooks(w.books) && t.kind == Transaction.COMPENSATION_DESTINATION && ApplyDestination(env, w, t.record).Ok?
    ensures Booked(env, w.books, ApplyDestination(env, w, t.record).value.books, [t])
  {
    Compensation.AssignMeaning(w.books.destinations, env.destination(t.record).value);
    Singleton(env, t);
  }

  lemma ShareBooked(env: Env, c: Context, f: Frame, w: Candidate, t: Tx)
    requires ValidBooks(w.books) && t.kind == Transaction.SHARE_EVIDENCE && ApplyShare(env, c, f, w, t.record).Ok?
    ensures Booked(env, w.books, ApplyShare(env, c, f, w, t.record).value.books, [t])
  {
    ShareAccepted(w.books.shares, env.share(t.record).value);
    Singleton(env, t);
  }

  lemma IssuanceBooked(env: Env, f: Frame, w: Candidate, t: Tx)
    requires ValidBooks(w.books) && t.kind == Transaction.ISSUANCE && ApplyIssuance(env, f, w, t.record).Ok?
    ensures Booked(env, w.books, ApplyIssuance(env, f, w, t.record).value.books, [t])
  {
    Ledger.IssueMeaning(w.books.ledger, env.issuance(t.record).value);
    Singleton(env, t);
  }

  lemma PairKeys(env: Env, e: Tx, i: Tx)
    requires e.kind == Transaction.BLOCK_COMPENSATION_EVIDENCE && i.kind == Transaction.ISSUANCE
    ensures TransferKeys(env, [e, i]) == [] && ShareKeys(env, [e, i]) == []
    ensures PairIds(env, [e, i]) == PairIdOf(env)(e)
    ensures Count([e, i], Transaction.ISSUANCE) == 1 && Count([e, i], Transaction.BLOCK_COMPENSATION_EVIDENCE) == 1
    ensures Count([e, i], Transaction.TRANSFER) == 0 && Count([e, i], Transaction.COMPENSATION_DESTINATION) == 0
  {
    assert [e, i] == [e] + [i];
    Singleton(env, e);
    Singleton(env, i);
    FlatConcat(TransferKeyOf(env), [e], [i]);
    FlatConcat(PairIdOf(env), [e], [i]);
    FlatConcat(ShareKeyIn(env), [e], [i]);
    assert [e, i][1..] == [i];
  }

  lemma PairBooked(env: Env, c: Context, f: Frame, w: Candidate, e: Tx, i: Tx)
    requires ValidBooks(w.books) && e.kind == Transaction.BLOCK_COMPENSATION_EVIDENCE
    requires ApplyPair(env, c, f, w, e, i).Ok?
    ensures Booked(env, w.books, ApplyPair(env, c, f, w, e, i).value.books, [e, i])
  {
    PairAccepted(env.rules, w.books.ledger, w.books.pairs, w.books.destinations,
                 env.evidence(e.record).value, env.issuance(i.record).value);
    PairKeys(env, e, i);
  }

  lemma OneBooked(env: Env, c: Context, f: Frame, w: Candidate, t: Tx)
    requires ValidBooks(w.books) && t.kind != Transaction.BLOCK_COMPENSATION_EVIDENCE
    requires ApplyOne(env, c, f, w, t).Ok?
    ensures Booked(env, w.books, ApplyOne(env, c, f, w, t).value.books, [t])
  {
    Singleton(env, t);
    if t.kind == Transaction.ISSUANCE {
      IssuanceBooked(env, f, w, t);
    } else if t.kind == Transaction.TRANSFER {
      TransferBooked(env, w, t);
    } else if t.kind == Transaction.COMPENSATION_DESTINATION {
      DestinationBooked(env, w, t);
    } else if t.kind == Transaction.SHARE_EVIDENCE {
      ShareBooked(env, c, f, w, t);
    }
  }

  // ------------------------------------------------------------------ concatenation

  lemma {:induction false} CountConcat(a: seq<Tx>, b: seq<Tx>, kind: nat)
    ensures Count(a + b, kind) == Count(a, kind) + Count(b, kind)
  {
    if a == [] {
      assert a + b == b;
    } else {
      CountConcat(a[1..], b, kind);
      assert (a + b)[1..] == a[1..] + b;
    }
  }

  lemma ListedTwice(env: Env, b: Books, m: Books, n: Books, x: seq<Tx>, y: seq<Tx>)
    requires Listed(env, b, m, x) && Listed(env, m, n, y)
    ensures Listed(env, b, n, x + y)
  {
    FlatTwice(TransferKeyOf(env), b.transfers.keys, m.transfers.keys, n.transfers.keys, x, y);
    FlatTwice(PairIdOf(env), b.pairs.keys, m.pairs.keys, n.pairs.keys, x, y);
    FlatTwice(ShareKeyIn(env), b.shares.keys, m.shares.keys, n.shares.keys, x, y);
  }

  lemma CountedTwice(b: Books, m: Books, n: Books, x: seq<Tx>, y: seq<Tx>)
    requires Counted(b, m, x) && Counted(m, n, y)
    ensures Counted(b, n, x + y)
  {
    CountConcat(x, y, Transaction.ISSUANCE);
    CountConcat(x, y, Transaction.TRANSFER);
    CountConcat(x, y, Transaction.COMPENSATION_DESTINATION);
    CountConcat(x, y, Transaction.BLOCK_COMPENSATION_EVIDENCE);
  }

  lemma BookedTwice(env: Env, b: Books, m: Books, n: Books, x: seq<Tx>, y: seq<Tx>)
    requires Booked(env, b, m, x) && Booked(env, m, n, y)
    ensures Booked(env, b, n, x + y)
  {
    ListedTwice(env, b, m, n, x, y);
    CountedTwice(b, m, n, x, y);
  }

  /** A whole accepted transaction list. */
  lemma TxsBooked(env: Env, c: Context, f: Frame, w: Candidate, txs: seq<Tx>)
    requires ValidBooks(w.books) && ApplyTxs(env, c, f, w, txs).Ok?
    ensures Booked(env, w.books, ApplyTxs(env, c, f, w, txs).value.books, txs)
  {
    var one, pair := OneOf(env, c, f), PairOf(env, c, f);
    var inv := (x: Candidate) => ValidBooks(x.books);
    var rel := (x: Candidate, y: Candidate, a: seq<Tx>) => ValidBooks(x.books) ==> Booked(env, x.books, y.books, a);
    forall x, t: Tx | t.kind != Transaction.BLOCK_COMPENSATION_EVIDENCE && inv(x) && one(x, t).Ok?
      ensures inv(one(x, t).value) && rel(x, one(x, t).value, [t]) { OneBooked(env, c, f, x, t); }
    forall x, e: Tx, i | e.kind == Transaction.BLOCK_COMPENSATION_EVIDENCE && inv(x) && pair(x, e, i).Ok?
      ensures inv(pair(x, e, i).value) && rel(x, pair(x, e, i).value, [e, i]) { PairBooked(env, c, f, x, e, i); }
    forall x ensures rel(x, x, []) { if inv(x) { NothingBooked(env, x.books); } }
    forall x, y, z, a, b | rel(x, y, a) && rel(y, z, b) ensures rel(x, z, a + b) {
      if inv(x) { BookedTwice(env, x.books, y.books, z.books, a, b); }
    }
    ApplyIsApplyTxs(env, c, f, w, txs);
    ApplyRelates(one, pair, inv, rel, w, txs);
  }

  // ----------------------------------------------------------------------- capacity

  /** Free slots for everything these transactions could add to the stores that are cloned
      with slack; the list of compensated pairs has a fixed size. */
  ghost predicate Roomy(b: Books, txs: seq<Tx>) {
    && |b.ledger.balances| + Count(txs, Transaction.ISSUANCE) + Count(txs, Transaction.TRANSFER) <= b.ledger.capacity
    && |b.transfers.keys| + Count(txs, Transaction.TRANSFER) <= b.transfers.capacity
    && |b.shares.keys| + Count(txs, Transaction.SHARE_EVIDENCE) <= b.shares.capacity
    && |b.destinations.entries| + Count(txs, Transaction.COMPENSATION_DESTINATION) <= b.destinations.capacity
  }

  /** Signature checks and identifier derivations never report a full store. */
  ghost predicate QuietRules(r: Rules) {
    && (forall x :: r.authorize(x) != Err(Capacity))
    && (forall x :: r.evidenceId(x) != Err(Capacity))
    && (forall x :: r.shareId(x) != Err(Capacity))
  }

  lemma {:induction false} CountBound(txs: seq<Tx>, kind: nat)
    ensures Count(txs, kind) <= |txs|
    ensures Count(txs, kind) > 0 <==> HasKind(txs, kind)
  {
    if txs != [] {
      CountBound(txs[1..], kind);
      if HasKind(txs, kind) && txs[0].kind != kind {
        var i :| 0 <= i < |txs| && txs[i].kind == kind;
        assert txs[1..][i - 1] == txs[i];
      }
      if HasKind(txs[1..], kind) {
        var i :| 0 <= i < |txs[1..]| && txs[1..][i].kind == kind;
        assert txs[i + 1].kind == kind;
      }
    }
  }

  lemma {:induction false} CountsBound(txs: seq<Tx>)
    ensures Count(txs, Transaction.ISSUANCE) + Count(txs, Transaction.TRANSFER) <= |txs|
  {
    if txs != [] { CountsBound(txs[1..]); }
  }

  /** The clones leave room for a full block. */
  lemma OpenedIsRoomy(b: Books, txs: seq<Tx>)
    requires ValidBooks(b) && |txs| <= SLACK
    ensures Roomy(OpenBooks(b, txs), txs)
  {
    CountsBound(txs);
    CountBound(txs, Transaction.ISSUANCE);
    CountBound(txs, Transaction.TRANSFER);
    CountBound(txs, Transaction.SHARE_EVIDENCE);
    CountBound(txs, Transaction.COMPENSATION_DESTINATION);
  }

  lemma OneFits(env: Env, c: Context, f: Frame, w: Candidate, t: Tx)
    requires ValidBooks(w.books) && Roomy(w.books, [t]) && QuietRules(env.rules)
    requires t.kind != Transaction.BLOCK_COMPENSATION_EVIDENCE && t.kind != Transaction.CONTRACT_ACTION
    ensures ApplyOne(env, c, f, w, t) != Err(Capacity)
  {
    Singleton(env, t);
  }

  lemma PairQuiet(b: Books, rules: Rules, e: Evidence, r: Ledger.Issuance)
    requires ValidBooks(b) && QuietRules(rules)
    requires |b.ledger.balances| < b.ledger.capacity
    ensures AcceptPair(rules, b.ledger, b.pairs, b.destinations, e, r) == Err(Capacity) ==> |b.pairs.keys| == PAIR_CAPACITY
  {
  }

  lemma EvidenceQuiet(env: Env, c: Context, f: Frame, id: Hash)
    ensures EvidenceBlock(env, c, f, id) != Err(Capacity)
  {
    if f.history.Some? { SearchIsQuiet(Named(env, c.provider, id), f.history.value); }
  }

  lemma PairFits(env: Env, c: Context, f: Frame, w: Candidate, e: Tx, i: Tx)
    requires ValidBooks(w.books) && Roomy(w.books, [e, i]) && QuietRules(env.rules)
    requires e.kind == Transaction.BLOCK_COMPENSATION_EVIDENCE
    ensures ApplyPair(env, c, f, w, e, i) == Err(Capacity) ==> |w.books.pairs.keys| == PAIR_CAPACITY
  {
    if i.kind == Transaction.ISSUANCE && env.evidence(e.record).Some? && env.issuance(i.record).Some? {
      PairKeys(env, e, i);
      EvidenceQuiet(env, c, f, env.evidence(e.record).value.block);
      PairQuiet(w.books, env.rules, env.evidence(e.record).value, env.issuance(i.record).value);
    } else if env.evidence(e.record).Some? {
      EvidenceQuiet(env, c, f, env.evidence(e.record).value.block);
    }
  }

  lemma {:induction false} SearchIsQuiet(ask: Question, history: seq<seq<byte>>)
    requires forall b :: ask(b) != Err(Capacity)
    ensures Search(ask, history) != Err(Capacity)
  {
    if history != [] { SearchIsQuiet(ask, history[1..]); }
  }

  lemma RoomRemains(env: Env, b: Books, n: Books, x: seq<Tx>, y: seq<Tx>)
    requires Roomy(b, x + y) && Booked(env, b, n, x)
    ensures Roomy(b, x) && Roomy(n, y)
  {
    CountConcat(x, y, Transaction.ISSUANCE);
    CountConcat(x, y, Transaction.TRANSFER);
    CountConcat(x, y, Transaction.SHARE_EVIDENCE);
    CountConcat(x, y, Transaction.COMPENSATION_DESTINATION);
    KeysBound(env, x);
  }

  lemma {:induction false} KeysBound(env: Env, txs: seq<Tx>)
    ensures |TransferKeys(env, txs)| <= Count(txs, Transaction.TRANSFER)
    ensures |ShareKeys(env, txs)| <= Count(txs, Transaction.SHARE_EVIDENCE)
    ensures |PairIds(env, txs)| <= Count(txs, Transaction.BLOCK_COMPENSATION_EVIDENCE)
  {
    if txs != [] { KeysBound(env, txs[1..]); }
  }

  lemma RoomyPrefix(b: Books, x: seq<Tx>, y: seq<Tx>)
    requires Roomy(b, x + y)
    ensures Roomy(b, x)
  {
    CountConcat(x, y, Transaction.ISSUANCE);
    CountConcat(x, y, Transaction.TRANSFER);
    CountConcat(x, y, Transaction.SHARE_EVIDENCE);
    CountConcat(x, y, Transaction.COMPENSATION_DESTINATION);
  }

  /** Where the transaction loop stops: the transaction, or first half of a pair, that is
      refused. */
  function Refused(env: Env, c: Context, f: Frame, w: Candidate, txs: seq<Tx>): (k: nat)
    ensures k <= |txs|
  {
    Stop(OneOf(env, c, f), PairOf(env, c, f), w, txs)
  }

  /** Everything before the refused transaction was applied, and the refusal is its own. */
  lemma RefusedIs(env: Env, c: Context, f: Frame, w: Candidate, txs: seq<Tx>)
    requires ApplyTxs(env, c, f, w, txs).Err?
    ensures var k := Refused(env, c, f, w, txs);
      && k < |txs| && ApplyTxs(env, c, f, w, txs[..k]).Ok?
      && TurnOf(OneOf(env, c, f), PairOf(env, c, f), ApplyTxs(env, c, f, w, txs[..k]).value, txs[k..])
         == Err(ApplyTxs(env, c, f, w, txs).status)
  {
    ApplyIsApplyTxs(env, c, f, w, txs);
    StopIs(OneOf(env, c, f), PairOf(env, c, f), w, txs);
    ApplyIsApplyTxs(env, c, f, w, txs[..Refused(env, c, f, w, txs)]);
  }

  /** What a refusal for lack of capacity means for the transaction `rest` starts with, when
      the stores had room for all of `rest`. */
  ghost predicate ShortOnlyFor(w: Candidate, rest: seq<Tx>) {
    && rest != []
    && (rest[0].kind == Transaction.CONTRACT_ACTION
        || (rest[0].kind == Transaction.BLOCK_COMPENSATION_EVIDENCE && |w.books.pairs.keys| == PAIR_CAPACITY))
  }

  lemma TurnFits(env: Env, c: Context, f: Frame, w: Candidate, rest: seq<Tx>)
    requires ValidBooks(w.books) && Roomy(w.books, rest) && QuietRules(env.rules) && rest != []
    requires TurnOf(OneOf(env, c, f), PairOf(env, c, f), w, rest) == Err(Capacity)
    ensures ShortOnlyFor(w, rest)
  {
    if rest[0].kind == Transaction.BLOCK_COMPENSATION_EVIDENCE {
      assert [rest[0], rest[1]] + rest[2..] == rest;
      RoomyPrefix(w.books, [rest[0], rest[1]], rest[2..]);
      PairFits(env, c, f, w, rest[0], rest[1]);
    } else if rest[0].kind != Transaction.CONTRACT_ACTION {
      assert [rest[0]] + rest[1..] == rest;
      RoomyPrefix(w.books, [rest[0]], rest[1..]);
      OneFits(env, c, f, w, rest[0]);
    }
  }

  /** The refused transaction, behind everything that was applied before it, is one of the two
      kinds that can run out of room. */
  ghost predicate StoppedShort(env: Env, c: Context, f: Frame, w: Candidate, txs: seq<Tx>) {
    var k := Refused(env, c, f, w, txs);
    && k < |txs| && ApplyTxs(env, c, f, w, txs[..k]).Ok?
    && ShortOnlyFor(ApplyTxs(env, c, f, w, txs[..k]).value, txs[k..])
  }

  /** Within one block no balance table, replay list or mapping can run out of room,
      whatever else the block carries: the transaction that is refused for lack of capacity
      is a contract action, or a compensation pair that finds the 4096-entry list full. */
  lemma OnlyPairsAndContractsFill(env: Env, c: Context, f: Frame, s: ChainState, height: nat, txs: seq<Tx>)
    requires ValidBooks(s.books) && |txs| <= 32 && QuietRules(env.rules)
    requires ApplyTxs(env, c, f, Open(s, height, txs), txs) == Err(Capacity)
    ensures StoppedShort(env, c, f, Open(s, height, txs), txs)
  {
    OpenedIsRoomy(s.books, txs);
    RoomyStops(env, c, f, Open(s, height, txs), txs);
  }

  lemma RoomyStops(env: Env, c: Context, f: Frame, w: Candidate, txs: seq<Tx>)
    requires ValidBooks(w.books) && Roomy(w.books, txs) && QuietRules(env.rules)
    requires ApplyTxs(env, c, f, w, txs) == Err(Capacity)
    ensures StoppedShort(env, c, f, w, txs)
  {
    var k := Refused(env, c, f, w, txs);
    RefusedIs(env, c, f, w, txs);
    assert txs[..k] + txs[k..] == txs;
    StopsBehind(env, c, f, w, txs[..k], txs[k..]);
  }

  lemma StopsBehind(env: Env, c: Context, f: Frame, w: Candidate, x: seq<Tx>, y: seq<Tx>)
    requires ValidBooks(w.books) && Roomy(w.books, x + y) && QuietRules(env.rules) && y != []
    requires ApplyTxs(env, c, f, w, x).Ok?
    requires TurnOf(OneOf(env, c, f), PairOf(env, c, f), ApplyTxs(env, c, f, w, x).value, y) == Err(Capacity)
    ensures ShortOnlyFor(ApplyTxs(env, c, f, w, x).value, y)
  {
    RoomLeft(env, c, f, w, x, y);
    TurnFits(env, c, f, ApplyTxs(env, c, f, w, x).value, y);
  }

  lemma RoomLeft(env: Env, c: Context, f: Frame, w: Candidate, x: seq<Tx>, y: seq<Tx>)
    requires ValidBooks(w.books) && Roomy(w.books, x + y) && ApplyTxs(env, c, f, w, x).Ok?
    ensures var m := ApplyTxs(env, c, f, w, x).value.books; ValidBooks(m) && Roomy(m, y)
  {
    TxsBooked(env, c, f, w, x);
    RoomRemains(env, w.books, ApplyTxs(env, c, f, w, x).value.books, x, y);
  }
}
