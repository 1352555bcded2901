/** When a transaction takes effect behind an accepted prefix: exactly when what it rests on is
    there, it was not used before, and the stores have room. */
module ChainTurns {
  import opened BigEndian
  import opened Status
  import opened Hashing
  import Block
  import Ledger
  import Table
  import Compensation
  import Replay
  import opened Economy
  import opened Chain
  import opened ChainLoops
  import opened ChainBooks
  import opened ChainEarnings

  /** Every block of this prefix can be read and has an identifier. */
  ghost predicate Readable(env: Env, c: Context, history: seq<seq<byte>>) {
    forall i :: 0 <= i < |history| ==>
      && IdOf(env, c.provider, history[i]).Ok?
      && DecodeBlock(env, history[i]).Ok? && DecodeTxs(env, DecodeBlock(env, history[i]).value.transactions).Ok?
  }

  /** A search that is always answered succeeds exactly when some block answers yes. */
  lemma {:induction false} SearchWhen(ask: Question, history: seq<seq<byte>>)
    requires forall i :: 0 <= i < |history| ==> ask(history[i]).Ok?
    ensures Search(ask, history).Ok?
    ensures Search(ask, history).value <==> exists i :: 0 <= i < |history| && ask(history[i]) == Ok(true)
    decreases |history|
  {
    if history != [] {
      assert ask(history[0]).Ok?;
      SearchWhen(ask, history[1..]);
      if i :| 0 <= i < |history[1..]| && ask(history[1..][i]) == Ok(true) { assert ask(history[i + 1]) == Ok(true); }
      if i :| 0 < i < |history| && ask(history[i]) == Ok(true) { assert history[1..][i - 1] == history[i]; }
      if ask(history[0]) != Ok(false) { assert ask(history[0]).value; }
    }
  }

  // ----------------------------------------------------------------------------- pairs

  /** Room and supply for a payment. */
  predicate Affordable(l: Ledger.Ledger, wallet: nat, units: nat) {
    && l.supply + units <= UINT64_MAX
    && (Table.Has(l.balances, wallet) || |l.balances| < l.capacity)
  }

  lemma EvidenceWhen(env: Env, c: Context, f: Frame, id: Hash)
    requires f.history.Some? && Readable(env, c, f.history.value)
    ensures EvidenceBlock(env, c, f, id).Ok? <==>
      exists k :: 0 <= k < |f.history.value| && IdOf(env, c.provider, f.history.value[k]) == Ok(id)
  {
    var ask, h := Named(env, c.provider, id), f.history.value;
    forall i | 0 <= i < |h| ensures ask(h[i]) == Ok(IdOf(env, c.provider, h[i]) == Ok(id)) {}
    SearchWhen(ask, h);
    if k :| 0 <= k < |h| && IdOf(env, c.provider, h[k]) == Ok(id) { assert ask(h[k]) == Ok(true); }
    if k :| 0 <= k < |h| && ask(h[k]) == Ok(true) { assert IdOf(env, c.provider, h[k]) == Ok(id); }
  }

  lemma PairAcceptedWhen(rules: Rules, l: Ledger.Ledger, used: Replay.Consumed<Hash>, d: Compensation.Destinations,
                         e: Evidence, r: Ledger.Issuance)
    requires Ledger.ValidLedger(l) && Replay.Valid(used)
    ensures AcceptPair(rules, l, used, d, e, r).Ok? <==>
      && Pays(r, 2, 10000, e.miner, rules.evidenceId(e)) && Compensation.Lookup(d, e.miner) == Ok(r.wallet.id)
      && !Zero(rules.evidenceId(e).value) && rules.evidenceId(e).value !in used.keys && |used.keys| < used.capacity
      && Affordable(l, r.wallet.id, 10000)
  {
    if Ledger.CheckIssuance(r).Ok? { Ledger.IssueFailsOnlyWhen(l, r); }
  }

  /** A compensation pair takes effect exactly when its evidence names an accepted block, the
      issuance pays 10000 units for it to the wallet its miner registered, the evidence was
      never paid, and there is room. */
  lemma PairTakesEffect(env: Env, c: Context, f: Frame, w: Candidate, e: Tx, i: Tx)
    requires ValidBooks(w.books) && f.history.Some? && Readable(env, c, f.history.value)
    ensures ApplyPair(env, c, f, w, e, i).Ok? <==>
      && PairEarned(env, c, f.history.value, e, i)
      && var v, r, b := env.evidence(e.record).value, env.issuance(i.record).value, w.books;
      && Compensation.Lookup(b.destinations, v.miner) == Ok(r.wallet.id)
      && !Zero(r.evidence) && r.evidence !in b.pairs.keys && |b.pairs.keys| < 4096
      && Affordable(b.ledger, r.wallet.id, 10000)
  {
    if env.evidence(e.record).Some? {
      EvidenceWhen(env, c, f, env.evidence(e.record).value.block);
      if env.issuance(i.record).Some? {
        PairAcceptedWhen(env.rules, w.books.ledger, w.books.pairs, w.books.destinations,
                         env.evidence(e.record).value, env.issuance(i.record).value);
      }
    }
  }

  // -------------------------------------------------------------------- share payments

  lemma BoundWhen(env: Env, r: Ledger.Issuance, d: Compensation.Destinations, b: seq<byte>)
    requires r.reason == 1 && Compensation.Lookup(d, r.identity) == Ok(r.wallet.id)
    ensures BoundIn(env, r, d, TxsOf(env, b)) <==> PaidShareIn(env, r, b)
  {
    var txs := TxsOf(env, b);
    if BoundIn(env, r, d, txs) { BoundInBlock(env, r, d, b); }
    if PaidShareIn(env, r, b) {
      var j :| 0 <= j < |txs| && PaidShare(env, r, txs[j]);
      assert BindShare(env.rules, r, env.share(txs[j].record).value, d).Ok?;
    }
  }

  lemma BindingWhen(env: Env, c: Context, r: Ledger.Issuance, d: Compensation.Destinations, history: seq<seq<byte>>)
    requires Readable(env, c, history) && r.reason == 1 && Compensation.Lookup(d, r.identity) == Ok(r.wallet.id)
    ensures Search(Binding(env, r, d), history) == Ok(true) <==>
      exists k :: 0 <= k < |history| && PaidShareIn(env, r, history[k])
  {
    var ask := Binding(env, r, d);
    forall k | 0 <= k < |history| ensures ask(history[k]) == Ok(PaidShareIn(env, r, history[k])) {
      BindingAnswers(env, r, d, history[k]);
      BoundWhen(env, r, d, history[k]);
    }
    SearchWhen(ask, history);
    if k :| 0 <= k < |history| && PaidShareIn(env, r, history[k]) { assert ask(history[k]) == Ok(true); }
    if k :| 0 <= k < |history| && ask(history[k]) == Ok(true) { assert PaidShareIn(env, r, history[k]); }
  }

  lemma BindingAnswers(env: Env, r: Ledger.Issuance, d: Compensation.Destinations, b: seq<byte>)
    requires DecodeBlock(env, b).Ok? && DecodeTxs(env, DecodeBlock(env, b).value.transactions).Ok?
    ensures Binding(env, r, d)(b) == Ok(BoundIn(env, r, d, TxsOf(env, b)))
  {
  }

  /** A SHARE issuance takes effect exactly when some accepted block holds the share it pays
      100 units for, to the wallet that share's miner registered, and there is room. */
  lemma PaymentTakesEffect(env: Env, c: Context, f: Frame, w: Candidate, record: seq<byte>)
    requires ValidBooks(w.books) && f.history.Some? && Readable(env, c, f.history.value)
    ensures ApplyIssuance(env, f, w, record).Ok? <==>
      && ShareEarned(env, f.history.value, record)
      && var r, b := env.issuance(record).value, w.books;
      && r.reason == 1 && Compensation.Lookup(b.destinations, r.identity) == Ok(r.wallet.id)
      && Affordable(b.ledger, r.wallet.id, 100)
  {
    if env.issuance(record).Some? {
      var r, d := env.issuance(record).value, w.books.destinations;
      if r.reason == 1 && Compensation.Lookup(d, r.identity) == Ok(r.wallet.id) {
        BindingWhen(env, c, r, d, f.history.value);
        if Ledger.CheckIssuance(r).Ok? { Ledger.IssueFailsOnlyWhen(w.books.ledger, r); }
      }
    }
  }

  // --------------------------------------------------------------------------- shares

  /** A share takes effect exactly when it is proven work on a template of the chain's version
      without reserved nonce below this block, over an accepted parent, by an identity, and
      was never recorded. */
  lemma ShareTakesEffect(env: Env, c: Context, f: Frame, w: Candidate, record: seq<byte>)
    requires f.history.Some? && f.height == |f.history.value| && f.prior.hasTip && f.prior.height < UINT64_MAX
    requires w.books.shares.capacity > |w.books.shares.keys|
    ensures ApplyShare(env, c, f, w, record).Ok? <==>
      && ShareWorked(env, c, f.history.value, record)
      && var s := env.share(record).value;
      var h := Block.DecodeHeader(s.template).value;
      && h.version == 3 && h.nonce == 0 && h.height < f.height
      && s.miner.kind == Ledger.Identity && ShareKey(s.work, s.miner.id, s.nonce) !in w.books.shares.keys
  {
    if env.share(record).Some? && Block.DecodeHeader(env.share(record).value.template).Ok? {
      var s := env.share(record).value;
      ShareUnfolds(env, c, f, w, record, s, Block.DecodeHeader(s.template).value);
      ParentWhen(env, c, f, Block.DecodeHeader(s.template).value);
      KeyWhen(w.books.shares, s);
    }
  }

  lemma ShareUnfolds(env: Env, c: Context, f: Frame, w: Candidate, record: seq<byte>, s: Share, h: Block.Header)
    requires f.prior.hasTip && f.prior.height < UINT64_MAX
    requires env.share(record) == Some(s) && Block.DecodeHeader(s.template) == Ok(h)
    ensures ApplyShare(env, c, f, w, record).Ok? <==>
      && h.version == 3 && h.nonce == 0 && h.commitment == s.commitment && h.network == c.network
      && 0 < h.height < f.height && env.proof(s) && ShareParent(env, c, f, h).Ok? && AcceptShare(w.books.shares, s).Ok?
  {
  }

  lemma ParentWhen(env: Env, c: Context, f: Frame, h: Block.Header)
    requires f.history.Some? && f.height == |f.history.value|
    ensures h.height > 0 ==>
      (ShareParent(env, c, f, h).Ok? <==>
         h.height <= |f.history.value| && IdOf(env, c.provider, f.history.value[h.height - 1]) == Ok(h.previous))
  {
  }

  lemma KeyWhen(used: Replay.Consumed<ShareKey>, s: Share)
    requires |used.keys| < used.capacity
    ensures AcceptShare(used, s).Ok? <==> s.miner.kind == Ledger.Identity && ShareKey(s.work, s.miner.id, s.nonce) !in used.keys
  {
  }
}
