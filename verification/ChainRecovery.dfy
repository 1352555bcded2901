/** Recovery judges each record on the state before it, without the history that full
    validation looks back on. The two agree on everything but share evidence, on which they
    ask for different parents and never agree. */
module ChainRecovery {
  import opened BigEndian
  import opened Status
  import opened Hashing
  import Block
  import Transaction
  import opened Economy
  import opened Chain
  import opened ChainHeaders
  import opened ChainSteps
  import opened ChainLoops
  import opened ChainBooks
  import opened ChainHistory
  import opened ChainEarnings
  import ChainTheorems

  // ------------------------------------------------------------------------ agreement

  /** Two loops whose steps agree wherever the first one's succeed. */
  lemma {:induction false} ApplyAgrees(one: Step, pair: PairStep, one': Step, pair': PairStep, w: Candidate, txs: seq<Tx>)
    requires forall x, t: Tx :: t.kind != Transaction.SHARE_EVIDENCE && one(x, t).Ok? ==> one'(x, t) == one(x, t)
    requires forall x, e, i :: pair(x, e, i).Ok? ==> pair'(x, e, i) == pair(x, e, i)
    requires Apply(one, pair, w, txs).Ok? && !HasKind(txs, Transaction.SHARE_EVIDENCE)
    ensures Apply(one', pair', w, txs) == Apply(one, pair, w, txs)
    decreases |txs|
  {
    if txs == [] {
    } else if txs[0].kind == Transaction.BLOCK_COMPENSATION_EVIDENCE {
      NoneBehind(txs, 2, Transaction.SHARE_EVIDENCE);
      ApplyAgrees(one, pair, one', pair', pair(w, txs[0], txs[1]).value, txs[2..]);
    } else {
      NoneBehind(txs, 1, Transaction.SHARE_EVIDENCE);
      ApplyAgrees(one, pair, one', pair', one(w, txs[0]).value, txs[1..]);
    }
  }

  lemma NoneBehind(txs: seq<Tx>, k: nat, kind: nat)
    requires k <= |txs| && !HasKind(txs, kind)
    ensures !HasKind(txs[k..], kind)
  {
    forall i | 0 <= i < |txs[k..]| ensures txs[k..][i].kind != kind { assert txs[k..][i] == txs[k + i]; }
  }

  /** A search whose last block answers yes, and none before it fails to answer. */
  lemma {:induction false} SearchSucceeds(ask: Question, history: seq<seq<byte>>)
    requires history != [] && ask(history[|history| - 1]) == Ok(true)
    requires forall i :: 0 <= i < |history| ==> ask(history[i]).Ok?
    ensures Search(ask, history) == Ok(true)
    decreases |history|
  {
    assert ask(history[0]).Ok?;
    if ask(history[0]) == Ok(false) {
      SearchSucceeds(ask, history[1..]);
    } else {
      assert ask(history[0]).value;
    }
  }

  /** Every block of this history has an identifier, and the last one's is the tip. */
  ghost predicate Identified(env: Env, c: Context, h: seq<seq<byte>>, s: ChainState) {
    && (forall i :: 0 <= i < |h| ==> IdOf(env, c.provider, h[i]).Ok?)
    && (s.hasTip <==> h != [])
    && (h != [] ==> IdOf(env, c.provider, h[|h| - 1]) == Ok(s.tipId))
  }

  lemma EvidenceAgrees(env: Env, c: Context, s: ChainState, height: nat, h: seq<seq<byte>>, id: Hash)
    requires Identified(env, c, h, s) && EvidenceBlock(env, c, Frame(s, height, None), id).Ok?
    ensures EvidenceBlock(env, c, Frame(s, height, Some(h)), id).Ok?
  {
    SearchSucceeds(Named(env, c.provider, id), h);
  }

  lemma PairAgrees(env: Env, c: Context, s: ChainState, height: nat, h: seq<seq<byte>>, w: Candidate, e: Tx, i: Tx)
    requires Identified(env, c, h, s) && ApplyPair(env, c, Frame(s, height, None), w, e, i).Ok?
    ensures ApplyPair(env, c, Frame(s, height, Some(h)), w, e, i) == ApplyPair(env, c, Frame(s, height, None), w, e, i)
  {
    EvidenceAgrees(env, c, s, height, h, env.evidence(e.record).value.block);
  }

  lemma OneAgrees(env: Env, c: Context, s: ChainState, height: nat, h: seq<seq<byte>>, w: Candidate, t: Tx)
    requires t.kind != Transaction.SHARE_EVIDENCE && ApplyOne(env, c, Frame(s, height, None), w, t).Ok?
    ensures ApplyOne(env, c, Frame(s, height, Some(h)), w, t) == ApplyOne(env, c, Frame(s, height, None), w, t)
  {
  }

  lemma TxsAgree(env: Env, c: Context, s: ChainState, height: nat, h: seq<seq<byte>>, w: Candidate, txs: seq<Tx>)
    requires Identified(env, c, h, s) && !HasKind(txs, Transaction.SHARE_EVIDENCE)
    requires ApplyTxs(env, c, Frame(s, height, None), w, txs).Ok?
    ensures ApplyTxs(env, c, Frame(s, height, Some(h)), w, txs) == ApplyTxs(env, c, Frame(s, height, None), w, txs)
  {
    var f, g := Frame(s, height, None), Frame(s, height, Some(h));
    var one, pair, one', pair' := OneOf(env, c, f), PairOf(env, c, f), OneOf(env, c, g), PairOf(env, c, g);
    forall x, t: Tx | t.kind != Transaction.SHARE_EVIDENCE && one(x, t).Ok? ensures one'(x, t) == one(x, t) {
      OneAgrees(env, c, s, height, h, x, t);
    }
    forall x, e, i | pair(x, e, i).Ok? ensures pair'(x, e, i) == pair(x, e, i) { PairAgrees(env, c, s, height, h, x, e, i); }
    ApplyIsApplyTxs(env, c, f, w, txs);
    ApplyIsApplyTxs(env, c, g, w, txs);
    ApplyAgrees(one, pair, one', pair', w, txs);
  }

  // --------------------------------------------------------------------- disagreement

  /** What a share evidence needs without a history: its template lies right below the block
      and names the block's own parent as its parent. */
  predicate StandsAlone(env: Env, s: ChainState, height: nat, t: Tx) {
    t.kind == Transaction.SHARE_EVIDENCE ==>
      && env.share(t.record).Some? && Block.DecodeHeader(env.share(t.record).value.template).Ok?
      && var h := Block.DecodeHeader(env.share(t.record).value.template).value;
      h.height > 0 && h.height + 1 == height && h.previous == s.tipId
  }

  /** What it needs with one: the parent its template names is at the template's place. */
  ghost predicate StandsInHistory(env: Env, c: Context, history: seq<seq<byte>>, t: Tx) {
    t.kind == Transaction.SHARE_EVIDENCE ==> ShareWorked(env, c, history, t.record)
  }

  lemma {:induction false} ApplyTouches(one: Step, pair: PairStep, good: Tx -> bool, w: Candidate, txs: seq<Tx>, k: nat)
    requires forall x, t: Tx :: t.kind != Transaction.BLOCK_COMPENSATION_EVIDENCE && one(x, t).Ok? ==> good(t)
    requires forall x, e: Tx, i :: e.kind == Transaction.BLOCK_COMPENSATION_EVIDENCE && pair(x, e, i).Ok? ==> good(e) && good(i)
    requires Apply(one, pair, w, txs).Ok? && k < |txs|
    ensures good(txs[k])
    decreases |txs|
  {
    if txs[0].kind == Transaction.BLOCK_COMPENSATION_EVIDENCE {
      if k >= 2 { ApplyTouches(one, pair, good, pair(w, txs[0], txs[1]).value, txs[2..], k - 2); }
    } else {
      if k >= 1 { ApplyTouches(one, pair, good, one(w, txs[0]).value, txs[1..], k - 1); }
    }
  }

  lemma SharesStandAlone(env: Env, c: Context, s: ChainState, height: nat, w: Candidate, txs: seq<Tx>, k: nat)
    requires ApplyTxs(env, c, Frame(s, height, None), w, txs).Ok? && k < |txs|
    ensures StandsAlone(env, s, height, txs[k])
  {
    var f := Frame(s, height, None);
    var one, pair, good := OneOf(env, c, f), PairOf(env, c, f), t => StandsAlone(env, s, height, t);
    forall x, t: Tx | t.kind != Transaction.BLOCK_COMPENSATION_EVIDENCE && one(x, t).Ok? ensures good(t) {
      if t.kind == Transaction.SHARE_EVIDENCE { ShareAlone(env, c, s, height, x, t); }
    }
    forall x, e: Tx, i | e.kind == Transaction.BLOCK_COMPENSATION_EVIDENCE && pair(x, e, i).Ok? ensures good(e) && good(i) {
      PairKinds(env, c, f, x, e, i);
    }
    ApplyIsApplyTxs(env, c, f, w, txs);
    ApplyTouches(one, pair, good, w, txs, k);
  }

  lemma ShareAlone(env: Env, c: Context, s: ChainState, height: nat, w: Candidate, t: Tx)
    requires t.kind == Transaction.SHARE_EVIDENCE && ApplyShare(env, c, Frame(s, height, None), w, t.record).Ok?
    ensures StandsAlone(env, s, height, t)
  {
  }

  lemma PairKinds(env: Env, c: Context, f: Frame, w: Candidate, e: Tx, i: Tx)
    requires ApplyPair(env, c, f, w, e, i).Ok?
    ensures i.kind == Transaction.ISSUANCE
  {
  }

  lemma SharesStandInHistory(env: Env, c: Context, f: Frame, w: Candidate, txs: seq<Tx>, k: nat)
    requires f.history.Some? && f.height == |f.history.value| && ApplyTxs(env, c, f, w, txs).Ok? && k < |txs|
    ensures StandsInHistory(env, c, f.history.value, txs[k])
  {
    var one, pair, good := OneOf(env, c, f), PairOf(env, c, f), t => StandsInHistory(env, c, f.history.value, t);
    forall x, t: Tx | t.kind != Transaction.BLOCK_COMPENSATION_EVIDENCE && one(x, t).Ok? ensures good(t) {
      if t.kind == Transaction.SHARE_EVIDENCE { ShareIsWorked(env, c, f, x, t.record); }
    }
    forall x, e: Tx, i | e.kind == Transaction.BLOCK_COMPENSATION_EVIDENCE && pair(x, e, i).Ok? ensures good(e) && good(i) {
      PairKinds(env, c, f, x, e, i);
    }
    ApplyIsApplyTxs(env, c, f, w, txs);
    ApplyTouches(one, pair, good, w, txs, k);
  }

  // ------------------------------------------------------------------------ one block

  /** Neighbouring blocks go by different identifiers. */
  ghost predicate TipIsNew(env: Env, c: Context, h: seq<seq<byte>>) {
    |h| >= 2 ==> IdOf(env, c.provider, h[|h| - 2]) != IdOf(env, c.provider, h[|h| - 1])
  }

  lemma ReachedIdentified(env: Env, c: Context, h: seq<seq<byte>>, s: ChainState)
    requires Reached(env, c, h, s) && forall i :: 0 <= i < |h| ==> IdOf(env, c.provider, h[i]).Ok?
    ensures Identified(env, c, h, s)
  {
  }

  /** Whether a record that recovery takes would also be accepted with the history at hand:
      exactly when it carries no share evidence. */
  lemma RecheckIsValidate(env: Env, c: Context, h: seq<seq<byte>>, s: ChainState, b: seq<byte>)
    requires Reached(env, c, h, s) && Identified(env, c, h, s) && TipIsNew(env, c, h)
    requires Validate(env, c, s, None, b).Accepted?
    ensures Validate(env, c, s, Some(h), b).Accepted? <==> !HasKind(TxsOf(env, b), Transaction.SHARE_EVIDENCE)
    ensures Validate(env, c, s, Some(h), b).Accepted? ==> Validate(env, c, s, Some(h), b) == Validate(env, c, s, None, b)
  {
    RecheckSettles(env, c, s, b);
    if HasKind(TxsOf(env, b), Transaction.SHARE_EVIDENCE) {
      SharesClash(env, c, h, s, b);
    } else {
      HistorySettles(env, c, h, s, b);
    }
  }

  lemma RecheckSettles(env: Env, c: Context, s: ChainState, b: seq<byte>)
    requires Validate(env, c, s, None, b).Accepted?
    ensures CheckBlock(env, c, s, b).None?
    ensures var k, txs := HeaderOf(env, b).height, TxsOf(env, b); ApplyTxs(env, c, Frame(s, k, None), Open(s, k, txs), txs).Ok?
  {
  }

  lemma HistorySettles(env: Env, c: Context, h: seq<seq<byte>>, s: ChainState, b: seq<byte>)
    requires Identified(env, c, h, s) && !HasKind(TxsOf(env, b), Transaction.SHARE_EVIDENCE)
    requires Validate(env, c, s, None, b).Accepted?
    ensures Validate(env, c, s, Some(h), b) == Validate(env, c, s, None, b)
  {
    RecheckSettles(env, c, s, b);
    var k, txs := HeaderOf(env, b).height, TxsOf(env, b);
    TxsAgree(env, c, s, k, h, Open(s, k, txs), txs);
  }

  /** A share evidence that stands alone does not stand in the history. */
  lemma SharesClash(env: Env, c: Context, h: seq<seq<byte>>, s: ChainState, b: seq<byte>)
    requires Reached(env, c, h, s) && Identified(env, c, h, s) && TipIsNew(env, c, h)
    requires HasKind(TxsOf(env, b), Transaction.SHARE_EVIDENCE) && Validate(env, c, s, None, b).Accepted?
    ensures !Validate(env, c, s, Some(h), b).Accepted?
  {
    var txs := TxsOf(env, b);
    var k :| 0 <= k < |txs| && txs[k].kind == Transaction.SHARE_EVIDENCE;
    if Validate(env, c, s, Some(h), b).Accepted? {
      BothStand(env, c, h, s, b, k);
      ParentsDiffer(env, c, h, s, txs[k]);
    }
  }

  lemma BothStand(env: Env, c: Context, h: seq<seq<byte>>, s: ChainState, b: seq<byte>, k: nat)
    requires Reached(env, c, h, s) && k < |TxsOf(env, b)|
    requires Validate(env, c, s, None, b).Accepted? && Validate(env, c, s, Some(h), b).Accepted?
    ensures StandsAlone(env, s, |h|, TxsOf(env, b)[k]) && StandsInHistory(env, c, h, TxsOf(env, b)[k])
  {
    var txs := TxsOf(env, b);
    StepReached(env, c, h, s, b);
    RecheckSettles(env, c, s, b);
    ValidateShape(env, c, s, Some(h), b);
    SettleShape(env, c, s, Some(h), b);
    SharesStandAlone(env, c, s, |h|, Open(s, |h|, txs), txs, k);
    SharesStandInHistory(env, c, Frame(s, |h|, Some(h)), Open(s, |h|, txs), txs, k);
  }

  lemma ParentsDiffer(env: Env, c: Context, h: seq<seq<byte>>, s: ChainState, t: Tx)
    requires t.kind == Transaction.SHARE_EVIDENCE && Identified(env, c, h, s) && TipIsNew(env, c, h)
    ensures !(StandsAlone(env, s, |h|, t) && StandsInHistory(env, c, h, t))
  {
    if StandsAlone(env, s, |h|, t) && StandsInHistory(env, c, h, t) {
      var height := NamesBoth(env, c, h, s, t);
      GrandparentDiffers(env, c, h, s, height);
    }
  }

  lemma NamesBoth(env: Env, c: Context, h: seq<seq<byte>>, s: ChainState, t: Tx) returns (height: nat)
    requires t.kind == Transaction.SHARE_EVIDENCE && StandsAlone(env, s, |h|, t) && StandsInHistory(env, c, h, t)
    ensures height > 0 && height + 1 == |h| && IdOf(env, c.provider, h[height - 1]) == Ok(s.tipId)
  {
    height := Block.DecodeHeader(env.share(t.record).value.template).value.height;
  }

  lemma GrandparentDiffers(env: Env, c: Context, h: seq<seq<byte>>, s: ChainState, height: nat)
    requires Identified(env, c, h, s) && TipIsNew(env, c, h) && height > 0 && height + 1 == |h|
    ensures IdOf(env, c.provider, h[height - 1]) != Ok(s.tipId)
  {
  }

  // ------------------------------------------------------- accepted, then judged alone

  /** Without the history a step does the same, or cannot be judged. */
  lemma {:induction false} ApplyOrUnresolved(one: Step, pair: PairStep, one': Step, pair': PairStep, w: Candidate, txs: seq<Tx>)
    requires forall x, t: Tx :: one(x, t).Ok? ==> one'(x, t) == one(x, t) || one'(x, t) == Err(Unresolved)
    requires forall x, e, i :: pair(x, e, i).Ok? ==> pair'(x, e, i) == pair(x, e, i) || pair'(x, e, i) == Err(Unresolved)
    requires Apply(one, pair, w, txs).Ok?
    ensures Apply(one', pair', w, txs) == Apply(one, pair, w, txs) || Apply(one', pair', w, txs) == Err(Unresolved)
    decreases |txs|
  {
    if txs == [] {
    } else if txs[0].kind == Transaction.BLOCK_COMPENSATION_EVIDENCE {
      assert pair(w, txs[0], txs[1]).Ok?;
      ApplyOrUnresolved(one, pair, one', pair', pair(w, txs[0], txs[1]).value, txs[2..]);
    } else {
      assert one(w, txs[0]).Ok?;
      ApplyOrUnresolved(one, pair, one', pair', one(w, txs[0]).value, txs[1..]);
    }
  }

  lemma OneOrUnresolved(env: Env, c: Context, s: ChainState, height: nat, h: seq<seq<byte>>, w: Candidate, t: Tx)
    requires ApplyOne(env, c, Frame(s, height, Some(h)), w, t).Ok?
    ensures var alone := ApplyOne(env, c, Frame(s, height, None), w, t);
      alone == ApplyOne(env, c, Frame(s, height, Some(h)), w, t) || alone == Err(Unresolved)
  {
    if t.kind == Transaction.ISSUANCE {
      IssuanceOrUnresolved(env, s, height, h, w, t.record);
    } else if t.kind == Transaction.SHARE_EVIDENCE {
      ShareOrUnresolved(env, c, s, height, h, w, t.record);
    } else {
      SameWithout(env, c, s, height, h, w, t);
    }
  }

  lemma IssuanceOrUnresolved(env: Env, s: ChainState, height: nat, h: seq<seq<byte>>, w: Candidate, record: seq<byte>)
    requires ApplyIssuance(env, Frame(s, height, Some(h)), w, record).Ok?
    ensures ApplyIssuance(env, Frame(s, height, None), w, record) == Err(Unresolved)
  {
  }

  lemma ShareOrUnresolved(env: Env, c: Context, s: ChainState, height: nat, h: seq<seq<byte>>, w: Candidate, record: seq<byte>)
    requires ApplyShare(env, c, Frame(s, height, Some(h)), w, record).Ok?
    ensures var alone := ApplyShare(env, c, Frame(s, height, None), w, record);
      alone == ApplyShare(env, c, Frame(s, height, Some(h)), w, record) || alone == Err(Unresolved)
  {
  }

  lemma SameWithout(env: Env, c: Context, s: ChainState, height: nat, h: seq<seq<byte>>, w: Candidate, t: Tx)
    requires t.kind != Transaction.ISSUANCE && t.kind != Transaction.SHARE_EVIDENCE
    ensures ApplyOne(env, c, Frame(s, height, None), w, t) == ApplyOne(env, c, Frame(s, height, Some(h)), w, t)
  {
  }

  lemma PairOrUnresolved(env: Env, c: Context, s: ChainState, height: nat, h: seq<seq<byte>>, w: Candidate, e: Tx, i: Tx)
    requires ApplyPair(env, c, Frame(s, height, Some(h)), w, e, i).Ok?
    ensures var alone := ApplyPair(env, c, Frame(s, height, None), w, e, i);
      alone == ApplyPair(env, c, Frame(s, height, Some(h)), w, e, i) || alone == Err(Unresolved)
  {
  }

  lemma TxsOrUnresolved(env: Env, c: Context, s: ChainState, height: nat, h: seq<seq<byte>>, w: Candidate, txs: seq<Tx>)
    requires ApplyTxs(env, c, Frame(s, height, Some(h)), w, txs).Ok?
    ensures var alone := ApplyTxs(env, c, Frame(s, height, None), w, txs);
      alone == ApplyTxs(env, c, Frame(s, height, Some(h)), w, txs) || alone == Err(Unresolved)
  {
    var f, g := Frame(s, height, Some(h)), Frame(s, height, None);
    var one, pair, one', pair' := OneOf(env, c, f), PairOf(env, c, f), OneOf(env, c, g), PairOf(env, c, g);
    forall x, t: Tx | one(x, t).Ok? ensures one'(x, t) == one(x, t) || one'(x, t) == Err(Unresolved) {
      OneOrUnresolved(env, c, s, height, h, x, t);
    }
    forall x, e, i | pair(x, e, i).Ok? ensures pair'(x, e, i) == pair(x, e, i) || pair'(x, e, i) == Err(Unresolved) {
      PairOrUnresolved(env, c, s, height, h, x, e, i);
    }
    ApplyIsApplyTxs(env, c, f, w, txs);
    ApplyIsApplyTxs(env, c, g, w, txs);
    ApplyOrUnresolved(one, pair, one', pair', w, txs);
  }

  /** A block that its history accepts is never rejected without it: it is accepted with the
      same state, or it cannot be judged. */
  lemma AcceptedOrUnresolved(env: Env, c: Context, h: seq<seq<byte>>, s: ChainState, b: seq<byte>)
    requires Validate(env, c, s, Some(h), b).Accepted?
    ensures var alone := Validate(env, c, s, None, b);
      alone == Validate(env, c, s, Some(h), b) || alone == Failed(Body, Unresolved)
  {
    ValidateShape(env, c, s, Some(h), b);
    SettleShape(env, c, s, Some(h), b);
    var k, txs := HeaderOf(env, b).height, TxsOf(env, b);
    TxsOrUnresolved(env, c, s, k, h, Open(s, k, txs), txs);
    SettlesAlone(env, c, h, s, b);
  }

  lemma SettlesAlone(env: Env, c: Context, h: seq<seq<byte>>, s: ChainState, b: seq<byte>)
    requires CheckBlock(env, c, s, b).None?
    ensures var k, txs := HeaderOf(env, b).height, TxsOf(env, b);
      var with, alone := ApplyTxs(env, c, Frame(s, k, Some(h)), Open(s, k, txs), txs), ApplyTxs(env, c, Frame(s, k, None), Open(s, k, txs), txs);
      && (alone == with ==> Validate(env, c, s, None, b) == Validate(env, c, s, Some(h), b))
      && (alone.Err? ==> Validate(env, c, s, None, b) == Failed(Body, alone.status))
  {
  }

  // ------------------------------------------------------------------- whole prefixes

  /** Blocks judged one after the other, each in the state the one before it left. */
  function Judged(recheck: (ChainState, seq<byte>) -> Report, s: ChainState, blocks: seq<seq<byte>>): Report {
    if blocks == [] then Accepted(s)
    else
      match Judged(recheck, s, blocks[..|blocks| - 1])
      case Accepted(m) => recheck(m, blocks[|blocks| - 1])
      case Failed(r, d) => Failed(r, d)
  }

  lemma {:induction false} JudgedFront(recheck: (ChainState, seq<byte>) -> Report, s: ChainState, b: seq<byte>, rest: seq<seq<byte>>)
    ensures Judged(recheck, s, [b] + rest) ==
      if recheck(s, b).Accepted? then Judged(recheck, recheck(s, b).state, rest) else recheck(s, b)
    decreases |rest|
  {
    var all := [b] + rest;
    if rest == [] {
      assert all == [b] && all[..0] == [];
    } else {
      var n := |rest| - 1;
      JudgedFront(recheck, s, b, rest[..n]);
      assert all[..|all| - 1] == [b] + rest[..n] && all[|all| - 1] == rest[n];
    }
  }

  function Alone(env: Env, c: Context): (ChainState, seq<byte>) -> Report {
    (s: ChainState, b: seq<byte>) => Validate(env, c, s, None, b)
  }

  /** An accepted history judged block by block leaves the same state, or meets a block that
      cannot be judged without the history. */
  lemma {:induction false} HistoryJudged(env: Env, c: Context, blocks: seq<seq<byte>>)
    requires After(env, c, blocks).Accepted?
    ensures Initialize(env, c).Ok?
    ensures var r := Judged(Alone(env, c), Initialize(env, c).value, blocks);
      r == After(env, c, blocks) || r == Failed(Body, Unresolved)
    decreases |blocks|
  {
    if blocks != [] {
      var n := |blocks| - 1;
      LastAccepted(env, c, blocks);
      HistoryJudged(env, c, blocks[..n]);
      AcceptedOrUnresolved(env, c, blocks[..n], After(env, c, blocks[..n]).state, blocks[n]);
    }
  }

  lemma LastAccepted(env: Env, c: Context, blocks: seq<seq<byte>>)
    requires blocks != [] && After(env, c, blocks).Accepted?
    ensures var n := |blocks| - 1;
      && After(env, c, blocks[..n]).Accepted?
      && After(env, c, blocks) == Validate(env, c, After(env, c, blocks[..n]).state, Some(blocks[..n]), blocks[n])
  {
  }

  // ---------------------------------------------------------------------- what is kept

  predicate HoldsShare(env: Env, blocks: seq<seq<byte>>) {
    exists i :: 0 <= i < |blocks| && HasKind(TxsOf(env, blocks[i]), Transaction.SHARE_EVIDENCE)
  }

  ghost predicate NeighboursDiffer(env: Env, c: Context, blocks: seq<seq<byte>>) {
    forall i :: 0 < i < |blocks| ==> IdOf(env, c.provider, blocks[i - 1]) != IdOf(env, c.provider, blocks[i])
  }

  /** Full validation accepts exactly what holds no share evidence, with the same state. */
  ghost predicate Agree(full: Report, alone: Report, shares: bool) {
    (full.Accepted? <==> !shares) && (full.Accepted? ==> full == alone)
  }

  /** What recovery keeps is an accepted history exactly when no block of it carries share
      evidence. */
  lemma {:induction false} KeptIsHistory(env: Env, c: Context, kept: seq<seq<byte>>)
    requires Initialize(env, c).Ok? && Judged(Alone(env, c), Initialize(env, c).value, kept).Accepted?
    requires NeighboursDiffer(env, c, kept)
    ensures Agree(After(env, c, kept), Judged(Alone(env, c), Initialize(env, c).value, kept), HoldsShare(env, kept))
    decreases |kept|
  {
    if kept != [] {
      var front, b := kept[..|kept| - 1], kept[|kept| - 1];
      assert front + [b] == kept;
      JudgedLast(Alone(env, c), Initialize(env, c).value, front, b);
      FrontDiffers(env, c, front, b);
      KeptIsHistory(env, c, front);
      KeptExtends(env, c, Initialize(env, c).value, front, b);
    }
  }

  lemma KeptExtends(env: Env, c: Context, s: ChainState, front: seq<seq<byte>>, b: seq<byte>)
    requires Judged(Alone(env, c), s, front + [b]).Accepted? && NeighboursDiffer(env, c, front + [b])
    requires Agree(After(env, c, front), Judged(Alone(env, c), s, front), HoldsShare(env, front))
    ensures Agree(After(env, c, front + [b]), Judged(Alone(env, c), s, front + [b]), HoldsShare(env, front + [b]))
  {
    JudgedLast(Alone(env, c), s, front, b);
    KeptMore(env, c, front, b, Judged(Alone(env, c), s, front).state);
  }

  lemma KeptMore(env: Env, c: Context, front: seq<seq<byte>>, b: seq<byte>, s: ChainState)
    requires Agree(After(env, c, front), Accepted(s), HoldsShare(env, front))
    requires Validate(env, c, s, None, b).Accepted? && NeighboursDiffer(env, c, front + [b])
    ensures Agree(After(env, c, front + [b]), Validate(env, c, s, None, b), HoldsShare(env, front + [b]))
  {
    ShareAtEnd(env, front, b);
    if After(env, c, front).Accepted? { KeptStep(env, c, front, b); } else { FailureStays(env, c, front, b); }
  }

  lemma JudgedLast(recheck: (ChainState, seq<byte>) -> Report, s: ChainState, front: seq<seq<byte>>, b: seq<byte>)
    requires Judged(recheck, s, front + [b]).Accepted?
    ensures Judged(recheck, s, front).Accepted?
    ensures Judged(recheck, s, front + [b]) == recheck(Judged(recheck, s, front).state, b)
  {
    assert (front + [b])[..|front|] == front;
  }

  lemma FrontDiffers(env: Env, c: Context, front: seq<seq<byte>>, b: seq<byte>)
    requires NeighboursDiffer(env, c, front + [b])
    ensures NeighboursDiffer(env, c, front)
  {
    var all := front + [b];
    forall i | 0 < i < |front| ensures IdOf(env, c.provider, front[i - 1]) != IdOf(env, c.provider, front[i]) {
      assert all[i - 1] == front[i - 1] && all[i] == front[i];
    }
  }

  lemma ShareAtEnd(env: Env, front: seq<seq<byte>>, b: seq<byte>)
    ensures HoldsShare(env, front + [b]) <==> HoldsShare(env, front) || HasKind(TxsOf(env, b), Transaction.SHARE_EVIDENCE)
  {
    var all := front + [b];
    assert all[|front|] == b;
    if HoldsShare(env, front) {
      var i :| 0 <= i < |front| && HasKind(TxsOf(env, front[i]), Transaction.SHARE_EVIDENCE);
      assert all[i] == front[i];
    }
  }

  lemma FailureStays(env: Env, c: Context, front: seq<seq<byte>>, b: seq<byte>)
    requires After(env, c, front).Failed?
    ensures After(env, c, front + [b]).Failed?
  {
    assert (front + [b])[..|front|] == front;
  }

  lemma KeptStep(env: Env, c: Context, front: seq<seq<byte>>, b: seq<byte>)
    requires After(env, c, front).Accepted? && Validate(env, c, After(env, c, front).state, None, b).Accepted?
    requires NeighboursDiffer(env, c, front + [b])
    ensures After(env, c, front + [b]).Accepted? <==> !HasKind(TxsOf(env, b), Transaction.SHARE_EVIDENCE)
    ensures After(env, c, front + [b]).Accepted? ==> After(env, c, front + [b]) == Validate(env, c, After(env, c, front).state, None, b)
  {
    var s := After(env, c, front).state;
    AcceptedIsReached(env, c, front);
    AcceptedIdentified(env, c, front);
    TipStaysNew(env, c, front, b);
    RecheckIsValidate(env, c, front, s, b);
    AfterOneMore(env, c, front, s, b);
  }

  lemma TipStaysNew(env: Env, c: Context, front: seq<seq<byte>>, b: seq<byte>)
    requires NeighboursDiffer(env, c, front + [b])
    ensures TipIsNew(env, c, front)
  {
    var all := front + [b];
    if |front| >= 2 { assert all[|front| - 2] == front[|front| - 2] && all[|front| - 1] == front[|front| - 1]; }
  }

  lemma AcceptedIdentified(env: Env, c: Context, h: seq<seq<byte>>)
    requires After(env, c, h).Accepted?
    ensures Identified(env, c, h, After(env, c, h).state)
  {
    AcceptedIsReached(env, c, h);
    ChainTheorems.AcceptedObeysRules(env, c, h);
    forall i | 0 <= i < |h| ensures IdOf(env, c.provider, h[i]).Ok? { assert ChainTheorems.BlockRule(env, c, h, i); }
    ReachedIdentified(env, c, h, After(env, c, h).state);
  }
}
