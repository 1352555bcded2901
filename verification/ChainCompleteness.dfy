/** The validator accepts exactly the blocks that obey the rules: nothing that does is refused. */
module ChainCompleteness {
  import opened BigEndian
  import opened Status
  import opened Hashing
  import Pow
  import Block
  import BlockLoops
  import Transaction
  import opened Economy
  import opened Chain
  import opened ChainHeaders
  import opened ChainSteps
  import opened ChainBooks
  import opened ChainHistory
  import opened ChainTheorems

  /** A publication decodes and names this network. */
  predicate NamesNetwork(env: Env, network: seq<byte>, t: Tx) {
    t.kind == Transaction.PUBLICATION ==>
      env.publication(t.record).Some? && env.publication(t.record).value.network == network
  }

  lemma {:induction false} PublicationsWhen(env: Env, network: seq<byte>, txs: seq<Tx>)
    ensures CheckPublications(env, network, txs).None? <==> forall i :: 0 <= i < |txs| ==> NamesNetwork(env, network, txs[i])
    decreases |txs|
  {
    if txs != [] {
      PublicationsWhen(env, network, txs[1..]);
      assert forall i :: 0 <= i < |txs[1..]| ==> txs[1..][i] == txs[i + 1];
      assert (forall i :: 0 <= i < |txs| ==> NamesNetwork(env, network, txs[i]))
        ==> forall i :: 0 <= i < |txs[1..]| ==> NamesNetwork(env, network, txs[1..][i]);
      if NamesNetwork(env, network, txs[0]) && CheckPublications(env, network, txs[1..]).None? {
        forall i | 0 <= i < |txs| ensures NamesNetwork(env, network, txs[i]) {
          if i > 0 { assert txs[i] == txs[1..][i - 1]; }
        }
      }
    }
  }

  /** A block of the right version whose transactions decode, have different identifiers and
      publish to this network only. */
  ghost predicate Formed(env: Env, c: Context, b: seq<byte>) {
    && DecodeBlock(env, b).Ok?
    && var block := DecodeBlock(env, b).value;
    && block.header.version == (if c.bootstrap.Some? then 3 else 1)
    && BlockLoops.Identified(Check(env), env.hash, c.provider, block.transactions)
    && DecodeTxs(env, block.transactions).Ok?
    && forall i :: 0 <= i < |TxsOf(env, b)| ==> NamesNetwork(env, c.network, TxsOf(env, b)[i])
  }

  /** Its transactions take effect behind this history. */
  predicate TakesEffect(env: Env, c: Context, s: ChainState, blocks: seq<seq<byte>>, b: seq<byte>) {
    var n, txs := |blocks|, TxsOf(env, b);
    ApplyTxs(env, c, Frame(s, n, Some(blocks)), Open(s, n, txs), txs).Ok?
  }

  lemma BodyFormed(env: Env, c: Context, s: ChainState, b: seq<byte>)
    requires DecodeBlock(env, b).Ok?
    ensures BodyRefusal(env, c, s, DecodeBlock(env, b).value, b).None? <==>
      && BlockLoops.Identified(Check(env), env.hash, c.provider, DecodeBlock(env, b).value.transactions)
      && Committed(env, c, b)
      && DecodeTxs(env, DecodeBlock(env, b).value.transactions).Ok?
      && (forall i :: 0 <= i < |TxsOf(env, b)| ==> NamesNetwork(env, c.network, TxsOf(env, b)[i]))
      && CheckIdentifier(env, c, s, HeaderOf(env, b), b).None?
  {
    var block := DecodeBlock(env, b).value;
    BlockLoops.IntactWhen(Check(env), env.hash, c.provider, block);
    PublicationsWhen(env, c.network, TxsOf(env, b));
  }

  lemma CheckedParts(env: Env, c: Context, s: ChainState, b: seq<byte>)
    requires ContextValid(env, c).Ok? && PriorValid(env, c, s).Ok? && DecodeBlock(env, b).Ok?
    ensures CheckBlock(env, c, s, b).None? <==>
      && HeaderOf(env, b).version == (if c.bootstrap.Some? then 3 else 1)
      && CheckLink(c, s, HeaderOf(env, b), b).None? && CheckTarget(env, c, s, HeaderOf(env, b)).Ok?
      && BodyRefusal(env, c, s, DecodeBlock(env, b).value, b).None?
  {
  }

  lemma HeightFits(env: Env, b: seq<byte>)
    requires DecodeBlock(env, b).Ok?
    ensures HeaderOf(env, b).height < TWO_64
  {
    Block.EncodeDecode(Check(env), b);
  }

  /** What the rule at the end of `blocks + [b]` says about `b`. */
  lemma RuledFacts(env: Env, c: Context, blocks: seq<seq<byte>>, b: seq<byte>)
    requires BlockRule(env, c, blocks + [b], |blocks|)
    ensures DecodeBlock(env, b).Ok? && HeaderOf(env, b).height == |blocks| && HeaderOf(env, b).network == c.network
    ensures blocks == [] ==> b == c.genesis
    ensures blocks != [] ==>
      && HeaderOf(env, b).previous == IdentityOf(env, c, blocks[|blocks| - 1])
      && HeaderOf(env, blocks[|blocks| - 1]).timestamp <= HeaderOf(env, b).timestamp
  {
    LastOf(blocks, b);
    if blocks != [] { assert (blocks + [b])[|blocks| - 1] == blocks[|blocks| - 1]; }
  }

  /** A well-linked block is let through by the link check. */
  lemma RuledLink(env: Env, c: Context, blocks: seq<seq<byte>>, s: ChainState, b: seq<byte>)
    requires Matches(env, c, blocks, s) && BlockRule(env, c, blocks + [b], |blocks|)
    ensures CheckLink(c, s, HeaderOf(env, b), b).None? && |blocks| < TWO_64
    ensures s.hasTip ==> s.height < UINT64_MAX
  {
    RuledFacts(env, c, blocks, b);
    HeightFits(env, b);
    LinkPasses(env, c, blocks, s, b);
  }

  lemma LinkPasses(env: Env, c: Context, blocks: seq<seq<byte>>, s: ChainState, b: seq<byte>)
    requires Matches(env, c, blocks, s) && HeaderOf(env, b).height == |blocks| < TWO_64 && HeaderOf(env, b).network == c.network
    requires blocks == [] ==> b == c.genesis
    requires blocks != [] ==>
      && HeaderOf(env, b).previous == IdentityOf(env, c, blocks[|blocks| - 1])
      && HeaderOf(env, blocks[|blocks| - 1]).timestamp <= HeaderOf(env, b).timestamp
    ensures CheckLink(c, s, HeaderOf(env, b), b).None? && (s.hasTip ==> s.height < UINT64_MAX)
  {
  }

  lemma RuledNext(env: Env, bootstrap: seq<byte>, blocks: seq<seq<byte>>, b: seq<byte>)
    requires TargetRule(env, bootstrap, blocks + [b], |blocks|)
    ensures TargetOf(env, b) == NextRule(env, bootstrap, blocks)
  {
    var all, n := blocks + [b], |blocks|;
    assert all[n] == b;
    if n > 0 { assert all[n - 1] == blocks[n - 1]; }
    if n >= 60 { assert all[n - 60] == blocks[n - 60]; }
  }

  /** The claimed target is the required one, and valid. */
  lemma RuledTargetPasses(env: Env, c: Context, blocks: seq<seq<byte>>, s: ChainState, b: seq<byte>)
    requires Matches(env, c, blocks, s) && ValidBooks(s.books) && c.bootstrap.Some?
    requires TargetRule(env, c.bootstrap.value, blocks + [b], |blocks|) && (s.hasTip ==> s.height < UINT64_MAX)
    ensures CheckTarget(env, c, s, HeaderOf(env, b)).Ok? && Pow.ValidTarget(TargetOf(env, b))
  {
    RuledNext(env, c.bootstrap.value, blocks, b);
    RequiredIsRule(env, c, blocks, s);
    RuleIsValid(env, c, blocks, s);
  }

  /** The work of a block always fits behind fewer than 2^64 others. */
  lemma RuledWork(env: Env, c: Context, blocks: seq<seq<byte>>, s: ChainState, b: seq<byte>)
    requires Matches(env, c, blocks, s) && c.bootstrap.Some? && |blocks| < TWO_64 && Pow.ValidTarget(TargetOf(env, b))
    ensures AddWork(s.work, TargetOf(env, b)).Ok?
  {
    if blocks == [] {
      WorkFitsOn(0, s.work, TargetOf(env, b), 0);
    } else {
      WorkFitsOn(TotalWork(env, blocks), s.work, TargetOf(env, b), |blocks|);
    }
  }

  lemma WorkFitsOn(w: nat, work: seq<byte>, target: seq<byte>, n: nat)
    requires w <= n * TWO_255 && n < TWO_64 && work == Bytes(40, w) && Pow.ValidTarget(target)
    ensures AddWork(work, target).Ok?
  {
    Pow.UnitWorkBounds(target);
    assert w + Pow.UnitWork(target) <= (n + 1) * TWO_255;
    Pow.WorkProduct(TWO_255, n + 1);
    PowTable();
    ValueOfBytes(40, w);
    ValueOfBytes(40, Pow.UnitWork(target));
  }

  /** A block that obeys the rules passes every check before its transactions. */
  lemma RuledPasses(env: Env, c: Context, blocks: seq<seq<byte>>, s: ChainState, b: seq<byte>)
    requires Matches(env, c, blocks, s) && ValidBooks(s.books)
    requires BlockRule(env, c, blocks + [b], |blocks|) && Formed(env, c, b)
    ensures CheckBlock(env, c, s, b).None?
  {
    LastOf(blocks, b);
    RuledLink(env, c, blocks, s, b);
    PriorAccepts(env, c, blocks, s);
    if c.bootstrap.Some? {
      RuledTargetPasses(env, c, blocks, s, b);
      RuledWork(env, c, blocks, s, b);
    }
    RuledIdentifier(env, c, blocks, s, b);
    BodyFormed(env, c, s, b);
    CheckedParts(env, c, s, b);
  }

  lemma RuledIdentifier(env: Env, c: Context, blocks: seq<seq<byte>>, s: ChainState, b: seq<byte>)
    requires BlockRule(env, c, blocks + [b], |blocks|)
    requires c.bootstrap.Some? ==> Pow.ValidTarget(TargetOf(env, b)) && AddWork(s.work, TargetOf(env, b)).Ok?
    ensures CheckIdentifier(env, c, s, HeaderOf(env, b), b).None?
  {
    assert (blocks + [b])[|blocks|] == b;
  }

  lemma PassedIsFormed(env: Env, c: Context, s: ChainState, b: seq<byte>)
    requires CheckBlock(env, c, s, b).None?
    ensures Formed(env, c, b)
  {
    PassedChecks(env, c, s, b);
    PassedBody(env, c, s, b);
    BodyFormed(env, c, s, b);
  }

  /** Behind an accepted history a block is accepted if and only if it obeys the rules of its
      height, is well formed, and its transactions take effect. */
  lemma AcceptedExactly(env: Env, c: Context, blocks: seq<seq<byte>>, b: seq<byte>)
    requires After(env, c, blocks).Accepted?
    ensures After(env, c, blocks + [b]).Accepted? <==>
      && BlockRule(env, c, blocks + [b], |blocks|) && Formed(env, c, b)
      && TakesEffect(env, c, After(env, c, blocks).state, blocks, b)
  {
    AcceptedIsReached(env, c, blocks);
    OneMore(env, c, blocks, b);
    var s := After(env, c, blocks).state;
    if After(env, c, blocks + [b]).Accepted? {
      AcceptedObeysRules(env, c, blocks + [b]);
      AcceptedTakesEffect(env, c, blocks, s, b);
    } else if BlockRule(env, c, blocks + [b], |blocks|) && Formed(env, c, b) {
      RuledPasses(env, c, blocks, s, b);
      RuledHeight(env, c, blocks, b);
      PassedSettles(env, c, blocks, s, b);
    }
  }

  lemma OneMore(env: Env, c: Context, blocks: seq<seq<byte>>, b: seq<byte>)
    requires After(env, c, blocks).Accepted?
    ensures After(env, c, blocks + [b]) == Validate(env, c, After(env, c, blocks).state, Some(blocks), b)
  {
    assert (blocks + [b])[..|blocks|] == blocks;
  }

  lemma RuledHeight(env: Env, c: Context, blocks: seq<seq<byte>>, b: seq<byte>)
    requires BlockRule(env, c, blocks + [b], |blocks|)
    ensures HeaderOf(env, b).height == |blocks|
  {
    assert (blocks + [b])[|blocks|] == b;
  }

  lemma AcceptedTakesEffect(env: Env, c: Context, blocks: seq<seq<byte>>, s: ChainState, b: seq<byte>)
    requires Reached(env, c, blocks, s) && Validate(env, c, s, Some(blocks), b).Accepted?
    ensures Formed(env, c, b) && TakesEffect(env, c, s, blocks, b)
  {
    StepReached(env, c, blocks, s, b);
    ValidateShape(env, c, s, Some(blocks), b);
    SettleShape(env, c, s, Some(blocks), b);
    PassedIsFormed(env, c, s, b);
  }

  lemma PassedSettles(env: Env, c: Context, blocks: seq<seq<byte>>, s: ChainState, b: seq<byte>)
    requires CheckBlock(env, c, s, b).None? && HeaderOf(env, b).height == |blocks|
    ensures Validate(env, c, s, Some(blocks), b).Accepted? <==> TakesEffect(env, c, s, blocks, b)
  {
  }

  lemma LastIsFormed(env: Env, c: Context, front: seq<seq<byte>>, b: seq<byte>)
    requires After(env, c, front).Accepted? && After(env, c, front + [b]).Accepted?
    ensures Formed(env, c, b)
  {
    AcceptedIsReached(env, c, front);
    OneMore(env, c, front, b);
    AcceptedTakesEffect(env, c, front, After(env, c, front).state, b);
  }

  ghost predicate AllFormed(env: Env, c: Context, blocks: seq<seq<byte>>) {
    forall i :: 0 <= i < |blocks| ==> Formed(env, c, blocks[i])
  }

  /** Every block of an accepted history is well formed; its publications name the network. */
  lemma {:induction false} AcceptedIsFormed(env: Env, c: Context, blocks: seq<seq<byte>>)
    requires After(env, c, blocks).Accepted?
    ensures AllFormed(env, c, blocks)
    decreases |blocks|
  {
    if blocks != [] {
      var front, b := blocks[..|blocks| - 1], blocks[|blocks| - 1];
      assert front + [b] == blocks;
      if After(env, c, front).Accepted? { AcceptedIsFormed(env, c, front); }
      FormedExtends(env, c, front, b);
    }
  }

  lemma FormedExtends(env: Env, c: Context, front: seq<seq<byte>>, b: seq<byte>)
    requires After(env, c, front + [b]).Accepted? && (After(env, c, front).Accepted? ==> AllFormed(env, c, front))
    ensures AllFormed(env, c, front + [b])
  {
    FrontAccepted(env, c, front, b);
    LastIsFormed(env, c, front, b);
    FormedMore(env, c, front, b);
  }

  lemma FrontAccepted(env: Env, c: Context, front: seq<seq<byte>>, b: seq<byte>)
    requires After(env, c, front + [b]).Accepted?
    ensures After(env, c, front).Accepted?
  {
    assert (front + [b])[..|front|] == front;
  }

  lemma FormedMore(env: Env, c: Context, front: seq<seq<byte>>, b: seq<byte>)
    requires AllFormed(env, c, front) && Formed(env, c, b)
    ensures AllFormed(env, c, front + [b])
  {
    forall i | 0 <= i < |front + [b]| ensures Formed(env, c, (front + [b])[i]) {
      if i < |front| { assert Formed(env, c, front[i]); }
    }
  }
}
