/** The loops of src/stn_chain.c: over the blocks of a history, over the transactions of a
    body, and over the accepted prefix when evidence has to be found there. */
module ChainLoops {
  import opened BigEndian
  import opened Status
  import opened Hashing
  import Transaction
  import Ledger
  import Compensation
  import Pow
  import opened Economy
  import opened Chain

  /** The reconstruction loop; on a refusal it also reports which block failed. */
  method FoldBlocks(turn: Turn, start: Report, blocks: seq<seq<byte>>) returns (r: Report, failing: nat)
    requires start.Accepted?
    ensures r == Fold(turn, start, blocks)
    ensures r.Failed? ==> failing < |blocks| && Fold(turn, start, blocks[..failing]).Accepted?
    ensures r.Failed? ==> Fold(turn, start, blocks[..failing + 1]) == r
  {
    r, failing := start, 0;
    while failing < |blocks|
      invariant failing <= |blocks| && r.Accepted? && r == Fold(turn, start, blocks[..failing])
    {
      assert blocks[..failing + 1][..failing] == blocks[..failing];
      r := turn(r.state, blocks[..failing], blocks[failing]);
      if r.Failed? {
        FoldStops(turn, start, blocks, failing + 1);
        return;
      }
      failing := failing + 1;
    }
    assert blocks[..failing] == blocks;
  }

  /** Nothing after the first refusal is looked at. */
  lemma {:induction false} FoldStops(turn: Turn, start: Report, blocks: seq<seq<byte>>, k: nat)
    requires k <= |blocks| && Fold(turn, start, blocks[..k]).Failed?
    ensures Fold(turn, start, blocks) == Fold(turn, start, blocks[..k])
    decreases |blocks|
  {
    if k == |blocks| {
      assert blocks[..k] == blocks;
    } else {
      var n := |blocks| - 1;
      assert blocks[..n][..k] == blocks[..k];
      FoldStops(turn, start, blocks[..n], k);
    }
  }

  /** stn_chain_reconstruct_history. */
  method ReconstructHistory(env: Env, c: Context, blocks: seq<seq<byte>>) returns (r: Report)
    ensures r == Reconstruct(env, c, blocks)
  {
    if |blocks| == 0 { return Failed(BadArgument, Argument); }
    var start := Start(env, c);
    if start.Failed? {
      FoldStops(Extend(env, c), start, blocks, 0);
      return start;
    }
    var failing: nat;
    r, failing := FoldBlocks(Extend(env, c), start, blocks);
  }

  /** What the transaction loop does with one position of the body. */
  type Step = (Candidate, Transaction.Tx) -> Outcome<Candidate>
  type PairStep = (Candidate, Transaction.Tx, Transaction.Tx) -> Outcome<Candidate>

  /** ApplyTxs with its steps as parameters. */
  function Apply(one: Step, pair: PairStep, w: Candidate, txs: seq<Transaction.Tx>): Outcome<Candidate>
    decreases |txs|
  {
    if txs == [] then Ok(w)
    else if txs[0].kind == Transaction.BLOCK_COMPENSATION_EVIDENCE then
      if |txs| < 2 then Err(Content)
      else
        match pair(w, txs[0], txs[1])
        case Err(e) => Err(e)
        case Ok(n) => Apply(one, pair, n, txs[2..])
    else
      match one(w, txs[0])
      case Err(e) => Err(e)
      case Ok(n) => Apply(one, pair, n, txs[1..])
  }

  /** One turn of the loop on the transactions that are left. */
  function TurnOf(one: Step, pair: PairStep, w: Candidate, rest: seq<Transaction.Tx>): Outcome<Candidate>
    requires rest != []
  {
    if rest[0].kind != Transaction.BLOCK_COMPENSATION_EVIDENCE then one(w, rest[0])
    else if |rest| < 2 then Err(Content)
    else pair(w, rest[0], rest[1])
  }

  /** How many transactions were applied before one was refused. */
  function Stop(one: Step, pair: PairStep, w: Candidate, txs: seq<Transaction.Tx>): (k: nat)
    ensures k <= |txs|
    decreases |txs|
  {
    if txs == [] then 0
    else
      match TurnOf(one, pair, w, txs)
      case Err(_) => 0
      case Ok(n) =>
        if txs[0].kind == Transaction.BLOCK_COMPENSATION_EVIDENCE then 2 + Stop(one, pair, n, txs[2..])
        else 1 + Stop(one, pair, n, txs[1..])
  }

  lemma {:induction false} StopIs(one: Step, pair: PairStep, w: Candidate, txs: seq<Transaction.Tx>)
    requires Apply(one, pair, w, txs).Err?
    ensures var k := Stop(one, pair, w, txs);
      && k < |txs| && Apply(one, pair, w, txs[..k]).Ok?
      && TurnOf(one, pair, Apply(one, pair, w, txs[..k]).value, txs[k..]) == Err(Apply(one, pair, w, txs).status)
    decreases |txs|
  {
    var turn := TurnOf(one, pair, w, txs);
    if turn.Err? {
      assert txs[0..] == txs && txs[..0] == [];
    } else {
      var width := if txs[0].kind == Transaction.BLOCK_COMPENSATION_EVIDENCE then 2 else 1;
      StopIs(one, pair, turn.value, txs[width..]);
      var k := Stop(one, pair, turn.value, txs[width..]);
      assert txs[..width + k][width..] == txs[width..][..k] && txs[width + k..] == txs[width..][k..];
    }
  }

  function OneOf(env: Env, c: Context, f: Frame): Step {
    (w: Candidate, t: Transaction.Tx) => ApplyOne(env, c, f, w, t)
  }

  function PairOf(env: Env, c: Context, f: Frame): PairStep {
    (w: Candidate, e: Transaction.Tx, i: Transaction.Tx) => ApplyPair(env, c, f, w, e, i)
  }

  lemma {:induction false} ApplyIsApplyTxs(env: Env, c: Context, f: Frame, w: Candidate, txs: seq<Transaction.Tx>)
    ensures Apply(OneOf(env, c, f), PairOf(env, c, f), w, txs) == ApplyTxs(env, c, f, w, txs)
    decreases |txs|
  {
    if txs == [] {
    } else if txs[0].kind == Transaction.BLOCK_COMPENSATION_EVIDENCE {
      if |txs| >= 2 && PairOf(env, c, f)(w, txs[0], txs[1]).Ok? {
        ApplyIsApplyTxs(env, c, f, PairOf(env, c, f)(w, txs[0], txs[1]).value, txs[2..]);
      }
    } else if OneOf(env, c, f)(w, txs[0]).Ok? {
      ApplyIsApplyTxs(env, c, f, OneOf(env, c, f)(w, txs[0]).value, txs[1..]);
    }
  }

  /** What every step keeps, the loop keeps. */
  lemma {:induction false} ApplyKeeps(one: Step, pair: PairStep, inv: Candidate -> bool, w: Candidate, txs: seq<Transaction.Tx>)
    requires forall x, t :: inv(x) && one(x, t).Ok? ==> inv(one(x, t).value)
    requires forall x, e, i :: inv(x) && pair(x, e, i).Ok? ==> inv(pair(x, e, i).value)
    requires inv(w) && Apply(one, pair, w, txs).Ok?
    ensures inv(Apply(one, pair, w, txs).value)
    decreases |txs|
  {
    if txs == [] {
    } else if txs[0].kind == Transaction.BLOCK_COMPENSATION_EVIDENCE {
      ApplyKeeps(one, pair, inv, pair(w, txs[0], txs[1]).value, txs[2..]);
    } else {
      ApplyKeeps(one, pair, inv, one(w, txs[0]).value, txs[1..]);
    }
  }

  /** What every step does to a candidate, and steps in a row do together, the loop does. */
  lemma {:induction false} ApplyRelates(one: Step, pair: PairStep, inv: Candidate -> bool,
                                        rel: (Candidate, Candidate, seq<Transaction.Tx>) -> bool,
                                        w: Candidate, txs: seq<Transaction.Tx>)
    requires forall x, t: Transaction.Tx :: t.kind != Transaction.BLOCK_COMPENSATION_EVIDENCE && inv(x) && one(x, t).Ok? ==>
      inv(one(x, t).value) && rel(x, one(x, t).value, [t])
    requires forall x, e: Transaction.Tx, i :: e.kind == Transaction.BLOCK_COMPENSATION_EVIDENCE && inv(x) && pair(x, e, i).Ok? ==>
      inv(pair(x, e, i).value) && rel(x, pair(x, e, i).value, [e, i])
    requires forall x :: rel(x, x, [])
    requires forall x, y, z, a, b :: rel(x, y, a) && rel(y, z, b) ==> rel(x, z, a + b)
    requires inv(w) && Apply(one, pair, w, txs).Ok?
    ensures rel(w, Apply(one, pair, w, txs).value, txs)
    decreases |txs|
  {
    if txs == [] {
    } else if txs[0].kind == Transaction.BLOCK_COMPENSATION_EVIDENCE {
      ApplyRelates(one, pair, inv, rel, pair(w, txs[0], txs[1]).value, txs[2..]);
      assert [txs[0], txs[1]] + txs[2..] == txs;
    } else {
      ApplyRelates(one, pair, inv, rel, one(w, txs[0]).value, txs[1..]);
      assert [txs[0]] + txs[1..] == txs;
    }
  }

  /** The transaction loop: the index advances by one, or by two behind a pair. */
  method ApplyLoop(one: Step, pair: PairStep, start: Candidate, txs: seq<Transaction.Tx>) returns (r: Outcome<Candidate>)
    ensures r == Apply(one, pair, start, txs)
  {
    var w, i: nat := start, 0;
    while i < |txs|
      invariant i <= |txs| && Apply(one, pair, w, txs[i..]) == Apply(one, pair, start, txs)
    {
      var t := txs[i];
      if t.kind == Transaction.BLOCK_COMPENSATION_EVIDENCE {
        if i + 1 >= |txs| { return Err(Content); }
        var n := pair(w, t, txs[i + 1]);
        if n.Err? { return Err(n.status); }
        assert txs[i..][2..] == txs[i + 2..];
        w, i := n.value, i + 2;
      } else {
        var n := one(w, t);
        if n.Err? { return Err(n.status); }
        assert txs[i..][1..] == txs[i + 1..];
        w, i := n.value, i + 1;
      }
    }
    assert txs[i..] == [];
    r := Ok(w);
  }

  method ApplyTransactions(env: Env, c: Context, f: Frame, w: Candidate, txs: seq<Transaction.Tx>) returns (r: Outcome<Candidate>)
    ensures r == ApplyTxs(env, c, f, w, txs)
  {
    ApplyIsApplyTxs(env, c, f, w, txs);
    r := ApplyLoop(OneOf(env, c, f), PairOf(env, c, f), w, txs);
  }

  /** The search for an evidence's block in the accepted prefix. */
  method FindBlock(env: Env, provider: Option<nat>, history: seq<seq<byte>>, id: Hash) returns (r: Outcome<bool>)
    ensures r == Search(Named(env, provider, id), history)
  {
    var i: nat := 0;
    ghost var ask := Named(env, provider, id);
    while i < |history|
      invariant i <= |history| && Search(ask, history[i..]) == Search(ask, history)
    {
      assert history[i..][1..] == history[i + 1..];
      var accepted := IdOf(env, provider, history[i]);
      if accepted.Err? { return Err(ProviderError); }
      if accepted.value == id { return Ok(true); }
      i := i + 1;
    }
    r := Ok(false);
  }

  /** The inner half of the search: the transactions of one block. */
  method FindShareIn(env: Env, r: Ledger.Issuance, d: Compensation.Destinations, txs: seq<Transaction.Tx>) returns (found: bool)
    ensures found == BoundIn(env, r, d, txs)
  {
    var j: nat := 0;
    while j < |txs|
      invariant j <= |txs| && !BoundIn(env, r, d, txs[..j])
    {
      var t := txs[j];
      if t.kind == Transaction.SHARE_EVIDENCE && env.share(t.record).Some?
         && BindShare(env.rules, r, env.share(t.record).value, d).Ok? {
        return true;
      }
      assert txs[..j + 1] == txs[..j] + [t];
      j := j + 1;
    }
    assert txs[..j] == txs;
    found := false;
  }

  /** The nested search for a share evidence that binds an issuance. */
  method FindShare(env: Env, r: Ledger.Issuance, d: Compensation.Destinations, history: seq<seq<byte>>) returns (found: Outcome<bool>)
    ensures found == Search(Binding(env, r, d), history)
  {
    var i: nat := 0;
    ghost var ask := Binding(env, r, d);
    while i < |history|
      invariant i <= |history| && Search(ask, history[i..]) == Search(ask, history)
    {
      assert history[i..][1..] == history[i + 1..];
      var b := DecodeBlock(env, history[i]);
      if b.Err? { return Err(Content); }
      var txs := DecodeTxs(env, b.value.transactions);
      if txs.Err? { return Err(Content); }
      var here := FindShareIn(env, r, d, txs.value);
      if here { return Ok(true); }
      i := i + 1;
    }
    found := Ok(false);
  }

  /** The consistency loop of stn_chain_required_target over the stored window. */
  method CheckWindow(s: ChainState, height: nat) returns (ok: bool)
    ensures ok == WindowMatches(s, height)
  {
    var i: nat := 0;
    while i < |s.window|
      invariant i <= |s.window|
      invariant forall k :: 0 <= k < i ==>
        && s.window[k].height == height - |s.window| + k && s.window[k].version == Pow.POW_BLOCK_VERSION
        && s.window[k].target == s.currentTarget
      invariant forall k :: 0 < k < i ==> s.window[k - 1].timestamp <= s.window[k].timestamp
    {
      var h := s.window[i];
      if h.height != height - |s.window| + i || h.version != Pow.POW_BLOCK_VERSION || h.target != s.currentTarget
         || (i != 0 && h.timestamp < s.window[i - 1].timestamp) {
        return false;
      }
      i := i + 1;
    }
    ok := true;
  }
}
