/** validate_candidate (src/stn_chain.c) as the program runs it: checks in order, a first
    pass over the body, a next state whose difficulty window is an array of sixty headers,
    the transaction loop, and an output that is written only when nothing was refused. */
module ChainCandidate {
  import opened BigEndian
  import opened Status
  import opened Hashing
  import Pow
  import Block
  import BlockLoops
  import Transaction
  import opened Chain
  import opened ChainSteps
  import ChainLoops

  /** The first pass over a body. */
  method ScanPublications(env: Env, network: seq<byte>, txs: seq<Transaction.Tx>) returns (r: Option<Refusal>)
    ensures r == CheckPublications(env, network, txs)
  {
    var i: nat := 0;
    while i < |txs|
      invariant i <= |txs| && CheckPublications(env, network, txs[i..]) == CheckPublications(env, network, txs)
    {
      assert txs[i..][1..] == txs[i + 1..];
      if txs[i].kind == Transaction.PUBLICATION {
        var p := env.publication(txs[i].record);
        if p.None? { return Some(Refusal(Body, Content)); }
        if p.value.network != network { return Some(Refusal(Network, Content)); }
      }
      i := i + 1;
    }
    r := None;
  }

  /** The stored window: sixty slots and a count. */
  class TargetHistory {
    const slots: array<Pow.WindowHeader>
    var count: nat

    ghost predicate Valid()
      reads this
    {
      slots.Length == Pow.WINDOW && count <= Pow.WINDOW
    }

    function View(): seq<Pow.WindowHeader>
      requires count <= slots.Length
      reads this, slots
    {
      slots[..count]
    }

    constructor (window: seq<Pow.WindowHeader>)
      requires |window| <= Pow.WINDOW
      ensures Valid() && fresh(slots) && View() == window
    {
      count := |window|;
      slots := new Pow.WindowHeader[Pow.WINDOW](_ => Pow.WindowHeader(0, 0, 0, []));
      new;
      for i := 0 to |window|
        invariant Valid() && fresh(slots) && count == |window| && slots[..i] == window[..i]
      {
        slots[i] := window[i];
      }
    }

    /** A new period starts empty; then one more slot is filled. */
    method Append(h: Block.Header)
      requires Valid() && (h.height % 60 == 0 || count < Pow.WINDOW)
      modifies this, slots
      ensures Valid() && View() == NextWindow(old(View()), h)
    {
      ghost var before := View();
      if h.height % 60 == 0 { count := 0; }
      slots[count] := Pow.WindowHeader(3, h.height, h.timestamp, h.target);
      count := count + 1;
      assert slots[..count - 1] == if h.height % 60 == 0 then [] else before;
    }
  }

  /** Whatever state a caller hands in, a block that passes the checks never writes behind
      the sixtieth slot. */
  lemma WindowHasRoom(env: Env, c: Context, s: ChainState, b: seq<byte>)
    requires CheckBlock(env, c, s, b).None? && c.bootstrap.Some?
    ensures |s.window| <= Pow.WINDOW && (HeaderOf(env, b).height % 60 == 0 || |s.window| < Pow.WINDOW)
  {
    PassedChecks(env, c, s, b);
    WindowSize(env, c, s);
    if s.hasTip { PeriodRoom(s.height, HeaderOf(env, b).height); }
  }

  lemma WindowSize(env: Env, c: Context, s: ChainState)
    requires RequiredTarget(env, c, s).Ok?
    ensures |s.window| == if s.hasTip then s.height % 60 + 1 else 0
  {
  }

  lemma PeriodRoom(before: nat, now: nat)
    requires now == before + 1
    ensures before % 60 + 1 <= 60 && (now % 60 == 0 || before % 60 + 1 < 60)
  {
  }

  /** The checks in their order. */
  method CheckCandidate(env: Env, c: Context, s: ChainState, bytes: seq<byte>) returns (r: Option<Refusal>)
    ensures r == CheckBlock(env, c, s, bytes)
  {
    var context := ContextValid(env, c);
    if context.Err? { return Some(Refusal(BadContext, context.status)); }
    var block := DecodeBlock(env, bytes);
    if block.Err? { return Some(Refusal(Structure, block.status)); }
    var h := block.value.header;
    if h.version != (if c.bootstrap.Some? then Pow.POW_BLOCK_VERSION else 1) { return Some(Refusal(BadContext, Version)); }
    var prior := PriorValid(env, c, s);
    if prior.Err? { return Some(Refusal(BadState, prior.status)); }
    var link := CheckLink(c, s, h, bytes);
    if link.Some? { return Some(Refusal(link.value, Content)); }
    var target := CheckTarget(env, c, s, h);
    if target.Err? { return Some(Refusal(TargetReason, target.status)); }
    r := CheckBody(env, c, s, block.value, bytes);
  }

  /** Integrity, the first pass, and the identifier with its work. */
  method CheckBody(env: Env, c: Context, s: ChainState, b: Block.Block, bytes: seq<byte>) returns (r: Option<Refusal>)
    ensures r == BodyRefusal(env, c, s, b, bytes)
  {
    var intact := BlockLoops.CheckIntegrity(Check(env), env.hash, c.provider, b);
    if intact.Err? { return Some(Refusal(Body, intact.status)); }
    var txs := DecodeTxs(env, b.transactions);
    if txs.Err? { return Some(Refusal(Body, Content)); }
    r := ScanPublications(env, c.network, txs.value);
    if r.None? { r := CheckIdentifier(env, c, s, b.header, bytes); }
  }

  /** The caller's output state. */
  class Output {
    var state: ChainState

    constructor (s: ChainState)
      ensures state == s
    {
      state := s;
    }
  }

  /** The header half of the next state. */
  method NextHeader(env: Env, c: Context, s: ChainState, bytes: seq<byte>) returns (next: ChainState)
    requires CheckBlock(env, c, s, bytes).None?
    ensures next == Advance(c, s, HeaderOf(env, bytes), IdentityOf(env, c, bytes))
  {
    var h, id := HeaderOf(env, bytes), IdentityOf(env, c, bytes);
    next := s.(hasTip := true, height := h.height, timestamp := h.timestamp, tipId := id,
               genesisId := if s.hasTip then s.genesisId else id);
    if c.bootstrap.Some? {
      PassedIsFresh(env, c, s, bytes);
      WindowHasRoom(env, c, s, bytes);
      var history := new TargetHistory(s.window);
      history.Append(h);
      next := next.(work := AddWork(s.work, h.target).value, currentTarget := h.target, window := history.View());
    }
  }

  /** stn_chain_validate_candidate and its history-aware form: all of the block takes
      effect in `out`, or nothing does. */
  method ValidateCandidate(env: Env, c: Context, s: ChainState, history: Option<seq<seq<byte>>>, bytes: seq<byte>, out: Output)
    returns (refused: Option<Refusal>)
    modifies out
    ensures Answers(Validate(env, c, s, history, bytes), refused, old(out.state), out.state)
  {
    refused := CheckCandidate(env, c, s, bytes);
    if refused.Some? { return; }
    var next := NextHeader(env, c, s, bytes);
    var h, txs := HeaderOf(env, bytes), TxsOf(env, bytes);
    var w := ChainLoops.ApplyTransactions(env, c, Frame(s, h.height, history), Open(s, h.height, txs), txs);
    if w.Err? { return Some(Refusal(Body, w.status)); }
    out.state := next.(books := w.value.books, lifecycle := w.value.lifecycle, contracts := w.value.contracts);
  }

  /** What a caller sees of a report. */
  ghost predicate Answers(r: Report, refused: Option<Refusal>, before: ChainState, after: ChainState) {
    match r
    case Accepted(n) => refused == None && after == n
    case Failed(reason, detail) => refused == Some(Refusal(reason, detail)) && after == before
  }
}
