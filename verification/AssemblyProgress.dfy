/** Assembly leaves nothing out that could have gone in: the selection takes every eligible
    transaction up to the first that does not fit, and every compensation pair that fits when
    its turn comes. */
module AssemblyProgress {
  import opened BigEndian
  import opened Status
  import opened Hashing
  import opened Sequences
  import Block
  import Economy
  import opened Assembly

  /** The entries that were judged eligible, in order. */
  function Eligible(p: Policy, pool: seq<Entry>): seq<Entry> {
    if pool == [] then []
    else if IsEligible(p, pool[0]) then [pool[0]] + Eligible(p, pool[1..])
    else Eligible(p, pool[1..])
  }

  predicate IsEligible(p: Policy, e: Entry) {
    DecodeTx(p, e.value).Ok? && p.judge(e.key, DecodeTx(p, e.value).value) == Include
  }

  /** What stops the selection at an entry when these were chosen before it, if anything. */
  ghost predicate StopsAt(p: Policy, e: Entry, capacity: nat, total: nat, chosen: seq<Entry>, r: Outcome<seq<Entry>>) {
    if DecodeTx(p, e.value).Err? then r == Err(Content)
    else
      match p.judge(e.key, DecodeTx(p, e.value).value)
      case Abort(x) => r == Err(x)
      case Skip => false
      case Include =>
        if total + |e.value| + 4 > 2140320 then r == Ok(chosen)
        else total + |e.value| + 4 > capacity && r == Err(Capacity)
  }

  /** Every eligible entry before `cut` was chosen and nothing else, and the selection ended
      there: at the end of the pool, at 32 transactions, or at an entry that stops it. */
  ghost predicate SelectEnds(p: Policy, pool: seq<Entry>, capacity: nat, n: nat, total: nat, cut: nat, r: Outcome<seq<Entry>>) {
    && cut <= |pool|
    && var chosen := Eligible(p, pool[..cut]);
    && n + |chosen| <= 32
    && if cut == |pool| || n + |chosen| == 32 then r == Ok(chosen)
       else StopsAt(p, pool[cut], capacity, total + Room(chosen), chosen, r)
  }

  /** The selection takes every eligible transaction in order, up to the first that does not
      fit the body limit, or until there are 32. */
  lemma {:induction false} SelectExactly(p: Policy, pool: seq<Entry>, capacity: nat, n: nat, total: nat)
    requires total <= capacity && n <= 32
    ensures exists cut: nat :: SelectEnds(p, pool, capacity, n, total, cut, Select(p, pool, capacity, n, total))
    decreases |pool|
  {
    var r := Select(p, pool, capacity, n, total);
    if pool == [] || n == 32 {
      assert SelectEnds(p, pool, capacity, n, total, 0, r);
    } else {
      var e, rest, d := pool[0], pool[1..], Decide(p, pool[0], capacity, total);
      if d == Pass {
        SelectExactly(p, rest, capacity, n, total);
        var cut: nat :| SelectEnds(p, rest, capacity, n, total, cut, r);
        EligibleFront(p, pool, cut);
        PassedEnds(p, pool, capacity, n, total, cut, r);
      } else if d == Take {
        var more := Select(p, rest, capacity, n + 1, total + |e.value| + 4);
        SelectExactly(p, rest, capacity, n + 1, total + |e.value| + 4);
        var cut: nat :| SelectEnds(p, rest, capacity, n + 1, total + |e.value| + 4, cut, more);
        EligibleFront(p, pool, cut);
        TakenEnds(p, pool, capacity, n, total, cut, more);
      } else {
        assert SelectEnds(p, pool, capacity, n, total, 0, r);
      }
    }
  }

  lemma EligibleFront(p: Policy, pool: seq<Entry>, cut: nat)
    requires pool != [] && cut <= |pool| - 1
    ensures Eligible(p, pool[..cut + 1])
      == (if IsEligible(p, pool[0]) then [pool[0]] else []) + Eligible(p, pool[1..][..cut])
  {
    assert pool[..cut + 1][0] == pool[0] && pool[..cut + 1][1..] == pool[1..][..cut];
  }

  lemma PassedEnds(p: Policy, pool: seq<Entry>, capacity: nat, n: nat, total: nat, cut: nat, r: Outcome<seq<Entry>>)
    requires pool != [] && !IsEligible(p, pool[0]) && SelectEnds(p, pool[1..], capacity, n, total, cut, r)
    requires Eligible(p, pool[..cut + 1]) == [] + Eligible(p, pool[1..][..cut])
    ensures SelectEnds(p, pool, capacity, n, total, cut + 1, r)
  {
    var chosen := Eligible(p, pool[1..][..cut]);
    assert [] + chosen == chosen;
    if cut + 1 < |pool| { assert pool[1..][cut] == pool[cut + 1]; }
  }

  lemma TakenEnds(p: Policy, pool: seq<Entry>, capacity: nat, n: nat, total: nat, cut: nat, more: Outcome<seq<Entry>>)
    requires pool != [] && n < 32 && IsEligible(p, pool[0])
    requires SelectEnds(p, pool[1..], capacity, n + 1, total + |pool[0].value| + 4, cut, more)
    requires Eligible(p, pool[..cut + 1]) == [pool[0]] + Eligible(p, pool[1..][..cut])
    ensures SelectEnds(p, pool, capacity, n, total, cut + 1, Chosen([pool[0]], more))
  {
    var chosen := Eligible(p, pool[1..][..cut]);
    assert ([pool[0]] + chosen)[1..] == chosen;
    if cut + 1 < |pool| { assert pool[1..][cut] == pool[cut + 1]; }
  }

  // -------------------------------------------------------------------------- pairs

  /** An evidence contributes a pair exactly when it is payable and some pooled BLOCK issuance
      is bound to it. */
  lemma PairWhen(p: Policy, pool: seq<Entry>, b: seq<byte>)
    ensures PairOf(p, pool, b).Some? <==>
      && EvidenceTx(p, b) && p.payable(p.evidence(DecodeTx(p, b).value.record).value)
      && exists k :: 0 <= k < |pool| && BoundTo(p, pool[k].value, p.evidence(DecodeTx(p, b).value.record).value)
  {
    if EvidenceTx(p, b) { PartnerWhen(p, pool, p.evidence(DecodeTx(p, b).value.record).value); }
  }

  /** A BLOCK issuance bound to this evidence. */
  predicate BoundTo(p: Policy, i: seq<byte>, e: Economy.Evidence) {
    && DecodeTx(p, i).Ok? && IsBlockIssuance(p, DecodeTx(p, i).value)
    && p.binds(p.issuance(DecodeTx(p, i).value.record).value, e)
  }

  lemma {:induction false} PartnerWhen(p: Policy, pool: seq<Entry>, e: Economy.Evidence)
    ensures Partner(p, pool, e).Some? <==> exists k :: 0 <= k < |pool| && BoundTo(p, pool[k].value, e)
    decreases |pool|
  {
    if pool != [] {
      PartnerWhen(p, pool[1..], e);
      if k :| 0 <= k < |pool[1..]| && BoundTo(p, pool[1..][k].value, e) { assert BoundTo(p, pool[k + 1].value, e); }
      if k :| 0 < k < |pool| && BoundTo(p, pool[k].value, e) { assert pool[1..][k - 1] == pool[k]; }
    }
  }

  lemma {:induction false} AddPairsSplits(p: Policy, pool: seq<Entry>, x: seq<Entry>, y: seq<Entry>, capacity: nat, txs: seq<seq<byte>>)
    ensures AddPairs(p, pool, x + y, capacity, txs) == AddPairs(p, pool, y, capacity, AddPairs(p, pool, x, capacity, txs))
    decreases |x|
  {
    if x == [] {
      assert x + y == y;
    } else {
      assert (x + y)[1..] == x[1..] + y;
      AddPairsSplits(p, pool, x[1..], y, capacity, txs);
      var pair := PairOf(p, pool, x[0].value);
      if pair.Some? { AddPairsSplits(p, pool, x[1..], y, capacity, txs + [pair.value.0, pair.value.1]); }
    }
  }

  lemma {:induction false} AddPairsGrows(p: Policy, pool: seq<Entry>, rest: seq<Entry>, capacity: nat, txs: seq<seq<byte>>)
    ensures txs <= AddPairs(p, pool, rest, capacity, txs)
    decreases |rest|
  {
    if rest != [] {
      var pair := PairOf(p, pool, rest[0].value);
      AddPairsGrows(p, pool, rest[1..], capacity, txs);
      if pair.Some? { AddPairsGrows(p, pool, rest[1..], capacity, txs + [pair.value.0, pair.value.1]); }
    }
  }

  lemma AddOne(p: Policy, pool: seq<Entry>, e: Entry, capacity: nat, txs: seq<seq<byte>>)
    ensures AddPairs(p, pool, [e], capacity, txs) ==
      match PairOf(p, pool, e.value)
      case Some((b, i)) => if PairFits(|Block.BodyBytes(txs)|, |txs|, capacity, b, i) then txs + [b, i] else txs
      case None => txs
  {
    assert [e][1..] == [];
  }

  /** Room for a pair: at most thirty transactions so far, and its bytes with both length
      words. */
  predicate HasRoom(txs: seq<seq<byte>>, capacity: nat, e: seq<byte>, i: seq<byte>) {
    |txs| <= 30 && |Block.BodyBytes(txs)| + |e| + |i| + 8 <= capacity
  }

  /** At the k-th entry the body so far gains that entry's pair exactly when there is one and
      it fits, and what is in the body stays there. */
  lemma PairsExactly(p: Policy, pool: seq<Entry>, rest: seq<Entry>, capacity: nat, txs: seq<seq<byte>>, k: nat)
    requires k < |rest|
    ensures var before, after := AddPairs(p, pool, rest[..k], capacity, txs), AddPairs(p, pool, rest[..k + 1], capacity, txs);
      && after <= AddPairs(p, pool, rest, capacity, txs)
      && match PairOf(p, pool, rest[k].value)
         case Some((e, i)) => e == rest[k].value && after == if HasRoom(before, capacity, e, i) then before + [e, i] else before
         case None => after == before
  {
    assert rest[..k + 1] == rest[..k] + [rest[k]];
    AddPairsSplits(p, pool, rest[..k], [rest[k]], capacity, txs);
    AddOne(p, pool, rest[k], capacity, AddPairs(p, pool, rest[..k], capacity, txs));
    assert rest == rest[..k + 1] + rest[k + 1..];
    AddPairsSplits(p, pool, rest[..k + 1], rest[k + 1..], capacity, txs);
    AddPairsGrows(p, pool, rest[k + 1..], capacity, AddPairs(p, pool, rest[..k + 1], capacity, txs));
  }

  // ------------------------------------------------------------------------ theorem

  /** The body while the pair loop is at entry `k`. */
  function BodyAt(p: Policy, pool: seq<Entry>, capacity: nat, chosen: seq<Entry>, k: nat): seq<seq<byte>>
    requires k <= |pool|
  {
    AddPairs(p, pool, pool[..k], capacity, Values(chosen))
  }

  /** An assembled body carries every eligible generic transaction up to the first that does
      not fit or up to 32, and every payable evidence with its issuance for which there was
      room when its turn came. */
  lemma AssembledAll(p: Policy, pool: seq<Entry>, capacity: nat)
    requires Assemble(p, pool, capacity).Ok?
    ensures exists cut: nat :: SelectEnds(p, Generic(p, pool), capacity, 0, 0, cut, AssembleGeneric(p, Generic(p, pool), capacity))
    ensures AssembleGeneric(p, Generic(p, pool), capacity).Ok?
    ensures var txs, chosen := Assemble(p, pool, capacity).value, AssembleGeneric(p, Generic(p, pool), capacity).value;
      && Values(chosen) <= txs
      && forall k :: 0 <= k < |pool| && PairOf(p, pool, pool[k].value).Some? ==> Appended(p, pool, capacity, chosen, txs, k)
  {
    var generic := Generic(p, pool);
    SelectExactly(p, generic, capacity, 0, 0);
    if generic == [] { assert SelectEnds(p, generic, capacity, 0, 0, 0, AssembleGeneric(p, generic, capacity)); }
    var txs, chosen := Assemble(p, pool, capacity).value, AssembleGeneric(p, generic, capacity).value;
    AddPairsGrows(p, pool, pool, capacity, Values(chosen));
    forall k | 0 <= k < |pool| && PairOf(p, pool, pool[k].value).Some? ensures Appended(p, pool, capacity, chosen, txs, k) {
      PairsExactly(p, pool, pool, capacity, Values(chosen), k);
    }
  }

  /** The pair of entry `k` went in when its turn came, unless there was no room for it. */
  ghost predicate Appended(p: Policy, pool: seq<Entry>, capacity: nat, chosen: seq<Entry>, txs: seq<seq<byte>>, k: nat)
    requires k < |pool| && PairOf(p, pool, pool[k].value).Some?
  {
    var (e, i) := PairOf(p, pool, pool[k].value).value;
    var before := BodyAt(p, pool, capacity, chosen, k);
    HasRoom(before, capacity, e, i) ==> before + [e, i] <= txs
  }
}
