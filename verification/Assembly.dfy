/** Block assembly from the pending pool (src/stn_pending.c, stn_pending_assemble, and
    src/stn_block_compensation_candidate.c): generic transactions in identifier order, then
    whole compensation pairs as long as they fit. */
module Assembly {
  import opened BigEndian
  import opened Status
  import opened Hashing
  import opened Sequences
  import Transaction
  import Block
  import BlockLoops
  import Ledger
  import Economy
  import Compensation
  import Table
  import Pending

  type Tx = Transaction.Tx
  type Entry = Pending.Entry

  /** What eligibility decides about one generic transaction. */
  datatype Verdict = Include | Skip | Abort(status: DataStatus)

  /** The deterministic checks assembly consults. */
  datatype Policy = Policy(
    record: Transaction.RecordCheck,
    decode: seq<byte> -> Outcome<Tx>,
    scanned: bool,
    judge: (nat, Tx) -> Verdict,
    evidence: seq<byte> -> Option<Economy.Evidence>,
    issuance: seq<byte> -> Option<Ledger.Issuance>,
    payable: Economy.Evidence -> bool,
    binds: (Ledger.Issuance, Economy.Evidence) -> bool)

  function Check(p: Policy): Block.TxCheck { Transaction.Structure(p.record) }

  function DecodeTx(p: Policy, b: seq<byte>): Outcome<Tx> { p.decode(b) }

  predicate IsEvidence(t: Tx) { t.kind == Transaction.BLOCK_COMPENSATION_EVIDENCE }

  /** A BLOCK issuance, which only ever enters a block behind its evidence. */
  predicate IsBlockIssuance(p: Policy, t: Tx) {
    t.kind == Transaction.ISSUANCE && p.issuance(t.record).Some?
    && p.issuance(t.record).value.reason == Ledger.REASON_BLOCK
  }

  predicate IsGeneric(p: Policy, b: seq<byte>) {
    DecodeTx(p, b).Ok? && !IsEvidence(DecodeTx(p, b).value) && !IsBlockIssuance(p, DecodeTx(p, b).value)
  }

  // ------------------------------------------------------------------ generic choices

  /** The pool without compensation transactions. */
  function Generic(p: Policy, pool: seq<Entry>): seq<Entry> {
    if pool == [] then []
    else if IsGeneric(p, pool[0].value) then [pool[0]] + Generic(p, pool[1..])
    else Generic(p, pool[1..])
  }

  datatype Decision = Stop | Fail(status: DataStatus) | Pass | Take

  /** One round of the selection loop, with `total` bytes already chosen. */
  function Decide(p: Policy, e: Entry, capacity: nat, total: nat): Decision
    requires total <= capacity
  {
    if DecodeTx(p, e.value).Err? then Fail(Content)
    else
      match p.judge(e.key, DecodeTx(p, e.value).value)
      case Abort(x) => Fail(x)
      case Skip => Pass
      case Include =>
        if total > Block.MAX_BODY || |e.value| + 4 > Block.MAX_BODY - total then Stop
        else if |e.value| + 4 > capacity - total then Fail(Capacity)
        else Take
  }

  /** The selection loop: `n` transactions and `total` bytes are already chosen. */
  function Select(p: Policy, pool: seq<Entry>, capacity: nat, n: nat, total: nat): Outcome<seq<Entry>>
    requires total <= capacity
    decreases |pool|
  {
    if pool == [] || n >= Block.MAX_TRANSACTIONS then Ok([])
    else
      match Decide(p, pool[0], capacity, total)
      case Stop => Ok([])
      case Fail(e) => Err(e)
      case Pass => Select(p, pool[1..], capacity, n, total)
      case Take => Chosen([pool[0]], Select(p, pool[1..], capacity, n + 1, total + |pool[0].value| + 4))
  }

  function Chosen(done: seq<Entry>, rest: Outcome<seq<Entry>>): Outcome<seq<Entry>> {
    match rest
    case Err(e) => Err(e)
    case Ok(more) => Ok(done + more)
  }

  /** stn_pending_assemble on the generic entries. */
  function AssembleGeneric(p: Policy, pool: seq<Entry>, capacity: nat): Outcome<seq<Entry>> {
    if pool == [] then Ok([])
    else if !p.scanned then Err(Content)
    else Select(p, pool, capacity, 0, 0)
  }

  // -------------------------------------------------------------------------- pairs

  /** The first pooled BLOCK issuance bound to an evidence. */
  function Partner(p: Policy, pool: seq<Entry>, e: Economy.Evidence): Option<seq<byte>> {
    if pool == [] then None
    else if DecodeTx(p, pool[0].value).Ok? && IsBlockIssuance(p, DecodeTx(p, pool[0].value).value)
            && p.binds(p.issuance(DecodeTx(p, pool[0].value).value.record).value, e) then Some(pool[0].value)
    else Partner(p, pool[1..], e)
  }

  /** pair_fits. */
  predicate PairFits(written: nat, count: nat, capacity: nat, evidence: seq<byte>, issuance: seq<byte>) {
    && count <= Block.MAX_TRANSACTIONS - 2
    && written + 4 + |evidence| <= capacity
    && written + 4 + |evidence| + 4 + |issuance| <= capacity
  }

  /** What the pool's next entry contributes: a whole pair or nothing. */
  function PairOf(p: Policy, pool: seq<Entry>, b: seq<byte>): Option<(seq<byte>, seq<byte>)> {
    if DecodeTx(p, b).Err? || !IsEvidence(DecodeTx(p, b).value) then None
    else
      match p.evidence(DecodeTx(p, b).value.record)
      case None => None
      case Some(e) =>
        if !p.payable(e) then None
        else
          match Partner(p, pool, e)
          case None => None
          case Some(i) => Some((b, i))
  }

  /** The pair loop over the rest of the pool. */
  function AddPairs(p: Policy, pool: seq<Entry>, rest: seq<Entry>, capacity: nat, txs: seq<seq<byte>>): seq<seq<byte>>
    decreases |rest|
  {
    if rest == [] then txs
    else
      match PairOf(p, pool, rest[0].value)
      case Some((e, i)) =>
        if PairFits(|Block.BodyBytes(txs)|, |txs|, capacity, e, i) then AddPairs(p, pool, rest[1..], capacity, txs + [e, i])
        else AddPairs(p, pool, rest[1..], capacity, txs)
      case None => AddPairs(p, pool, rest[1..], capacity, txs)
  }

  function Values(entries: seq<Entry>): seq<seq<byte>> {
    if entries == [] then [] else [entries[0].value] + Values(entries[1..])
  }

  /** An entry assembly cannot read: not a transaction, or evidence that does not decode. */
  predicate Unreadable(p: Policy, b: seq<byte>) {
    DecodeTx(p, b).Err? || (IsEvidence(DecodeTx(p, b).value) && p.evidence(DecodeTx(p, b).value.record).None?)
  }

  /** stn_block_compensation_pending_assemble, as the list of transactions it writes. */
  function Assemble(p: Policy, pool: seq<Entry>, capacity: nat): Outcome<seq<seq<byte>>> {
    if exists i :: 0 <= i < |pool| && DecodeTx(p, pool[i].value).Err? then Err(Content)
    else
      match AssembleGeneric(p, Generic(p, pool), capacity)
      case Err(e) => Err(e)
      case Ok(chosen) =>
        if exists i :: 0 <= i < |pool| && Unreadable(p, pool[i].value) then Err(Content)
        else Ok(AddPairs(p, pool, pool, capacity, Values(chosen)))
  }

  // ------------------------------------------------------------------------- meaning

  /** The decoder is the transaction decoder, and no record decoder accepts less than the
      shortest record layout. */
  ghost predicate Standard(p: Policy) {
    && (forall b :: p.decode(b) == Transaction.Decode(p.record, b))
    && (forall kind, r :: p.record(kind, r) ==> |r| >= Transaction.MIN_SIZE - Transaction.HEADER_SIZE)
  }

  /** Every pooled transaction has a size and a structure a body can carry. */
  ghost predicate WellFormedPool(p: Policy, pool: seq<Entry>) {
    forall i :: 0 <= i < |pool| ==>
      Transaction.MIN_SIZE <= |pool[i].value| <= Transaction.MAX_SIZE && Check(p)(pool[i].value).Ok?
  }

  lemma DecodedPool(p: Policy, pool: seq<Entry>)
    requires Standard(p) && forall i :: 0 <= i < |pool| ==> DecodeTx(p, pool[i].value).Ok?
    ensures WellFormedPool(p, pool)
  {
  }

  lemma {:induction false} GenericMeaning(p: Policy, pool: seq<Entry>)
    requires Table.Sorted(pool)
    ensures Table.Sorted(Generic(p, pool))
    ensures forall x :: x in Generic(p, pool) <==> x in pool && IsGeneric(p, x.value)
  {
    if pool != [] {
      GenericMeaning(p, pool[1..]);
      assert forall x :: x in pool[1..] ==> pool[0].key < x.key;
    }
  }

  /** How many bytes these transactions take in a body. */
  function Room(entries: seq<Entry>): nat {
    if entries == [] then 0 else |entries[0].value| + 4 + Room(entries[1..])
  }

  lemma ConsSorted(pool: seq<Entry>, r: seq<Entry>)
    requires Table.Sorted(pool) && pool != [] && Table.Sorted(r)
    requires forall x :: x in r ==> x in pool[1..]
    ensures Table.Sorted([pool[0]] + r)
    ensures forall x :: x in [pool[0]] + r ==> x in pool
  {
    assert forall x :: x in pool[1..] ==> pool[0].key < x.key && x in pool;
  }

  predicate Judged(p: Policy, r: seq<Entry>, pool: seq<Entry>) {
    forall i :: 0 <= i < |r| ==> r[i] in pool && DecodeTx(p, r[i].value).Ok? && p.judge(r[i].key, DecodeTx(p, r[i].value).value) == Include
  }

  /** The chosen entries stand in ascending identifier order, were all judged eligible, and
      respect the transaction limit, the body limit and the caller's capacity. */
  lemma {:induction false} SelectMeaning(p: Policy, pool: seq<Entry>, capacity: nat, n: nat, total: nat)
    requires Table.Sorted(pool) && total <= capacity && n <= Block.MAX_TRANSACTIONS
    requires Select(p, pool, capacity, n, total).Ok?
    ensures var r := Select(p, pool, capacity, n, total).value;
      && Table.Sorted(r) && n + |r| <= Block.MAX_TRANSACTIONS && Judged(p, r, pool)
      && total + Room(r) <= capacity && (r != [] ==> total + Room(r) <= Block.MAX_BODY)
    decreases |pool|
  {
    if pool != [] && n < Block.MAX_TRANSACTIONS {
      var rest, size := pool[1..], |pool[0].value| + 4;
      var d := Decide(p, pool[0], capacity, total);
      if d == Pass {
        SelectMeaning(p, rest, capacity, n, total);
      } else if d == Take {
        SelectMeaning(p, rest, capacity, n + 1, total + size);
        var r := Select(p, rest, capacity, n + 1, total + size).value;
        ConsSorted(pool, r);
        assert ([pool[0]] + r)[1..] == r;
      }
    }
  }

  lemma {:induction false} ValuesRoom(entries: seq<Entry>)
    ensures |Block.BodyBytes(Values(entries))| == Room(entries) && |Values(entries)| == |entries|
    ensures forall i :: 0 <= i < |entries| ==> Values(entries)[i] == entries[i].value
  {
    if entries != [] { ValuesRoom(entries[1..]); }
  }

  // ------------------------------------------------------------------- pairs, meaning

  /** An evidence for a payable block and a BLOCK issuance bound to it. */
  predicate GoodPair(p: Policy, e: seq<byte>, i: seq<byte>) {
    && DecodeTx(p, e).Ok? && IsEvidence(DecodeTx(p, e).value)
    && DecodeTx(p, i).Ok? && IsBlockIssuance(p, DecodeTx(p, i).value)
    && p.evidence(DecodeTx(p, e).value.record).Some?
    && p.payable(p.evidence(DecodeTx(p, e).value.record).value)
    && p.binds(p.issuance(DecodeTx(p, i).value.record).value, p.evidence(DecodeTx(p, e).value.record).value)
  }

  /** Nothing but pairs, each evidence with its issuance right behind it. */
  predicate Paired(p: Policy, txs: seq<seq<byte>>) {
    txs == [] || (|txs| >= 2 && GoodPair(p, txs[0], txs[1]) && Paired(p, txs[2..]))
  }

  lemma {:induction false} PartnerMeaning(p: Policy, pool: seq<Entry>, e: Economy.Evidence)
    requires Partner(p, pool, e).Some?
    ensures var i := Partner(p, pool, e).value;
      && DecodeTx(p, i).Ok? && IsBlockIssuance(p, DecodeTx(p, i).value)
      && p.binds(p.issuance(DecodeTx(p, i).value.record).value, e)
      && exists k :: 0 <= k < |pool| && pool[k].value == i
  {
    if !(DecodeTx(p, pool[0].value).Ok? && IsBlockIssuance(p, DecodeTx(p, pool[0].value).value)
         && p.binds(p.issuance(DecodeTx(p, pool[0].value).value.record).value, e)) {
      PartnerMeaning(p, pool[1..], e);
      var i := Partner(p, pool, e).value;
      var k :| 0 <= k < |pool[1..]| && pool[1..][k].value == i;
      assert pool[k + 1].value == i;
    }
  }

  lemma PairMeaning(p: Policy, pool: seq<Entry>, b: seq<byte>)
    requires PairOf(p, pool, b).Some?
    ensures var (e, i) := PairOf(p, pool, b).value;
      GoodPair(p, e, i) && e == b && exists k :: 0 <= k < |pool| && pool[k].value == i
  {
    PartnerMeaning(p, pool, p.evidence(DecodeTx(p, b).value.record).value);
  }

  lemma {:induction false} PairedAppend(p: Policy, txs: seq<seq<byte>>, e: seq<byte>, i: seq<byte>)
    requires Paired(p, txs) && GoodPair(p, e, i)
    ensures Paired(p, txs + [e, i])
    decreases |txs|
  {
    if txs == [] {
      assert txs + [e, i] == [e, i] && [e, i][2..] == [];
    } else {
      PairedAppend(p, txs[2..], e, i);
      PairedCons(p, txs + [e, i], txs[2..] + [e, i]);
    }
  }

  lemma PairedCons(p: Policy, txs: seq<seq<byte>>, rest: seq<seq<byte>>)
    requires |txs| >= 2 && txs[2..] == rest && GoodPair(p, txs[0], txs[1]) && Paired(p, rest)
    ensures Paired(p, txs)
  {
  }

  lemma PairRoom(txs: seq<seq<byte>>, e: seq<byte>, i: seq<byte>)
    ensures |Block.BodyBytes(txs + [e, i])| == |Block.BodyBytes(txs)| + 4 + |e| + 4 + |i|
  {
    assert txs + [e, i] == (txs + [e]) + [i];
    BlockLoops.BodyBytesAppend(txs, e);
    BlockLoops.BodyBytesAppend(txs + [e], i);
  }

  /** Every transaction comes from the pool. */
  predicate Drawn(pool: seq<Entry>, txs: seq<seq<byte>>) {
    forall j :: 0 <= j < |txs| ==> exists k :: 0 <= k < |pool| && pool[k].value == txs[j]
  }

  /** The pair loop only appends whole good pairs, and stays within both limits. */
  lemma {:induction false} PairsMeaning(p: Policy, pool: seq<Entry>, rest: seq<Entry>, capacity: nat,
                                        chosen: seq<seq<byte>>, pairs: seq<seq<byte>>)
    requires Paired(p, pairs) && |chosen + pairs| <= Block.MAX_TRANSACTIONS
    requires |Block.BodyBytes(chosen + pairs)| <= capacity && Drawn(pool, chosen + pairs)
    requires forall i :: 0 <= i < |rest| ==> rest[i] in pool
    ensures var txs := AddPairs(p, pool, rest, capacity, chosen + pairs);
      && |txs| <= Block.MAX_TRANSACTIONS && |Block.BodyBytes(txs)| <= capacity && Drawn(pool, txs)
      && |chosen| <= |txs| && txs[..|chosen|] == chosen && Paired(p, txs[|chosen|..])
    decreases |rest|
  {
    var now := chosen + pairs;
    if rest == [] {
      assert now[..|chosen|] == chosen && now[|chosen|..] == pairs;
    } else {
      var pair := PairOf(p, pool, rest[0].value);
      if pair.Some? && PairFits(|Block.BodyBytes(now)|, |now|, capacity, pair.value.0, pair.value.1) {
        var (e, i) := pair.value;
        PairMeaning(p, pool, rest[0].value);
        PairedAppend(p, pairs, e, i);
        PairRoom(now, e, i);
        Assoc(chosen, pairs, [e, i]);
        DrawnMore(pool, now, rest[0], e, i);
        PairsMeaning(p, pool, rest[1..], capacity, chosen, pairs + [e, i]);
      } else {
        PairsMeaning(p, pool, rest[1..], capacity, chosen, pairs);
      }
    }
  }

  lemma DrawnMore(pool: seq<Entry>, txs: seq<seq<byte>>, x: Entry, e: seq<byte>, i: seq<byte>)
    requires Drawn(pool, txs) && x in pool && x.value == e
    requires exists k :: 0 <= k < |pool| && pool[k].value == i
    ensures Drawn(pool, txs + [e, i])
  {
    var at :| 0 <= at < |pool| && pool[at] == x;
    assert pool[at].value == e;
  }

  // ------------------------------------------------------------------------- theorem

  /** An assembled body: generic transactions in strictly ascending identifier order and no
      compensation among them, then whole pairs; within the 32-transaction limit and the
      caller's capacity; and exactly these transactions are read back from it. */
  lemma AssembledBody(p: Policy, pool: seq<Entry>, capacity: nat)
    requires Table.Sorted(pool) && Standard(p) && Assemble(p, pool, capacity).Ok?
    ensures AssembleGeneric(p, Generic(p, pool), capacity).Ok?
    ensures var txs, chosen := Assemble(p, pool, capacity).value, AssembleGeneric(p, Generic(p, pool), capacity).value;
      && |txs| <= Block.MAX_TRANSACTIONS && |Block.BodyBytes(txs)| <= capacity
      && Block.ParseBody(Check(p), Block.BodyBytes(txs), |txs|) == Ok(txs)
      && Table.Sorted(chosen) && (forall x :: x in chosen ==> x in pool && IsGeneric(p, x.value))
      && |chosen| <= |txs| && txs[..|chosen|] == Values(chosen) && Paired(p, txs[|chosen|..])
  {
    var chosen := AssembleGeneric(p, Generic(p, pool), capacity).value;
    GenericMeaning(p, pool);
    if Generic(p, pool) != [] { SelectMeaning(p, Generic(p, pool), capacity, 0, 0); }
    ValuesRoom(chosen);
    ValuesDrawn(pool, chosen);
    assert Values(chosen) + [] == Values(chosen);
    PairsMeaning(p, pool, pool, capacity, Values(chosen), []);
    var txs := Assemble(p, pool, capacity).value;
    DecodedPool(p, pool);
    DrawnIsWellFormed(p, pool, txs);
    Block.BodyRoundTrip(Check(p), txs);
  }

  lemma AssembledDrawn(p: Policy, pool: seq<Entry>, capacity: nat)
    requires Table.Sorted(pool) && Assemble(p, pool, capacity).Ok?
    ensures AssembleGeneric(p, Generic(p, pool), capacity).Ok?
    ensures var chosen := AssembleGeneric(p, Generic(p, pool), capacity).value;
      && Assemble(p, pool, capacity).value == AddPairs(p, pool, pool, capacity, Values(chosen))
      && Drawn(pool, Assemble(p, pool, capacity).value)
      && Table.Sorted(chosen) && (forall x :: x in chosen ==> x in pool && IsGeneric(p, x.value))
  {
    var chosen := AssembleGeneric(p, Generic(p, pool), capacity).value;
    GenericMeaning(p, pool);
    if Generic(p, pool) != [] { SelectMeaning(p, Generic(p, pool), capacity, 0, 0); }
    ValuesRoom(chosen);
    ValuesDrawn(pool, chosen);
    assert Values(chosen) + [] == Values(chosen);
    PairsMeaning(p, pool, pool, capacity, Values(chosen), []);
  }

  lemma ValuesDrawn(pool: seq<Entry>, chosen: seq<Entry>)
    requires forall x :: x in chosen ==> x in pool
    ensures Drawn(pool, Values(chosen))
  {
    ValuesRoom(chosen);
    forall j | 0 <= j < |chosen| ensures exists k :: 0 <= k < |pool| && pool[k].value == Values(chosen)[j] {
      assert chosen[j] in pool;
      var k :| 0 <= k < |pool| && pool[k] == chosen[j];
      assert pool[k].value == Values(chosen)[j];
    }
  }

  lemma DrawnIsWellFormed(p: Policy, pool: seq<Entry>, txs: seq<seq<byte>>)
    requires WellFormedPool(p, pool) && Drawn(pool, txs)
    ensures Block.Transactions(Check(p), txs)
  {
    forall j | 0 <= j < |txs|
      ensures Transaction.MIN_SIZE <= |txs[j]| <= Transaction.MAX_SIZE && Check(p)(txs[j]).Ok?
    {
      var k :| 0 <= k < |pool| && pool[k].value == txs[j];
    }
  }

  // ----------------------------------------------------------------------- no repeats

  /** The pool is keyed by transaction identifier. */
  ghost predicate Keyed(ids: seq<byte> -> nat, pool: seq<Entry>) {
    forall x :: x in pool ==> ids(x.value) == x.key
  }

  predicate EvidenceTx(p: Policy, b: seq<byte>) {
    DecodeTx(p, b).Ok? && IsEvidence(DecodeTx(p, b).value) && p.evidence(DecodeTx(p, b).value.record).Some?
  }

  function EvidenceId(p: Policy, rules: Economy.Rules, b: seq<byte>): Outcome<Hash>
    requires EvidenceTx(p, b)
  {
    rules.evidenceId(p.evidence(DecodeTx(p, b).value.record).value)
  }

  /** An issuance is bound to an evidence as the economy binds it. */
  ghost predicate BindsByRule(p: Policy, rules: Economy.Rules, d: Compensation.Destinations) {
    forall r, v :: p.binds(r, v) <==> Economy.BindBlock(rules, r, v, d).Ok?
  }

  /** No two pooled evidences go by the same evidence identifier. */
  ghost predicate EvidencesApart(p: Policy, rules: Economy.Rules, pool: seq<Entry>) {
    forall x, y :: x in pool && y in pool && SameEvidence(p, rules, x.value, y.value) ==> x == y
  }

  predicate SameEvidence(p: Policy, rules: Economy.Rules, a: seq<byte>, b: seq<byte>) {
    EvidenceTx(p, a) && EvidenceTx(p, b) && EvidenceId(p, rules, a) == EvidenceId(p, rules, b)
  }

  ghost predicate NoRepeats(txs: seq<seq<byte>>) {
    forall j, k :: 0 <= j < k < |txs| ==> txs[j] != txs[k]
  }

  /** The evidences among these transactions stand before everything in `rest`, and every
      other transaction among them is bound to one of these evidences. */
  ghost predicate Behind(p: Policy, ids: seq<byte> -> nat, pairs: seq<seq<byte>>, rest: seq<Entry>) {
    forall x :: x in pairs ==> Passed(p, ids, x, rest) || exists e :: e in pairs && Passed(p, ids, e, rest) && GoodPair(p, e, x)
  }

  ghost predicate Passed(p: Policy, ids: seq<byte> -> nat, b: seq<byte>, rest: seq<Entry>) {
    EvidenceTx(p, b) && forall y :: y in rest ==> ids(b) < y.key
  }

  /** One issuance cannot be bound to two pooled evidences. */
  lemma OneEvidence(p: Policy, rules: Economy.Rules, d: Compensation.Destinations, pool: seq<Entry>,
                    x: Entry, y: Entry, i: seq<byte>)
    requires BindsByRule(p, rules, d) && EvidencesApart(p, rules, pool) && x in pool && y in pool
    requires GoodPair(p, x.value, i) && GoodPair(p, y.value, i)
    ensures x == y
  {
    var r := p.issuance(DecodeTx(p, i).value.record).value;
    assert EvidenceId(p, rules, x.value) == Ok(r.evidence) == EvidenceId(p, rules, y.value);
  }

  lemma Origin(pool: seq<Entry>, txs: seq<seq<byte>>, j: nat) returns (at: nat)
    requires Drawn(pool, txs) && j < |txs|
    ensures at < |pool| && pool[at].value == txs[j]
  {
    var b := txs[j];
    at :| 0 <= at < |pool| && pool[at].value == b;
  }

  /** Neither half of the next pair has been appended before. */
  lemma PairIsNew(p: Policy, rules: Economy.Rules, d: Compensation.Destinations, ids: seq<byte> -> nat, pool: seq<Entry>,
                  chosen: seq<seq<byte>>, pairs: seq<seq<byte>>, rest: seq<Entry>, i: seq<byte>)
    requires BindsByRule(p, rules, d) && EvidencesApart(p, rules, pool) && Keyed(ids, pool)
    requires Drawn(pool, pairs) && Behind(p, ids, pairs, rest) && (forall x :: x in chosen ==> IsGeneric(p, x))
    requires rest != [] && rest[0] in pool && GoodPair(p, rest[0].value, i)
    ensures rest[0].value !in chosen + pairs && i !in chosen + pairs && rest[0].value != i
  {
    assert ids(rest[0].value) == rest[0].key;
    if i in pairs {
      var before :| before in pairs && Passed(p, ids, before, rest) && GoodPair(p, before, i);
      var j :| 0 <= j < |pairs| && pairs[j] == before;
      var at := Origin(pool, pairs, j);
      OneEvidence(p, rules, d, pool, pool[at], rest[0], i);
    }
  }

  lemma BehindMore(p: Policy, ids: seq<byte> -> nat, pairs: seq<seq<byte>>, rest: seq<Entry>, i: seq<byte>)
    requires Behind(p, ids, pairs, rest) && rest != [] && Table.Sorted(rest)
    requires GoodPair(p, rest[0].value, i) && ids(rest[0].value) == rest[0].key
    ensures Behind(p, ids, pairs + [rest[0].value, i], rest[1..])
  {
    var e, all := rest[0].value, pairs + [rest[0].value, i];
    assert Passed(p, ids, e, rest[1..]) && e == all[|pairs|];
    BehindLess(p, ids, pairs, rest);
    forall x | x in all ensures Passed(p, ids, x, rest[1..]) || exists b :: b in all && Passed(p, ids, b, rest[1..]) && GoodPair(p, b, x) {
      if x in pairs && !Passed(p, ids, x, rest[1..]) {
        var b :| b in pairs && Passed(p, ids, b, rest[1..]) && GoodPair(p, b, x);
        assert b in all;
      } else if x == i {
        assert e in all;
      }
    }
  }

  lemma BehindLess(p: Policy, ids: seq<byte> -> nat, pairs: seq<seq<byte>>, rest: seq<Entry>)
    requires Behind(p, ids, pairs, rest) && rest != []
    ensures Behind(p, ids, pairs, rest[1..])
  {
    forall x | x in pairs ensures Passed(p, ids, x, rest) ==> Passed(p, ids, x, rest[1..]) {}
  }

  /** The pair loop never appends a transaction that is already there. */
  lemma {:induction false} PairsAreNew(p: Policy, rules: Economy.Rules, d: Compensation.Destinations, ids: seq<byte> -> nat,
                                       pool: seq<Entry>, rest: seq<Entry>, capacity: nat,
                                       chosen: seq<seq<byte>>, pairs: seq<seq<byte>>)
    requires BindsByRule(p, rules, d) && EvidencesApart(p, rules, pool) && Keyed(ids, pool) && Table.Sorted(rest)
    requires Drawn(pool, pairs) && Behind(p, ids, pairs, rest) && (forall x :: x in chosen ==> IsGeneric(p, x))
    requires NoRepeats(chosen + pairs) && (forall x :: x in rest ==> x in pool)
    ensures NoRepeats(AddPairs(p, pool, rest, capacity, chosen + pairs))
    decreases |rest|
  {
    var now := chosen + pairs;
    if rest != [] {
      var pair := PairOf(p, pool, rest[0].value);
      if pair.Some? && PairFits(|Block.BodyBytes(now)|, |now|, capacity, pair.value.0, pair.value.1) {
        var (e, i) := pair.value;
        PairMeaning(p, pool, rest[0].value);
        PairIsNew(p, rules, d, ids, pool, chosen, pairs, rest, i);
        BehindMore(p, ids, pairs, rest, i);
        DrawnMore(pool, pairs, rest[0], e, i);
        Assoc(chosen, pairs, [e, i]);
        NoRepeatsMore(now, e, i);
        PairsAreNew(p, rules, d, ids, pool, rest[1..], capacity, chosen, pairs + [e, i]);
      } else {
        BehindLess(p, ids, pairs, rest);
        PairsAreNew(p, rules, d, ids, pool, rest[1..], capacity, chosen, pairs);
      }
    }
  }

  lemma NoRepeatsMore(txs: seq<seq<byte>>, e: seq<byte>, i: seq<byte>)
    requires NoRepeats(txs) && e !in txs && i !in txs && e != i
    ensures NoRepeats(txs + [e, i])
  {
  }

  /** Transactions drawn from the pool that differ have different identifiers. */
  lemma DistinctIds(ids: seq<byte> -> nat, pool: seq<Entry>, txs: seq<seq<byte>>, j: nat, k: nat)
    requires Table.Sorted(pool) && Keyed(ids, pool) && Drawn(pool, txs) && NoRepeats(txs) && j < k < |txs|
    ensures ids(txs[j]) != ids(txs[k])
  {
    var a := Origin(pool, txs, j);
    var b := Origin(pool, txs, k);
    assert pool[a] in pool && pool[b] in pool;
  }

  lemma ChosenDiffer(ids: seq<byte> -> nat, pool: seq<Entry>, chosen: seq<Entry>)
    requires Keyed(ids, pool) && Table.Sorted(chosen) && forall x :: x in chosen ==> x in pool
    ensures NoRepeats(Values(chosen))
  {
    ValuesRoom(chosen);
    forall j, k | 0 <= j < k < |chosen| ensures Values(chosen)[j] != Values(chosen)[k] {
      assert chosen[j] in chosen && chosen[k] in chosen && chosen[j].key < chosen[k].key;
    }
  }

  /** No transaction appears twice in an assembled body, so the duplicate scan of the block
      check passes, when no two pooled evidences share an evidence identifier. */
  lemma AssembledOnce(p: Policy, rules: Economy.Rules, d: Compensation.Destinations, ids: seq<byte> -> nat,
                      pool: seq<Entry>, capacity: nat)
    requires Table.Sorted(pool) && Standard(p) && Keyed(ids, pool) && Assemble(p, pool, capacity).Ok?
    requires BindsByRule(p, rules, d) && EvidencesApart(p, rules, pool)
    ensures var txs := Assemble(p, pool, capacity).value;
      forall j, k :: 0 <= j < k < |txs| ==> ids(txs[j]) != ids(txs[k])
  {
    AssembledDrawn(p, pool, capacity);
    var chosen := AssembleGeneric(p, Generic(p, pool), capacity).value;
    ExtendedOnce(p, rules, d, ids, pool, capacity, chosen);
  }

  lemma ExtendedOnce(p: Policy, rules: Economy.Rules, d: Compensation.Destinations, ids: seq<byte> -> nat,
                     pool: seq<Entry>, capacity: nat, chosen: seq<Entry>)
    requires Table.Sorted(pool) && Keyed(ids, pool) && BindsByRule(p, rules, d) && EvidencesApart(p, rules, pool)
    requires Table.Sorted(chosen) && forall x :: x in chosen ==> x in pool && IsGeneric(p, x.value)
    requires Drawn(pool, AddPairs(p, pool, pool, capacity, Values(chosen)))
    ensures var txs := AddPairs(p, pool, pool, capacity, Values(chosen));
      forall j, k :: 0 <= j < k < |txs| ==> ids(txs[j]) != ids(txs[k])
  {
    var txs := AddPairs(p, pool, pool, capacity, Values(chosen));
    ChosenDiffer(ids, pool, chosen);
    ValuesGeneric(p, chosen);
    assert Values(chosen) + [] == Values(chosen);
    PairsAreNew(p, rules, d, ids, pool, pool, capacity, Values(chosen), []);
    forall j, k | 0 <= j < k < |txs| ensures ids(txs[j]) != ids(txs[k]) {
      DistinctIds(ids, pool, txs, j, k);
    }
  }

  lemma ValuesGeneric(p: Policy, chosen: seq<Entry>)
    requires forall x :: x in chosen ==> IsGeneric(p, x.value)
    ensures forall x :: x in Values(chosen) ==> IsGeneric(p, x)
  {
    ValuesRoom(chosen);
  }
}
