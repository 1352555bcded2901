/** Registered contracts and their votes (src/stn_contract_consensus.c,
    src/stn_contract_state.c, src/stn_contract_lineage.c and the contract branch of
    src/stn_chain.c). All votes live in one buffer; each contract owns a slice of it. */
module Contracts {
  import opened BigEndian
  import opened Contract
  import Status
  import Hashing

  const MAX_CONTRACTS: nat := 128
  const MAX_VOTES: nat := 4096

  /** The decoder, address derivation and key validation the store is built on. */
  datatype Oracle = Oracle(decode: seq<byte> -> Result<Contract>, address: seq<byte> -> Hashing.Option<nat>, identityValid: nat -> bool)

  /** The store proofs hold for any decoder; this is the one the program has. */
  ghost predicate Standard(o: Oracle) { forall b :: o.decode(b) == Decode(b) }

  datatype VoteKey = VoteKey(contract: nat, actor: nat)

  datatype Entry = Entry(
    id: nat, draft: seq<byte>, current: Contract,
    offset: nat, count: nat, eligible: nat, required: nat)

  datatype Store = Store(entries: seq<Entry>, votes: seq<VoteKey>, reserved: nat)

  datatype ContractAction = ContractAction(action: nat, sequence: nat, actor: nat, contract: seq<byte>, proof: seq<byte>)

  const NO_CONTRACTS: Store := Store([], seq(MAX_VOTES, _ => VoteKey(0, 0)), 0)

  // ------------------------------------------------------------------------- drafts

  /** draft_view, with the address when one is asked for. */
  function Draft(o: Oracle, b: seq<byte>): Result<Contract> {
    if o.decode(b).Err? then o.decode(b)
    else if o.decode(b).value.state != DRAFT || o.decode(b).value.sequence != 0 then Err(State)
    else o.decode(b)
  }

  function Addressed(o: Oracle, b: seq<byte>): Result<nat> {
    if Draft(o, b).Err? then Err(Draft(o, b).status)
    else match o.address(b)
      case Some(id) => Ok(id)
      case None => Err(Address)
  }

  /** stn_contract_lineage_validate: what a contract may never change. */
  predicate SameDeal(d: Contract, c: Contract) {
    d.kind == c.kind && d.created == c.created && d.participants == c.participants && d.terms == c.terms
  }

  predicate Lineage(o: Oracle, draft: seq<byte>, current: seq<byte>) {
    Draft(o, draft).Ok? && o.decode(current).Ok? && SameDeal(Draft(o, draft).value, o.decode(current).value)
  }

  function Approvers(ps: seq<Participant>): seq<nat> {
    if ps == [] then []
    else if ps[0].role == APPROVER then [ps[0].identity] + Approvers(ps[1..])
    else Approvers(ps[1..])
  }

  predicate Distinct(s: seq<nat>) { forall i, j :: 0 <= i < j < |s| ==> s[i] != s[j] }

  // -------------------------------------------------------------------------- votes

  /** stn_contract_vote_eligible. */
  function Eligible(o: Oracle, draft: seq<byte>, actor: nat): Result<()> {
    if Draft(o, draft).Err? then Err(Draft(o, draft).status)
    else if !o.identityValid(actor) then Err(Authority)
    else if actor in Approvers(Draft(o, draft).value.participants) then Ok(())
    else Err(Authority)
  }

  /** stn_contract_vote_state_initialize: the contract identifier and the electorate. */
  function Electorate(o: Oracle, draft: seq<byte>): Result<(nat, nat)> {
    if Addressed(o, draft).Err? then Err(Addressed(o, draft).status)
    else
      var approvers := Approvers(Draft(o, draft).value.participants);
      if !Distinct(approvers) then Err(Duplicate)
      else if approvers == [] then Err(Authority)
      else Ok((Addressed(o, draft).value, |approvers|))
  }

  datatype Ballot = Ballot(contract: nat, accepted: seq<VoteKey>, eligible: nat, required: nat)

  /** stn_contract_vote_accept: the key it records, and whether the majority is reached. */
  function Accept(o: Oracle, b: Ballot, draft: seq<byte>, actor: nat): Result<(VoteKey, bool)> {
    if |b.accepted| > b.eligible || b.eligible == 0 || b.required != b.eligible / 2 + 1 then Err(Argument)
    else if Addressed(o, draft).Err? then Err(Addressed(o, draft).status)
    else if Addressed(o, draft).value != b.contract then Err(Address)
    else if Eligible(o, draft, actor).Err? then Err(Eligible(o, draft, actor).status)
    else if VoteKey(b.contract, actor) in b.accepted then Err(Duplicate)
    else if |b.accepted| == b.eligible then Err(Capacity)
    else Ok((VoteKey(b.contract, actor), |b.accepted| + 1 >= b.required))
  }

  /** stn_contract_vote_apply. */
  function Vote(o: Oracle, c: Contract, sequence: nat, draft: seq<byte>, actor: nat, b: Ballot): Result<(Contract, VoteKey)> {
    if c.state != REVIEW && c.state != APPROVALS then Err(Transition)
    else if c.sequence == TWO_64 - 1 || sequence != c.sequence + 1 then Err(Sequence)
    else
      match Accept(o, b, draft, actor)
      case Err(s) => Err(s)
      case Ok((key, reached)) =>
        Ok((c.(sequence := sequence, state := if reached then ATTESTATION else APPROVALS), key))
  }

  // -------------------------------------------------------------------------- store

  /** stn_contract_state_find. */
  function Find(entries: seq<Entry>, id: nat): (i: nat)
    ensures i <= |entries|
    ensures i < |entries| ==> entries[i].id == id
    ensures forall k :: 0 <= k < i ==> entries[k].id != id
  {
    if entries == [] || entries[0].id == id then 0 else 1 + Find(entries[1..], id)
  }

  /** The checks of stn_contract_state_register, and the entry they admit. */
  function Admit(o: Oracle, s: Store, draft: seq<byte>): Result<Entry> {
    if Addressed(o, draft).Err? then Err(Addressed(o, draft).status)
    else
      var d := Draft(o, draft).value;
      if Find(s.entries, Addressed(o, draft).value) < |s.entries| then Err(Address)
      else if |s.entries| == MAX_CONTRACTS then Err(Capacity)
      else if s.reserved + |d.participants| > |s.votes| then Err(Capacity)
      else
        match Electorate(o, draft)
        case Err(e) => Err(e)
        case Ok((id, n)) => Ok(Entry(id, draft, d, s.reserved, 0, n, n / 2 + 1))
  }

  function Register(o: Oracle, s: Store, draft: seq<byte>): Result<Store> {
    match Admit(o, s, draft)
    case Err(e) => Err(e)
    case Ok(e) => Ok(s.(entries := s.entries + [e], reserved := s.reserved + |e.current.participants|))
  }

  function Slice(votes: seq<VoteKey>, at: nat, n: nat): seq<VoteKey> {
    if at + n <= |votes| then votes[at..at + n] else []
  }

  /** A slot past the end of the buffer does not exist; sound stores never name one. */
  function Put(votes: seq<VoteKey>, at: nat, k: VoteKey): seq<VoteKey> {
    if at < |votes| then votes[at := k] else votes
  }

  function BallotOf(s: Store, e: Entry): Ballot {
    Ballot(e.id, Slice(s.votes, e.offset, e.count), e.eligible, e.required)
  }

  /** The entry keeps its own participants and terms; only state and sequence move. */
  function Keep(e: Entry, c: Contract): Entry {
    e.(current := c.(participants := e.current.participants, terms := e.current.terms))
  }

  /** stn_contract_state_apply_vote. */
  function ApplyVote(o: Oracle, s: Store, i: nat, current: seq<byte>, sequence: nat, actor: nat): Result<Store>
    requires i < |s.entries|
  {
    var e := s.entries[i];
    if Draft(o, e.draft).Err? then Err(Draft(o, e.draft).status)
    else if o.decode(current).Err? then Err(o.decode(current).status)
    else if !Lineage(o, e.draft, current) then Err(Address)
    else
      var c := o.decode(current).value;
      if c.sequence != e.current.sequence || c.state != e.current.state then Err(State)
      else
        match Vote(o, c, sequence, e.draft, actor, BallotOf(s, e))
        case Err(st) => Err(st)
        case Ok((n, key)) =>
          Ok(s.(entries := s.entries[i := Keep(e, n).(count := e.count + 1)],
                votes := Put(s.votes, e.offset + e.count, key)))
  }

  // ------------------------------------------------------------------------ actions

  /** The first entry whose draft the contract descends from. */
  function Match(o: Oracle, entries: seq<Entry>, contract: seq<byte>): (i: nat)
    ensures i <= |entries|
    ensures i < |entries| ==> Lineage(o, entries[i].draft, contract)
    ensures forall k :: 0 <= k < i ==> !Lineage(o, entries[k].draft, contract)
  {
    if entries == [] || Lineage(o, entries[0].draft, contract) then 0 else 1 + Match(o, entries[1..], contract)
  }

  function AsData(s: ContractStatus): Status.DataStatus {
    if s == Capacity then Status.Capacity else Status.Content
  }

  type Authorization = seq<byte> -> Status.Outcome<()>

  function ApplyCreate(o: Oracle, s: Store, a: ContractAction, authorized: Authorization): Status.Outcome<Store> {
    if Draft(o, a.contract).Err? then Status.Err(Status.Content)
    else if authorized(a.contract).Err? then Status.Err(authorized(a.contract).status)
    else
      match Register(o, s, a.contract)
      case Err(st) => Status.Err(AsData(st))
      case Ok(r) =>
        var e := r.entries[|s.entries|];
        match ApplyAction(e.current, a.action, a.sequence)
        case Err(_) => Status.Err(Status.Content)
        case Ok(n) => Status.Ok(r.(entries := s.entries + [Keep(e, n)]))
  }

  function ApplyOther(o: Oracle, s: Store, a: ContractAction, authorized: Authorization): Status.Outcome<Store> {
    var i := Match(o, s.entries, a.contract);
    if i == |s.entries| then Status.Err(Status.Content)
    else
      var e, c := s.entries[i], o.decode(a.contract).value;
      if c.sequence != e.current.sequence || c.state != e.current.state then Status.Err(Status.Content)
      else if authorized(e.draft).Err? then Status.Err(authorized(e.draft).status)
      else if a.action == APPROVE then
        match ApplyVote(o, s, i, a.contract, a.sequence, a.actor)
        case Err(st) => Status.Err(AsData(st))
        case Ok(n) => Status.Ok(n)
      else
        match ApplyAction(c, a.action, a.sequence)
        case Err(_) => Status.Err(Status.Content)
        case Ok(n) => Status.Ok(s.(entries := s.entries[i := Keep(e, n)]))
  }

  /** contract_apply_transaction. */
  function Apply(o: Oracle, s: Store, a: ContractAction, authorized: Authorization): Status.Outcome<Store> {
    if a.action == CREATE then ApplyCreate(o, s, a, authorized) else ApplyOther(o, s, a, authorized)
  }

  // ---------------------------------------------------------------------- invariant

  /** How far the voting has come in each state. */
  predicate Tally(state: nat, count: nat, required: nat) {
    && count <= required
    && (state <= REVIEW ==> count == 0)
    && (state == APPROVALS ==> 0 < count < required)
    && (state == ATTESTATION || state == EXECUTED ==> count == required)
  }

  /** The recorded votes: for this contract, from its approvers, no two alike. */
  ghost predicate FairVotes(accepted: seq<VoteKey>, id: nat, approvers: seq<nat>) {
    && (forall k :: 0 <= k < |accepted| ==> accepted[k].contract == id && accepted[k].actor in approvers)
    && (forall i, j :: 0 <= i < j < |accepted| ==> accepted[i] != accepted[j])
  }

  ghost predicate EntrySound(o: Oracle, votes: seq<VoteKey>, e: Entry) {
    && Draft(o, e.draft).Ok? && o.address(e.draft) == Hashing.Some(e.id)
    && SameDeal(Draft(o, e.draft).value, e.current)
    && var approvers := Approvers(e.current.participants);
    && Distinct(approvers) && approvers != []
    && e.eligible == |approvers| && e.required == e.eligible / 2 + 1
    && e.offset + |e.current.participants| <= |votes|
    && e.count <= |e.current.participants|
    && FairVotes(Slice(votes, e.offset, e.count), e.id, approvers)
    && Tally(e.current.state, e.count, e.required)
  }

  /** Contract `i` votes strictly before contract `j` in the shared buffer. */
  predicate Before(e: Entry, f: Entry) { e.id != f.id && e.offset + |e.current.participants| <= f.offset }

  ghost predicate Apart(entries: seq<Entry>) {
    forall i, j :: 0 <= i < j < |entries| ==> Before(entries[i], entries[j])
  }

  ghost predicate Sound(o: Oracle, s: Store) {
    && |s.entries| <= MAX_CONTRACTS && |s.votes| == MAX_VOTES && s.reserved <= MAX_VOTES
    && (forall i :: 0 <= i < |s.entries| ==> EntrySound(o, s.votes, s.entries[i]))
    && Apart(s.entries)
    && (forall i :: 0 <= i < |s.entries| ==> s.entries[i].offset + |s.entries[i].current.participants| <= s.reserved)
  }
}
