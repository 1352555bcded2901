/** The contract snapshot as the program holds it: fixed arrays of entries and
    votes, and one draft arena that every registration replaces by a grown copy. */
module ContractSnapshot {
  import opened BigEndian
  import opened Contract
  import opened ContractArena
  import C = Contracts
  import V = ContractVoting
  import Status

  /** The call reports what the specification decides, and leaves its store on success. */
  ghost predicate Registered(r: Result<nat>, index: nat, after: C.Store, spec: Result<C.Store>) {
    match spec
    case Ok(n) => r == Ok(index) && after == n
    case Err(e) => r == Err(e)
  }

  /** The same for calls that leave the store alone when they fail. */
  ghost predicate Applied(r: Result<()>, before: C.Store, after: C.Store, spec: Result<C.Store>) {
    match spec
    case Ok(n) => r == Ok(()) && after == n
    case Err(e) => r == Err(e) && after == before
  }

  ghost predicate Advanced(r: Status.Outcome<()>, before: C.Store, after: C.Store, i: nat, action: nat, sequence: nat)
    requires i < |before.entries|
  {
    match ApplyAction(before.entries[i].current, action, sequence)
    case Ok(n) => r == Status.Ok(()) && after == before.(entries := before.entries[i := C.Keep(before.entries[i], n)])
    case Err(_) => r == Status.Err(Status.Content) && after == before
  }

  ghost predicate Counted(r: Result<()>, before: C.Store, after: C.Store, i: nat, spec: Result<(Contract, C.VoteKey)>)
    requires i < |before.entries|
  {
    var e := before.entries[i];
    match spec
    case Ok((n, key)) =>
      && r == Ok(())
      && after == C.Store(before.entries[i := Progress(e, n.sequence, n.state, e.count + 1)],
                          C.Put(before.votes, e.offset + e.count, key), before.reserved)
    case Err(s) => r == Err(s) && after == before
  }

  ghost predicate Recorded(r: Result<()>, before: C.Store, after: C.Store, i: nat, sequence: nat, spec: Result<(C.VoteKey, bool)>)
    requires i < |before.entries|
  {
    var e := before.entries[i];
    match spec
    case Ok((key, reached)) =>
      && r == Ok(())
      && after == C.Store(before.entries[i := Progress(e, sequence, if reached then ATTESTATION else APPROVALS, e.count + 1)],
                          C.Put(before.votes, e.offset + e.count, key), before.reserved)
    case Err(s) => r == Err(s) && after == before
  }

  ghost predicate Decided(r: Status.Outcome<()>, after: C.Store, spec: Status.Outcome<C.Store>) {
    match spec
    case Ok(n) => r == Status.Ok(()) && after == n
    case Err(e) => r == Status.Err(e)
  }

  /** What a refused CREATE leaves: the registration, when only the action was refused. */
  function Leftover(o: C.Oracle, s: C.Store, a: C.ContractAction, authorized: C.Authorization): C.Store {
    if C.Draft(o, a.contract).Err? || authorized(a.contract).Err? then s
    else
      match C.Register(o, s, a.contract)
      case Err(_) => s
      case Ok(n) => n
  }

  /** An entry after an accepted action. */
  function Progress(e: C.Entry, sequence: nat, state: nat, count: nat): C.Entry {
    e.(count := count, current := e.current.(sequence := sequence, state := state))
  }

  /** A slot after an accepted action: progress and votes move, addresses stay. */
  function NextSlot(s: Slot, sequence: nat, state: nat, count: nat): Slot {
    s.(current := s.current.(sequence := sequence, state := state), count := count)
  }

  class Snapshot {
    const decode: Decoder
    const entries: array<Slot>
    const votes: array<C.VoteKey>
    var entryCount: nat
    var reserved: nat
    var base: nat // address of the arena, 0 when nothing is allocated
    var drafts: seq<byte> // its contents

    ghost predicate Shaped()
      reads this
    {
      && entries.Length == C.MAX_CONTRACTS && votes.Length == C.MAX_VOTES
      && entryCount <= C.MAX_CONTRACTS && reserved <= C.MAX_VOTES
      && decode([]).Err? // no contract is empty
    }

    ghost predicate Valid()
      reads this, entries
    {
      Shaped() && AllSeated(decode, base, drafts, entries[..entryCount]) && (drafts != [] ==> base != 0)
    }

    /** What the snapshot means, addresses forgotten. */
    ghost function Store(): C.Store
      requires Shaped()
      reads this, entries, votes
    {
      C.Store(Abstract(decode, base, drafts, entries[..entryCount]), votes[..], reserved)
    }

    constructor (decode: Decoder)
      requires decode([]).Err?
      ensures this.decode == decode && Valid() && fresh(entries) && fresh(votes)
      ensures Store() == C.NO_CONTRACTS && base == 0 && drafts == []
    {
      this.decode := decode;
      entries := new Slot[C.MAX_CONTRACTS](_ => Slot(0, 0, 0, View(0, 0, 0, 0, 0, 0, 0, 0), 0, 0, 0, 0));
      votes := new C.VoteKey[C.MAX_VOTES](_ => C.VoteKey(0, 0));
      entryCount, reserved, base, drafts := 0, 0, 0, [];
    }

    /** A byte copy of `source`, still pointing into the source's arena. */
    constructor Copy(source: Snapshot, memory: nat)
      requires source.Valid()
      ensures decode == source.decode && Shaped() && fresh(entries) && fresh(votes)
      ensures entryCount == source.entryCount && reserved == source.reserved
      ensures entries[..entryCount] == source.entries[..source.entryCount] && votes[..] == source.votes[..]
      ensures base == memory && drafts == source.drafts
    {
      decode := source.decode;
      entries := new Slot[C.MAX_CONTRACTS](i requires 0 <= i < C.MAX_CONTRACTS reads source, source.entries
                                             requires source.entries.Length == C.MAX_CONTRACTS => source.entries[i]);
      votes := new C.VoteKey[C.MAX_VOTES](i requires 0 <= i < C.MAX_VOTES reads source, source.votes
                                            requires source.votes.Length == C.MAX_VOTES => source.votes[i]);
      entryCount, reserved, base, drafts := source.entryCount, source.reserved, memory, source.drafts;
    }

    /** bind: every slot that lay in the arena at `from` now lies in the current one. The
        first slot found outside it, or not decoding, stops the pass. */
    method Bind(from: nat) returns (ok: bool)
      requires Shaped() && base != 0
      modifies entries
      ensures Shaped()
      ensures ok <==> forall i :: 0 <= i < entryCount ==>
        Within(from, |drafts|, old(entries[i])) && decode(Span(from, drafts, old(entries[i].at), old(entries[i].length))).Ok?
      ensures ok ==> forall i :: 0 <= i < entryCount ==>
        entries[i] == Rebase(decode, drafts, from, base, old(entries[i]))
    {
      var i: nat := 0;
      while i < entryCount
        invariant i <= entryCount && Shaped()
        invariant forall k :: 0 <= k < i ==>
          && Within(from, |drafts|, old(entries[k]))
          && decode(Span(from, drafts, old(entries[k].at), old(entries[k].length))).Ok?
          && entries[k] == Rebase(decode, drafts, from, base, old(entries[k]))
        invariant forall k :: i <= k < entryCount ==> entries[k] == old(entries[k])
      {
        var s := entries[i];
        if !Within(from, |drafts|, s) { return false; }
        var at := s.at - from + base;
        SpanMoves(drafts, from, base, s.at, s.length);
        var d := decode(Span(base, drafts, at, s.length));
        if d.Err? { return false; }
        entries[i] := s.(at := at, current := Borrow(at, Progressed(d.value, s.current)));
        i := i + 1;
      }
      ok := true;
    }

    /** Binding a snapshot whose slots are seated in the arena at `from`: it cannot fail,
        and it changes addresses only. */
    method Relocate(from: nat)
      requires Shaped() && base != 0 && AllSeated(decode, from, drafts, entries[..entryCount])
      modifies entries
      ensures Valid()
      ensures entries[..entryCount] == RebaseAll(decode, drafts, from, base, old(entries[..entryCount]))
      ensures Abstract(decode, base, drafts, entries[..entryCount]) == Abstract(decode, from, drafts, old(entries[..entryCount]))
    {
      ghost var was := entries[..entryCount];
      SeatedEach(decode, from, drafts, was);
      assert forall i :: 0 <= i < entryCount ==> was[i] == entries[i];
      var ok := Bind(from);
      RebaseEach(decode, drafts, from, base, was);
      assert entries[..entryCount] == RebaseAll(decode, drafts, from, base, was);
      RelocationKeeps(decode, drafts, from, base, was);
    }

    /** stn_contract_snapshot_clone; `memory` is what malloc returned for the arena. */
    method Clone(memory: nat) returns (s: Snapshot?)
      requires Valid()
      ensures s == null <==> |drafts| != 0 && memory == 0
      ensures s != null ==> fresh(s) && fresh(s.entries) && fresh(s.votes) && s.Valid() && s.Store() == Store()
    {
      if |drafts| != 0 && memory == 0 { return null; }
      s := new Snapshot.Copy(this, if |drafts| == 0 then 0 else memory);
      if |drafts| == 0 {
        SeatedWithin(decode, base, drafts, entries[..entryCount]);
      } else {
        s.Relocate(base);
      }
    }

    /** stn_contract_state_find. */
    method Find(id: nat) returns (index: nat)
      requires entryCount <= entries.Length
      ensures index == FindSlot(entries[..entryCount], id)
    {
      index := 0;
      while index < entryCount
        invariant index <= entryCount
        invariant forall k :: 0 <= k < index ==> entries[k].id != id
      {
        if entries[index].id == id { return; }
        index := index + 1;
      }
    }

    /** The checks of stn_contract_state_register on a draft that already lies in the
        arena; `s` is what the snapshot means. */
    method Admit(o: C.Oracle, draft: seq<byte>, ghost s: C.Store) returns (r: Result<C.Entry>)
      requires o.decode == decode && Shaped() && |s.entries| == entryCount && |s.votes| == C.MAX_VOTES && s.reserved == reserved
      requires forall id :: FindSlot(entries[..entryCount], id) == C.Find(s.entries, id)
      ensures r == C.Admit(o, s, draft)
    {
      var id := C.Addressed(o, draft);
      if id.Err? { return Err(id.status); }
      var d := C.Draft(o, draft).value;
      var known := Find(id.value);
      if known < entryCount { return Err(Address); }
      if entryCount == entries.Length { return Err(Capacity); }
      if reserved + |d.participants| > votes.Length { return Err(Capacity); }
      var e := V.InitializeVotes(o, draft);
      if e.Err? { return Err(e.status); }
      r := Ok(C.Entry(e.value.0, draft, d, reserved, 0, e.value.1, e.value.1 / 2 + 1));
    }

    method RegisterAt(o: C.Oracle, at: nat, length: nat, ghost spec: Result<C.Store>) returns (r: Result<nat>)
      requires o.decode == decode && Valid() && base != 0 && base <= at && at - base + length <= |drafts|
      requires spec == C.Register(o, Store(), Span(base, drafts, at, length))
      modifies this`entryCount, this`reserved, entries
      ensures Valid()
      ensures Registered(r, old(entryCount), Store(), spec)
      ensures r.Err? ==> entryCount == old(entryCount) && reserved == old(reserved) && entries[..] == old(entries[..])
    {
      var draft := drafts[at - base..at - base + length];
      forall id ensures FindSlot(entries[..entryCount], id) == C.Find(Store().entries, id) {
        FindSame(decode, base, drafts, entries[..entryCount], id);
      }
      var e := Admit(o, draft, Store());
      if e.Err? { return Err(e.status); }
      Admitted(o, Store(), draft);
      Append(Slot(e.value.id, at, length, Borrow(at, e.value.current), reserved, 0, e.value.eligible, e.value.required),
             e.value.current);
      r := Ok(entryCount - 1);
    }

    static lemma Admitted(o: C.Oracle, s: C.Store, draft: seq<byte>)
      requires C.Admit(o, s, draft).Ok?
      ensures var e := C.Admit(o, s, draft).value;
        && o.decode(draft) == Ok(e.current) && e.draft == draft && e.offset == s.reserved && e.count == 0
        && e.eligible <= |e.current.participants|
        && |s.entries| != C.MAX_CONTRACTS && s.reserved + |e.current.participants| <= |s.votes|
    {
      ElectorateSize(o, draft);
    }

    static lemma ElectorateSize(o: C.Oracle, draft: seq<byte>)
      requires C.Electorate(o, draft).Ok?
      ensures C.Electorate(o, draft).value.1 <= |C.Draft(o, draft).value.participants|
      ensures C.Electorate(o, draft).value.0 == C.Addressed(o, draft).value
    {
      ApproversFit(C.Draft(o, draft).value.participants);
    }

    static lemma {:induction false} ApproversFit(ps: seq<Participant>)
      ensures |C.Approvers(ps)| <= |ps|
    {
      if ps != [] { ApproversFit(ps[1..]); }
    }

    method Append(slot: Slot, d: Contract)
      requires Valid() && entryCount < entries.Length && reserved + |d.participants| <= C.MAX_VOTES
      requires Within(base, |drafts|, slot) && Fit(slot) && decode(Span(base, drafts, slot.at, slot.length)) == Ok(d)
      requires slot.current == Borrow(slot.at, d)
      modifies this`entryCount, this`reserved, entries
      ensures Valid() && entryCount == old(entryCount) + 1
      ensures var e := C.Entry(slot.id, Span(base, drafts, slot.at, slot.length), d, slot.offset, slot.count, slot.eligible, slot.required);
        Store() == C.Store(old(Store().entries) + [e], votes[..], old(reserved) + |d.participants|)
    {
      ghost var was := entries[..entryCount];
      AppendKeeps(decode, base, drafts, was, slot);
      entries[entryCount] := slot;
      entryCount, reserved := entryCount + 1, reserved + |d.participants|;
      assert entries[..entryCount] == was + [slot];
    }

    /** stn_contract_snapshot_register; `memory` is what malloc returned for the larger
        arena. A refused registration puts the old arena back, address for address. */
    method Register(o: C.Oracle, draft: seq<byte>, memory: nat) returns (r: Result<nat>)
      requires o.decode == decode && Valid()
      modifies this, entries
      ensures Valid()
      ensures |draft| > MAX_SIZE || memory == 0 ==> r == Err(Capacity)
      ensures |draft| <= MAX_SIZE && memory != 0 ==>
        Registered(r, old(entryCount), Store(), C.Register(o, old(Store()), draft))
      ensures r.Err? ==>
        && base == old(base) && drafts == old(drafts) && Store() == old(Store())
        && entryCount == old(entryCount) && entries[..entryCount] == old(entries[..entryCount])
    {
      if |draft| > MAX_SIZE { return Err(Capacity); }
      if memory == 0 { return Err(Capacity); }
      r := RegisterGrown(o, draft, memory, C.Register(o, Store(), draft));
    }

    method RegisterGrown(o: C.Oracle, draft: seq<byte>, memory: nat, ghost spec: Result<C.Store>) returns (r: Result<nat>)
      requires o.decode == decode && Valid() && memory != 0 && spec == C.Register(o, Store(), draft)
      modifies this, entries
      ensures Valid() && Registered(r, old(entryCount), Store(), spec)
      ensures r.Err? ==>
        && base == old(base) && drafts == old(drafts) && Store() == old(Store())
        && entryCount == old(entryCount) && entries[..entryCount] == old(entries[..entryCount])
    {
      var oldBase, oldDrafts := base, drafts;
      ghost var was := entries[..entryCount];
      SeatedWithin(decode, base, drafts, was);
      Grow(draft, memory);
      TailSpan(memory, oldDrafts, draft);
      r := RegisterAt(o, memory + |oldDrafts|, |draft|, spec);
      if r.Err? {
        assert entries[..entryCount] == RebaseAll(decode, drafts, oldBase, memory, was);
        Restore(oldBase, oldDrafts, draft, was);
      }
    }

    /** Moving to a larger arena that ends with `draft`; what the slots mean is untouched. */
    method Grow(draft: seq<byte>, memory: nat)
      requires Valid() && memory != 0
      modifies this`base, this`drafts, entries
      ensures Valid() && Store() == old(Store())
      ensures base == memory && drafts == old(drafts) + draft
      ensures AllSeated(decode, old(base), old(drafts), old(entries[..entryCount]))
      ensures AllSeated(decode, old(base), drafts, old(entries[..entryCount]))
      ensures entries[..entryCount] == RebaseAll(decode, drafts, old(base), memory, old(entries[..entryCount]))
    {
      var oldBase, oldDrafts := base, drafts;
      ghost var was := entries[..entryCount];
      SeatedWithin(decode, base, drafts, was);
      GrowthKeeps(decode, base, drafts, draft, was);
      base, drafts := memory, drafts + draft;
      if |oldDrafts| != 0 {
        Relocate(oldBase);
      }
    }

    /** The rollback of a refused registration: bind back into the old arena. */
    method Restore(oldBase: nat, oldDrafts: seq<byte>, draft: seq<byte>, ghost was: seq<Slot>)
      requires Shaped() && base != 0 && drafts == oldDrafts + draft && (oldDrafts != [] ==> oldBase != 0)
      requires |was| == entryCount && AllSeated(decode, oldBase, oldDrafts, was)
      requires entries[..entryCount] == RebaseAll(decode, drafts, oldBase, base, was)
      modifies this`base, this`drafts, entries
      ensures Valid() && base == oldBase && drafts == oldDrafts && entries[..entryCount] == was
    {
      var memory := base;
      SeatedWithin(decode, oldBase, oldDrafts, was);
      RebaseAllForgets(decode, oldDrafts, draft, oldBase, memory, was);
      RelocationKeeps(decode, oldDrafts, oldBase, memory, was);
      base, drafts := oldBase, oldDrafts;
      if |oldDrafts| != 0 {
        Relocate(memory);
      }
    }

    /** Writing back one entry. */
    method Update(i: nat, slot: Slot)
      requires Valid() && i < entryCount && Seated(decode, base, drafts, slot)
      modifies entries
      ensures Valid()
      ensures Store() == C.Store(old(Store().entries)[i := ToEntry(decode, base, drafts, slot)], votes[..], reserved)
    {
      ghost var was := entries[..entryCount];
      UpdateKeeps(decode, base, drafts, was, i, slot);
      entries[i] := slot;
      assert entries[..entryCount] == was[i := slot];
    }

    method SlotAt(i: nat) returns (slot: Slot, draft: seq<byte>)
      requires Valid() && i < entryCount
      ensures slot == entries[i] && Seated(decode, base, drafts, slot) && draft == Span(base, drafts, slot.at, slot.length)
      ensures ToEntry(decode, base, drafts, slot) == Store().entries[i]
    {
      slot := entries[i];
      SeatedEach(decode, base, drafts, entries[..entryCount]);
      AbstractEach(decode, base, drafts, entries[..entryCount]);
      assert entries[..entryCount][i] == slot;
      draft := drafts[slot.at - base..slot.at - base + slot.length];
    }

    /** stn_contract_vote_apply on the slice of contract `i`. */
    method Cast(o: C.Oracle, i: nat, c: Contract, sequence: nat, actor: nat) returns (r: Result<()>)
      requires o.decode == decode && Valid() && i < entryCount
      modifies entries, votes
      ensures Valid() && Counted(r, old(Store()), Store(), i,
        C.Vote(o, c, sequence, old(Store()).entries[i].draft, actor, C.BallotOf(old(Store()), old(Store()).entries[i])))
    {
      if c.state != REVIEW && c.state != APPROVALS { return Err(Transition); }
      if c.sequence == TWO_64 - 1 || sequence != c.sequence + 1 { return Err(Sequence); }
      ghost var before := Store();
      ghost var e := before.entries[i];
      VoteSplits(o, c, sequence, e.draft, actor, C.BallotOf(before, e));
      r := Record(o, i, sequence, actor);
    }

    /** The accepted key and the progress it brings. */
    method Record(o: C.Oracle, i: nat, sequence: nat, actor: nat) returns (r: Result<()>)
      requires o.decode == decode && Valid() && i < entryCount
      modifies entries, votes
      ensures Valid() && Recorded(r, old(Store()), Store(), i, sequence,
        C.Accept(o, C.BallotOf(old(Store()), old(Store()).entries[i]), old(Store()).entries[i].draft, actor))
    {
      var slot, draft := SlotAt(i);
      ghost var before := Store();
      ghost var e := before.entries[i];
      ghost var spec := C.Accept(o, C.BallotOf(before, e), e.draft, actor);
      var vote := V.AcceptVote(o, votes, slot.offset, slot.count, slot.id, slot.eligible, slot.required, draft, actor);
      assert V.Written(vote, before.votes, votes[..], e.offset + e.count, spec);
      if vote.Err? { return Err(vote.status); }
      NextMeans(decode, base, drafts, slot, sequence, if vote.value then ATTESTATION else APPROVALS, slot.count + 1);
      Update(i, NextSlot(slot, sequence, if vote.value then ATTESTATION else APPROVALS, slot.count + 1));
      r := Ok(());
    }

    /** stn_contract_state_apply_vote: the key goes into the contract's own slice, and the
        entry keeps borrowing from its draft, never from the caller's bytes. */
    method ApplyVote(o: C.Oracle, i: nat, current: seq<byte>, sequence: nat, actor: nat) returns (r: Result<()>)
      requires o.decode == decode && Valid() && i < entryCount
      modifies entries, votes
      ensures Valid() && Applied(r, old(Store()), Store(), C.ApplyVote(o, old(Store()), i, current, sequence, actor))
    {
      var slot, draft := SlotAt(i);
      var d := C.Draft(o, draft);
      if d.Err? { return Err(d.status); }
      var c := decode(current);
      if c.Err? { return Err(c.status); }
      if !C.SameDeal(d.value, c.value) { return Err(Address); }
      if c.value.sequence != slot.current.sequence || c.value.state != slot.current.state { return Err(State); }
      VoteMeans(o, Store(), i, c.value, sequence, actor);
      r := Cast(o, i, c.value, sequence, actor);
    }

    /** The comparison loop over registered drafts in contract_apply_transaction. */
    method Match(o: C.Oracle, contract: seq<byte>) returns (i: nat)
      requires o.decode == decode && Valid()
      ensures i == C.Match(o, Store().entries, contract)
    {
      i := 0;
      ghost var es := Store().entries;
      while i < entryCount
        invariant i <= entryCount
        invariant forall k :: 0 <= k < i ==> !C.Lineage(o, es[k].draft, contract)
      {
        var slot, draft := SlotAt(i);
        if C.Lineage(o, draft, contract) { return; }
        i := i + 1;
      }
    }

    /** stn_contract_apply_action on a registered contract. */
    method Advance(i: nat, action: nat, sequence: nat) returns (r: Status.Outcome<()>)
      requires Valid() && i < entryCount
      modifies entries
      ensures Valid() && Advanced(r, old(Store()), Store(), i, action, sequence)
    {
      var slot, draft := SlotAt(i);
      var c := Progressed(decode(draft).value, slot.current);
      var n := ApplyAction(c, action, sequence);
      if n.Err? { return Status.Err(Status.Content); }
      NextMeans(decode, base, drafts, slot, n.value.sequence, n.value.state, slot.count);
      KeepMeans(Store().entries[i], n.value);
      Update(i, NextSlot(slot, n.value.sequence, n.value.state, slot.count));
      r := Status.Ok(());
    }

    /** The CREATE branch of contract_apply_transaction, when memory for the draft is found.
        An action refused after the registration leaves the registered draft behind. */
    method Create(o: C.Oracle, a: C.ContractAction, authorized: C.Authorization, memory: nat) returns (r: Status.Outcome<()>)
      requires o.decode == decode && Valid() && memory != 0 && |a.contract| <= MAX_SIZE
      modifies this, entries
      ensures Valid() && Decided(r, Store(), C.ApplyCreate(o, old(Store()), a, authorized))
      ensures r.Err? ==> Store() == Leftover(o, old(Store()), a, authorized)
    {
      var d := C.Draft(o, a.contract);
      if d.Err? { return Status.Err(Status.Content); }
      if authorized(a.contract).Err? { return Status.Err(authorized(a.contract).status); }
      ghost var before := Store();
      var index := Register(o, a.contract, memory);
      if index.Err? { return Status.Err(C.AsData(index.status)); }
      r := Advance(index.value, a.action, a.sequence);
      assert r.Ok? ==> Store().entries == before.entries + [Store().entries[index.value]];
    }

    /** The other branches: find the contract by lineage, then vote or move it. */
    method Act(o: C.Oracle, a: C.ContractAction, authorized: C.Authorization) returns (r: Status.Outcome<()>)
      requires o.decode == decode && Valid()
      modifies entries, votes
      ensures Valid() && Decided(r, Store(), C.ApplyOther(o, old(Store()), a, authorized))
      ensures r.Err? ==> Store() == old(Store())
    {
      var i := Match(o, a.contract);
      if i == entryCount { return Status.Err(Status.Content); }
      var slot, draft := SlotAt(i);
      var c := decode(a.contract).value;
      if c.sequence != slot.current.sequence || c.state != slot.current.state { return Status.Err(Status.Content); }
      if authorized(draft).Err? { return Status.Err(authorized(draft).status); }
      if a.action == APPROVE {
        var vote := ApplyVote(o, i, a.contract, a.sequence, a.actor);
        r := if vote.Ok? then Status.Ok(()) else Status.Err(C.AsData(vote.status));
      } else {
        SameAction(Store().entries[i], c, a.action, a.sequence);
        r := Advance(i, a.action, a.sequence);
      }
    }
  }

  /** Progress written into a slot is progress of the contract it stands for. */
  lemma NextMeans(decode: Decoder, base: nat, bytes: seq<byte>, s: Slot, sequence: nat, state: nat, count: nat)
    requires Seated(decode, base, bytes, s) && count <= s.eligible
    ensures var n, e := NextSlot(s, sequence, state, count), ToEntry(decode, base, bytes, s);
      && Seated(decode, base, bytes, n)
      && ToEntry(decode, base, bytes, n)
         == Progress(e, sequence, state, count)
  {
  }

  lemma VoteSplits(o: C.Oracle, c: Contract, sequence: nat, draft: seq<byte>, actor: nat, b: C.Ballot)
    requires c.state == REVIEW || c.state == APPROVALS
    requires c.sequence != TWO_64 - 1 && sequence == c.sequence + 1
    ensures var a, v := C.Accept(o, b, draft, actor), C.Vote(o, c, sequence, draft, actor, b);
      && (a.Err? ==> v == Err(a.status))
      && (a.Ok? ==> v == Ok((c.(sequence := sequence, state := if a.value.1 then ATTESTATION else APPROVALS), a.value.0)))
  {
  }

  /** What an entry keeps of a contract that describes the same deal. */
  lemma KeepMeans(e: C.Entry, c: Contract)
    requires c.kind == e.current.kind && c.created == e.current.created
    ensures C.Keep(e, c) == Progress(e, c.sequence, c.state, e.count)
  {
  }

  lemma VoteMeans(o: C.Oracle, s: C.Store, i: nat, c: Contract, sequence: nat, actor: nat)
    requires i < |s.entries|
    requires c.kind == s.entries[i].current.kind && c.created == s.entries[i].current.created
    ensures var e := s.entries[i];
      var vote := C.Vote(o, c, sequence, e.draft, actor, C.BallotOf(s, e));
      vote.Ok? ==> C.Keep(e, vote.value.0).(count := e.count + 1) == Progress(e, vote.value.0.sequence, vote.value.0.state, e.count + 1)
  {
  }

  /** The action is applied to the caller's copy of the contract; the registered one gives
      the same answer, because both agree on everything an action looks at. */
  lemma SameAction(e: C.Entry, c: Contract, action: nat, sequence: nat)
    requires c.kind == e.current.kind && c.created == e.current.created
    requires c.sequence == e.current.sequence && c.state == e.current.state
    ensures ApplyAction(c, action, sequence).Ok? == ApplyAction(e.current, action, sequence).Ok?
    ensures ApplyAction(c, action, sequence).Ok? ==>
      C.Keep(e, ApplyAction(c, action, sequence).value) == C.Keep(e, ApplyAction(e.current, action, sequence).value)
  {
  }
}
