/** What every run of contract actions keeps: majorities are real, vote slices stay apart,
    sequences count actions, and the agreed terms never change. */
module ContractProofs {
  import opened BigEndian
  import opened Contract
  import opened Contracts

  lemma {:induction false} ApproversBound(ps: seq<Participant>)
    ensures |Approvers(ps)| <= |ps|
    ensures forall x :: x in Approvers(ps) <==> exists i :: 0 <= i < |ps| && ps[i].role == APPROVER && ps[i].identity == x
  {
    if ps != [] {
      ApproversBound(ps[1..]);
      forall x ensures x in Approvers(ps) <==> exists i :: 0 <= i < |ps| && ps[i].role == APPROVER && ps[i].identity == x {
        if x in Approvers(ps) && !(ps[0].role == APPROVER && ps[0].identity == x) {
          var i :| 0 <= i < |ps[1..]| && ps[1..][i].role == APPROVER && ps[1..][i].identity == x;
          assert ps[i + 1].role == APPROVER && ps[i + 1].identity == x;
        }
        if i :| 0 <= i < |ps| && ps[i].role == APPROVER && ps[i].identity == x {
          if i > 0 { assert ps[1..][i - 1] == ps[i]; }
        }
      }
    }
  }

  // --------------------------------------------------------------------- uniqueness

  /** A contract descends from at most one registered draft: the draft is determined by
      what the lineage check compares, and equal drafts have equal addresses. */
  lemma LineageUnique(o: Oracle, s: Store, i: nat, j: nat, contract: seq<byte>)
    requires Standard(o) && Sound(o, s) && i < |s.entries| && j < |s.entries|
    requires Lineage(o, s.entries[i].draft, contract) && Lineage(o, s.entries[j].draft, contract)
    ensures i == j
  {
    var a, b := s.entries[i], s.entries[j];
    EncodeDecode(a.draft);
    EncodeDecode(b.draft);
    assert EntrySound(o, s.votes, a) && EntrySound(o, s.votes, b);
    assert o.decode(a.draft).value == o.decode(b.draft).value;
    assert a.id == b.id;
    assert i < j ==> Before(a, b);
    assert j < i ==> Before(b, a);
  }

  // -------------------------------------------------------------------- preservation

  lemma RegisterKeeps(o: Oracle, s: Store, draft: seq<byte>)
    requires Sound(o, s) && Register(o, s, draft).Ok?
    ensures Sound(o, Register(o, s, draft).value)
    ensures var r := Register(o, s, draft).value;
      && |r.entries| == |s.entries| + 1 && r.entries[..|s.entries|] == s.entries && r.votes == s.votes
      && r.entries[|s.entries|].current == Draft(o, draft).value
  {
    var r := Register(o, s, draft).value;
    var n := |s.entries|;
    var e := r.entries[n];
    ApproversBound(e.current.participants);
    assert Slice(s.votes, e.offset, 0) == [];
    assert EntrySound(o, s.votes, e);
    forall i | 0 <= i < n ensures Before(s.entries[i], e) {
      assert s.entries[i].id != e.id;
    }
  }

  /** Changing state and sequence alone keeps an entry sound while the tally agrees. */
  lemma MoveKeeps(o: Oracle, s: Store, i: nat, c: Contract)
    requires Sound(o, s) && i < |s.entries|
    requires SameDeal(s.entries[i].current, c)
    requires Tally(c.state, s.entries[i].count, s.entries[i].required)
    ensures Sound(o, s.(entries := s.entries[i := Keep(s.entries[i], c)]))
  {
    var e := s.entries[i];
    var n := Keep(e, c);
    assert EntrySound(o, s.votes, e);
    assert n.current.participants == e.current.participants;
    assert EntrySound(o, s.votes, n);
    var r := s.(entries := s.entries[i := n]);
    EntriesApart(s.entries, i, n);
  }

  /** Only APPROVE changes the vote count, so every other action keeps the tally. */
  lemma ActionKeepsTally(state: nat, action: nat, count: nat, required: nat)
    requires Tally(state, count, required) && action != APPROVE && Next(state, action).Ok?
    ensures Tally(Next(state, action).value, count, required)
  {
  }

  lemma VoteSlice(votes: seq<VoteKey>, e: Entry, k: VoteKey)
    requires e.offset + e.count < |votes|
    ensures Slice(Put(votes, e.offset + e.count, k), e.offset, e.count + 1) == Slice(votes, e.offset, e.count) + [k]
  {
  }

  /** A vote written into one contract's slice touches no other slice. */
  lemma OtherSlice(votes: seq<VoteKey>, at: nat, k: VoteKey, offset: nat, n: nat)
    requires at < offset || offset + n <= at
    ensures Slice(Put(votes, at, k), offset, n) == Slice(votes, offset, n)
  {
  }

  /** What an accepted vote establishes about the voter and the new contract. */
  lemma VoteFacts(o: Oracle, c: Contract, sequence: nat, draft: seq<byte>, actor: nat, b: Ballot)
    requires Vote(o, c, sequence, draft, actor, b).Ok?
    ensures var (n, key) := Vote(o, c, sequence, draft, actor, b).value;
      && key == VoteKey(b.contract, actor) && key !in b.accepted && |b.accepted| < b.eligible
      && Draft(o, draft).Ok? && actor in Approvers(Draft(o, draft).value.participants)
      && c.state in {REVIEW, APPROVALS} && sequence == c.sequence + 1
      && n == c.(sequence := sequence, state := if |b.accepted| + 1 >= b.required then ATTESTATION else APPROVALS)
  {
  }

  function Recorded(s: Store, i: nat, vote: (Contract, VoteKey)): Store
    requires i < |s.entries|
  {
    var e := s.entries[i];
    s.(entries := s.entries[i := Keep(e, vote.0).(count := e.count + 1)], votes := Put(s.votes, e.offset + e.count, vote.1))
  }

  lemma ApplyVoteFacts(o: Oracle, s: Store, i: nat, current: seq<byte>, sequence: nat, actor: nat)
    requires i < |s.entries| && ApplyVote(o, s, i, current, sequence, actor).Ok?
    ensures var e, c := s.entries[i], o.decode(current).value;
      && o.decode(current).Ok? && c.sequence == e.current.sequence && c.state == e.current.state
      && Vote(o, c, sequence, e.draft, actor, BallotOf(s, e)).Ok?
      && SameDeal(Draft(o, e.draft).value, c)
      && ApplyVote(o, s, i, current, sequence, actor).value
         == Recorded(s, i, Vote(o, c, sequence, e.draft, actor, BallotOf(s, e)).value)
  {
  }

  /** The entry a vote leaves behind. */
  function Voted(e: Entry): Entry {
    e.(count := e.count + 1,
       current := e.current.(sequence := e.current.sequence + 1,
                             state := if e.count + 1 >= e.required then ATTESTATION else APPROVALS))
  }

  lemma VotedEntry(o: Oracle, s: Store, i: nat, current: seq<byte>, sequence: nat, actor: nat)
    requires Sound(o, s) && i < |s.entries| && ApplyVote(o, s, i, current, sequence, actor).Ok?
    ensures var r, e := ApplyVote(o, s, i, current, sequence, actor).value, s.entries[i];
      && e.count < e.required && e.current.state in {REVIEW, APPROVALS} && e.count < |e.current.participants|
      && e.offset + e.count < |s.votes|
      && r == s.(entries := s.entries[i := Voted(e)], votes := Put(s.votes, e.offset + e.count, VoteKey(e.id, actor)))
      && actor in Approvers(e.current.participants)
      && VoteKey(e.id, actor) !in Slice(s.votes, e.offset, e.count)
  {
    var e := s.entries[i];
    assert EntrySound(o, s.votes, e);
    ApplyVoteFacts(o, s, i, current, sequence, actor);
    VoteFacts(o, o.decode(current).value, sequence, e.draft, actor, BallotOf(s, e));
    ApproversBound(e.current.participants);
  }

  lemma VotedSound(o: Oracle, votes: seq<VoteKey>, e: Entry, actor: nat)
    requires EntrySound(o, votes, e) && e.count < e.required && e.current.state in {REVIEW, APPROVALS}
    requires e.count < |e.current.participants| && actor in Approvers(e.current.participants)
    requires VoteKey(e.id, actor) !in Slice(votes, e.offset, e.count)
    ensures EntrySound(o, Put(votes, e.offset + e.count, VoteKey(e.id, actor)), Voted(e))
  {
    var key := VoteKey(e.id, actor);
    VoteSlice(votes, e, key);
    assert FairVotes(Slice(votes, e.offset, e.count) + [key], e.id, Approvers(e.current.participants));
  }

  /** A neighbour's vote leaves an entry sound. */
  lemma NeighbourSound(o: Oracle, votes: seq<VoteKey>, at: nat, k: VoteKey, f: Entry)
    requires EntrySound(o, votes, f) && (at < f.offset || f.offset + |f.current.participants| <= at)
    ensures EntrySound(o, Put(votes, at, k), f)
  {
    OtherSlice(votes, at, k, f.offset, f.count);
  }

  /** Writing into the slice of contract `i` leaves all the others sound. */
  lemma NeighboursSound(o: Oracle, s: Store, i: nat, at: nat, key: VoteKey)
    requires Sound(o, s) && i < |s.entries|
    requires s.entries[i].offset <= at < s.entries[i].offset + |s.entries[i].current.participants|
    ensures forall k :: 0 <= k < |s.entries| && k != i ==> EntrySound(o, Put(s.votes, at, key), s.entries[k])
  {
    forall k | 0 <= k < |s.entries| && k != i ensures EntrySound(o, Put(s.votes, at, key), s.entries[k]) {
      assert k < i ==> Before(s.entries[k], s.entries[i]);
      assert i < k ==> Before(s.entries[i], s.entries[k]);
      NeighbourSound(o, s.votes, at, key, s.entries[k]);
    }
  }

  /** Replacing one entry and the vote buffer keeps the store sound when every part is. */
  lemma Reassembled(o: Oracle, s: Store, i: nat, f: Entry, votes: seq<VoteKey>)
    requires Sound(o, s) && i < |s.entries| && |votes| == |s.votes|
    requires f.id == s.entries[i].id && f.offset == s.entries[i].offset
    requires f.current.participants == s.entries[i].current.participants
    requires EntrySound(o, votes, f)
    requires forall k :: 0 <= k < |s.entries| && k != i ==> EntrySound(o, votes, s.entries[k])
    ensures Sound(o, s.(entries := s.entries[i := f], votes := votes))
  {
    EntriesApart(s.entries, i, f);
  }

  lemma VoteWritten(o: Oracle, s: Store, i: nat, actor: nat)
    requires Sound(o, s) && i < |s.entries|
    requires var e := s.entries[i];
      && e.count < e.required && e.current.state in {REVIEW, APPROVALS} && e.count < |e.current.participants|
      && actor in Approvers(e.current.participants) && VoteKey(e.id, actor) !in Slice(s.votes, e.offset, e.count)
    ensures var e := s.entries[i];
      Sound(o, s.(entries := s.entries[i := Voted(e)], votes := Put(s.votes, e.offset + e.count, VoteKey(e.id, actor))))
  {
    var e := s.entries[i];
    var at, key := e.offset + e.count, VoteKey(e.id, actor);
    var f, votes := Voted(e), Put(s.votes, at, key);
    assert EntrySound(o, votes, f) by {
      assert EntrySound(o, s.votes, e);
      VotedSound(o, s.votes, e, actor);
    }
    NeighboursSound(o, s, i, at, key);
    Reassembled(o, s, i, f, votes);
  }

  lemma EntriesApart(entries: seq<Entry>, i: nat, f: Entry)
    requires Apart(entries)
    requires i < |entries| && f.id == entries[i].id && f.offset == entries[i].offset
    requires f.current.participants == entries[i].current.participants
    ensures Apart(entries[i := f])
  {
    var n := entries[i := f];
    forall a, b | 0 <= a < b < |n| ensures Before(n[a], n[b]) {
      assert Before(entries[a], entries[b]);
    }
  }

  lemma VoteKeeps(o: Oracle, s: Store, i: nat, current: seq<byte>, sequence: nat, actor: nat)
    requires Sound(o, s) && i < |s.entries| && ApplyVote(o, s, i, current, sequence, actor).Ok?
    ensures Sound(o, ApplyVote(o, s, i, current, sequence, actor).value)
  {
    VotedEntry(o, s, i, current, sequence, actor);
    VoteWritten(o, s, i, actor);
  }

  /** An eligible approver who has not voted always finds room: the slice cannot be full
      while the contract is still collecting votes. */
  lemma VoteNeverFull(o: Oracle, s: Store, i: nat, current: seq<byte>, sequence: nat, actor: nat)
    requires Standard(o) && Sound(o, s) && i < |s.entries|
    ensures ApplyVote(o, s, i, current, sequence, actor) != Err(Capacity)
    ensures ApplyVote(o, s, i, current, sequence, actor) != Err(Argument)
  {
    var e := s.entries[i];
    assert EntrySound(o, s.votes, e);
    ApproversBound(e.current.participants);
    NoCapacityInDecode(current);
  }

  lemma NoCapacityInDecode(b: seq<byte>)
    ensures Decode(b) != Err(Capacity) && Decode(b) != Err(Argument)
  {
  }

  // -------------------------------------------------------------------------- runs

  /** The entry an accepted action belongs to. */
  function Touched(o: Oracle, s: Store, a: ContractAction): nat {
    if a.action == CREATE then |s.entries| else Match(o, s.entries, a.contract)
  }

  /** What one accepted action does: soundness is kept, exactly one contract moves, by one
      sequence number and along an edge of the state machine, and no agreed term changes. */
  lemma ApplyKeeps(o: Oracle, s: Store, a: ContractAction, authorized: Authorization)
    requires Sound(o, s) && Apply(o, s, a, authorized).Ok?
    ensures Sound(o, Apply(o, s, a, authorized).value)
    ensures Step(o, s, Apply(o, s, a, authorized).value, a)
  {
    if a.action == CREATE {
      RegisterKeeps(o, s, a.contract);
      var r, n := Register(o, s, a.contract).value, |s.entries|;
      var c := ApplyAction(r.entries[n].current, a.action, a.sequence).value;
      assert EntrySound(o, r.votes, r.entries[n]);
      MoveKeeps(o, r, n, c);
      assert r.entries[n := Keep(r.entries[n], c)] == s.entries + [Keep(r.entries[n], c)];
    } else {
      OtherKeeps(o, s, a, authorized);
    }
  }

  lemma OtherKeeps(o: Oracle, s: Store, a: ContractAction, authorized: Authorization)
    requires Sound(o, s) && a.action != CREATE && Apply(o, s, a, authorized).Ok?
    ensures Sound(o, Apply(o, s, a, authorized).value)
    ensures Step(o, s, Apply(o, s, a, authorized).value, a)
  {
    var i := Match(o, s.entries, a.contract);
    OtherFacts(o, s, a, authorized);
    if a.action == APPROVE {
      VotedEntry(o, s, i, a.contract, a.sequence, a.actor);
      VoteKeeps(o, s, i, a.contract, a.sequence, a.actor);
    } else {
      ActionMoves(o, s, i, o.decode(a.contract).value, a.action, a.sequence);
    }
  }

  lemma OtherFacts(o: Oracle, s: Store, a: ContractAction, authorized: Authorization)
    requires a.action != CREATE && Apply(o, s, a, authorized).Ok?
    ensures var i, r := Match(o, s.entries, a.contract), Apply(o, s, a, authorized).value;
      && i < |s.entries|
      && var e, c := s.entries[i], o.decode(a.contract).value;
      && o.decode(a.contract).Ok? && SameDeal(Draft(o, e.draft).value, c)
      && c.sequence == e.current.sequence && c.state == e.current.state
      && (a.action == APPROVE ==> ApplyVote(o, s, i, a.contract, a.sequence, a.actor) == Ok(r))
      && (a.action != APPROVE ==> ApplyAction(c, a.action, a.sequence).Ok?)
      && (a.action != APPROVE ==> r == s.(entries := s.entries[i := Keep(e, ApplyAction(c, a.action, a.sequence).value)]))
  {
  }

  lemma ActionMoves(o: Oracle, s: Store, i: nat, c: Contract, action: nat, sequence: nat)
    requires Sound(o, s) && i < |s.entries| && action != APPROVE && action != CREATE
    requires var e := s.entries[i];
      SameDeal(Draft(o, e.draft).value, c) && c.sequence == e.current.sequence && c.state == e.current.state
    requires ApplyAction(c, action, sequence).Ok?
    ensures var e, f := s.entries[i], Keep(s.entries[i], ApplyAction(c, action, sequence).value);
      && Sound(o, s.(entries := s.entries[i := f]))
      && Moved(e, f, action) && f.current.sequence == e.current.sequence + 1
  {
    var e, n := s.entries[i], ApplyAction(c, action, sequence).value;
    assert EntrySound(o, s.votes, e);
    ActionKeepsTally(c.state, action, e.count, e.required);
    MoveKeeps(o, s, i, n);
  }

  ghost predicate Step(o: Oracle, s: Store, n: Store, a: ContractAction) {
    var i := Touched(o, s, a);
    && i <= |s.entries|
    && |n.entries| == (if i == |s.entries| then i + 1 else |s.entries|)
    && (forall k :: 0 <= k < |s.entries| && k != i ==> n.entries[k] == s.entries[k])
    && n.entries[i].current.sequence == (if i == |s.entries| then 1 else s.entries[i].current.sequence + 1)
    && (i < |s.entries| ==> Moved(s.entries[i], n.entries[i], a.action))
  }

  ghost predicate Moved(e: Entry, f: Entry, action: nat) {
    && f.id == e.id && f.draft == e.draft && SameDeal(e.current, f.current)
    && f.offset == e.offset && f.eligible == e.eligible && f.required == e.required
    && f.count == (if action == APPROVE then e.count + 1 else e.count)
    && f.current.state > DRAFT
    && if action == APPROVE then f.current.state in {APPROVALS, ATTESTATION} && e.current.state in {REVIEW, APPROVALS}
       else Next(e.current.state, action) == Ok(f.current.state)
  }

  /** The draft an action is authorized against: its own when it creates, the registered one
      otherwise. */
  function DraftOf(o: Oracle, s: Store, a: ContractAction): seq<byte> {
    var i := Match(o, s.entries, a.contract);
    if a.action == CREATE || i >= |s.entries| then a.contract else s.entries[i].draft
  }

  /** No action takes effect without authorization against the draft that is on record. */
  lemma ActionIsAuthorized(o: Oracle, s: Store, a: ContractAction, authorized: Authorization)
    requires Apply(o, s, a, authorized).Ok?
    ensures authorized(DraftOf(o, s, a)).Ok?
  {
  }

  datatype Request = Request(action: ContractAction, authorized: Authorization)

  function After(o: Oracle, s: Store, q: Request): Store {
    match Apply(o, s, q.action, q.authorized)
    case Ok(n) => n
    case Err(_) => s
  }

  function Run(o: Oracle, s: Store, qs: seq<Request>): Store
    decreases |qs|
  {
    if qs == [] then s else Run(o, After(o, s, qs[0]), qs[1..])
  }

  function Hit(o: Oracle, s: Store, q: Request, i: nat): nat {
    if Apply(o, s, q.action, q.authorized).Ok? && Touched(o, s, q.action) == i then 1 else 0
  }

  /** How many requests of a run were accepted for contract `i`. */
  function Accepted(o: Oracle, s: Store, qs: seq<Request>, i: nat): nat
    decreases |qs|
  {
    if qs == [] then 0
    else
      Hit(o, s, qs[0], i) + Accepted(o, After(o, s, qs[0]), qs[1..], i)
  }

  function SequenceAt(s: Store, i: nat): nat {
    if i < |s.entries| then s.entries[i].current.sequence else 0
  }

  lemma NoContractsSound(o: Oracle)
    ensures Sound(o, NO_CONTRACTS)
  {
  }

  /** Over every run: the store stays sound, contracts are never dropped or renegotiated,
      and a contract's sequence counts exactly its accepted actions. */
  lemma {:induction false} RunKeeps(o: Oracle, s: Store, qs: seq<Request>)
    requires Sound(o, s)
    ensures Sound(o, Run(o, s, qs))
    ensures |s.entries| <= |Run(o, s, qs).entries|
    ensures forall i :: 0 <= i < |s.entries| ==>
      var e, f := s.entries[i], Run(o, s, qs).entries[i];
      f.id == e.id && f.draft == e.draft && SameDeal(e.current, f.current) && e.count <= f.count
    ensures forall i: nat :: SequenceAt(Run(o, s, qs), i) == SequenceAt(s, i) + Accepted(o, s, qs, i)
    decreases |qs|
  {
    if qs != [] {
      var n := After(o, s, qs[0]);
      if Apply(o, s, qs[0].action, qs[0].authorized).Ok? {
        ApplyKeeps(o, s, qs[0].action, qs[0].authorized);
      }
      RunKeeps(o, n, qs[1..]);
      OneCount(o, s, qs[0]);
    }
  }

  lemma OneCount(o: Oracle, s: Store, q: Request)
    requires Sound(o, s)
    ensures forall i: nat :: SequenceAt(After(o, s, q), i) == SequenceAt(s, i) + Hit(o, s, q, i)
    ensures var n := After(o, s, q);
      && |s.entries| <= |n.entries|
      && forall i :: 0 <= i < |s.entries| ==>
           var e, f := s.entries[i], n.entries[i];
           f.id == e.id && f.draft == e.draft && SameDeal(e.current, f.current) && e.count <= f.count
  {
    if Apply(o, s, q.action, q.authorized).Ok? { ApplyKeeps(o, s, q.action, q.authorized); }
  }

  // ----------------------------------------------------------------------- majority

  function Elements<T>(s: seq<T>): set<T> { set x | x in s }

  lemma {:induction false} DistinctSize<T>(s: seq<T>)
    requires forall i, j :: 0 <= i < j < |s| ==> s[i] != s[j]
    ensures |Elements(s)| == |s|
  {
    if s != [] {
      DistinctSize(s[1..]);
      assert Elements(s) == {s[0]} + Elements(s[1..]);
      assert s[0] !in Elements(s[1..]);
    }
  }

  function Actors(votes: seq<VoteKey>): (r: seq<nat>)
    ensures |r| == |votes| && forall i :: 0 <= i < |r| ==> r[i] == votes[i].actor
  {
    if votes == [] then [] else [votes[0].actor] + Actors(votes[1..])
  }

  /** Those who have voted on an entry. */
  function Voters(s: Store, e: Entry): set<nat> { Elements(Actors(Slice(s.votes, e.offset, e.count))) }

  /** Those its draft names as approvers. */
  function Roll(e: Entry): set<nat> { Elements(Approvers(e.current.participants)) }

  lemma VotersCounted(o: Oracle, s: Store, i: nat)
    requires Sound(o, s) && i < |s.entries|
    ensures Voters(s, s.entries[i]) <= Roll(s.entries[i])
    ensures |Voters(s, s.entries[i])| == s.entries[i].count
    ensures |Roll(s.entries[i])| == s.entries[i].eligible
  {
    var e := s.entries[i];
    assert EntrySound(o, s.votes, e);
    var accepted := Slice(s.votes, e.offset, e.count);
    var actors := Actors(accepted);
    assert |accepted| == e.count;
    forall a, b | 0 <= a < b < |actors| ensures actors[a] != actors[b] {
      assert accepted[a] != accepted[b];
    }
    DistinctSize(actors);
    DistinctSize(Approvers(e.current.participants));
  }

  /** In every reachable store a contract awaiting attestation or executed was approved by
      a strict majority of the distinct approvers its draft names; one in review by nobody;
      one collecting approvals by some, but no majority. */
  lemma MajorityApproved(o: Oracle, qs: seq<Request>, i: nat)
    requires i < |Run(o, NO_CONTRACTS, qs).entries|
    ensures var s := Run(o, NO_CONTRACTS, qs);
      var e := s.entries[i];
      && Voters(s, e) <= Roll(e)
      && (e.current.state in {ATTESTATION, EXECUTED} ==> 2 * |Voters(s, e)| > |Roll(e)|)
      && (e.current.state == APPROVALS ==> 0 < |Voters(s, e)| && 2 * |Voters(s, e)| <= |Roll(e)|)
      && (e.current.state in {DRAFT, ISSUED, REVIEW} ==> Voters(s, e) == {})
  {
    NoContractsSound(o);
    RunKeeps(o, NO_CONTRACTS, qs);
    var s := Run(o, NO_CONTRACTS, qs);
    VotersCounted(o, s, i);
    assert EntrySound(o, s.votes, s.entries[i]);
  }
}
