/** When contracts move: the exact state machine, and exactly when a draft is registered and a
    vote is taken. */
module ContractProgress {
  import opened BigEndian
  import opened Contract
  import opened Contracts
  import opened ContractProofs

  /** The whole state machine: DRAFT 1, ISSUED 2, REVIEW 3, APPROVALS 4, ATTESTATION 5,
      EXECUTED 6, REJECTED 7, REVOKED 8, CLOSED 9. */
  lemma EdgesExactly(state: nat, action: nat, next: nat)
    ensures Next(state, action) == Ok(next) <==>
      || (state, action, next) == (1, 1, 2)
      || (action == 2 && next == 3 && state in {2, 3})
      || (action == 3 && (state, next) in {(3, 4), (4, 5)})
      || (action == 4 && next == 7 && state in {2, 3, 4, 5})
      || (state, action, next) == (5, 5, 6)
      || (action == 6 && next == 8 && state in {2, 3, 4, 5, 6})
      || (action == 7 && next == 9 && state in {6, 7, 8})
  {
  }

  /** A draft is registered exactly when it is one, has an address that is not in use, names
      approvers and none of them twice, and there is room among 128 contracts and 4096 votes. */
  lemma RegisterWhen(o: Oracle, s: Store, draft: seq<byte>)
    requires Sound(o, s)
    ensures Register(o, s, draft).Ok? <==>
      && o.decode(draft).Ok? && o.address(draft).Some?
      && var d := o.decode(draft).value;
      && d.state == 1 && d.sequence == 0
      && (forall i :: 0 <= i < |s.entries| ==> s.entries[i].id != o.address(draft).value)
      && |s.entries| < 128 && s.reserved + |d.participants| <= 4096
      && Approvers(d.participants) != [] && Distinct(Approvers(d.participants))
  {
  }

  /** The actors whose votes are recorded for an entry. */
  ghost predicate HasVoted(s: Store, e: Entry, actor: nat) {
    VoteKey(e.id, actor) in Slice(s.votes, e.offset, e.count)
  }

  /** A vote on a contract as it is on record is taken exactly when the contract is in review or
      collecting approvals, the sequence is the next one, and the actor is a valid approver of
      the draft who has not voted. */
  lemma VoteWhen(o: Oracle, s: Store, i: nat, current: seq<byte>, sequence: nat, actor: nat)
    requires Sound(o, s) && i < |s.entries| && Lineage(o, s.entries[i].draft, current)
    requires var c, e := o.decode(current).value, s.entries[i];
      c.sequence == e.current.sequence < TWO_64 && c.state == e.current.state
    ensures var e := s.entries[i];
      ApplyVote(o, s, i, current, sequence, actor).Ok? <==>
        && e.current.state in {3, 4} && sequence == e.current.sequence + 1 < TWO_64
        && o.identityValid(actor) && actor in Approvers(e.current.participants) && !HasVoted(s, e, actor)
  {
    var e := s.entries[i];
    assert EntrySound(o, s.votes, e);
    ApproversBound(e.current.participants);
    var slice := Slice(s.votes, e.offset, e.count);
    assert |slice| == e.count;
  }

  /** A vote that is taken adds the actor's key and nothing else, moves the contract by one
      sequence, and completes the attestation exactly when more than half have voted. */
  lemma VoteMoves(o: Oracle, s: Store, i: nat, current: seq<byte>, sequence: nat, actor: nat)
    requires Sound(o, s) && i < |s.entries| && ApplyVote(o, s, i, current, sequence, actor).Ok?
    ensures var n, e := ApplyVote(o, s, i, current, sequence, actor).value, s.entries[i];
      && |n.entries| == |s.entries| && n.reserved == s.reserved
      && (forall k :: 0 <= k < |s.entries| && k != i ==> n.entries[k] == s.entries[k])
      && n.entries[i].count == e.count + 1 && n.entries[i].current.sequence == e.current.sequence + 1
      && n.entries[i].current.state == (if 2 * (e.count + 1) > e.eligible then 5 else 4)
      && e.offset + e.count < |s.votes| && n.votes == s.votes[e.offset + e.count := VoteKey(e.id, actor)]
  {
    var e := s.entries[i];
    assert EntrySound(o, s.votes, e);
    ApproversBound(e.current.participants);
    ApplyVoteFacts(o, s, i, current, sequence, actor);
    VoteFacts(o, o.decode(current).value, sequence, e.draft, actor, BallotOf(s, e));
  }
}
