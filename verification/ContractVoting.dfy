/** The loops of src/stn_contract_consensus.c over participants and recorded votes. */
module ContractVoting {
  import opened BigEndian
  import opened Contract
  import opened Contracts

  lemma {:induction false} ApproversConcat(a: seq<Participant>, b: seq<Participant>)
    ensures Approvers(a + b) == Approvers(a) + Approvers(b)
  {
    if a == [] {
      assert a + b == b;
    } else {
      ApproversConcat(a[1..], b);
      assert (a + b)[1..] == a[1..] + b;
    }
  }

  function Named(p: Participant): seq<nat> { if p.role == APPROVER then [p.identity] else [] }

  lemma OneApprover(p: Participant)
    ensures Approvers([p]) == Named(p)
  {
    assert [p][1..] == [];
  }

  lemma OneTaken(ps: seq<Participant>, i: nat)
    requires i < |ps|
    ensures Approvers(ps[..i + 1]) == Approvers(ps[..i]) + Named(ps[i])
  {
    OneApprover(ps[i]);
    ApproversConcat(ps[..i], [ps[i]]);
    assert ps[..i] + [ps[i]] == ps[..i + 1];
  }

  lemma Divided(ps: seq<Participant>, i: nat)
    requires i <= |ps|
    ensures Approvers(ps) == Approvers(ps[..i]) + Approvers(ps[i..])
  {
    ApproversConcat(ps[..i], ps[i..]);
    assert ps[..i] + ps[i..] == ps;
  }

  /** Reading one participant further. */
  lemma OneMore(ps: seq<Participant>, i: nat)
    requires i < |ps|
    ensures Approvers(ps[..i + 1]) == Approvers(ps[..i]) + Named(ps[i])
    ensures Approvers(ps) == Approvers(ps[..i + 1]) + Approvers(ps[i + 1..])
  {
    OneTaken(ps, i);
    Divided(ps, i + 1);
  }

  lemma DistinctSnoc(s: seq<nat>, x: nat)
    requires Distinct(s)
    ensures Distinct(s + [x]) <==> x !in s
  {
    if x in s {
      var i :| 0 <= i < |s| && s[i] == x;
      assert (s + [x])[i] == (s + [x])[|s|];
    }
  }

  lemma PrefixDistinct(s: seq<nat>, t: seq<nat>)
    requires !Distinct(s)
    ensures !Distinct(s + t)
  {
    var i, j :| 0 <= i < j < |s| && s[i] == s[j];
    assert (s + t)[i] == (s + t)[j];
  }

  /** The eligibility scan of stn_contract_vote_eligible. */
  method FindApprover(ps: seq<Participant>, actor: nat) returns (found: bool)
    ensures found <==> actor in Approvers(ps)
  {
    var i: nat := 0;
    while i < |ps|
      invariant i <= |ps| && actor !in Approvers(ps[..i])
    {
      OneMore(ps, i);
      if ps[i].role == APPROVER && ps[i].identity == actor { return true; }
      i := i + 1;
    }
    assert ps[..i] == ps;
    found := false;
  }

  /** Whether an approver of the first `n` participants already has this identity. */
  method SeenBefore(ps: seq<Participant>, n: nat, identity: nat) returns (seen: bool)
    requires n <= |ps|
    ensures seen <==> identity in Approvers(ps[..n])
  {
    var j: nat := 0;
    while j < n
      invariant j <= n && identity !in Approvers(ps[..j])
    {
      OneMore(ps[..n], j);
      assert ps[..n][..j] == ps[..j] && ps[..n][..j + 1] == ps[..j + 1];
      if ps[j].role == APPROVER && ps[j].identity == identity { return true; }
      j := j + 1;
    }
    seen := false;
  }

  /** The nested loops of stn_contract_vote_state_initialize. */
  method CountApprovers(ps: seq<Participant>) returns (r: Result<nat>)
    ensures r == (if !Distinct(Approvers(ps)) then Err(Duplicate)
                  else if Approvers(ps) == [] then Err(Authority)
                  else Ok(|Approvers(ps)|))
  {
    var i, eligible: nat := 0, 0;
    while i < |ps|
      invariant i <= |ps| && eligible == |Approvers(ps[..i])| && Distinct(Approvers(ps[..i]))
    {
      OneMore(ps, i);
      if ps[i].role == APPROVER {
        var seen := SeenBefore(ps, i, ps[i].identity);
        DistinctSnoc(Approvers(ps[..i]), ps[i].identity);
        if seen {
          PrefixDistinct(Approvers(ps[..i + 1]), Approvers(ps[i + 1..]));
          return Err(Duplicate);
        }
        eligible := eligible + 1;
      }
      i := i + 1;
    }
    assert ps[..i] == ps;
    if eligible == 0 { return Err(Authority); }
    r := Ok(eligible);
  }

  method InitializeVotes(o: Oracle, draft: seq<byte>) returns (r: Result<(nat, nat)>)
    ensures r == Electorate(o, draft)
  {
    var id := Addressed(o, draft);
    if id.Err? { return Err(id.status); }
    var n := CountApprovers(Draft(o, draft).value.participants);
    if n.Err? { return Err(n.status); }
    r := Ok((id.value, n.value));
  }

  /** The scan over the keys already recorded in a contract's slice. */
  method AlreadyVoted(votes: array<VoteKey>, offset: nat, count: nat, key: VoteKey) returns (voted: bool)
    requires offset + count <= votes.Length
    ensures voted <==> key in votes[offset..offset + count]
  {
    var i: nat := 0;
    while i < count
      invariant i <= count && key !in votes[offset..offset + i]
    {
      if votes[offset + i] == key {
        assert votes[offset..offset + count][i] == key;
        return true;
      }
      i := i + 1;
    }
    voted := false;
  }

  /** The call reports what the specification decides; the buffer changes only on success. */
  predicate Written(r: Result<bool>, before: seq<VoteKey>, after: seq<VoteKey>, at: nat, spec: Result<(VoteKey, bool)>) {
    match spec
    case Ok((key, reached)) => r == Ok(reached) && after == Put(before, at, key)
    case Err(s) => r == Err(s) && after == before
  }

  /** stn_contract_vote_accept on the slice [offset, offset + count): the key is written
      only after every check has passed. */
  method AcceptVote(o: Oracle, votes: array<VoteKey>, offset: nat, count: nat, id: nat, eligible: nat,
                    required: nat, draft: seq<byte>, actor: nat)
    returns (r: Result<bool>)
    requires offset + count <= votes.Length && offset + eligible <= votes.Length
    modifies votes
    ensures Written(r, old(votes[..]), votes[..], offset + count,
      Accept(o, Ballot(id, Slice(old(votes[..]), offset, count), eligible, required), draft, actor))
  {
    if count > eligible || eligible == 0 || required != eligible / 2 + 1 { return Err(Argument); }
    assert Slice(votes[..], offset, count) == votes[offset..offset + count];
    var address := Addressed(o, draft);
    if address.Err? { return Err(address.status); }
    if address.value != id { return Err(Address); }
    if !o.identityValid(actor) { return Err(Authority); }
    var found := FindApprover(Draft(o, draft).value.participants, actor);
    if !found { return Err(Authority); }
    var voted := AlreadyVoted(votes, offset, count, VoteKey(id, actor));
    if voted { return Err(Duplicate); }
    if count == eligible { return Err(Capacity); }
    votes[offset + count] := VoteKey(id, actor);
    r := Ok(count + 1 >= required);
  }
}
