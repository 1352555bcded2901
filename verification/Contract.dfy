/** The contract record and its nine-state machine (src/stn_contract.c). */
module Contract {
  import opened BigEndian
  import opened Layout

  datatype ContractStatus =
    | Truncated | Length | Magic | Version | Type | State | ParticipantLimit | TermsLimit | Role
    | Address | Action | Transition | Sequence | Authority | Duplicate | Capacity | Argument

  datatype Result<+T> = Ok(value: T) | Err(status: ContractStatus)

  const HEADER_SIZE: nat := 32
  const MAX_PARTICIPANTS: nat := 32
  const MAX_TERMS: nat := 65536
  const MAX_SIZE: nat := 66656
  const MAGIC: seq<byte> := [0x53, 0x54, 0x43, 0x54]
  const WIDTHS: seq<nat> := [4, 2, 2, 8, 8, 2, 2, 4]

  const DRAFT: nat := 1
  const ISSUED: nat := 2
  const REVIEW: nat := 3
  const APPROVALS: nat := 4
  const ATTESTATION: nat := 5
  const EXECUTED: nat := 6
  const REJECTED: nat := 7
  const REVOKED: nat := 8
  const CLOSED: nat := 9

  const CREATE: nat := 1
  const AMEND: nat := 2
  const APPROVE: nat := 3
  const REJECT: nat := 4
  const EXECUTE: nat := 5
  const REVOKE: nat := 6
  const CLOSE: nat := 7

  const APPROVER: nat := 4

  datatype Participant = Participant(identity: nat, role: nat)

  datatype Contract = Contract(
    kind: nat, sequence: nat, created: nat, state: nat,
    participants: seq<Participant>, terms: seq<byte>)

  predicate RoleValid(role: nat) { 1 <= role <= 5 }

  predicate StateValid(state: nat) { DRAFT <= state <= CLOSED }

  // --------------------------------------------------------------------------- codec

  function Pack(ps: seq<Participant>): seq<byte> {
    if ps == [] then [] else Bytes(32, ps[0].identity) + Bytes(2, ps[0].role) + Pack(ps[1..])
  }

  function Unpack(b: seq<byte>): seq<Participant> {
    if |b| < 34 then []
    else [Participant(Value(b[..32]), Value(b[32..34]))] + Unpack(b[34..])
  }

  function Decode(b: seq<byte>): Result<Contract> {
    if |b| < HEADER_SIZE then Err(Truncated)
    else if |b| > MAX_SIZE then Err(Length)
    else
      var f := Cut(b[..HEADER_SIZE], WIDTHS);
      var count, length := Value(f[6]), Value(f[7]);
      if f[0] != MAGIC then Err(Magic)
      else if Value(f[1]) != 1 then Err(Version)
      else if Value(f[2]) < 1 || Value(f[2]) > 6 then Err(Type)
      else if !StateValid(Value(f[5])) then Err(State)
      else if count > MAX_PARTICIPANTS then Err(ParticipantLimit)
      else if length > MAX_TERMS then Err(TermsLimit)
      else if |b| != HEADER_SIZE + 34 * count + length then Err(Length)
      else
        var ps := Unpack(b[32..32 + 34 * count]);
        if exists i :: 0 <= i < |ps| && !RoleValid(ps[i].role) then Err(Role)
        else Ok(Contract(Value(f[2]), Value(f[3]), Value(f[4]), Value(f[5]), ps, b[32 + 34 * count..]))
  }

  function HeaderFields(c: Contract): seq<seq<byte>> {
    [MAGIC, Bytes(2, 1), Bytes(2, c.kind), Bytes(8, c.sequence), Bytes(8, c.created),
     Bytes(2, c.state), Bytes(2, |c.participants|), Bytes(4, |c.terms|)]
  }

  function Encode(c: Contract): seq<byte> {
    Join(HeaderFields(c)) + Pack(c.participants) + c.terms
  }

  predicate WellFormedBody(c: Contract) {
    && |c.participants| <= 32 && |c.terms| <= 65536
    && forall i :: 0 <= i < |c.participants| ==>
         RoleValid(c.participants[i].role) && c.participants[i].identity < TWO_256
  }

  predicate WellFormed(c: Contract) {
    && 1 <= c.kind <= 6 && StateValid(c.state)
    && c.sequence < TWO_64 && c.created < TWO_64
    && WellFormedBody(c)
  }

  lemma {:induction false} UnpackPack(ps: seq<Participant>)
    requires forall i :: 0 <= i < |ps| ==> ps[i].identity < TWO_256 && ps[i].role < 0x1_0000
    ensures |Pack(ps)| == 34 * |ps|
    ensures Unpack(Pack(ps)) == ps
  {
    if ps != [] {
      var b := Pack(ps);
      UnpackPack(ps[1..]);
      PowTable();
      ValueOfBytes(32, ps[0].identity);
      ValueOfBytes(2, ps[0].role);
      assert b[..32] == Bytes(32, ps[0].identity);
      assert b[32..34] == Bytes(2, ps[0].role);
      assert b[34..] == Pack(ps[1..]);
    }
  }

  lemma {:induction false} PackUnpack(b: seq<byte>, n: nat)
    requires |b| == 34 * n
    ensures Pack(Unpack(b)) == b && |Unpack(b)| == n
    ensures forall i :: 0 <= i < |Unpack(b)| ==> Unpack(b)[i].identity < TWO_256
  {
    if n > 0 {
      var ps := Unpack(b);
      PackUnpack(b[34..], n - 1);
      assert ps[1..] == Unpack(b[34..]);
      PowTable();
      ValueBound(b[..32]);
      BytesOfValue(b[..32]);
      BytesOfValue(b[32..34]);
      assert b == b[..32] + b[32..34] + b[34..];
    }
  }

  lemma HeaderFits(c: Contract)
    requires WellFormed(c)
    ensures Fits(HeaderFields(c), WIDTHS) && |Join(HeaderFields(c))| == HEADER_SIZE
    ensures Cut(Join(HeaderFields(c)), WIDTHS) == HeaderFields(c)
    ensures Value(Bytes(2, 1)) == 1 && Value(Bytes(2, c.kind)) == c.kind
    ensures Value(Bytes(8, c.sequence)) == c.sequence && Value(Bytes(8, c.created)) == c.created
    ensures Value(Bytes(2, c.state)) == c.state
    ensures Value(Bytes(2, |c.participants|)) == |c.participants|
    ensures Value(Bytes(4, |c.terms|)) == |c.terms|
  {
    PowTable();
    CutOfJoin(HeaderFields(c), WIDTHS);
    Field(2, 1);
    Field(2, c.kind);
    Field(8, c.sequence);
    Field(8, c.created);
    Field(2, c.state);
    Field(2, |c.participants|);
    Field(4, |c.terms|);
  }

  lemma DecodeEncode(c: Contract)
    requires WellFormed(c)
    ensures Decode(Encode(c)) == Ok(c)
  {
    HeaderFits(c);
    UnpackPack(c.participants);
    var b := Encode(c);
    var n := |c.participants|;
    assert b[..32] == Join(HeaderFields(c));
    assert b[32..32 + 34 * n] == Pack(c.participants);
    assert b[32 + 34 * n..] == c.terms;
  }

  lemma Canonical(s: seq<byte>, n: nat)
    requires |s| == n <= 8
    ensures Bytes(n, Value(s)) == s
    ensures n == 8 ==> Value(s) < TWO_64
  {
    PowTable();
    ValueBound(s);
    BytesOfValue(s);
  }

  lemma HeaderCanonical(f: seq<seq<byte>>)
    requires Fits(f, WIDTHS)
    ensures Value(f[3]) < TWO_64 && Value(f[4]) < TWO_64
    ensures f == [f[0], Bytes(2, Value(f[1])), Bytes(2, Value(f[2])), Bytes(8, Value(f[3])),
                  Bytes(8, Value(f[4])), Bytes(2, Value(f[5])), Bytes(2, Value(f[6])), Bytes(4, Value(f[7]))]
  {
    assert |f[1]| == 2 && |f[2]| == 2 && |f[3]| == 8 && |f[4]| == 8 && |f[5]| == 2 && |f[6]| == 2 && |f[7]| == 4;
    Canonical(f[1], 2);
    Canonical(f[2], 2);
    Canonical(f[3], 8);
    Canonical(f[4], 8);
    Canonical(f[5], 2);
    Canonical(f[6], 2);
    Canonical(f[7], 4);
  }

  lemma BodyCanonical(b: seq<byte>)
    requires Decode(b).Ok?
    ensures var c := Decode(b).value;
      && |b| >= 32 && b[32..] == Pack(c.participants) + c.terms && WellFormedBody(c)
      && |c.participants| == Value(Cut(b[..32], WIDTHS)[6])
  {
    var c := Decode(b).value;
    var n := Value(Cut(b[..32], WIDTHS)[6]);
    PackUnpack(b[32..32 + 34 * n], n);
    assert b[32..] == b[32..32 + 34 * n] + b[32 + 34 * n..];
  }

  lemma HeaderDecoded(b: seq<byte>)
    requires Decode(b).Ok?
    ensures var f, c := Cut(b[..32], WIDTHS), Decode(b).value;
      && f[0] == MAGIC && Value(f[1]) == 1 && Value(f[2]) == c.kind && Value(f[3]) == c.sequence
      && Value(f[4]) == c.created && Value(f[5]) == c.state
      && Value(f[6]) == |c.participants| && Value(f[7]) == |c.terms|
      && 1 <= c.kind <= 6 && StateValid(c.state)
  {
    BodyCanonical(b);
  }

  /** Accepted bytes are canonical: equal contracts have equal bytes. */
  lemma EncodeDecode(b: seq<byte>)
    requires Decode(b).Ok?
    ensures WellFormed(Decode(b).value)
    ensures Encode(Decode(b).value) == b
  {
    HeaderCanonical(Cut(b[..32], WIDTHS));
    JoinOfCut(b[..32], WIDTHS);
    HeaderDecoded(b);
    BodyCanonical(b);
    assert b == b[..32] + b[32..];
  }

  // --------------------------------------------------------------------- transitions

  /** stn_contract_transition. */
  function Next(state: nat, action: nat): Result<nat> {
    if !StateValid(state) then Err(State)
    else if action < CREATE || action > CLOSE then Err(Action)
    else if action == CREATE then if state == DRAFT then Ok(ISSUED) else Err(Transition)
    else if action == AMEND then if state == ISSUED || state == REVIEW then Ok(REVIEW) else Err(Transition)
    else if action == APPROVE then
      if state == REVIEW then Ok(APPROVALS) else if state == APPROVALS then Ok(ATTESTATION) else Err(Transition)
    else if action == REJECT then if ISSUED <= state <= ATTESTATION then Ok(REJECTED) else Err(Transition)
    else if action == EXECUTE then if state == ATTESTATION then Ok(EXECUTED) else Err(Transition)
    else if action == REVOKE then if ISSUED <= state <= EXECUTED then Ok(REVOKED) else Err(Transition)
    else if EXECUTED <= state <= REVOKED then Ok(CLOSED) else Err(Transition)
  }

  /** No action leads back: the machine has no cycle but amendment in review, CLOSED is
      final, and a contract can be executed only out of attestation. */
  lemma NextIsForward(state: nat, action: nat)
    requires Next(state, action).Ok?
    ensures StateValid(Next(state, action).value) && Next(state, action).value != DRAFT
    ensures Next(state, action).value >= state
    ensures Next(state, action).value == state ==> state == REVIEW && action == AMEND
    ensures state != CLOSED
    ensures Next(state, action) == Ok(EXECUTED) ==> state == ATTESTATION && action == EXECUTE
  {
  }

  /** stn_contract_apply_action on a decoded contract. */
  function ApplyAction(c: Contract, action: nat, sequence: nat): Result<Contract> {
    if c.kind < 1 || c.kind > 6 then Err(Type)
    else if !StateValid(c.state) then Err(State)
    else if c.sequence == TWO_64 - 1 || sequence != c.sequence + 1 then Err(Sequence)
    else if Next(c.state, action).Err? then Err(Next(c.state, action).status)
    else Ok(c.(sequence := sequence, state := Next(c.state, action).value))
  }
}
