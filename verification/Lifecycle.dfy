/** The authority lifecycle (src/stn_lifecycle.c): grants, revocations, rotations and
    publications behind one replay list. */
module Lifecycle {
  import opened BigEndian
  import opened Status
  import opened Hashing
  import opened Replay
  import opened Authority

  datatype Result = Done | ArgumentError | MalformedInput | Refused | Replayed | NoCapacity | ProviderFailure

  datatype Publication = Publication(network: seq<byte>, signer: nat, nonce: nat, action: nat, context: nat, body: seq<byte>)

  datatype Action =
    | GrantAction(grant: Grant)
    | RevokeAction(revocation: Revocation)
    | RotateAction(rotation: Rotation)
    | PublishAction(publication: Publication)

  /** Everything an apply depends on besides the state. */
  datatype Env = Env(
    crypto: Crypto,
    roots: seq<nat>,
    nonce: Statement -> Outcome<nat>,
    signed: Publication -> Verdict,
    permits: (seq<byte>, Publication) -> bool)

  datatype ReplayId = ReplayId(signer: nat, nonce: nat)

  datatype State = State(
    initial: nat,
    initials: seq<nat>,
    grants: seq<Grant>,
    grantCapacity: nat,
    revoked: seq<nat>,
    rotation: Rotations,
    replay: Consumed<ReplayId>)

  /** stn_identity_rotation_initialize: an underivable identity leaves zeroes. */
  function StartRotation(env: Env, initial: nat): Rotations {
    var id := if env.crypto.identityValid(initial) then initial else 0;
    Rotations(id, id, [], [])
  }

  /** Old and new identities are parallel arrays behind one count. */
  type Paired = s: State | |s.rotation.olds| == |s.rotation.news|
    witness State(0, [], [], 0, [], Rotations(0, 0, [], []), Consumed([], 0))

  function Initialize(env: Env, initial: nat, initials: seq<nat>, grantCapacity: nat, replayCapacity: nat): State {
    State(initial, initials, [], grantCapacity, [], StartRotation(env, initial), Consumed([], replayCapacity))
  }

  // ------------------------------------------------------------------------ consume

  function ReplayIdOf(env: Env, signer: nat, nonce: nat): Option<ReplayId> {
    if env.crypto.identityValid(signer) && nonce != 0 then Some(ReplayId(signer, nonce)) else None
  }

  function ConsumeId(id: Option<ReplayId>, used: Consumed<ReplayId>): (Result, Consumed<ReplayId>) {
    if id.None? then (MalformedInput, used)
    else
      match Consume(used, id.value)
      case Repeated => (Replayed, used)
      case Full => (NoCapacity, used)
      case Fresh(next) => (Done, next)
  }

  /** The replay identifier of a lifecycle statement: signer and digest of the statement. */
  function StatementId(env: Env, signer: nat, st: Statement): Option<ReplayId> {
    match env.nonce(st)
    case Ok(n) => ReplayIdOf(env, signer, n)
    case Err(_) => None
  }

  function ConsumeStatement(env: Env, signer: nat, st: Statement, used: Consumed<ReplayId>): (Result, Consumed<ReplayId>) {
    if env.nonce(st).Err? then (ProviderFailure, used) else ConsumeId(StatementId(env, signer, st), used)
  }

  // -------------------------------------------------------------------------- apply

  function FindGrant(env: Env, grants: seq<Grant>, id: nat): Option<Grant> {
    if grants == [] then None
    else if GrantId(env.crypto, grants[0]) == Ok(id) then Some(grants[0])
    else FindGrant(env, grants[1..], id)
  }

  function MapVerdict(v: Verdict): Result {
    match v case Valid => Done case Malformed => MalformedInput case Invalid => Refused
  }

  function ApplyGrant(env: Env, s: State, g: Grant): (Result, State) {
    if ValidateGrant(env.crypto, env.roots, g) != Valid || !GrantStatementOk(env.crypto, g) then (Refused, s)
    else if |s.grants| >= s.grantCapacity then (NoCapacity, s)
    else
      var (r, used) := ConsumeStatement(env, g.issuer, GrantStatement(g.issuer, g.evidence), s.replay);
      if r != Done then (r, s) else (Done, s.(replay := used, grants := s.grants + [g]))
  }

  function ApplyRevoke(env: Env, s: State, rv: Revocation): (Result, State) {
    var g := FindGrant(env, s.grants, rv.grantId);
    if g.None? then (Refused, s)
    else if |s.revoked| >= MAX_REVOKED then (NoCapacity, s)
    else if ValidateRevocation(env.crypto, env.roots, rv, g.value) != Valid then (Refused, s)
    else if !env.crypto.identityValid(rv.issuer) || rv.grantId == 0 then (Refused, s)
    else
      var (r, used) := ConsumeStatement(env, rv.issuer, RevokeStatement(rv.issuer, rv.grantId), s.replay);
      if r != Done then (r, s)
      else
        var (v, ids) := Revoke(env.crypto, env.roots, s.revoked, rv, g.value);
        (MapVerdict(v), s.(replay := used, revoked := ids))
  }

  /** Before the first rotation the current identity is seeded with the one that rotates,
      provided it is a genesis identity; a refusal restores what was there. */
  function Seeded(s: State, old_: nat): Rotations {
    if s.rotation.olds == [] then s.rotation.(current := old_) else s.rotation
  }

  function ApplyRotate(env: Env, s: State, ro: Rotation): (Result, State)
    requires |s.rotation.olds| == |s.rotation.news|
  {
    var seeded := Seeded(s, ro.old_);
    if s.rotation.olds == [] && ro.old_ !in s.initials then (Refused, s)
    else if ValidateRotation(env.crypto, env.roots, seeded, ro) != Valid then (Refused, s)
    else if |s.rotation.olds| >= MAX_ROTATIONS then (NoCapacity, s.(rotation := seeded))
    else if !RotateStatementOk(env.crypto, ro) then (Refused, s.(rotation := seeded))
    else
      var (r, used) := ConsumeStatement(env, ro.old_, RotateStatement(ro.old_, ro.new_), s.replay);
      if r != Done then (r, s)
      else
        var (v, n) := Rotate(env.crypto, env.roots, seeded, ro);
        (MapVerdict(v), s.(replay := used, rotation := n))
  }

  function ApplyPublish(env: Env, s: State, p: Publication): (Result, State) {
    var (r, used) := ConsumeId(ReplayIdOf(env, p.signer, p.nonce), s.replay);
    (r, s.(replay := used))
  }

  /** stn_lifecycle_apply_transaction. */
  function Apply(env: Env, s: State, a: Action): (r: (Result, State))
    requires |s.rotation.olds| == |s.rotation.news|
    ensures |r.1.rotation.olds| == |r.1.rotation.news|
  {
    match a
    case GrantAction(g) => ApplyGrant(env, s, g)
    case RevokeAction(r) => ApplyRevoke(env, s, r)
    case RotateAction(r) => ApplyRotate(env, s, r)
    case PublishAction(p) => ApplyPublish(env, s, p)
  }

  /** The authorization loop of stn_lifecycle_check_publication. */
  function Authorized(env: Env, s: State, p: Publication, i: nat, found: bool): Result
    requires i <= |s.grants|
    decreases |s.grants| - i
  {
    if i == |s.grants| then if found then Done else Refused
    else
      var g := s.grants[i];
      if !env.crypto.evidenceValid(g.evidence) then Refused
      else if GrantId(env.crypto, g).Err? then ProviderFailure
      else Authorized(env, s, p, i + 1,
             found || (GrantId(env.crypto, g).value !in s.revoked && env.permits(g.evidence, p)))
  }

  /** stn_lifecycle_check_publication on a decoded record. */
  function CheckPublication(env: Env, s: State, p: Publication): Result {
    if env.signed(p) != Valid then Refused
    else if p.signer in s.rotation.olds then Refused
    else if Authorized(env, s, p, 0, false) != Done then Authorized(env, s, p, 0, false)
    else if ReplayIdOf(env, p.signer, p.nonce).None? then MalformedInput
    else if ReplayIdOf(env, p.signer, p.nonce).value in s.replay.keys then Replayed
    else Done
  }

  // ---------------------------------------------------------------------- invariant

  /** Every recorded rotation has left its replay identifier behind. */
  ghost predicate RotationsConsumed(env: Env, s: State)
    requires |s.rotation.olds| == |s.rotation.news|
  {
    forall i :: 0 <= i < |s.rotation.olds| ==>
      var id := StatementId(env, s.rotation.olds[i], RotateStatement(s.rotation.olds[i], s.rotation.news[i]));
      id.Some? && id.value in s.replay.keys
  }

  ghost predicate GrantsConsumed(env: Env, s: State) {
    forall i :: 0 <= i < |s.grants| ==>
      && ValidateGrant(env.crypto, env.roots, s.grants[i]) == Valid
      && var id := StatementId(env, s.grants[i].issuer, GrantStatement(s.grants[i].issuer, s.grants[i].evidence));
         id.Some? && id.value in s.replay.keys
  }

  ghost predicate Granted(env: Env, grants: seq<Grant>, id: nat) {
    exists i :: 0 <= i < |grants| && GrantId(env.crypto, grants[i]) == Ok(id)
  }

  /** What every reachable lifecycle state satisfies. */
  ghost predicate Coherent(env: Env, s: State) {
    && SimplePath(s.rotation) && |s.rotation.olds| <= MAX_ROTATIONS
    && (s.rotation.olds != [] ==> s.rotation.olds[0] in s.initials)
    && (forall x :: x in s.rotation.olds + s.rotation.news ==> x !in env.roots)
    && RotationsConsumed(env, s)
    && GrantsConsumed(env, s)
    && (forall i, j :: 0 <= i < j < |s.grants| ==>
          s.grants[i].issuer != s.grants[j].issuer || s.grants[i].evidence != s.grants[j].evidence)
    && Ascending(s.revoked) && |s.revoked| <= MAX_REVOKED
    && (forall x :: x in s.revoked ==> Granted(env, s.grants, x))
    && NoRepeats(s.replay.keys) && |s.replay.keys| <= s.replay.capacity
    && |s.grants| <= s.grantCapacity
  }

  /** What later actions can only add to. */
  ghost predicate Extends(s: State, n: State) {
    && s.grants <= n.grants && s.rotation.olds <= n.rotation.olds && s.rotation.news <= n.rotation.news
    && s.replay.keys <= n.replay.keys
    && (forall x :: x in s.revoked ==> x in n.revoked)
    && n.initials == s.initials && n.initial == s.initial
    && n.grantCapacity == s.grantCapacity && n.replay.capacity == s.replay.capacity
  }
}
