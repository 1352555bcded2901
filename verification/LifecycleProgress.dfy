/** When a lifecycle action is accepted: exactly when it is valid where it is applied and its
    replay identifier is unspent and finds room. */
module LifecycleProgress {
  import opened Status
  import opened Hashing
  import opened Replay
  import opened Authority
  import opened Lifecycle
  import opened LifecycleProofs
  import opened LifecycleRecords

  /** An identifier that exists, was never spent, and finds room. */
  predicate Unspent(id: Option<ReplayId>, used: Consumed<ReplayId>) {
    id.Some? && id.value !in used.keys && |used.keys| < used.capacity
  }

  lemma ConsumeWhen(env: Env, signer: nat, st: Statement, used: Consumed<ReplayId>)
    requires |used.keys| <= used.capacity
    ensures ConsumeStatement(env, signer, st, used).0 == Done <==> Unspent(StatementId(env, signer, st), used)
  {
  }

  /** A grant is accepted exactly when a root issued and signed it for valid evidence, and there
      is room for it. */
  lemma GrantWhen(env: Env, s: State, g: Grant)
    requires Coherent(env, s)
    ensures Apply(env, s, GrantAction(g)).0 == Done <==>
      && g.version == 1 && RootsValid(env.crypto, env.roots) && g.issuer in env.roots
      && env.crypto.identityValid(g.issuer) && env.crypto.evidenceValid(g.evidence)
      && env.crypto.verify(g.issuer, GrantStatement(g.issuer, g.evidence), g.signature) == Valid
      && |s.grants| < s.grantCapacity && Unspent(SpentBy(env, GrantAction(g)), s.replay)
  {
    ConsumeWhen(env, g.issuer, GrantStatement(g.issuer, g.evidence), s.replay);
  }

  /** A revocation is accepted exactly when the grant it names is on record, the issuer of that
      grant signed it, and fewer than 256 grants are revoked. */
  lemma RevokeWhen(env: Env, s: State, r: Revocation)
    requires Coherent(env, s)
    ensures Apply(env, s, RevokeAction(r)).0 == Done <==>
      && r.version == 1 && r.grantId != 0 && |s.revoked| < 256
      && FindGrant(env, s.grants, r.grantId).Some? && FindGrant(env, s.grants, r.grantId).value.issuer == r.issuer
      && env.crypto.verify(r.issuer, RevokeStatement(r.issuer, r.grantId), r.signature) == Valid
      && Unspent(SpentBy(env, RevokeAction(r)), s.replay)
  {
    ConsumeWhen(env, r.issuer, RevokeStatement(r.issuer, r.grantId), s.replay);
    var g := FindGrant(env, s.grants, r.grantId);
    if g.Some? {
      FoundGrant(env, s.grants, r.grantId);
      if ValidateRevocation(env.crypto, env.roots, r, g.value) == Valid {
        RevokeMeaning(env.crypto, env.roots, s.revoked, r, g.value);
      }
    }
  }

  /** A rotation is accepted exactly when it leads from the current identity, or at first from a
      genesis identity, to a valid one that never retired and is no root, the old identity
      signed it, and fewer than 256 are on record. */
  lemma RotateWhen(env: Env, s: State, r: Rotation)
    requires Coherent(env, s)
    ensures Apply(env, s, RotateAction(r)).0 == Done <==>
      && r.version == 1 && RootsValid(env.crypto, env.roots) && r.old_ !in env.roots && r.new_ !in env.roots
      && env.crypto.identityValid(r.old_) && env.crypto.identityValid(r.new_) && r.old_ != r.new_
      && (if s.rotation.olds == [] then r.old_ in s.initials else r.old_ == s.rotation.current)
      && r.new_ !in s.rotation.olds && |s.rotation.olds| < 256
      && env.crypto.verify(r.old_, RotateStatement(r.old_, r.new_), r.signature) == Valid
      && Unspent(SpentBy(env, RotateAction(r)), s.replay)
  {
    ConsumeWhen(env, r.old_, RotateStatement(r.old_, r.new_), s.replay);
    if Authority.Recorded(s.rotation, r) {
      RecordedIsReplayed(env, s, r);
      assert r.old_ in s.rotation.olds;
    } else {
      var seeded := Seeded(s, r.old_);
      ScanMeaning(seeded, r, 0);
      assert seeded.olds[0..] == seeded.olds;
    }
  }

  lemma {:induction false} AuthorizedWhen(env: Env, s: State, p: Publication, i: nat, found: bool)
    requires i <= |s.grants|
    requires forall k :: 0 <= k < |s.grants| ==> env.crypto.evidenceValid(s.grants[k].evidence) && GrantId(env.crypto, s.grants[k]).Ok?
    ensures Authorized(env, s, p, i, found) == Done <==> found || exists k :: i <= k < |s.grants| && Covers(env, s, s.grants[k], p)
    decreases |s.grants| - i
  {
    if i < |s.grants| {
      var g := s.grants[i];
      AuthorizedWhen(env, s, p, i + 1, found || (GrantId(env.crypto, g).value !in s.revoked && env.permits(g.evidence, p)));
    }
  }

  /** A publication is accepted exactly when it is signed, its signer is valid and not retired,
      a recorded grant that is not revoked covers it, and its identifier is unspent. */
  lemma PublicationWhen(env: Env, s: State, p: Publication)
    requires Coherent(env, s) && forall k :: 0 <= k < |s.grants| ==> GrantId(env.crypto, s.grants[k]).Ok?
    ensures CheckPublication(env, s, p) == Done <==>
      && env.signed(p) == Valid && p.signer !in s.rotation.olds
      && (exists k :: 0 <= k < |s.grants| && Covers(env, s, s.grants[k], p))
      && env.crypto.identityValid(p.signer) && p.nonce != 0 && ReplayId(p.signer, p.nonce) !in s.replay.keys
  {
    AuthorizedWhen(env, s, p, 0, false);
  }
}
