/** The lifecycle updated in place (src/stn_lifecycle.c, src/stn_authority.c): fixed tables
    of revoked and rotated identities, appended grants and a replay list. */
module LifecycleState {
  import opened Status
  import opened Hashing
  import opened Authority
  import opened Lifecycle
  import R = Replay
  import opened ReplayState

  /** The backwards shift that keeps the revoked identifiers sorted. */
  method ShiftInsert(a: array<nat>, count: nat, id: nat)
    requires count < a.Length
    modifies a
    ensures a[..count + 1] == Inserted(old(a[..count]), id)
  {
    ghost var ids := a[..count];
    var pos := count;
    while pos != 0 && a[pos - 1] > id
      invariant 0 <= pos <= count
      invariant forall i :: pos <= i < count ==> ids[i] > id
      invariant forall i :: 0 <= i < pos ==> a[i] == ids[i]
      invariant forall i :: pos < i <= count ==> a[i] == ids[i - 1]
    {
      a[pos] := a[pos - 1];
      pos := pos - 1;
    }
    SlotUnique(ids, id, pos);
    a[pos] := id;
    assert a[..count + 1] == ids[..pos] + [id] + ids[pos..];
  }

  lemma SlotUnique(ids: seq<nat>, id: nat, pos: nat)
    requires pos <= |ids| && (pos > 0 ==> ids[pos - 1] <= id)
    requires forall i :: pos <= i < |ids| ==> ids[i] > id
    ensures Slot(ids, id) == pos
  {
  }

  class LifecycleState {
    var initial: nat
    var initials: seq<nat>
    var grants: seq<Grant>
    var grantCapacity: nat
    var revoked: array<nat>
    var revokedCount: nat
    var rotationInitial: nat
    var current: nat
    var olds: array<nat>
    var news: array<nat>
    var rotationCount: nat
    var replay: ReplayState<ReplayId>

    ghost predicate Valid()
      reads this, replay
    {
      && revoked.Length == MAX_REVOKED && revokedCount <= MAX_REVOKED
      && olds.Length == news.Length == MAX_ROTATIONS && rotationCount <= MAX_ROTATIONS
      && olds != news && revoked != olds && revoked != news
      && replay.Valid()
    }

    function RotationView(): Rotations
      requires rotationCount <= olds.Length && rotationCount <= news.Length
      reads this, olds, news
    {
      Rotations(rotationInitial, current, olds[..rotationCount], news[..rotationCount])
    }

    ghost function View(): State
      requires Valid()
      reads this, revoked, olds, news, replay, replay.consumed
    {
      State(initial, initials, grants, grantCapacity, revoked[..revokedCount], RotationView(), replay.View())
    }

    /** A fresh copy with room for `slack` further grants and replay identifiers. */
    constructor (s: State, slack: nat)
      requires |s.revoked| <= MAX_REVOKED && |s.rotation.olds| == |s.rotation.news| <= MAX_ROTATIONS
      ensures Valid() && fresh(revoked) && fresh(olds) && fresh(news) && fresh(replay) && fresh(replay.consumed)
      ensures View() == s.(grantCapacity := |s.grants| + slack,
                           replay := R.Consumed(s.replay.keys, |s.replay.keys| + slack))
    {
      initial, initials, grants, grantCapacity := s.initial, s.initials, s.grants, |s.grants| + slack;
      revokedCount, rotationCount := |s.revoked|, |s.rotation.olds|;
      rotationInitial, current := s.rotation.initial, s.rotation.current;
      revoked := new nat[MAX_REVOKED](i => if 0 <= i < |s.revoked| then s.revoked[i] else 0);
      olds := new nat[MAX_ROTATIONS](i => if 0 <= i < |s.rotation.olds| then s.rotation.olds[i] else 0);
      news := new nat[MAX_ROTATIONS](i => if 0 <= i < |s.rotation.news| then s.rotation.news[i] else 0);
      replay := new ReplayState<ReplayId>(s.replay, slack);
      new;
      assert revoked[..revokedCount] == s.revoked;
      assert olds[..rotationCount] == s.rotation.olds && news[..rotationCount] == s.rotation.news;
    }

    /** Check, then consume: a known or malformed identifier leaves the list alone. */
    method ConsumeReplay(id: Option<ReplayId>) returns (r: Result)
      requires replay.Valid()
      modifies replay`count, replay.consumed
      ensures replay.Valid()
      ensures (r, replay.View()) == ConsumeId(id, old(replay.View()))
    {
      if id.None? { return MalformedInput; }
      var known := replay.Check(id.value);
      if known { return Replayed; }
      var used := replay.Consume(id.value);
      r := if used.Fresh? then Done else NoCapacity;
    }

    method ConsumeSigned(env: Env, signer: nat, st: Statement) returns (r: Result)
      requires replay.Valid()
      modifies replay`count, replay.consumed
      ensures replay.Valid()
      ensures (r, replay.View()) == ConsumeStatement(env, signer, st, old(replay.View()))
    {
      var nonce := env.nonce(st);
      if nonce.Err? { return ProviderFailure; }
      r := ConsumeReplay(ReplayIdOf(env, signer, nonce.value));
    }

    /** stn_authority_state_apply. */
    method RevokeGrant(env: Env, rv: Revocation, g: Grant) returns (v: Verdict)
      requires Valid()
      modifies this`revokedCount, revoked
      ensures Valid()
      ensures (v, revoked[..revokedCount]) == Revoke(env.crypto, env.roots, old(revoked[..revokedCount]), rv, g)
    {
      v := ValidateRevocation(env.crypto, env.roots, rv, g);
      if v != Authority.Valid { return; }
      for i := 0 to revokedCount
        invariant rv.grantId !in revoked[..i]
      {
        if revoked[i] == rv.grantId {
          assert revoked[..revokedCount][i] == rv.grantId;
          return Authority.Valid;
        }
      }
      if revokedCount == MAX_REVOKED { return Invalid; }
      ShiftInsert(revoked, revokedCount, rv.grantId);
      revokedCount := revokedCount + 1;
    }

    /** stn_identity_rotation_apply. */
    method RotateIdentity(env: Env, ro: Rotation) returns (v: Verdict)
      requires Valid()
      modifies this`current, this`rotationCount, olds, news
      ensures Valid()
      ensures (v, RotationView()) == Rotate(env.crypto, env.roots, old(RotationView()), ro)
    {
      v := ValidateRotation(env.crypto, env.roots, RotationView(), ro);
      if v != Authority.Valid || current == ro.new_ { return; }
      if rotationCount == MAX_ROTATIONS { return Invalid; }
      olds[rotationCount] := ro.old_;
      news[rotationCount] := ro.new_;
      current := ro.new_;
      rotationCount := rotationCount + 1;
      assert olds[..rotationCount] == old(olds[..rotationCount]) + [ro.old_];
      assert news[..rotationCount] == old(news[..rotationCount]) + [ro.new_];
    }

    method GrantApply(env: Env, g: Grant) returns (r: Result)
      requires Valid()
      modifies this`grants, replay`count, replay.consumed
      ensures Valid() && (r, View()) == ApplyGrant(env, old(View()), g)
    {
      if ValidateGrant(env.crypto, env.roots, g) != Authority.Valid || !GrantStatementOk(env.crypto, g) { return Refused; }
      if |grants| >= grantCapacity { return NoCapacity; }
      r := ConsumeSigned(env, g.issuer, GrantStatement(g.issuer, g.evidence));
      if r == Done { grants := grants + [g]; }
    }

    method RevokeApply(env: Env, rv: Revocation) returns (r: Result)
      requires Valid()
      modifies this`revokedCount, revoked, replay`count, replay.consumed
      ensures Valid() && (r, View()) == ApplyRevoke(env, old(View()), rv)
    {
      var g := FindGrant(env, grants, rv.grantId);
      if g.None? { return Refused; }
      if revokedCount >= MAX_REVOKED { return NoCapacity; }
      if ValidateRevocation(env.crypto, env.roots, rv, g.value) != Authority.Valid { return Refused; }
      if !env.crypto.identityValid(rv.issuer) || rv.grantId == 0 { return Refused; }
      r := ConsumeSigned(env, rv.issuer, RevokeStatement(rv.issuer, rv.grantId));
      if r == Done {
        var v := RevokeGrant(env, rv, g.value);
        r := MapVerdict(v);
      }
    }

    /** Seeds the current identity before the first rotation and restores it on refusal. */
    method RotateApply(env: Env, ro: Rotation) returns (r: Result)
      requires Valid()
      modifies this`current, this`rotationCount, olds, news, replay`count, replay.consumed
      ensures Valid() && (r, View()) == ApplyRotate(env, old(View()), ro)
    {
      var saved := current;
      var seeded := false;
      if rotationCount == 0 {
        if ro.old_ !in initials { return Refused; }
        current := ro.old_;
        seeded := true;
      }
      if ValidateRotation(env.crypto, env.roots, RotationView(), ro) != Authority.Valid {
        if seeded { current := saved; }
        return Refused;
      }
      if rotationCount >= MAX_ROTATIONS { return NoCapacity; }
      if !RotateStatementOk(env.crypto, ro) { return Refused; }
      r := ConsumeSigned(env, ro.old_, RotateStatement(ro.old_, ro.new_));
      if r != Done {
        if seeded { current := saved; }
        return;
      }
      var v := RotateIdentity(env, ro);
      r := MapVerdict(v);
    }

    /** stn_lifecycle_apply_transaction. */
    method ApplyTransaction(env: Env, a: Action) returns (r: Result)
      requires Valid()
      modifies this, revoked, olds, news, replay`count, replay.consumed
      ensures Valid() && (r, View()) == Apply(env, old(View()), a)
      ensures replay == old(replay) && replay.consumed == old(replay.consumed)
      ensures revoked == old(revoked) && olds == old(olds) && news == old(news)
    {
      match a
      case GrantAction(g) => r := GrantApply(env, g);
      case RevokeAction(rv) => r := RevokeApply(env, rv);
      case RotateAction(ro) => r := RotateApply(env, ro);
      case PublishAction(p) => r := ConsumeReplay(ReplayIdOf(env, p.signer, p.nonce));
    }
  }
}
