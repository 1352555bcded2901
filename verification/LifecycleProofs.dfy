/** Safety of the lifecycle over every run of accepted and refused actions. */
module LifecycleProofs {
  import opened Status
  import opened Hashing
  import opened Replay
  import opened Authority
  import opened Lifecycle

  lemma ConsumeIdMeaning(id: Option<ReplayId>, used: Consumed<ReplayId>)
    requires NoRepeats(used.keys) && |used.keys| <= used.capacity
    ensures var (r, used') := ConsumeId(id, used);
      && NoRepeats(used'.keys) && |used'.keys| <= used'.capacity == used.capacity
      && used.keys <= used'.keys
      && (r == Done ==> id.Some? && id.value !in used.keys && used'.keys == used.keys + [id.value] && id.value in used'.keys)
      && (r != Done ==> used' == used)
  {
    if id.Some? && Consume(used, id.value).Fresh? { ConsumeOnce(used, id.value); }
  }

  lemma StillConsumed(env: Env, s: State, used: Consumed<ReplayId>)
    requires |s.rotation.olds| == |s.rotation.news| && s.replay.keys <= used.keys
    requires RotationsConsumed(env, s) && GrantsConsumed(env, s)
    ensures RotationsConsumed(env, s.(replay := used)) && GrantsConsumed(env, s.(replay := used))
  {
    forall k | k in s.replay.keys ensures k in used.keys {
      var i :| 0 <= i < |s.replay.keys| && s.replay.keys[i] == k;
      assert used.keys[i] == k;
    }
  }

  lemma GrantKeeps(env: Env, s: State, g: Grant)
    requires Coherent(env, s)
    ensures var (r, n) := ApplyGrant(env, s, g);
      Coherent(env, n) && Extends(s, n) && (r != Done ==> n == s) && (r == Done ==> n.grants == s.grants + [g])
  {
    ConsumeIdMeaning(StatementId(env, g.issuer, GrantStatement(g.issuer, g.evidence)), s.replay);
    if ApplyGrant(env, s, g).0 == Done { GrantProceeds(env, s, ApplyGrant(env, s, g).1.replay, g); }
  }

  /** Recording a grant whose statement was not consumed before. */
  lemma GrantProceeds(env: Env, s: State, used: Consumed<ReplayId>, g: Grant)
    requires Coherent(env, s) && ValidateGrant(env.crypto, env.roots, g) == Valid && |s.grants| < s.grantCapacity
    requires var id := StatementId(env, g.issuer, GrantStatement(g.issuer, g.evidence));
      id.Some? && id.value !in s.replay.keys && id.value in used.keys
    requires NoRepeats(used.keys) && |used.keys| <= used.capacity == s.replay.capacity && s.replay.keys <= used.keys
    ensures var n := s.(replay := used, grants := s.grants + [g]); Coherent(env, n) && Extends(s, n)
  {
    StillConsumed(env, s, used);
    GrantIsNew(env, s, g);
    GrantsAppend(env, s.(replay := used), g);
  }

  /** A grant whose statement is not consumed differs from every recorded grant. */
  lemma GrantIsNew(env: Env, s: State, g: Grant)
    requires GrantsConsumed(env, s)
    requires var id := StatementId(env, g.issuer, GrantStatement(g.issuer, g.evidence)); id.Some? && id.value !in s.replay.keys
    ensures forall i :: 0 <= i < |s.grants| ==> s.grants[i].issuer != g.issuer || s.grants[i].evidence != g.evidence
  {
    forall i | 0 <= i < |s.grants| ensures s.grants[i].issuer != g.issuer || s.grants[i].evidence != g.evidence {
      var id := StatementId(env, s.grants[i].issuer, GrantStatement(s.grants[i].issuer, s.grants[i].evidence));
      assert id.value in s.replay.keys;
    }
  }

  lemma GrantsAppend(env: Env, s: State, g: Grant)
    requires GrantsConsumed(env, s) && ValidateGrant(env.crypto, env.roots, g) == Valid
    requires var id := StatementId(env, g.issuer, GrantStatement(g.issuer, g.evidence)); id.Some? && id.value in s.replay.keys
    ensures GrantsConsumed(env, s.(grants := s.grants + [g]))
    ensures forall x: nat :: Granted(env, s.grants, x) ==> Granted(env, s.grants + [g], x)
  {
    forall x: nat | Granted(env, s.grants, x) ensures Granted(env, s.grants + [g], x) {
      var i :| 0 <= i < |s.grants| && GrantId(env.crypto, s.grants[i]) == Ok(x);
      assert (s.grants + [g])[i] == s.grants[i];
    }
  }

  lemma {:induction false} FoundGrant(env: Env, grants: seq<Grant>, id: nat)
    requires FindGrant(env, grants, id).Some?
    ensures exists i :: 0 <= i < |grants| && grants[i] == FindGrant(env, grants, id).value && GrantId(env.crypto, grants[i]) == Ok(id)
  {
    if GrantId(env.crypto, grants[0]) == Ok(id) {
      assert grants[0] == FindGrant(env, grants, id).value;
    } else {
      FoundGrant(env, grants[1..], id);
      var i :| 0 <= i < |grants[1..]| && grants[1..][i] == FindGrant(env, grants[1..], id).value
        && GrantId(env.crypto, grants[1..][i]) == Ok(id);
      assert grants[i + 1] == grants[1..][i];
    }
  }

  /** A revocation that consumed its replay identifier cannot fail afterwards. */
  lemma RevokeKeeps(env: Env, s: State, rv: Revocation)
    requires Coherent(env, s)
    ensures var (r, n) := ApplyRevoke(env, s, rv);
      Coherent(env, n) && Extends(s, n) && (r != Done ==> n == s) && (r == Done ==> rv.grantId in n.revoked)
  {
    var g := FindGrant(env, s.grants, rv.grantId);
    if g.Some? {
      FoundGrant(env, s.grants, rv.grantId);
      RevokeMeaning(env.crypto, env.roots, s.revoked, rv, g.value);
      var (r, n) := ApplyRevoke(env, s, rv);
      if n != s {
        RevokeProceeds(env, s, rv, n);
      }
    }
  }

  lemma RevokeProceeds(env: Env, s: State, rv: Revocation, n: State)
    requires Coherent(env, s) && n == s.(replay := n.replay, revoked := n.revoked)
    requires n.replay == ConsumeStatement(env, rv.issuer, RevokeStatement(rv.issuer, rv.grantId), s.replay).1
    requires Ascending(n.revoked) && |n.revoked| <= MAX_REVOKED && Granted(env, s.grants, rv.grantId)
    requires forall x :: x in n.revoked <==> x in s.revoked || x == rv.grantId
    ensures Coherent(env, n) && Extends(s, n)
  {
    ConsumeIdMeaning(StatementId(env, rv.issuer, RevokeStatement(rv.issuer, rv.grantId)), s.replay);
    StillConsumed(env, s, n.replay);
  }

  /** A replayed rotation statement is refused before it reaches the rotation list: this is
      where the coupling between the two stores is needed. */
  lemma RecordedIsReplayed(env: Env, s: State, ro: Rotation)
    requires Coherent(env, s) && Recorded(s.rotation, ro)
    ensures ApplyRotate(env, s, ro).0 != Done && ApplyRotate(env, s, ro).1 == s
  {
    var i :| 0 <= i < |s.rotation.olds| && s.rotation.olds[i] == ro.old_ && s.rotation.news[i] == ro.new_;
    ConsumedStatement(env, ro.old_, RotateStatement(ro.old_, ro.new_), s.replay);
    assert Seeded(s, ro.old_) == s.rotation && s.(rotation := s.rotation) == s;
  }

  lemma ConsumedStatement(env: Env, signer: nat, st: Statement, used: Consumed<ReplayId>)
    requires StatementId(env, signer, st).Some? && StatementId(env, signer, st).value in used.keys
    ensures ConsumeStatement(env, signer, st, used) == (Replayed, used)
  {
  }

  lemma RotateKeeps(env: Env, s: State, ro: Rotation)
    requires Coherent(env, s)
    ensures var (r, n) := ApplyRotate(env, s, ro);
      Coherent(env, n) && Extends(s, n) && (r != Done ==> n == s)
  {
    var (r, n) := ApplyRotate(env, s, ro);
    if Recorded(s.rotation, ro) {
      RecordedIsReplayed(env, s, ro);
    } else {
      ConsumeIdMeaning(StatementId(env, ro.old_, RotateStatement(ro.old_, ro.new_)), s.replay);
      if n != s { RotateProceeds(env, s, ro); }
    }
  }

  /** The list update cannot fail once the statement is consumed. */
  lemma RotateProceeds(env: Env, s: State, ro: Rotation)
    requires Coherent(env, s) && !Recorded(s.rotation, ro) && ApplyRotate(env, s, ro).1 != s
    ensures ApplyRotate(env, s, ro).0 == Done
    ensures Coherent(env, ApplyRotate(env, s, ro).1) && Extends(s, ApplyRotate(env, s, ro).1)
  {
    var n := ApplyRotate(env, s, ro).1;
    var seeded := Seeded(s, ro.old_);
    ConsumeIdMeaning(StatementId(env, ro.old_, RotateStatement(ro.old_, ro.new_)), s.replay);
    assert SimplePath(seeded) && !Recorded(seeded, ro);
    UnrecordedIsCurrent(env.crypto, env.roots, seeded, ro);
    RotateExtends(env.crypto, env.roots, seeded, ro);
    StillConsumed(env, s, n.replay);
    RotationAppend(env, s.(replay := n.replay), ro, n.rotation);
  }

  lemma RotationAppend(env: Env, s: State, ro: Rotation, rotation: Rotations)
    requires |s.rotation.olds| == |s.rotation.news| && RotationsConsumed(env, s)
    requires rotation.olds == s.rotation.olds + [ro.old_] && rotation.news == s.rotation.news + [ro.new_]
    requires var id := StatementId(env, ro.old_, RotateStatement(ro.old_, ro.new_)); id.Some? && id.value in s.replay.keys
    requires forall x :: x in s.rotation.olds + s.rotation.news ==> x !in env.roots
    requires ro.old_ !in env.roots && ro.new_ !in env.roots
    ensures RotationsConsumed(env, s.(rotation := rotation))
    ensures forall x :: x in rotation.olds + rotation.news ==> x !in env.roots
  {
    forall x | x in rotation.olds + rotation.news ensures x !in env.roots {
      if x != ro.old_ && x != ro.new_ {
        assert x in s.rotation.olds || x in s.rotation.news;
      }
    }
  }

  lemma PublishKeeps(env: Env, s: State, p: Publication)
    requires Coherent(env, s)
    ensures var (r, n) := ApplyPublish(env, s, p);
      && Coherent(env, n) && Extends(s, n) && (r != Done ==> n == s)
      && (r == Done ==> ReplayId(p.signer, p.nonce) !in s.replay.keys && ReplayId(p.signer, p.nonce) in n.replay.keys)
  {
    ConsumeIdMeaning(ReplayIdOf(env, p.signer, p.nonce), s.replay);
    StillConsumed(env, s, ApplyPublish(env, s, p).1.replay);
  }

  /** Every action keeps the invariant, only ever adds, and changes nothing when it fails. */
  lemma ApplyKeeps(env: Env, s: State, a: Action)
    requires Coherent(env, s)
    ensures var (r, n) := Apply(env, s, a);
      Coherent(env, n) && Extends(s, n) && (r != Done ==> n == s)
  {
    match a
    case GrantAction(g) => GrantKeeps(env, s, g);
    case RevokeAction(r) => RevokeKeeps(env, s, r);
    case RotateAction(r) => RotateKeeps(env, s, r);
    case PublishAction(p) => PublishKeeps(env, s, p);
  }

  // ----------------------------------------------------------------------------- runs

  /** Apply a sequence of actions, each refused or accepted on its own merits. */
  ghost function Run(env: Env, s: State, actions: seq<Action>): State
    requires |s.rotation.olds| == |s.rotation.news|
    ensures |Run(env, s, actions).rotation.olds| == |Run(env, s, actions).rotation.news|
    decreases |actions|
  {
    if actions == [] then s
    else
      var n := Apply(env, s, actions[0]).1;
      Balanced(env, s, actions[0]);
      Run(env, n, actions[1..])
  }

  lemma Balanced(env: Env, s: State, a: Action)
    requires |s.rotation.olds| == |s.rotation.news|
    ensures |Apply(env, s, a).1.rotation.olds| == |Apply(env, s, a).1.rotation.news|
  {
  }

  lemma {:induction false} RunKeeps(env: Env, s: State, actions: seq<Action>)
    requires Coherent(env, s)
    ensures Coherent(env, Run(env, s, actions)) && Extends(s, Run(env, s, actions))
    decreases |actions|
  {
    if actions != [] {
      ApplyKeeps(env, s, actions[0]);
      RunKeeps(env, Apply(env, s, actions[0]).1, actions[1..]);
    }
  }

  lemma InitializeCoherent(env: Env, initial: nat, initials: seq<nat>, grants: nat, replays: nat)
    ensures Coherent(env, Initialize(env, initial, initials, grants, replays))
  {
  }

  /** The identities a rotation history passes through, from the first to the current one. */
  function Path(r: Rotations): seq<nat>
    requires r.olds != []
  {
    r.olds + [r.current]
  }

  /** In every reachable state the rotations are one simple path that starts at a genesis
      identity, ends at the current one, and never meets an identity twice. */
  lemma RotationSafety(env: Env, initial: nat, initials: seq<nat>, grants: nat, replays: nat, actions: seq<Action>)
    ensures var s := Run(env, Initialize(env, initial, initials, grants, replays), actions);
      && |s.rotation.olds| == |s.rotation.news| <= MAX_ROTATIONS
      && (s.rotation.olds != [] ==>
            var p := Path(s.rotation);
            && p[0] in initials
            && NoRepeats(p)
            && (forall i :: 0 <= i < |s.rotation.olds| ==> p[i] == s.rotation.olds[i] && p[i + 1] == s.rotation.news[i])
            && (forall i :: 0 <= i < |p| ==> p[i] !in env.roots))
  {
    var s0 := Initialize(env, initial, initials, grants, replays);
    InitializeCoherent(env, initial, initials, grants, replays);
    RunKeeps(env, s0, actions);
    var s := Run(env, s0, actions);
    if s.rotation.olds != [] { PathFacts(env, s); }
  }

  lemma PathIsSimple(r: Rotations)
    requires SimplePath(r) && r.olds != []
    ensures NoRepeats(Path(r)) && Path(r)[0] == r.olds[0]
    ensures forall i :: 0 <= i < |r.olds| ==> Path(r)[i] == r.olds[i] && Path(r)[i + 1] == r.news[i]
  {
    var p := Path(r);
    forall i, j | 0 <= i < j < |p| ensures p[i] != p[j] {
      assert p[i] == r.olds[i] && p[i] in r.olds;
    }
  }

  lemma PathOutside(r: Rotations, roots: seq<nat>)
    requires SimplePath(r) && r.olds != [] && forall x :: x in r.olds + r.news ==> x !in roots
    ensures forall i :: 0 <= i < |Path(r)| ==> Path(r)[i] !in roots
  {
    forall i | 0 <= i < |Path(r)| ensures Path(r)[i] !in roots {
      if i < |r.olds| { assert Path(r)[i] == (r.olds + r.news)[i]; }
      else { assert r.current == (r.olds + r.news)[2 * |r.olds| - 1]; }
    }
  }

  lemma PathFacts(env: Env, s: State)
    requires Coherent(env, s) && s.rotation.olds != []
    ensures var p := Path(s.rotation);
      && p[0] in s.initials && NoRepeats(p)
      && (forall i :: 0 <= i < |s.rotation.olds| ==> p[i] == s.rotation.olds[i] && p[i + 1] == s.rotation.news[i])
      && (forall i :: 0 <= i < |p| ==> p[i] !in env.roots)
  {
    PathIsSimple(s.rotation);
    PathOutside(s.rotation, env.roots);
  }

  /** Once an identity has been rotated away from, no later state lets it publish. */
  lemma RetiredNeverPublishes(env: Env, s: State, actions: seq<Action>, p: Publication)
    requires Coherent(env, s) && p.signer in s.rotation.olds
    ensures CheckPublication(env, Run(env, s, actions), p) == Refused
  {
    RunKeeps(env, s, actions);
    var n := Run(env, s, actions);
    var i :| 0 <= i < |s.rotation.olds| && s.rotation.olds[i] == p.signer;
    assert n.rotation.olds[i] == p.signer;
  }

  /** Once a publication has been accepted, no later state accepts it again. */
  lemma AcceptedOnce(env: Env, s: State, p: Publication, actions: seq<Action>)
    requires Coherent(env, s) && ApplyPublish(env, s, p).0 == Done
    ensures var n := Run(env, ApplyPublish(env, s, p).1, actions);
      ApplyPublish(env, n, p) == (Replayed, n) && CheckPublication(env, n, p) != Done
  {
    PublishKeeps(env, s, p);
    var s' := ApplyPublish(env, s, p).1;
    RunKeeps(env, s', actions);
    var n := Run(env, s', actions);
    var i :| 0 <= i < |s'.replay.keys| && s'.replay.keys[i] == ReplayId(p.signer, p.nonce);
    assert n.replay.keys[i] == ReplayId(p.signer, p.nonce);
  }

  /** A grant that permits this publication and has not been revoked. */
  ghost predicate Covers(env: Env, s: State, g: Grant, p: Publication) {
    GrantId(env.crypto, g).Ok? && GrantId(env.crypto, g).value !in s.revoked && env.permits(g.evidence, p)
  }

  lemma {:induction false} AuthorizedBy(env: Env, s: State, p: Publication, i: nat, found: bool)
    requires i <= |s.grants| && Authorized(env, s, p, i, found) == Done
    ensures found || exists k :: i <= k < |s.grants| && Covers(env, s, s.grants[k], p)
    decreases |s.grants| - i
  {
    if i < |s.grants| {
      var g := s.grants[i];
      AuthorizedBy(env, s, p, i + 1, found || (GrantId(env.crypto, g).value !in s.revoked && env.permits(g.evidence, p)));
    }
  }

  /** An accepted publication is signed, comes from an identity that was not rotated away,
      and is covered by a root-issued grant that has not been revoked. */
  lemma PublicationIsAuthorized(env: Env, s: State, p: Publication)
    requires Coherent(env, s) && CheckPublication(env, s, p) == Done
    ensures env.signed(p) == Valid && p.signer !in s.rotation.olds
    ensures exists k :: 0 <= k < |s.grants| && s.grants[k].issuer in env.roots && Covers(env, s, s.grants[k], p)
  {
    AuthorizedBy(env, s, p, 0, false);
  }

  // -------------------------------------------------------------------------- rebuild

  /** stn_lifecycle_rebuild: forget everything derived, then apply the actions again,
      stopping at the first one that is not accepted. */
  function Reset(env: Env, s: State): State {
    s.(grants := [], revoked := [], rotation := StartRotation(env, s.initial), replay := s.replay.(keys := []))
  }

  function ApplyAll(env: Env, s: State, actions: seq<Action>): (Result, State)
    requires |s.rotation.olds| == |s.rotation.news|
    decreases |actions|
  {
    if actions == [] then (Done, s)
    else
      var (r, n) := Apply(env, s, actions[0]);
      Balanced(env, s, actions[0]);
      if r != Done then (r, n) else ApplyAll(env, n, actions[1..])
  }

  function Rebuild(env: Env, s: State, actions: seq<Action>): (Result, State) {
    ApplyAll(env, Reset(env, s), actions)
  }

  lemma {:induction false} ApplyAllConstants(env: Env, s: State, actions: seq<Action>)
    requires |s.rotation.olds| == |s.rotation.news|
    ensures var n := ApplyAll(env, s, actions).1;
      n.initial == s.initial && n.initials == s.initials && n.grantCapacity == s.grantCapacity && n.replay.capacity == s.replay.capacity
    decreases |actions|
  {
    if actions != [] {
      var (r, n) := Apply(env, s, actions[0]);
      Balanced(env, s, actions[0]);
      if r == Done { ApplyAllConstants(env, n, actions[1..]); }
    }
  }

  /** Rebuilding from the accepted actions restores the state exactly. */
  lemma RebuildRestores(env: Env, initial: nat, initials: seq<nat>, grants: nat, replays: nat, actions: seq<Action>)
    requires ApplyAll(env, Initialize(env, initial, initials, grants, replays), actions).0 == Done
    ensures var s := ApplyAll(env, Initialize(env, initial, initials, grants, replays), actions).1;
      Rebuild(env, s, actions) == (Done, s)
  {
    var s0 := Initialize(env, initial, initials, grants, replays);
    ApplyAllConstants(env, s0, actions);
    assert Reset(env, ApplyAll(env, s0, actions).1) == s0;
  }
}
