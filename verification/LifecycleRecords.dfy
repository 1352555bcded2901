/** What a run of accepted lifecycle actions leaves on record, entry by entry, and that it
    would do the same in any store with more room. */
module LifecycleRecords {
  import opened Status
  import opened Hashing
  import opened Sequences
  import opened Replay
  import opened Authority
  import opened Lifecycle
  import opened LifecycleProofs

  // ----------------------------------------------------------------------- records

  function GrantsIn(a: Action): seq<Grant> { if a.GrantAction? then [a.grant] else [] }

  function RevokedIn(a: Action): seq<nat> { if a.RevokeAction? then [a.revocation.grantId] else [] }

  function OldsIn(a: Action): seq<nat> { if a.RotateAction? then [a.rotation.old_] else [] }

  function NewsIn(a: Action): seq<nat> { if a.RotateAction? then [a.rotation.new_] else [] }

  /** The replay identifier an action spends. */
  function SpentBy(env: Env, a: Action): Option<ReplayId> {
    match a
    case GrantAction(g) => StatementId(env, g.issuer, GrantStatement(g.issuer, g.evidence))
    case RevokeAction(r) => StatementId(env, r.issuer, RevokeStatement(r.issuer, r.grantId))
    case RotateAction(r) => StatementId(env, r.old_, RotateStatement(r.old_, r.new_))
    case PublishAction(p) => ReplayIdOf(env, p.signer, p.nonce)
  }

  function SpentIn(env: Env): Action -> seq<ReplayId> {
    (a: Action) => if SpentBy(env, a).Some? then [SpentBy(env, a).value] else []
  }

  /** The state gained exactly what these actions put on record: their grants, rotations and
      replay identifiers in order, and the grants they revoke. */
  ghost predicate Recorded(env: Env, s: State, n: State, actions: seq<Action>) {
    && n.grants == s.grants + Flat(GrantsIn, actions)
    && n.rotation.olds == s.rotation.olds + Flat(OldsIn, actions)
    && n.rotation.news == s.rotation.news + Flat(NewsIn, actions)
    && n.replay.keys == s.replay.keys + Flat(SpentIn(env), actions)
    && (forall x :: x in n.revoked <==> x in s.revoked || x in Flat(RevokedIn, actions))
    && n.initial == s.initial && n.initials == s.initials
  }

  lemma NothingRecorded(env: Env, s: State)
    ensures Recorded(env, s, s, [])
  {
  }

  lemma RecordedTwice(env: Env, s: State, m: State, n: State, x: seq<Action>, y: seq<Action>)
    requires Recorded(env, s, m, x) && Recorded(env, m, n, y)
    ensures Recorded(env, s, n, x + y)
  {
    FlatTwice(GrantsIn, s.grants, m.grants, n.grants, x, y);
    FlatTwice(OldsIn, s.rotation.olds, m.rotation.olds, n.rotation.olds, x, y);
    FlatTwice(NewsIn, s.rotation.news, m.rotation.news, n.rotation.news, x, y);
    FlatTwice(SpentIn(env), s.replay.keys, m.replay.keys, n.replay.keys, x, y);
    FlatConcat(RevokedIn, x, y);
  }

  lemma OneAction(env: Env, a: Action)
    ensures Flat(GrantsIn, [a]) == GrantsIn(a) && Flat(OldsIn, [a]) == OldsIn(a) && Flat(NewsIn, [a]) == NewsIn(a)
    ensures Flat(RevokedIn, [a]) == RevokedIn(a) && Flat(SpentIn(env), [a]) == SpentIn(env)(a)
  {
    FlatOne(GrantsIn, a);
    FlatOne(OldsIn, a);
    FlatOne(NewsIn, a);
    FlatOne(RevokedIn, a);
    FlatOne(SpentIn(env), a);
  }

  lemma RevokeRecords(env: Env, s: State, rv: Revocation)
    requires Coherent(env, s) && ApplyRevoke(env, s, rv).0 == Done
    ensures var n := ApplyRevoke(env, s, rv).1;
      && n == s.(replay := n.replay, revoked := n.revoked)
      && (forall x :: x in n.revoked <==> x in s.revoked || x == rv.grantId)
      && n.replay == ConsumeStatement(env, rv.issuer, RevokeStatement(rv.issuer, rv.grantId), s.replay).1
  {
    var g := FindGrant(env, s.grants, rv.grantId);
    RevokeMeaning(env.crypto, env.roots, s.revoked, rv, g.value);
  }

  lemma RotateRecords(env: Env, s: State, ro: Rotation)
    requires Coherent(env, s) && ApplyRotate(env, s, ro).0 == Done
    ensures var n := ApplyRotate(env, s, ro).1;
      && n.rotation.olds == s.rotation.olds + [ro.old_] && n.rotation.news == s.rotation.news + [ro.new_]
      && n == s.(replay := n.replay, rotation := n.rotation)
      && n.replay == ConsumeStatement(env, ro.old_, RotateStatement(ro.old_, ro.new_), s.replay).1
  {
    if Authority.Recorded(s.rotation, ro) { RecordedIsReplayed(env, s, ro); }
    var seeded := Seeded(s, ro.old_);
    assert SimplePath(seeded) && !Authority.Recorded(seeded, ro);
    RotateExtends(env.crypto, env.roots, seeded, ro);
  }

  lemma GrantRecords(env: Env, s: State, g: Grant)
    requires Coherent(env, s) && ApplyGrant(env, s, g).0 == Done
    ensures Recorded(env, s, ApplyGrant(env, s, g).1, [GrantAction(g)])
  {
    OneAction(env, GrantAction(g));
    ConsumeIdMeaning(StatementId(env, g.issuer, GrantStatement(g.issuer, g.evidence)), s.replay);
  }

  lemma RevokeRecorded(env: Env, s: State, rv: Revocation)
    requires Coherent(env, s) && ApplyRevoke(env, s, rv).0 == Done
    ensures Recorded(env, s, ApplyRevoke(env, s, rv).1, [RevokeAction(rv)])
  {
    OneAction(env, RevokeAction(rv));
    RevokeRecords(env, s, rv);
    ConsumeIdMeaning(StatementId(env, rv.issuer, RevokeStatement(rv.issuer, rv.grantId)), s.replay);
  }

  lemma RotateRecorded(env: Env, s: State, ro: Rotation)
    requires Coherent(env, s) && ApplyRotate(env, s, ro).0 == Done
    ensures Recorded(env, s, ApplyRotate(env, s, ro).1, [RotateAction(ro)])
  {
    OneAction(env, RotateAction(ro));
    RotateRecords(env, s, ro);
    ConsumeIdMeaning(StatementId(env, ro.old_, RotateStatement(ro.old_, ro.new_)), s.replay);
  }

  lemma PublishRecords(env: Env, s: State, p: Publication)
    requires Coherent(env, s) && ApplyPublish(env, s, p).0 == Done
    ensures Recorded(env, s, ApplyPublish(env, s, p).1, [PublishAction(p)])
  {
    OneAction(env, PublishAction(p));
    ConsumeIdMeaning(ReplayIdOf(env, p.signer, p.nonce), s.replay);
  }

  /** An accepted action puts exactly itself on record. */
  lemma ApplyRecords(env: Env, s: State, a: Action)
    requires Coherent(env, s) && Apply(env, s, a).0 == Done
    ensures Recorded(env, s, Apply(env, s, a).1, [a])
  {
    match a
    case GrantAction(g) => GrantRecords(env, s, g);
    case RevokeAction(r) => RevokeRecorded(env, s, r);
    case RotateAction(r) => RotateRecorded(env, s, r);
    case PublishAction(p) => PublishRecords(env, s, p);
  }

  // ------------------------------------------------------------------------- twins

  /** Two states that differ at most in how much room their stores have. */
  predicate Twin(s: State, m: State) {
    && m.initial == s.initial && m.initials == s.initials && m.grants == s.grants && m.revoked == s.revoked
    && m.rotation == s.rotation && m.replay.keys == s.replay.keys
  }

  /** Room for this many more grants and replay identifiers. */
  predicate Spacious(m: State, k: nat) {
    |m.grants| + k <= m.grantCapacity && |m.replay.keys| + k <= m.replay.capacity
  }

  lemma ConsumeTwin(env: Env, signer: nat, st: Statement, used: Consumed<ReplayId>, more: Consumed<ReplayId>)
    requires used.keys == more.keys && |more.keys| < more.capacity
    requires ConsumeStatement(env, signer, st, used).0 == Done
    ensures var (r, n) := ConsumeStatement(env, signer, st, more);
      r == Done && n.keys == ConsumeStatement(env, signer, st, used).1.keys && n.capacity == more.capacity && |n.keys| == |more.keys| + 1
  {
  }

  /** What one store accepts, a twin with room accepts, and they stay twins. */
  lemma ApplyTwin(env: Env, s: Paired, m: Paired, a: Action, k: nat)
    requires Twin(s, m) && Apply(env, s, a).0 == Done && Spacious(m, k + 1)
    ensures var (r, n) := Apply(env, m, a); r == Done && Twin(Apply(env, s, a).1, n) && Spacious(n, k)
  {
    match a
    case GrantAction(g) => ConsumeTwin(env, g.issuer, GrantStatement(g.issuer, g.evidence), s.replay, m.replay);
    case RevokeAction(r) => ConsumeTwin(env, r.issuer, RevokeStatement(r.issuer, r.grantId), s.replay, m.replay);
    case RotateAction(r) => ConsumeTwin(env, r.old_, RotateStatement(r.old_, r.new_), s.replay, m.replay);
    case PublishAction(p) =>
  }

  /** Every twin of `s` with room accepts all these actions and ends as a twin of `n`. */
  ghost predicate Plays(env: Env, s: Paired, n: Paired, actions: seq<Action>) {
    forall m: Paired, k: nat :: Twin(s, m) && Spacious(m, k + |actions|) ==> Ends(env, m, n, actions, k)
  }

  ghost predicate Ends(env: Env, m: Paired, n: Paired, actions: seq<Action>, k: nat) {
    var (r, e) := ApplyAll(env, m, actions); r == Done && Twin(n, e) && Spacious(e, k)
  }

  lemma PlaysNothing(env: Env, s: Paired, n: Paired)
    requires Twin(s, n)
    ensures Plays(env, s, n, [])
  {
  }

  lemma PlaysOne(env: Env, s: Paired, a: Action)
    requires Apply(env, s, a).0 == Done
    ensures Plays(env, s, Apply(env, s, a).1, [a])
  {
    forall m: Paired, k: nat | Twin(s, m) && Spacious(m, k + 1) ensures Ends(env, m, Apply(env, s, a).1, [a], k) {
      ApplyTwin(env, s, m, a, k);
      assert [a][1..] == [];
    }
  }

  lemma AllFirst(env: Env, m: Paired, actions: seq<Action>)
    requires actions != [] && ApplyAll(env, m, actions).0 == Done
    ensures Apply(env, m, actions[0]).0 == Done
    ensures ApplyAll(env, m, actions) == ApplyAll(env, Apply(env, m, actions[0]).1, actions[1..])
  {
  }

  type Player = (Paired, Action) -> (Result, Paired)

  /** ApplyAll with its step as a parameter. */
  function Play(p: Player, m: Paired, actions: seq<Action>): (Result, Paired)
    decreases |actions|
  {
    if actions == [] then (Done, m)
    else
      var (r, n) := p(m, actions[0]);
      if r != Done then (r, n) else Play(p, n, actions[1..])
  }

  lemma {:induction false} PlaySplits(p: Player, m: Paired, x: seq<Action>, y: seq<Action>)
    requires Play(p, m, x).0 == Done
    ensures Play(p, m, x + y) == Play(p, Play(p, m, x).1, y)
    decreases |x|
  {
    if x == [] {
      assert x + y == y;
    } else {
      PlaySplits(p, p(m, x[0]).1, x[1..], y);
      assert (x + y)[1..] == x[1..] + y;
    }
  }

  function PlayerOf(env: Env): Player { (m: Paired, a: Action) => Apply(env, m, a) }

  lemma {:induction false} PlayIsApplyAll(env: Env, m: Paired, actions: seq<Action>)
    ensures Play(PlayerOf(env), m, actions) == ApplyAll(env, m, actions)
    decreases |actions|
  {
    if actions != [] && PlayerOf(env)(m, actions[0]).0 == Done {
      PlayIsApplyAll(env, PlayerOf(env)(m, actions[0]).1, actions[1..]);
    }
  }

  lemma ApplyAllSplits(env: Env, m: Paired, x: seq<Action>, y: seq<Action>)
    requires ApplyAll(env, m, x).0 == Done
    ensures var e := ApplyAll(env, m, x).1;
      |e.rotation.olds| == |e.rotation.news| && ApplyAll(env, m, x + y) == ApplyAll(env, e, y)
  {
    PlayIsApplyAll(env, m, x);
    PlaySplits(PlayerOf(env), m, x, y);
    PlayIsApplyAll(env, m, x + y);
    PlayIsApplyAll(env, Play(PlayerOf(env), m, x).1, y);
  }

  lemma PlaysTwice(env: Env, s: Paired, p: Paired, n: Paired, x: seq<Action>, y: seq<Action>)
    requires Plays(env, s, p, x) && Plays(env, p, n, y)
    ensures Plays(env, s, n, x + y)
  {
    forall m: Paired, k: nat | Twin(s, m) && Spacious(m, k + |x + y|) ensures Ends(env, m, n, x + y, k) {
      assert Ends(env, m, p, x, k + |y|);
      ApplyAllSplits(env, m, x, y);
      assert Ends(env, ApplyAll(env, m, x).1, n, y, k);
    }
  }

  /** Actions that are all accepted do the same one by one or as a run. */
  lemma {:induction false} AllAcceptedIsRun(env: Env, m: Paired, actions: seq<Action>)
    requires ApplyAll(env, m, actions).0 == Done
    ensures Run(env, m, actions) == ApplyAll(env, m, actions).1
    decreases |actions|
  {
    if actions != [] {
      Balanced(env, m, actions[0]);
      AllAcceptedIsRun(env, Apply(env, m, actions[0]).1, actions[1..]);
    }
  }

  // ----------------------------------------------------------------- what is listed

  /** An accepted action spends a replay identifier. */
  lemma {:induction false} AllSpend(env: Env, m: Paired, actions: seq<Action>)
    requires ApplyAll(env, m, actions).0 == Done
    ensures forall i :: 0 <= i < |actions| ==> SpentBy(env, actions[i]).Some?
    decreases |actions|
  {
    if actions != [] {
      AllFirst(env, m, actions);
      AppliedSpends(env, m, actions[0]);
      AllSpend(env, Apply(env, m, actions[0]).1, actions[1..]);
      forall i | 0 <= i < |actions| ensures SpentBy(env, actions[i]).Some? {
        if i > 0 { assert actions[i] == actions[1..][i - 1]; }
      }
    }
  }

  lemma AppliedSpends(env: Env, m: Paired, a: Action)
    requires Apply(env, m, a).0 == Done
    ensures SpentBy(env, a).Some?
  {
  }

  lemma {:induction false} Listed<T, K>(keys: T -> seq<K>, s: seq<T>, i: nat, k: K)
    requires i < |s| && keys(s[i]) == [k]
    ensures k in Flat(keys, s)
    decreases |s|
  {
    if i == 0 {
      assert ([k] + Flat(keys, s[1..]))[0] == k;
    } else {
      Listed(keys, s[1..], i - 1, k);
      assert Flat(keys, s) == keys(s[0]) + Flat(keys, s[1..]);
    }
  }

  /** Where the rotation at place `i` stands among the recorded ones. */
  lemma {:induction false} PairListed(actions: seq<Action>, i: nat) returns (k: nat)
    requires i < |actions| && actions[i].RotateAction?
    ensures k < |Flat(OldsIn, actions)| == |Flat(NewsIn, actions)|
    ensures Flat(OldsIn, actions)[k] == actions[i].rotation.old_ && Flat(NewsIn, actions)[k] == actions[i].rotation.new_
    decreases |actions|
  {
    PairsEven(actions[1..]);
    var width := |OldsIn(actions[0])|;
    if i == 0 {
      k := 0;
    } else {
      k := PairListed(actions[1..], i - 1);
      k := k + width;
    }
  }

  lemma {:induction false} PairsEven(actions: seq<Action>)
    ensures |Flat(OldsIn, actions)| == |Flat(NewsIn, actions)|
    decreases |actions|
  {
    if actions != [] { PairsEven(actions[1..]); }
  }

  lemma {:induction false} SpentInOrder(env: Env, actions: seq<Action>)
    requires NoRepeats(Flat(SpentIn(env), actions)) && forall i :: 0 <= i < |actions| ==> SpentBy(env, actions[i]).Some?
    ensures |Flat(SpentIn(env), actions)| == |actions|
    ensures forall i :: 0 <= i < |actions| ==> Some(Flat(SpentIn(env), actions)[i]) == SpentBy(env, actions[i])
    ensures forall i, j :: 0 <= i < j < |actions| ==> SpentBy(env, actions[i]) != SpentBy(env, actions[j])
    decreases |actions|
  {
    if actions != [] {
      var all, rest := Flat(SpentIn(env), actions), Flat(SpentIn(env), actions[1..]);
      assert all == [SpentBy(env, actions[0]).value] + rest;
      assert forall i :: 0 <= i < |rest| ==> rest[i] == all[i + 1];
      SpentInOrder(env, actions[1..]);
      forall i | 0 < i < |actions| ensures Some(all[i]) == SpentBy(env, actions[i]) {
        assert actions[i] == actions[1..][i - 1] && all[i] == rest[i - 1];
      }
    }
  }
}
