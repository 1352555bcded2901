/** Grants, revocations and identity rotations (src/stn_authority.c) as values. Keys and
    identifiers are the values of their 32 bytes; signatures and hashes are parameters. */
module Authority {
  import opened BigEndian
  import opened Status

  const VERSION: nat := 1
  const MAX_ROOTS: nat := 16
  const MAX_REVOKED: nat := 256
  const MAX_ROTATIONS: nat := 256

  datatype Grant = Grant(version: nat, issuer: nat, evidence: seq<byte>, signature: seq<byte>)
  datatype Revocation = Revocation(version: nat, issuer: nat, grantId: nat, signature: seq<byte>)
  datatype Rotation = Rotation(version: nat, old_: nat, new_: nat, signature: seq<byte>)

  /** The signed statements; the program lays each out under its own domain prefix. */
  datatype Statement =
    | GrantStatement(issuer: nat, evidence: seq<byte>)
    | RevokeStatement(issuer: nat, grantId: nat)
    | RotateStatement(old_: nat, new_: nat)

  datatype Verdict = Valid | Malformed | Invalid

  datatype Crypto = Crypto(
    identityValid: nat -> bool,
    evidenceValid: seq<byte> -> bool,
    verify: (nat, Statement, seq<byte>) -> Verdict,
    grantDigest: Grant -> Outcome<nat>)

  ghost predicate Ascending(s: seq<nat>) {
    forall i, j :: 0 <= i < j < |s| ==> s[i] < s[j]
  }

  predicate RootsValid(c: Crypto, roots: seq<nat>) {
    && |roots| <= MAX_ROOTS
    && forall i :: 0 <= i < |roots| ==>
         c.identityValid(roots[i]) && (i > 0 ==> roots[i - 1] < roots[i])
  }

  // -------------------------------------------------------------------------- grants

  predicate GrantStatementOk(c: Crypto, g: Grant) { c.identityValid(g.issuer) && c.evidenceValid(g.evidence) }

  function ValidateGrant(c: Crypto, roots: seq<nat>, g: Grant): Verdict {
    if g.version != VERSION || !RootsValid(c, roots) then Malformed
    else if !GrantStatementOk(c, g) then Malformed
    else if g.issuer !in roots || c.verify(g.issuer, GrantStatement(g.issuer, g.evidence), g.signature) != Valid then Invalid
    else Valid
  }

  function GrantId(c: Crypto, g: Grant): Outcome<nat> {
    if g.version != VERSION || !GrantStatementOk(c, g) then Err(Content) else c.grantDigest(g)
  }

  // --------------------------------------------------------------------- revocations

  function ValidateRevocation(c: Crypto, roots: seq<nat>, r: Revocation, g: Grant): Verdict {
    if r.version != VERSION then Malformed
    else if ValidateGrant(c, roots, g) != Valid then ValidateGrant(c, roots, g)
    else if GrantId(c, g).Err? then Invalid
    else if r.grantId == 0 || !c.identityValid(r.issuer) then Malformed
    else if r.issuer != g.issuer then Invalid
    else if r.grantId != GrantId(c, g).value then Invalid
    else c.verify(r.issuer, RevokeStatement(r.issuer, r.grantId), r.signature)
  }

  /** The insertion point of the backwards shift. */
  function Slot(ids: seq<nat>, id: nat): (pos: nat)
    ensures pos <= |ids|
    ensures pos > 0 ==> ids[pos - 1] <= id
    ensures forall i :: pos <= i < |ids| ==> ids[i] > id
  {
    if ids == [] then 0
    else if ids[|ids| - 1] > id then Slot(ids[..|ids| - 1], id)
    else |ids|
  }

  /** stn_authority_state_apply on the sorted list of revoked grants. */
  function Revoke(c: Crypto, roots: seq<nat>, ids: seq<nat>, r: Revocation, g: Grant): (Verdict, seq<nat>) {
    var v := ValidateRevocation(c, roots, r, g);
    if v != Valid then (v, ids)
    else if r.grantId in ids then (Valid, ids)
    else if |ids| == MAX_REVOKED then (Invalid, ids)
    else
      (Valid, Inserted(ids, r.grantId))
  }

  function Inserted(ids: seq<nat>, id: nat): seq<nat> {
    var pos := Slot(ids, id);
    ids[..pos] + [id] + ids[pos..]
  }

  lemma InsertedMembers(ids: seq<nat>, id: nat)
    ensures forall x :: x in Inserted(ids, id) <==> x in ids || x == id
  {
    var pos := Slot(ids, id);
    forall x ensures x in Inserted(ids, id) <==> x in ids || x == id {
      assert x in ids <==> x in ids[..pos] || x in ids[pos..] by { assert ids == ids[..pos] + ids[pos..]; }
    }
  }

  lemma InsertedAscending(ids: seq<nat>, id: nat)
    requires Ascending(ids) && id !in ids
    ensures Ascending(Inserted(ids, id))
  {
    var pos := Slot(ids, id);
    var n := Inserted(ids, id);
    assert n[..pos] == ids[..pos] && n[pos] == id && n[pos + 1..] == ids[pos..];
    forall i | 0 <= i < pos ensures ids[i] < id {
      assert ids[i] in ids && ids[i] <= ids[pos - 1];
    }
  }

  /** The revoked set only grows, by exactly the revoked grant, and stays sorted. */
  lemma RevokeMeaning(c: Crypto, roots: seq<nat>, ids: seq<nat>, r: Revocation, g: Grant)
    requires Ascending(ids) && |ids| <= MAX_REVOKED
    ensures var (v, ids') := Revoke(c, roots, ids, r, g);
      && Ascending(ids') && |ids'| <= MAX_REVOKED
      && (v == Valid ==> forall x :: x in ids' <==> x in ids || x == r.grantId)
      && (v != Valid ==> ids' == ids)
  {
    if r.grantId !in ids {
      InsertedAscending(ids, r.grantId);
      InsertedMembers(ids, r.grantId);
    }
  }

  // ----------------------------------------------------------------------- rotations

  datatype Rotations = Rotations(initial: nat, current: nat, olds: seq<nat>, news: seq<nat>)

  predicate RotateStatementOk(c: Crypto, r: Rotation) {
    c.identityValid(r.old_) && c.identityValid(r.new_) && r.old_ != r.new_
  }

  datatype ScanResult = Continue | Decided(v: Verdict)

  /** The scan of the recorded rotations: a recorded pair is answered at once, a retired
      identity may neither rotate elsewhere nor come back. */
  function ScanRecorded(s: Rotations, r: Rotation, i: nat): ScanResult
    requires i <= |s.olds| == |s.news|
    decreases |s.olds| - i
  {
    if i == |s.olds| then Continue
    else if s.olds[i] == r.old_ then Decided(if s.news[i] == r.new_ then Valid else Invalid)
    else if s.olds[i] == r.new_ then Decided(Invalid)
    else ScanRecorded(s, r, i + 1)
  }

  /** stn_identity_rotation_validate. */
  function ValidateRotation(c: Crypto, roots: seq<nat>, s: Rotations, r: Rotation): Verdict
    requires |s.olds| == |s.news|
  {
    if r.version != VERSION || |s.olds| > MAX_ROTATIONS || !RootsValid(c, roots) then Malformed
    else if !c.identityValid(r.old_) || !c.identityValid(r.new_) then Malformed
    else if r.old_ == r.new_ || r.old_ in roots || r.new_ in roots then Invalid
    else
      match ScanRecorded(s, r, 0)
      case Decided(v) => v
      case Continue =>
        if r.old_ != s.current then Invalid
        else c.verify(r.old_, RotateStatement(r.old_, r.new_), r.signature)
  }

  /** stn_identity_rotation_apply. */
  function Rotate(c: Crypto, roots: seq<nat>, s: Rotations, r: Rotation): (Verdict, Rotations)
    requires |s.olds| == |s.news|
  {
    var v := ValidateRotation(c, roots, s, r);
    if v != Valid then (v, s)
    else if s.current == r.new_ then (Valid, s)
    else if |s.olds| == MAX_ROTATIONS then (Invalid, s)
    else (Valid, s.(olds := s.olds + [r.old_], news := s.news + [r.new_], current := r.new_))
  }

  /** The recorded rotations form one simple path of identities ending in the current one. */
  ghost predicate SimplePath(s: Rotations) {
    && |s.olds| == |s.news|
    && (forall i :: 0 < i < |s.olds| ==> s.olds[i] == s.news[i - 1])
    && (forall i, j :: 0 <= i < j < |s.olds| ==> s.olds[i] != s.olds[j])
    && (s.olds != [] ==> s.current == s.news[|s.news| - 1] && s.current !in s.olds)
  }

  ghost predicate Recorded(s: Rotations, r: Rotation)
    requires |s.olds| == |s.news|
  {
    exists i :: 0 <= i < |s.olds| && s.olds[i] == r.old_ && s.news[i] == r.new_
  }

  lemma {:induction false} ScanMeaning(s: Rotations, r: Rotation, i: nat)
    requires i <= |s.olds| == |s.news|
    ensures ScanRecorded(s, r, i).Continue? <==> r.old_ !in s.olds[i..] && r.new_ !in s.olds[i..]
    ensures ScanRecorded(s, r, i) == Decided(Valid) ==>
      exists k :: i <= k < |s.olds| && s.olds[k] == r.old_ && s.news[k] == r.new_
    decreases |s.olds| - i
  {
    if i < |s.olds| {
      ScanMeaning(s, r, i + 1);
      assert s.olds[i..] == [s.olds[i]] + s.olds[i + 1..];
    }
  }

  /** A rotation that is not on record extends the path by one fresh identity. */
  lemma RotateExtends(c: Crypto, roots: seq<nat>, s: Rotations, r: Rotation)
    requires SimplePath(s) && |s.olds| <= MAX_ROTATIONS && !Recorded(s, r)
    requires Rotate(c, roots, s, r).0 == Valid
    ensures var n := Rotate(c, roots, s, r).1;
      && SimplePath(n) && |n.olds| <= MAX_ROTATIONS
      && n == s.(olds := s.olds + [r.old_], news := s.news + [r.new_], current := r.new_)
      && r.old_ == s.current && r.new_ !in s.olds
  {
    UnrecordedIsCurrent(c, roots, s, r);
    PathExtends(s, r.new_);
  }

  lemma UnrecordedIsCurrent(c: Crypto, roots: seq<nat>, s: Rotations, r: Rotation)
    requires |s.olds| == |s.news| && !Recorded(s, r) && ValidateRotation(c, roots, s, r) == Valid
    ensures r.old_ == s.current != r.new_ && r.new_ !in s.olds
  {
    ScanMeaning(s, r, 0);
    assert s.olds[0..] == s.olds;
  }

  lemma PathExtends(s: Rotations, x: nat)
    requires SimplePath(s) && x != s.current && x !in s.olds
    ensures SimplePath(s.(olds := s.olds + [s.current], news := s.news + [x], current := x))
  {
    forall i | 0 <= i < |s.olds| ensures s.olds[i] != s.current { assert s.olds[i] in s.olds; }
  }

  /** On its own stn_identity_rotation_apply does not protect the path: an earlier recorded
      pair is appended again, without a signature check, and its identity becomes current
      once more. It keeps a simple path exactly when the pair is new or the last one. */
  lemma RotateAloneCanReturn(c: Crypto, roots: seq<nat>, s: Rotations, r: Rotation)
    requires SimplePath(s) && |s.olds| < MAX_ROTATIONS && Rotate(c, roots, s, r).0 == Valid
    ensures SimplePath(Rotate(c, roots, s, r).1) <==> !Recorded(s, r) || r.new_ == s.current
    ensures Recorded(s, r) && r.new_ != s.current ==> Rotate(c, roots, s, r).1.olds == s.olds + [r.old_]
  {
    if Recorded(s, r) {
      var i :| 0 <= i < |s.olds| && s.olds[i] == r.old_ && s.news[i] == r.new_;
      var n := Rotate(c, roots, s, r).1;
      if r.new_ != s.current {
        assert n.olds[i] == n.olds[|s.olds|];
      }
    } else {
      RotateExtends(c, roots, s, r);
    }
  }

  /** The shortest such return: behind 1 to 2 to 3, the recorded rotation from 1 to 2 is
      answered Valid whatever its signature, and makes 2 current although it was retired. */
  lemma RetiredReturns(c: Crypto, roots: seq<nat>)
    requires RootsValid(c, roots) && 1 !in roots && 2 !in roots && 3 !in roots
    requires c.identityValid(1) && c.identityValid(2) && c.identityValid(3)
    ensures var s, r := Rotations(1, 3, [1, 2], [2, 3]), Rotation(VERSION, 1, 2, []);
      var (v, n) := Rotate(c, roots, s, r);
      && SimplePath(s) && v == Valid
      && n == Rotations(1, 2, [1, 2, 1], [2, 3, 2]) && n.current in s.olds && !SimplePath(n)
  {
    var s, r := Rotations(1, 3, [1, 2], [2, 3]), Rotation(VERSION, 1, 2, []);
    var n := Rotate(c, roots, s, r).1;
    assert s.olds[0] == 1 && s.olds[1] == 2 && n.olds[0] == n.olds[2];
  }
}
