/** Peer candidates and the outbound lane (src/stn_peer.c): a strictly sorted bounded set,
    batches admitted as a whole, and one connection attempt at a time in round-robin order. */
module Peer {
  import opened BigEndian
  import opened Layout
  import opened Hashing

  const MAX_PEERS: nat := 64
  const INTERVAL: nat := 5000 // milliseconds between outbound steps
  const MAX_DISCOVERY: nat := 386 // count word and 64 endpoints

  datatype PeerStatus = Done | Retained | Argument | Protocol | Capacity | Failure(code: nat)

  /** An IPv4 address, as the value of its four bytes, and a port. */
  datatype Endpoint = Endpoint(address: nat, port: nat)

  predicate Typed(e: Endpoint) { e.address < 0x1_0000_0000 && e.port < 0x1_0000 }

  /** endpoint_valid: no port 0, no 0.x.x.x, nothing from 224.x.x.x up. */
  predicate Valid(e: Endpoint) { Typed(e) && e.port != 0 && 1 <= e.address / 0x100_0000 < 224 }

  /** endpoint_order: address bytes first, then port. */
  predicate Less(a: Endpoint, b: Endpoint) { a.address < b.address || (a.address == b.address && a.port < b.port) }

  /** What every operation checks of a set it is given. */
  predicate Proper(s: seq<Endpoint>) {
    forall i :: 0 <= i < |s| ==> Valid(s[i]) && (i > 0 ==> Less(s[i - 1], s[i]))
  }

  ghost predicate Ascending(s: seq<Endpoint>) { forall i, j :: 0 <= i < j < |s| ==> Less(s[i], s[j]) }

  function Elements(s: seq<Endpoint>): set<Endpoint> { set x | x in s }

  // -------------------------------------------------------------------- insertion

  /** Where the scan for an endpoint stops. */
  function Position(s: seq<Endpoint>, e: Endpoint): (at: nat)
    ensures at <= |s|
    ensures forall i :: 0 <= i < at ==> Less(s[i], e)
    ensures at < |s| ==> !Less(s[at], e)
  {
    if s == [] || !Less(s[0], e) then 0 else 1 + Position(s[1..], e)
  }

  function Inserted(s: seq<Endpoint>, e: Endpoint): seq<Endpoint> {
    var at := Position(s, e);
    s[..at] + [e] + s[at..]
  }

  /** stn_peer_candidate_add. */
  function Add(s: seq<Endpoint>, e: Endpoint): (PeerStatus, seq<Endpoint>) {
    if |s| > MAX_PEERS || !Valid(e) || !Proper(s) then (Argument, s)
    else
      var at := Position(s, e);
      if at < |s| && s[at] == e then (Retained, s)
      else if |s| == MAX_PEERS then (Capacity, s)
      else (Done, Inserted(s, e))
  }

  lemma {:induction false} ProperIsAscending(s: seq<Endpoint>)
    requires Proper(s)
    ensures Ascending(s)
    decreases |s|
  {
    if s != [] {
      var t := s[..|s| - 1];
      ProperIsAscending(t);
      forall i | 0 <= i < |t| ensures Less(s[i], s[|s| - 1]) {
        assert Less(s[|s| - 2], s[|s| - 1]);
        if i < |t| - 1 { assert Less(t[i], t[|t| - 1]); }
      }
      assert forall i, j :: 0 <= i < j < |t| ==> Less(t[i], t[j]) && t[i] == s[i] && t[j] == s[j];
    }
  }

  /** A sorted set holds an endpoint exactly when the scan stops on it. */
  lemma ScanIsExact(s: seq<Endpoint>, e: Endpoint)
    requires Proper(s)
    ensures var at := Position(s, e); (at < |s| && s[at] == e) <==> e in s
    ensures forall i :: Position(s, e) < i < |s| ==> Less(e, s[i])
    ensures var at := Position(s, e); at < |s| ==> s[at] == e || Less(e, s[at])
  {
    ProperIsAscending(s);
  }

  lemma InsertedProper(s: seq<Endpoint>, e: Endpoint)
    requires Proper(s) && Valid(e) && e !in s
    ensures Proper(Inserted(s, e))
  {
    ScanIsExact(s, e);
    var at := Position(s, e);
    var n := Inserted(s, e);
    forall i | 0 <= i < |n| ensures Valid(n[i]) && (i > 0 ==> Less(n[i - 1], n[i])) {
      if i < at {
        assert n[i] == s[i];
      } else if i > at {
        assert n[i] == s[i - 1];
      }
    }
  }

  lemma InsertedElements(s: seq<Endpoint>, e: Endpoint)
    ensures Elements(Inserted(s, e)) == Elements(s) + {e} && |Inserted(s, e)| == |s| + 1
  {
    var at := Position(s, e);
    var n := Inserted(s, e);
    forall x ensures x in n <==> x in s || x == e {
      assert s == s[..at] + s[at..];
    }
  }

  /** Adding keeps the set strictly sorted and adds exactly the endpoint. */
  lemma AddMeaning(s: seq<Endpoint>, e: Endpoint)
    requires Proper(s) && |s| <= MAX_PEERS
    ensures var (r, n) := Add(s, e);
      && Proper(n) && |n| <= MAX_PEERS && s == (if r == Done then s else n)
      && (r == Retained <==> Valid(e) && e in s)
      && (r == Done <==> Valid(e) && e !in s && |s| < MAX_PEERS)
      && (r == Done || r == Retained ==> Elements(n) == Elements(s) + {e})
      && (r == Done ==> |n| == |s| + 1)
  {
    ScanIsExact(s, e);
    if Add(s, e).0 == Done {
      InsertedProper(s, e);
      InsertedElements(s, e);
    }
  }

  // ---------------------------------------------------------------------- discovery

  function Wire(e: Endpoint): seq<byte> { Bytes(4, e.address) + Bytes(2, e.port) }

  function WireAll(s: seq<Endpoint>): seq<byte> { if s == [] then [] else Wire(s[0]) + WireAll(s[1..]) }

  function Unwire(b: seq<byte>): seq<Endpoint> {
    if |b| < 6 then [] else [Endpoint(Value(b[..4]), Value(b[4..6]))] + Unwire(b[6..])
  }

  predicate Harmless(r: PeerStatus) { r == Done || r == Retained }

  /** Adding a whole list, skipping `self`; the first failure ends it. */
  function AddAll(s: seq<Endpoint>, batch: seq<Endpoint>, self: Option<Endpoint>): (PeerStatus, seq<Endpoint>)
    decreases |batch|
  {
    if batch == [] then (Done, s)
    else if self == Some(batch[0]) then AddAll(s, batch[1..], self)
    else
      var (r, n) := Add(s, batch[0]);
      if Harmless(r) then AddAll(n, batch[1..], self) else (r, n)
  }

  /** stn_peer_discovery_admit: the batch is staged and sorted on the side first. */
  function Admit(s: seq<Endpoint>, self: Option<Endpoint>, payload: seq<byte>): (PeerStatus, seq<Endpoint>) {
    if self.Some? && !Valid(self.value) then (Argument, s)
    else if |payload| < 2 || |payload| > MAX_DISCOVERY then (Protocol, s)
    else
      var count := Value(payload[..2]);
      if count > MAX_PEERS || |payload| != 2 + 6 * count then (Protocol, s)
      else
        var (staged, ordered) := AddAll([], Unwire(payload[2..]), None);
        if staged != Done then (Protocol, s)
        else if |s| > MAX_PEERS || !Proper(s) then (Argument, s)
        else
          var (r, merged) := AddAll(s, ordered, self);
          if r == Done then (Done, merged) else (r, s)
  }

  function Without(s: seq<Endpoint>, self: Option<Endpoint>): seq<Endpoint> {
    if s == [] then []
    else if self == Some(s[0]) then Without(s[1..], self)
    else [s[0]] + Without(s[1..], self)
  }

  /** stn_peer_discovery_encode. */
  function Encode(s: seq<Endpoint>, self: Option<Endpoint>, capacity: nat): (PeerStatus, seq<byte>) {
    if |s| > MAX_PEERS || (self.Some? && !Valid(self.value)) || !Proper(s) then (Argument, [])
    else
      var kept := Without(s, self);
      if capacity < 2 + 6 * |kept| then (Capacity, [])
      else (Done, Bytes(2, |kept|) + WireAll(kept))
  }

  function Selves(self: Option<Endpoint>): set<Endpoint> { if self.Some? then {self.value} else {} }

  /** A batch is added completely, but for `self`, or the sum of both does not fit. */
  lemma {:induction false} AddAllMeaning(s: seq<Endpoint>, batch: seq<Endpoint>, self: Option<Endpoint>)
    requires Proper(s) && |s| <= MAX_PEERS
    ensures var (r, n) := AddAll(s, batch, self);
      && Proper(n) && |n| <= MAX_PEERS && r != Retained
      && (r == Done ==> Elements(n) == Elements(s) + (Elements(batch) - Selves(self)))
      && (r == Done ==> forall x :: x in batch && Some(x) != self ==> Valid(x))
    decreases |batch|
  {
    if batch != [] {
      assert Elements(batch) == {batch[0]} + Elements(batch[1..]);
      if self == Some(batch[0]) {
        AddAllMeaning(s, batch[1..], self);
      } else {
        AddMeaning(s, batch[0]);
        AddAllMeaning(Add(s, batch[0]).1, batch[1..], self);
      }
    }
  }

  lemma {:induction false} AsManyElements(s: seq<Endpoint>)
    requires Ascending(s)
    ensures |Elements(s)| == |s|
    decreases |s|
  {
    if s != [] {
      AsManyElements(s[1..]);
      assert Elements(s) == {s[0]} + Elements(s[1..]);
      assert s[0] !in s[1..];
    }
  }

  /** All of a batch but `self` is valid, and together with these it is at most 64. */
  ghost predicate Fits(all: set<Endpoint>, batch: seq<Endpoint>, self: Option<Endpoint>) {
    && (forall x :: x in batch && Some(x) != self ==> Valid(x))
    && |all + (Elements(batch) - Selves(self))| <= 64
  }

  lemma FitsOne(all: set<Endpoint>, batch: seq<Endpoint>, self: Option<Endpoint>)
    requires batch != []
    ensures self == Some(batch[0]) ==> (Fits(all, batch, self) <==> Fits(all, batch[1..], self))
    ensures self != Some(batch[0]) ==>
      (Fits(all, batch, self) <==> Valid(batch[0]) && Fits(all + {batch[0]}, batch[1..], self))
  {
    var rest := batch[1..];
    assert Elements(batch) == {batch[0]} + Elements(rest);
    assert forall x :: x in batch <==> x == batch[0] || x in rest;
    if self == Some(batch[0]) {
      assert Elements(batch) - Selves(self) == Elements(rest) - Selves(self);
    } else {
      assert all + (Elements(batch) - Selves(self)) == (all + {batch[0]}) + (Elements(rest) - Selves(self));
    }
  }

  /** A batch is added exactly when it fits. */
  lemma {:induction false} AddAllWhen(s: seq<Endpoint>, batch: seq<Endpoint>, self: Option<Endpoint>)
    requires Proper(s) && |s| <= MAX_PEERS
    ensures AddAll(s, batch, self).0 == Done <==> Fits(Elements(s), batch, self)
    decreases |batch|
  {
    if batch == [] {
      NothingFits(s, self);
    } else {
      FitsOne(Elements(s), batch, self);
      if self == Some(batch[0]) {
        AddAllWhen(s, batch[1..], self);
      } else {
        AddMeaning(s, batch[0]);
        if Harmless(Add(s, batch[0]).0) {
          AddAllWhen(Add(s, batch[0]).1, batch[1..], self);
        } else if Valid(batch[0]) {
          FullGrows(s, batch[0], Elements(s) + {batch[0]} + (Elements(batch[1..]) - Selves(self)));
        }
      }
    }
  }

  lemma NothingFits(s: seq<Endpoint>, self: Option<Endpoint>)
    requires Proper(s) && |s| <= MAX_PEERS
    ensures Fits(Elements(s), [], self)
  {
    ProperIsAscending(s);
    AsManyElements(s);
    assert Elements(s) + (Elements([]) - Selves(self)) == Elements(s);
  }

  /** A full set and one more do not fit. */
  lemma FullGrows(s: seq<Endpoint>, e: Endpoint, all: set<Endpoint>)
    requires Proper(s) && |s| == MAX_PEERS && e !in s && Elements(s) <= all && e in all
    ensures |all| > 64
  {
    ProperIsAscending(s);
    AsManyElements(s);
    var some := Elements(s) + {e};
    assert |some| == 65 && some <= all;
    Within(some, all);
  }

  lemma Within(a: set<Endpoint>, b: set<Endpoint>)
    requires a <= b
    ensures |a| <= |b|
  {
    assert b == a + (b - a);
  }

  /** Peers are admitted exactly when `self` is valid, the message is two bytes of count and
      six for each of at most 64 valid endpoints, and the union without `self` fits 64. */
  lemma AdmitWhen(s: seq<Endpoint>, self: Option<Endpoint>, payload: seq<byte>)
    requires Proper(s) && |s| <= MAX_PEERS
    ensures Admit(s, self, payload).0 == Done <==>
      && (self.Some? ==> Valid(self.value))
      && |payload| >= 2 && Value(payload[..2]) <= 64 && |payload| == 2 + 6 * Value(payload[..2])
      && var batch := Elements(Unwire(payload[2..]));
      && (forall x :: x in batch ==> Valid(x)) && |batch| <= 64
      && |Elements(s) + (batch - Selves(self))| <= 64
  {
    if |payload| >= 2 {
      var batch := Unwire(payload[2..]);
      var ordered := AddAll([], batch, None).1;
      AddAllWhen([], batch, None);
      AddAllMeaning([], batch, None);
      assert Elements([]) + (Elements(batch) - Selves(None)) == Elements(batch);
      AddAllWhen(s, ordered, self);
      AddAllMeaning(s, ordered, self);
    }
  }

  /** Admission is all or nothing: on success the set has gained exactly the announced
      endpoints other than `self`, on failure it is what it was. */
  lemma AdmitIsUnion(s: seq<Endpoint>, self: Option<Endpoint>, payload: seq<byte>)
    requires Proper(s) && |s| <= MAX_PEERS
    ensures var (r, n) := Admit(s, self, payload);
      && Proper(n) && |n| <= MAX_PEERS
      && (r != Done ==> n == s)
      && (r == Done ==> Elements(n) == Elements(s) + (Elements(Unwire(payload[2..])) - Selves(self)))
  {
    if |payload| >= 2 {
      var batch := Unwire(payload[2..]);
      AddAllMeaning([], batch, None);
      AddAllMeaning(s, AddAll([], batch, None).1, self);
    }
  }

  lemma {:induction false} UnwireWire(s: seq<Endpoint>)
    requires forall i :: 0 <= i < |s| ==> Typed(s[i])
    ensures Unwire(WireAll(s)) == s && |WireAll(s)| == 6 * |s|
  {
    if s != [] {
      var b := WireAll(s);
      PowTable();
      Field(4, s[0].address);
      Field(2, s[0].port);
      assert b[..4] == Bytes(4, s[0].address) && b[4..6] == Bytes(2, s[0].port) && b[6..] == WireAll(s[1..]);
      UnwireWire(s[1..]);
    }
  }

  /** Adding the elements of a sorted set to its own prefix appends them one by one. */
  lemma {:induction false} AddSorted(s: seq<Endpoint>, k: nat)
    requires Proper(s) && |s| <= MAX_PEERS && k <= |s|
    ensures AddAll(s[..k], s[k..], None) == (Done, s)
    decreases |s| - k
  {
    if k == |s| {
      assert s[..k] == s;
    } else {
      var p := s[..k];
      ProperIsAscending(s);
      assert forall i :: 0 <= i < k ==> p[i] == s[i] && Less(p[i], s[k]);
      assert Position(p, s[k]) == k;
      assert p[..k] + [s[k]] + p[k..] == s[..k + 1];
      assert Add(p, s[k]) == (Done, s[..k + 1]);
      assert s[k..][1..] == s[k + 1..];
      AddSorted(s, k + 1);
    }
  }

  lemma WithoutNobody(s: seq<Endpoint>)
    ensures Without(s, None) == s
  {
  }

  /** A peer that admits what was encoded from a set, into nothing, holds that set. */
  lemma AdmitEncoded(s: seq<Endpoint>)
    requires Proper(s) && |s| <= MAX_PEERS
    ensures Encode(s, None, MAX_DISCOVERY).0 == Done
    ensures Admit([], None, Encode(s, None, MAX_DISCOVERY).1) == (Done, s)
  {
    WithoutNobody(s);
    UnwireWire(s);
    PowTable();
    Field(2, |s|);
    var payload := Encode(s, None, MAX_DISCOVERY).1;
    assert payload[..2] == Bytes(2, |s|) && payload[2..] == WireAll(s);
    AddSorted(s, 0);
    assert s[..0] == [] && s[0..] == s;
  }
}
