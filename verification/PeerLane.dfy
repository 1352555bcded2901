/** The outbound lane of src/stn_peer.c: one candidate at a time, the next one after a
    failure, and a candidate set that may grow while one of its members is connected. */
module PeerLane {
  import opened BigEndian
  import opened Hashing
  import opened Peer

  datatype Lane = Lane(
    candidates: seq<Endpoint>, next: nat, last: nat, started: bool, connected: bool, status: PeerStatus)

  /** What the network does during one step. */
  datatype Answer = Answer(open: PeerStatus, sync: PeerStatus, offersPeers: bool, exchange: PeerStatus, payload: seq<byte>)

  function Fresh(s: seq<Endpoint>): Lane { Lane(s, 0, 0, false, false, Done) }

  predicate Due(l: Lane, now: nat) { !l.started || (now >= l.last && now - l.last >= INTERVAL) }

  function Advance(next: nat, count: nat): nat
    requires count > 0
  {
    (next + 1) % count
  }

  /** The scan that finds the selected endpoint again after an insertion. */
  function IndexOf(s: seq<Endpoint>, e: Endpoint): (i: nat)
    ensures i <= |s| && (i < |s| ==> s[i] == e)
    ensures e in s ==> i < |s|
  {
    if s == [] || s[0] == e then 0 else 1 + IndexOf(s[1..], e)
  }

  /** The peer exchange after a first synchronisation: the candidates, and what it does to
      the status of the step. */
  function Discover(s: seq<Endpoint>, self: Option<Endpoint>, sync: PeerStatus, a: Answer): (seq<Endpoint>, PeerStatus) {
    if !a.offersPeers then (s, sync)
    else if a.exchange != Done then (s, if a.exchange == Capacity then sync else a.exchange)
    else
      var (r, n) := Admit(s, self, a.payload);
      (n, if r == Done || r == Capacity then sync else r)
  }

  /** stn_peer_outbound_step. */
  function Step(l: Lane, self: Option<Endpoint>, now: nat, a: Answer): (Lane, PeerStatus)
    requires l.candidates != [] ==> l.next < |l.candidates|
  {
    var n := |l.candidates|;
    if n == 0 || !Due(l, now) then (l, Retained)
    else
      var s := l.(started := true, last := now);
      if !l.connected && a.open != Done then (s.(next := Advance(l.next, n), status := a.open), a.open)
      else
        var first := !l.connected && Harmless(a.sync);
        var (set', status) := if first then Discover(l.candidates, self, a.sync, a) else (l.candidates, a.sync);
        var at := if first && a.offersPeers && a.exchange == Done then IndexOf(set', l.candidates[l.next]) else l.next;
        if Harmless(status) then
          (s.(candidates := set', next := at, connected := true, status := status), status)
        else if set' == [] then (s, status)
        else (s.(candidates := set', next := Advance(at, |set'|), connected := false, status := status), status)
  }

  // ----------------------------------------------------------------------- invariant

  /** The candidates are a strictly sorted bounded set and the selection lies inside it. */
  predicate Sound(l: Lane) {
    Proper(l.candidates) && |l.candidates| <= MAX_PEERS && (l.candidates != [] ==> l.next < |l.candidates|)
  }

  lemma DiscoverKeeps(s: seq<Endpoint>, self: Option<Endpoint>, sync: PeerStatus, a: Answer)
    requires Proper(s) && |s| <= MAX_PEERS
    ensures var (n, r) := Discover(s, self, sync, a);
      Proper(n) && |n| <= MAX_PEERS && Peer.Elements(s) <= Peer.Elements(n)
  {
    AdmitIsUnion(s, self, a.payload);
  }

  lemma StillThere(s: seq<Endpoint>, n: seq<Endpoint>, i: nat)
    requires i < |s| && Peer.Elements(s) <= Peer.Elements(n)
    ensures s[i] in n
  {
    assert s[i] in Peer.Elements(s);
  }

  /** A peer exchange never loses the endpoint it is held with. */
  lemma SelectionSurvives(l: Lane, self: Option<Endpoint>, a: Answer)
    requires Sound(l) && l.candidates != []
    ensures var n := Discover(l.candidates, self, a.sync, a).0;
      n != [] && IndexOf(n, l.candidates[l.next]) < |n|
  {
    DiscoverKeeps(l.candidates, self, a.sync, a);
    StillThere(l.candidates, Discover(l.candidates, self, a.sync, a).0, l.next);
  }

  /** Every step keeps the lane sound and never drops a candidate; while a connection is
      up the selection stays on the same endpoint even when insertions move it. */
  lemma StepKeeps(l: Lane, self: Option<Endpoint>, now: nat, a: Answer)
    requires Sound(l)
    ensures var (n, r) := Step(l, self, now, a);
      && Sound(n) && Peer.Elements(l.candidates) <= Peer.Elements(n.candidates)
      && (l.candidates != [] && Due(l, now) && n.connected ==>
            n.next < |n.candidates| && n.candidates[n.next] == l.candidates[l.next])
  {
    if l.candidates != [] && Due(l, now) {
      DiscoverKeeps(l.candidates, self, a.sync, a);
      var set' := Discover(l.candidates, self, a.sync, a).0;
      StillThere(l.candidates, set', l.next);
    }
  }

  /** The turn is not due before five seconds after the last one. */
  predicate Waits(l: Lane, now: nat) { l.started && (now < l.last || now - l.last < 5000) }

  /** The turn's first peer exchange goes wrong: it fails for anything but room, or what it
      brings is not admissible for anything but room. */
  predicate Spoils(l: Lane, self: Option<Endpoint>, a: Answer) {
    && !l.connected && a.offersPeers
    && if a.exchange == Done then Admit(l.candidates, self, a.payload).0 !in {Done, Retained, Capacity}
       else a.exchange !in {Retained, Capacity}
  }

  /** What a turn does: nothing while there is nobody to call or it is not time; otherwise it
      ends connected exactly when it opened a connection or had one, synchronised, and its
      first peer exchange was not spoilt. New candidates come from that exchange alone. */
  lemma StepExactly(l: Lane, self: Option<Endpoint>, now: nat, a: Answer)
    requires Sound(l)
    ensures var (n, r) := Step(l, self, now, a);
      if l.candidates == [] || Waits(l, now) then n == l && r == Retained
      else
        && n.started && n.last == now && n.status == r
        && (n.connected <==> (l.connected || a.open == Done) && a.sync in {Done, Retained} && !Spoils(l, self, a))
        && n.candidates ==
             (if !l.connected && a.open == Done && a.sync in {Done, Retained} && a.offersPeers && a.exchange == Done
              then Admit(l.candidates, self, a.payload).1 else l.candidates)
        && (!n.connected ==> n.next == (l.next + 1) % |l.candidates|)
        && (n.connected ==> r in {Done, Retained})
  {
    if l.candidates != [] && Due(l, now) {
      if !Step(l, self, now, a).0.connected { FailedStep(l, self, now, a); }
    }
  }

  datatype Tick = Tick(now: nat, answer: Answer)

  function Run(l: Lane, self: Option<Endpoint>, ticks: seq<Tick>): Lane
    requires Sound(l)
    ensures Sound(Run(l, self, ticks))
    decreases |ticks|
  {
    if ticks == [] then l
    else
      StepKeeps(l, self, ticks[0].now, ticks[0].answer);
      Run(Step(l, self, ticks[0].now, ticks[0].answer).0, self, ticks[1..])
  }

  /** Over every run the candidates stay a strictly sorted set of at most 64 valid
      endpoints that only grows, and the selection stays in range. */
  lemma {:induction false} RunKeeps(l: Lane, self: Option<Endpoint>, ticks: seq<Tick>)
    requires Sound(l)
    ensures var n := Run(l, self, ticks);
      && Peer.Ascending(n.candidates) && |n.candidates| <= 64
      && Peer.Elements(l.candidates) <= Peer.Elements(n.candidates)
      && (n.candidates != [] ==> n.next < |n.candidates| && Valid(n.candidates[n.next]))
    decreases |ticks|
  {
    if ticks == [] {
      ProperIsAscending(l.candidates);
    } else {
      StepKeeps(l, self, ticks[0].now, ticks[0].answer);
      RunKeeps(Step(l, self, ticks[0].now, ticks[0].answer).0, self, ticks[1..]);
    }
  }

  // --------------------------------------------------------------------- round robin

  /** Turns that are all due and all end without a connection: the connection could not be
      opened, or its synchronisation or its peer exchange failed. */
  predicate Failing(l: Lane, self: Option<Endpoint>, ticks: seq<Tick>)
    requires Sound(l)
    decreases |ticks|
  {
    if ticks == [] then true
    else
      StepKeeps(l, self, ticks[0].now, ticks[0].answer);
      var n := Step(l, self, ticks[0].now, ticks[0].answer).0;
      Due(l, ticks[0].now) && !n.connected && Failing(n, self, ticks[1..])
  }

  lemma NextAfter(next: nat, k: nat, count: nat)
    requires count > 0
    ensures (Advance(next, count) + k) % count == (next + k + 1) % count
  {
    if next + 1 < count {
      assert Advance(next, count) == next + 1;
    } else {
      ModStep(next + 1, count);
      ModShift(next + 1, k, count);
    }
  }

  lemma ModStep(a: nat, n: nat)
    requires n > 0
    ensures a % n == a - n * (a / n)
  {
  }

  /** Reducing a summand does not change a remainder. */
  lemma ModShift(a: nat, k: nat, n: nat)
    requires n > 0
    ensures (a % n + k) % n == (a + k) % n
  {
    var q, r := a / n, a % n;
    var t, u := (r + k) / n, (r + k) % n;
    assert a + k == n * q + n * t + u;
    assert n * q + n * t == n * (q + t);
    ModUnique(a + k, n, q + t, u);
  }

  lemma ModUnique(a: int, n: nat, q: int, r: nat)
    requires n > 0 && r < n && a == n * q + r
    ensures a % n == r
  {
    QuotientUnique(a, n, q, r);
  }

  lemma {:induction false} IndexIsFirst(s: seq<Endpoint>, e: Endpoint, i: nat)
    requires i <= |s| && (forall k :: 0 <= k < i ==> s[k] != e) && (i < |s| ==> s[i] == e)
    ensures IndexOf(s, e) == i
    decreases |s|
  {
    if i > 0 { IndexIsFirst(s[1..], e, i - 1); }
  }

  lemma IndexOfOwn(s: seq<Endpoint>, i: nat)
    requires Proper(s) && i < |s|
    ensures IndexOf(s, s[i]) == i
  {
    ProperIsAscending(s);
    IndexIsFirst(s, s[i], i);
  }

  /** A discovery that spoils the turn has left the set alone. */
  lemma SpoiledDiscovery(s: seq<Endpoint>, self: Option<Endpoint>, a: Answer)
    requires Proper(s) && |s| <= MAX_PEERS && Harmless(a.sync) && !Harmless(Discover(s, self, a.sync, a).1)
    ensures Discover(s, self, a.sync, a).0 == s
  {
    AdmitIsUnion(s, self, a.payload);
  }

  /** However a turn fails, it leaves the set alone and moves on by one place. */
  lemma FailedStep(l: Lane, self: Option<Endpoint>, now: nat, a: Answer)
    requires Sound(l) && l.candidates != [] && Due(l, now) && !Step(l, self, now, a).0.connected
    ensures var n := Step(l, self, now, a).0;
      && n.candidates == l.candidates && n.started && n.last == now
      && n.next == Advance(l.next, |l.candidates|)
  {
    if (l.connected || a.open == Done) && !l.connected && Harmless(a.sync) {
      SpoiledDiscovery(l.candidates, self, a);
      IndexOfOwn(l.candidates, l.next);
    }
  }

  lemma {:induction false} FailingPrefix(l: Lane, self: Option<Endpoint>, ticks: seq<Tick>, k: nat)
    requires Sound(l) && Failing(l, self, ticks) && k <= |ticks|
    ensures Failing(l, self, ticks[..k])
    decreases |ticks|
  {
    if k > 0 {
      StepKeeps(l, self, ticks[0].now, ticks[0].answer);
      FailingPrefix(Step(l, self, ticks[0].now, ticks[0].answer).0, self, ticks[1..], k - 1);
      assert ticks[..k][1..] == ticks[1..][..k - 1];
    }
  }

  /** With consecutive failures, of whatever kind, the k-th turn goes to the k-th candidate
      after the first one, wrapping around; the set is left alone. */
  lemma {:induction false} FailuresGoRound(l: Lane, self: Option<Endpoint>, ticks: seq<Tick>)
    requires Sound(l) && l.candidates != [] && Failing(l, self, ticks)
    ensures var n := Run(l, self, ticks);
      && n.candidates == l.candidates && (ticks != [] ==> !n.connected)
      && n.next == (l.next + |ticks|) % |l.candidates|
    decreases |ticks|
  {
    if ticks == [] {
      Small(l.next, |l.candidates|);
    } else {
      var m := Step(l, self, ticks[0].now, ticks[0].answer).0;
      FailedStep(l, self, ticks[0].now, ticks[0].answer);
      StepKeeps(l, self, ticks[0].now, ticks[0].answer);
      FailuresGoRound(m, self, ticks[1..]);
      NextAfter(l.next, |ticks| - 1, |l.candidates|);
    }
  }

  lemma Small(a: nat, n: nat)
    requires a < n
    ensures a % n == a
  {
  }

  /** The candidate whose turn comes k places after the first one. */
  function Turn(l: Lane, k: nat): Endpoint
    requires Sound(l) && l.candidates != []
  {
    l.candidates[(l.next + k) % |l.candidates|]
  }

  lemma DistinctRemainders(a: nat, i: nat, j: nat, n: nat)
    requires i < j < n
    ensures (a + i) % n != (a + j) % n
  {
    if (a + i) % n == (a + j) % n {
      var r := (a + i) % n;
      var p, q := (a + i) / n, (a + j) / n;
      assert j - i == n * (q - p);
      if q > p { MulMonotone(1, q - p, n); } else { MulMonotone(q - p, 0, n); }
    }
  }

  /** How far ahead of `from` the place `to` lies on a round of `n`. */
  function Ahead(from: nat, to: nat, n: nat): nat
    requires from < n && to < n
  {
    if to >= from then to - from else to + n - from
  }

  lemma AheadArrives(from: nat, to: nat, n: nat)
    requires from < n && to < n
    ensures Ahead(from, to, n) < n && (from + Ahead(from, to, n)) % n == to
  {
    if to >= from { ModUnique(to, n, 0, to); } else { ModUnique(to + n, n, 1, to); }
  }

  lemma EveryoneHasTurn(l: Lane, x: Endpoint)
    requires Sound(l) && x in l.candidates
    ensures exists k :: 0 <= k < |l.candidates| && Turn(l, k) == x
  {
    var i :| 0 <= i < |l.candidates| && l.candidates[i] == x;
    AheadArrives(l.next, i, |l.candidates|);
    assert Turn(l, Ahead(l.next, i, |l.candidates|)) == x;
  }

  /** As many consecutive failures as there are candidates, of whatever kind, give every
      candidate exactly one turn. */
  lemma EveryCandidateOnce(l: Lane, self: Option<Endpoint>, ticks: seq<Tick>)
    requires Sound(l) && l.candidates != [] && Failing(l, self, ticks)
    requires |ticks| == |l.candidates|
    ensures forall k :: 0 <= k < |ticks| ==>
      var m := Run(l, self, ticks[..k]); m.next < |m.candidates| && m.candidates[m.next] == Turn(l, k)
    ensures forall i, j :: 0 <= i < j < |ticks| ==> Turn(l, i) != Turn(l, j)
    ensures forall x :: x in l.candidates ==> exists k :: 0 <= k < |ticks| && Turn(l, k) == x
  {
    forall k | 0 <= k < |ticks|
      ensures var m := Run(l, self, ticks[..k]); m.next < |m.candidates| && m.candidates[m.next] == Turn(l, k)
    {
      FailingPrefix(l, self, ticks, k);
      FailuresGoRound(l, self, ticks[..k]);
    }
    ProperIsAscending(l.candidates);
    forall i, j | 0 <= i < j < |ticks| ensures Turn(l, i) != Turn(l, j) {
      DistinctRemainders(l.next, i, j, |l.candidates|);
    }
    forall x | x in l.candidates ensures exists k :: 0 <= k < |ticks| && Turn(l, k) == x {
      EveryoneHasTurn(l, x);
    }
  }
}
