/** The peer lane as it is stored: a fixed array of endpoints with a count, and the fields of
    the outbound lane. */
module PeerState {
  import opened BigEndian
  import opened Hashing
  import opened Peer
  import P = PeerLane

  class Candidates {
    const entries: array<Endpoint>
    var count: nat

    ghost predicate Valid()
      reads this
    {
      entries.Length == MAX_PEERS && count <= MAX_PEERS
    }

    function View(): seq<Endpoint>
      requires Valid()
      reads this, entries
    {
      entries[..count]
    }

    constructor ()
      ensures Valid() && View() == [] && fresh(entries)
    {
      entries := new Endpoint[MAX_PEERS](_ => Endpoint(0, 0));
      count := 0;
    }

    /** The validity loop every operation starts with. */
    method CheckProper() returns (ok: bool)
      requires Valid()
      ensures ok == Proper(View())
    {
      var i: nat := 0;
      while i < count
        invariant i <= count
        invariant forall k :: 0 <= k < i ==> Peer.Valid(entries[k]) && (k > 0 ==> Less(entries[k - 1], entries[k]))
      {
        if !Peer.Valid(entries[i]) || (i != 0 && !Less(entries[i - 1], entries[i])) { return false; }
        i := i + 1;
      }
      ok := true;
    }

    /** Everything from `position` on moves up by one, from the back. */
    method Shift(position: nat)
      requires Valid() && position <= count < MAX_PEERS
      modifies entries
      ensures entries[..position] == old(entries[..position])
      ensures entries[position + 1..count + 1] == old(entries[position..count])
    {
      var i := count;
      while i > position
        invariant position <= i <= count
        invariant forall k :: 0 <= k <= i ==> entries[k] == old(entries[k])
        invariant forall k :: i < k <= count ==> entries[k] == old(entries[k - 1])
      {
        entries[i] := entries[i - 1];
        i := i - 1;
      }
    }

    method Place(position: nat, e: Endpoint)
      requires Valid() && position <= count < MAX_PEERS
      modifies this`count, entries
      ensures Valid() && View() == old(View())[..position] + [e] + old(View())[position..]
    {
      ghost var before := View();
      Shift(position);
      assert entries[..position] == before[..position];
      assert entries[position + 1..count + 1] == before[position..];
      entries[position] := e;
      assert entries[..position] == before[..position];
      assert entries[position + 1..count + 1] == before[position..];
      assert entries[..count + 1] == entries[..position] + [entries[position]] + entries[position + 1..count + 1];
      count := count + 1;
    }

    /** stn_peer_candidate_add. */
    method Insert(e: Endpoint) returns (r: PeerStatus)
      requires Valid()
      modifies this, entries
      ensures Valid() && (r, View()) == Add(old(View()), e)
    {
      if !Peer.Valid(e) { return Argument; }
      var proper := CheckProper();
      if !proper { return Argument; }
      var position: nat := 0;
      while position < count && Less(entries[position], e)
        invariant position <= count && forall k :: 0 <= k < position ==> Less(entries[k], e)
      {
        position := position + 1;
      }
      assert position == Position(View(), e);
      if position < count && entries[position] == e { return Retained; }
      if count == MAX_PEERS { return Capacity; }
      Place(position, e);
      r := Done;
    }
  }

  /** Admission works on copies and writes back only at the end. */
  method AddEach(s: seq<Endpoint>, batch: seq<Endpoint>, self: Option<Endpoint>) returns (r: PeerStatus, n: seq<Endpoint>)
    ensures (r, n) == AddAll(s, batch, self)
  {
    n := s;
    var i: nat := 0;
    while i < |batch|
      invariant i <= |batch| && AddAll(n, batch[i..], self) == AddAll(s, batch, self)
    {
      assert batch[i..][1..] == batch[i + 1..];
      if self != Some(batch[i]) {
        var (status, more) := Add(n, batch[i]);
        if !Harmless(status) { return status, more; }
        n := more;
      }
      i := i + 1;
    }
    r := Done;
  }

  class Outbound {
    var candidates: seq<Endpoint>
    var next: nat
    var last: nat
    var started: bool
    var connected: bool
    var status: PeerStatus

    function View(): P.Lane
      reads this
    {
      P.Lane(candidates, next, last, started, connected, status)
    }

    constructor (s: seq<Endpoint>)
      ensures View() == P.Fresh(s)
    {
      candidates, next, last, started, connected, status := s, 0, 0, false, false, Done;
    }

    /** stn_peer_discovery_admit on the lane's own set. */
    method Admit(self: Option<Endpoint>, payload: seq<byte>) returns (r: PeerStatus)
      modifies this`candidates
      ensures (r, candidates) == Peer.Admit(old(candidates), self, payload)
    {
      if self.Some? && !Peer.Valid(self.value) { return Argument; }
      if |payload| < 2 || |payload| > MAX_DISCOVERY { return Protocol; }
      var count := Value(payload[..2]);
      if count > MAX_PEERS || |payload| != 2 + 6 * count { return Protocol; }
      var staged, ordered := AddEach([], Unwire(payload[2..]), None);
      if staged != Done { return Protocol; }
      if |candidates| > MAX_PEERS || !Proper(candidates) { return Argument; }
      var merged: seq<Endpoint>;
      r, merged := AddEach(candidates, ordered, self);
      if r == Done { candidates := merged; }
    }

    /** The scan that finds the selected endpoint again. */
    method Locate(selected: Endpoint)
      modifies this`next
      ensures next == P.IndexOf(candidates, selected)
    {
      next := 0;
      while next < |candidates| && candidates[next] != selected
        invariant next <= |candidates| && forall k :: 0 <= k < next ==> candidates[k] != selected
      {
        next := next + 1;
      }
      P.IndexIsFirst(candidates, selected, next);
    }

    /** The peer exchange that follows a first successful synchronisation. */
    method Discover(self: Option<Endpoint>, selected: Endpoint, a: P.Answer) returns (r: PeerStatus)
      modifies this`candidates, this`next
      ensures (candidates, r) == P.Discover(old(candidates), self, a.sync, a)
      ensures next == if a.offersPeers && a.exchange == Done then P.IndexOf(candidates, selected) else old(next)
    {
      r := a.sync;
      if a.offersPeers {
        var found := a.exchange;
        if found == Done {
          found := Admit(self, a.payload);
          Locate(selected);
        }
        if found != Done && found != Capacity { r := found; }
      }
    }

    /** stn_peer_outbound_step. */
    method Step(self: Option<Endpoint>, now: nat, a: P.Answer) returns (r: PeerStatus)
      requires P.Sound(View())
      modifies this
      ensures (View(), r) == P.Step(old(View()), self, now, a)
    {
      var n := |candidates|;
      if n == 0 { return Retained; }
      if started && (now < last || now - last < INTERVAL) { return Retained; }
      ghost var l := View();
      started, last := true, now;
      var established, selected := connected, candidates[next];
      if !established && a.open != Done {
        next, status := (next + 1) % n, a.open;
        return a.open;
      }
      r := a.sync;
      if Harmless(r) && !established {
        P.SelectionSurvives(l, self, a);
        r := Discover(self, selected, a);
      }
      if Harmless(r) {
        connected := true;
      } else {
        connected := false;
        next := (next + 1) % |candidates|;
      }
      status := r;
    }
  }
}
