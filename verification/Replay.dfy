/** Replay protection: a bounded list of consumed keys that is scanned and appended to
    (src/stn_replay.c, src/stn_transfer_envelope_replay.c, src/stn_share_replay.c,
    src/stn_block_compensation_replay.c differ only in the key and the capacity). */
module Replay {

  datatype Consumed<K> = Consumed(keys: seq<K>, capacity: nat)

  datatype Use<K> = Fresh(next: Consumed<K>) | Repeated | Full

  function Consume<K(==)>(c: Consumed<K>, k: K): Use<K> {
    if k in c.keys then Repeated
    else if |c.keys| == c.capacity then Full
    else Fresh(c.(keys := c.keys + [k]))
  }

  ghost predicate NoRepeats<K>(s: seq<K>) {
    forall i, j :: 0 <= i < j < |s| ==> s[i] != s[j]
  }

  ghost predicate Valid<K>(c: Consumed<K>) {
    |c.keys| <= c.capacity && NoRepeats(c.keys)
  }

  /** Consuming appends exactly one key that was not there. */
  lemma ConsumeOnce<K>(c: Consumed<K>, k: K)
    requires Valid(c) && Consume(c, k).Fresh?
    ensures Valid(Consume(c, k).next)
    ensures k !in c.keys && Consume(c, k).next.keys == c.keys + [k]
    ensures Consume(Consume(c, k).next, k).Repeated?
  {
    var n := Consume(c, k).next.keys;
    assert n[|c.keys|] == k;
  }
}
