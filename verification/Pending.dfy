/** The pending pool of src/stn_pending.c: at most 128 transactions and 256 KiB, kept in
    ascending order of transaction identifier. */
module Pending {
  import opened BigEndian
  import opened Sequences
  import opened Table

  const MAX_ENTRIES: nat := 128
  const MAX_BYTES: nat := 262144

  type Entry = Table.Entry<seq<byte>>

  datatype PoolResult = Accepted | Duplicate | Full | Missing

  datatype Pool = Pool(entries: seq<Entry>, bytes: nat)

  function Size(entries: seq<Entry>): nat {
    if entries == [] then 0 else Size(entries[..|entries| - 1]) + |entries[|entries| - 1].value|
  }

  /** Sorted by identifier, within both limits, with an exact byte count. */
  ghost predicate Proper(p: Pool) {
    Sorted(p.entries) && |p.entries| <= MAX_ENTRIES && p.bytes == Size(p.entries) <= MAX_BYTES
  }

  /** The storing end of stn_pending_insert. */
  function Insert(p: Pool, id: nat, tx: seq<byte>): (PoolResult, Pool) {
    if Has(p.entries, id) then (Duplicate, p)
    else if |p.entries| >= MAX_ENTRIES || p.bytes + |tx| > MAX_BYTES then (Full, p)
    else (Accepted, Pool(InsertAt(p.entries, Position(p.entries, id), Table.Entry(id, tx)), p.bytes + |tx|))
  }

  function RemoveAt(entries: seq<Entry>, at: nat): seq<Entry>
    requires at < |entries|
  {
    entries[..at] + entries[at + 1..]
  }

  /** stn_pending_remove. */
  function Remove(p: Pool, id: nat): (PoolResult, Pool)
    requires p.bytes >= Size(p.entries)
  {
    if !Has(p.entries, id) then (Missing, p)
    else
      var at := Position(p.entries, id);
      SizeAt(p.entries, at);
      (Accepted, Pool(RemoveAt(p.entries, at), p.bytes - |p.entries[at].value|))
  }

  /** The entries whose mark is not set. */
  function Kept(entries: seq<Entry>, marks: seq<bool>): seq<Entry>
    requires |marks| == |entries|
  {
    if entries == [] then []
    else
      var n := |entries| - 1;
      var rest := Kept(entries[..n], marks[..n]);
      if marks[n] then rest else rest + [entries[n]]
  }

  /** stn_pending_prune. */
  function Prune(p: Pool, marks: seq<bool>): Pool
    requires |marks| == |p.entries|
  {
    Pool(Kept(p.entries, marks), Size(Kept(p.entries, marks)))
  }

  // ---------------------------------------------------------------------------- sizes

  lemma {:induction false} SizeConcat(a: seq<Entry>, b: seq<Entry>)
    ensures Size(a + b) == Size(a) + Size(b)
  {
    if b == [] {
      assert a + b == a;
    } else {
      assert (a + b)[..|a + b| - 1] == a + b[..|b| - 1];
      SizeConcat(a, b[..|b| - 1]);
    }
  }

  lemma SizeAt(entries: seq<Entry>, at: nat)
    requires at < |entries|
    ensures Size(entries) == Size(entries[..at]) + |entries[at].value| + Size(entries[at + 1..])
    ensures Size(RemoveAt(entries, at)) == Size(entries) - |entries[at].value|
  {
    SplitAt(entries, at);
    SizeConcat(entries[..at + 1], entries[at + 1..]);
    assert entries[..at + 1][..at] == entries[..at];
    SizeConcat(entries[..at], entries[at + 1..]);
  }

  lemma SizeInserted(entries: seq<Entry>, at: nat, x: Entry)
    requires at <= |entries|
    ensures Size(InsertAt(entries, at, x)) == Size(entries) + |x.value|
  {
    Split(entries, at);
    SizeConcat(entries[..at], entries[at..]);
    SizeConcat(entries[..at] + [x], entries[at..]);
    SizeConcat(entries[..at], [x]);
  }

  lemma SizeGrows(entries: seq<Entry>, x: Entry)
    ensures Size(entries + [x]) == Size(entries) + |x.value|
  {
    assert (entries + [x])[..|entries|] == entries;
  }

  lemma KeptStep(entries: seq<Entry>, marks: seq<bool>, i: nat)
    requires |marks| == |entries| && i < |entries|
    ensures Kept(entries[..i + 1], marks[..i + 1])
         == if marks[i] then Kept(entries[..i], marks[..i]) else Kept(entries[..i], marks[..i]) + [entries[i]]
    ensures Size(entries[i..]) == |entries[i].value| + Size(entries[i + 1..])
  {
    assert entries[..i + 1][..i] == entries[..i] && marks[..i + 1][..i] == marks[..i];
    SplitAt(entries, i);
    SizeConcat([entries[i]], entries[i + 1..]);
    SizeGrows([], entries[i]);
    assert [] + [entries[i]] == [entries[i]];
  }

  /** One step of the pruning pass, with the byte count kept up to date. */
  lemma PruneStep(t: seq<Entry>, marks: seq<bool>, i: nat, kept: seq<Entry>, bytes: nat)
    requires |marks| == |t| && i < |t| && kept == Kept(t[..i], marks[..i]) && bytes == Size(kept) + Size(t[i..])
    ensures var size := |t[i].value|;
      if marks[i] then Kept(t[..i + 1], marks[..i + 1]) == kept && bytes - size == Size(kept) + Size(t[i + 1..])
      else Kept(t[..i + 1], marks[..i + 1]) == kept + [t[i]] && bytes == Size(kept + [t[i]]) + Size(t[i + 1..])
  {
    KeptStep(t, marks, i);
    SizeGrows(kept, t[i]);
  }

  // ------------------------------------------------------------------------- meanings

  lemma InsertedMembers(entries: seq<Entry>, at: nat, x: Entry)
    requires at <= |entries|
    ensures forall y :: y in InsertAt(entries, at, x) <==> y in entries || y == x
  {
    Split(entries, at);
    forall y ensures y in entries <==> y in entries[..at] || y in entries[at..] {
      assert y in entries[..at] + entries[at..] <==> y in entries;
    }
  }

  lemma InsertedHas(entries: seq<Entry>, x: Entry)
    requires Sorted(entries) && !Has(entries, x.key)
    ensures Sorted(InsertAt(entries, Position(entries, x.key), x))
    ensures Position(InsertAt(entries, Position(entries, x.key), x), x.key) == Position(entries, x.key)
    ensures Has(InsertAt(entries, Position(entries, x.key), x), x.key)
  {
    var at := Position(entries, x.key);
    var n := InsertAt(entries, at, x);
    InsertSorted(entries, x);
    HasIffPresent(n, x.key);
    assert n[at] == x;
  }

  /** Insertion keeps the pool proper and makes exactly this transaction available. */
  lemma InsertMeaning(p: Pool, id: nat, tx: seq<byte>)
    requires Proper(p)
    ensures var (r, n) := Insert(p, id, tx);
      && Proper(n) && (r != Accepted ==> n == p)
      && (r == Duplicate <==> Has(p.entries, id))
      && (r == Accepted <==> !Has(p.entries, id) && |p.entries| < 128 && p.bytes + |tx| <= 262144)
      && (r == Accepted ==> Has(n.entries, id)
                            && forall y :: y in n.entries <==> y in p.entries || y == Table.Entry(id, tx))
  {
    var (r, n) := Insert(p, id, tx);
    if r == Accepted {
      var at, x := Position(p.entries, id), Table.Entry(id, tx);
      InsertedHas(p.entries, x);
      SizeInserted(p.entries, at, x);
      InsertedMembers(p.entries, at, x);
    }
  }

  /** Removing what was inserted restores the pool. */
  lemma RemoveUndoesInsert(p: Pool, id: nat, tx: seq<byte>)
    requires Proper(p) && Insert(p, id, tx).0 == Accepted
    ensures var n := Insert(p, id, tx).1; n.bytes >= Size(n.entries) && Remove(n, id) == (Accepted, p)
  {
    var at, x := Position(p.entries, id), Table.Entry(id, tx);
    InsertedHas(p.entries, x);
    SizeInserted(p.entries, at, x);
    RemoveInserted(p.entries, at, x);
  }

  lemma RemoveInserted(entries: seq<Entry>, at: nat, x: Entry)
    requires at <= |entries|
    ensures RemoveAt(InsertAt(entries, at, x), at) == entries && InsertAt(entries, at, x)[at] == x
  {
  }

  lemma RemovedSorted(entries: seq<Entry>, at: nat)
    requires Sorted(entries) && at < |entries|
    ensures Sorted(RemoveAt(entries, at))
    ensures forall i :: 0 <= i < |entries| - 1 ==> RemoveAt(entries, at)[i].key != entries[at].key
  {
    var n := RemoveAt(entries, at);
    assert forall i :: 0 <= i < at ==> n[i] == entries[i];
    assert forall i :: at <= i < |n| ==> n[i] == entries[i + 1];
  }

  /** Removal keeps the pool proper, and the transaction is gone. */
  lemma RemoveKeeps(p: Pool, id: nat)
    requires Proper(p)
    ensures var (r, n) := Remove(p, id);
      && Proper(n) && (r != Accepted ==> n == p) && !Has(n.entries, id)
  {
    if Has(p.entries, id) {
      var at := Position(p.entries, id);
      RemovedSorted(p.entries, at);
      SizeAt(p.entries, at);
      HasIffPresent(RemoveAt(p.entries, at), id);
    }
  }

  lemma {:induction false} KeptMembers(entries: seq<Entry>, marks: seq<bool>, x: Entry)
    requires |marks| == |entries|
    ensures x in Kept(entries, marks) <==> exists i :: 0 <= i < |entries| && !marks[i] && entries[i] == x
  {
    if entries != [] {
      var n := |entries| - 1;
      var e, m := entries[..n], marks[..n];
      KeptMembers(e, m, x);
      if i :| 0 <= i < |entries| && !marks[i] && entries[i] == x {
        assert i < n ==> e[i] == x && !m[i];
      }
      if i :| 0 <= i < |e| && !m[i] && e[i] == x {
        assert entries[i] == x && !marks[i];
      }
    }
  }

  lemma {:induction false} KeptSorted(entries: seq<Entry>, marks: seq<bool>)
    requires |marks| == |entries| && Sorted(entries)
    ensures Sorted(Kept(entries, marks)) && |Kept(entries, marks)| <= |entries|
    ensures Size(Kept(entries, marks)) <= Size(entries)
    ensures forall x :: x in Kept(entries, marks) ==> x in entries
  {
    if entries != [] {
      var n := |entries| - 1;
      KeptSorted(entries[..n], marks[..n]);
      assert forall x :: x in entries[..n] ==> x.key < entries[n].key;
    }
  }

  /** Pruning keeps exactly the unmarked transactions, in order. */
  lemma PruneKeeps(p: Pool, marks: seq<bool>)
    requires Proper(p) && |marks| == |p.entries|
    ensures Proper(Prune(p, marks))
    ensures forall x :: x in Prune(p, marks).entries <==> exists i :: 0 <= i < |p.entries| && !marks[i] && p.entries[i] == x
  {
    KeptSorted(p.entries, marks);
    forall x ensures x in Kept(p.entries, marks) <==> exists i :: 0 <= i < |p.entries| && !marks[i] && p.entries[i] == x {
      KeptMembers(p.entries, marks, x);
    }
  }

  // ---------------------------------------------------------------------- enumeration

  function Keys(entries: seq<Entry>): seq<nat> {
    seq(|entries|, i requires 0 <= i < |entries| => entries[i].key)
  }

  /** stn_pending_enumerate: up to `capacity` identifiers from position `start` on. */
  function Page(entries: seq<Entry>, start: nat, capacity: nat): seq<nat> {
    if start >= |entries| then []
    else if |entries| - start > capacity then Keys(entries[start..start + capacity])
    else Keys(entries[start..])
  }

  /** A caller that asks page after page until one comes back empty. */
  function Walk(entries: seq<Entry>, start: nat, capacity: nat): seq<nat>
    requires capacity > 0
    decreases |entries| - start
  {
    var page := Page(entries, start, capacity);
    if page == [] then [] else page + Walk(entries, start + |page|, capacity)
  }

  /** Whatever the page size, the walk names every pooled transaction once, in ascending
      order of identifier. */
  lemma WalkCovers(p: Pool, capacity: nat)
    requires Proper(p) && capacity > 0
    ensures Walk(p.entries, 0, capacity) == Keys(p.entries)
    ensures forall i, j :: 0 <= i < j < |Keys(p.entries)| ==> Keys(p.entries)[i] < Keys(p.entries)[j]
  {
    WalkFrom(p.entries, 0, capacity);
    assert p.entries[0..] == p.entries;
  }

  lemma {:induction false} WalkFrom(entries: seq<Entry>, start: nat, capacity: nat)
    requires start <= |entries| && capacity > 0
    ensures Walk(entries, start, capacity) == Keys(entries[start..])
    decreases |entries| - start
  {
    if start == |entries| {
      assert Page(entries, start, capacity) == [] && Keys(entries[start..]) == [];
    } else {
      var next := if |entries| - start > capacity then start + capacity else |entries|;
      PageIs(entries, start, capacity, next);
      WalkFrom(entries, next, capacity);
      WalkTurn(entries, start, capacity);
      KeysAt(entries, start, next);
    }
  }

  lemma WalkTurn(entries: seq<Entry>, start: nat, capacity: nat)
    requires capacity > 0 && Page(entries, start, capacity) != []
    ensures var page := Page(entries, start, capacity);
      Walk(entries, start, capacity) == page + Walk(entries, start + |page|, capacity)
  {
  }

  lemma PageIs(entries: seq<Entry>, start: nat, capacity: nat, next: nat)
    requires start < |entries| && capacity > 0
    requires next == if |entries| - start > capacity then start + capacity else |entries|
    ensures Page(entries, start, capacity) == Keys(entries[start..next]) && |Page(entries, start, capacity)| == next - start > 0
  {
    if next == |entries| { assert entries[start..next] == entries[start..]; }
  }

  lemma KeysAt(entries: seq<Entry>, a: nat, b: nat)
    requires a <= b <= |entries|
    ensures Keys(entries[a..b]) + Keys(entries[b..]) == Keys(entries[a..])
  {
    assert |Keys(entries[a..b])| == b - a && |Keys(entries[b..])| == |entries| - b;
  }
}
