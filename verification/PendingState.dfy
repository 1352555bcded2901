/** The pool as an array with a count, changed by memmove-style loops. */
module PendingState {
  import opened BigEndian
  import opened Table
  import TableLoops
  import P = Pending

  class PendingPool {
    const entries: array<P.Entry>
    var count: nat
    var bytes: nat

    ghost predicate Valid()
      reads this, entries
    {
      entries.Length == P.MAX_ENTRIES && count <= P.MAX_ENTRIES && bytes == P.Size(entries[..count])
    }

    function View(): P.Pool
      requires count <= entries.Length
      reads this, entries
    {
      P.Pool(entries[..count], bytes)
    }

    constructor ()
      ensures Valid() && View() == P.Pool([], 0) && fresh(entries)
    {
      entries := new P.Entry[P.MAX_ENTRIES](_ => Table.Entry(0, []));
      count, bytes := 0, 0;
    }

    /** find_id: the place of an identifier and whether it is taken. */
    method FindId(id: nat) returns (found: bool, at: nat)
      requires count <= entries.Length
      ensures at == Position(entries[..count], id) <= count && found == Has(entries[..count], id)
    {
      at := TableLoops.Scan(entries, count, id);
      assert at < count ==> entries[..count][at] == entries[at];
      found := at < count && entries[at].key == id;
    }

    method Insert(id: nat, tx: seq<byte>) returns (r: P.PoolResult)
      requires Valid()
      modifies this, entries
      ensures Valid() && (r, View()) == P.Insert(old(View()), id, tx)
    {
      var found, at := FindId(id);
      if found { return P.Duplicate; }
      if count >= P.MAX_ENTRIES || bytes + |tx| > P.MAX_BYTES { return P.Full; }
      Store(at, Table.Entry(id, tx));
      r := P.Accepted;
    }

    /** memmove up by one, then the new entry and both counters. */
    method Store(at: nat, x: P.Entry)
      requires Valid() && at <= count < P.MAX_ENTRIES
      modifies this, entries
      ensures Valid() && View() == P.Pool(InsertAt(old(View()).entries, at, x), old(bytes) + |x.value|)
    {
      P.SizeInserted(entries[..count], at, x);
      TableLoops.Insert(entries, count, at, x);
      count, bytes := count + 1, bytes + |x.value|;
    }

    /** Everything behind `at` moves down by one. */
    method Close(at: nat)
      requires at < count <= entries.Length
      modifies entries
      ensures entries[..count - 1] == P.RemoveAt(old(entries[..count]), at)
    {
      ghost var t := entries[..count];
      var k := at;
      while k + 1 < count
        invariant at <= k < count
        invariant forall i :: 0 <= i < at ==> entries[i] == t[i]
        invariant forall i :: at <= i < k ==> entries[i] == t[i + 1]
        invariant forall i :: k < i < count ==> entries[i] == t[i]
      {
        entries[k] := entries[k + 1];
        k := k + 1;
      }
    }

    method Remove(id: nat) returns (r: P.PoolResult)
      requires Valid()
      modifies this, entries
      ensures Valid() && (r, View()) == P.Remove(old(View()), id)
    {
      var found, at := FindId(id);
      if !found { return P.Missing; }
      Drop(at);
      r := P.Accepted;
    }

    method Drop(at: nat)
      requires Valid() && at < count
      modifies this, entries
      ensures Valid() && old(bytes) >= |old(entries[at].value)|
      ensures View() == P.Pool(P.RemoveAt(old(View()).entries, at), old(bytes) - |old(entries[at].value)|)
    {
      P.SizeAt(entries[..count], at);
      var size := |entries[at].value|;
      Close(at);
      count, bytes := count - 1, bytes - size;
    }

    /** stn_pending_enumerate into the caller's array; nothing behind the page is written. */
    method Enumerate(start: nat, ids: array<nat>) returns (written: nat)
      requires Valid()
      modifies ids
      ensures written == |P.Page(View().entries, start, ids.Length)| <= ids.Length
      ensures ids[..written] == P.Page(View().entries, start, ids.Length) && ids[written..] == old(ids[written..])
    {
      ghost var t := entries[..count];
      var n: nat := if start < count then count - start else 0;
      if n > ids.Length { n := ids.Length; }
      for i := 0 to n
        invariant forall k :: 0 <= k < i ==> ids[k] == t[start + k].key
        invariant forall k :: i <= k < ids.Length ==> ids[k] == old(ids[k])
      {
        ids[i] := entries[start + i].key;
      }
      written := n;
    }

    method MoveDown(n: nat, i: nat)
      requires n <= i < entries.Length
      modifies entries
      ensures entries[..n + 1] == old(entries[..n]) + [old(entries[i])]
      ensures forall k :: i < k < entries.Length ==> entries[k] == old(entries[k])
    {
      entries[n] := entries[i];
    }

    /** stn_pending_prune: one pass that moves the kept entries to the front. */
    method Prune(marks: seq<bool>)
      requires Valid() && |marks| == count
      modifies this, entries
      ensures Valid() && View() == P.Prune(old(View()), marks)
    {
      count, bytes := Compact(marks);
    }

    method Compact(marks: seq<bool>) returns (n: nat, left: nat)
      requires Valid() && |marks| == count
      modifies entries
      ensures n <= count && entries[..n] == P.Kept(old(entries[..count]), marks) && left == P.Size(entries[..n])
    {
      ghost var t := entries[..count];
      var i: nat := 0;
      n, left := 0, bytes;
      assert t[0..] == t;
      while i < count
        invariant n <= i <= count
        invariant forall k :: i <= k < count ==> entries[k] == t[k]
        invariant entries[..n] == P.Kept(t[..i], marks[..i])
        invariant left == P.Size(entries[..n]) + P.Size(t[i..])
      {
        P.PruneStep(t, marks, i, entries[..n], left);
        if marks[i] {
          left := left - |entries[i].value|;
        } else {
          MoveDown(n, i);
          n := n + 1;
        }
        i := i + 1;
      }
      assert t[..i] == t && marks[..i] == marks && t[i..] == [];
    }
  }
}
