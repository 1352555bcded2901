/** The two loops every sorted array shares: the ascending scan and the shifting insert. */
module TableLoops {
  import opened Table

  method Scan<V>(a: array<Entry<V>>, count: nat, k: nat) returns (at: nat)
    requires count <= a.Length
    ensures at == Position(a[..count], k) <= count
  {
    at := 0;
    ghost var t := a[..count];
    while at < count && a[at].key < k
      invariant at <= count && at + Position(t[at..], k) == Position(t, k)
    {
      assert t[at..][1..] == t[at + 1..];
      at := at + 1;
    }
  }

  /** memmove up by one from `at`, then the new entry. */
  method Insert<V>(a: array<Entry<V>>, count: nat, at: nat, x: Entry<V>)
    requires at <= count < a.Length
    modifies a
    ensures a[..count + 1] == InsertAt(old(a[..count]), at, x)
  {
    ghost var t := a[..count];
    var k := count;
    while k > at
      invariant at <= k <= count
      invariant forall i :: 0 <= i < k ==> a[i] == t[i]
      invariant forall i :: k < i <= count ==> a[i] == t[i - 1]
    {
      a[k] := a[k - 1];
      k := k - 1;
    }
    a[at] := x;
  }
}
