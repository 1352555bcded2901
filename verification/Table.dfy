/** Tables kept in ascending key order by shifting: balances, compensation destinations,
    pending transactions and peer candidates all use this shape. Keys are compared with
    memcmp in the program, so a key is the value of its bytes (BigEndian.CompareIsOrder). */
module Table {

  datatype Entry<V> = Entry(key: nat, value: V)

  ghost predicate Sorted<V>(t: seq<Entry<V>>) {
    forall i, j :: 0 <= i < j < |t| ==> t[i].key < t[j].key
  }

  /** Where the ascending scan for `k` stops. */
  function Position<V>(t: seq<Entry<V>>, k: nat): (at: nat)
    ensures at <= |t|
    ensures forall i :: 0 <= i < at ==> t[i].key < k
    ensures at < |t| ==> t[at].key >= k
  {
    if t == [] || t[0].key >= k then 0 else 1 + Position(t[1..], k)
  }

  predicate Has<V>(t: seq<Entry<V>>, k: nat) {
    var at := Position(t, k);
    at < |t| && t[at].key == k
  }

  function InsertAt<V>(t: seq<Entry<V>>, at: nat, x: Entry<V>): seq<Entry<V>>
    requires at <= |t|
  {
    t[..at] + [x] + t[at..]
  }

  /** In a sorted table the scan finds a key exactly when it is there. */
  lemma HasIffPresent<V>(t: seq<Entry<V>>, k: nat)
    requires Sorted(t)
    ensures Has(t, k) <==> exists i :: 0 <= i < |t| && t[i].key == k
    ensures forall i :: 0 <= i < |t| && t[i].key == k ==> i == Position(t, k)
  {
    var at := Position(t, k);
    assert forall i :: 0 <= i < |t| && t[i].key == k ==> at <= i && !(t[at].key < t[i].key);
  }

  lemma InsertSorted<V>(t: seq<Entry<V>>, x: Entry<V>)
    requires Sorted(t) && !Has(t, x.key)
    ensures Sorted(InsertAt(t, Position(t, x.key), x))
  {
    var at := Position(t, x.key);
    forall i | at <= i < |t| ensures x.key < t[i].key {
      assert t[at].key <= t[i].key;
    }
  }

  /** The scan finds an entry of a sorted table at its own place. */
  lemma FoundAt<V>(t: seq<Entry<V>>, i: nat)
    requires Sorted(t) && i < |t|
    ensures Has(t, t[i].key) && Position(t, t[i].key) == i
  {
    HasIffPresent(t, t[i].key);
  }

  lemma InsertPlaces<V>(t: seq<Entry<V>>, at: nat, x: Entry<V>, i: nat)
    requires at <= |t|
    ensures InsertAt(t, at, x)[at] == x
    ensures i < |t| ==> InsertAt(t, at, x)[if i < at then i else i + 1] == t[i]
    ensures i <= |t| && i != at ==> InsertAt(t, at, x)[i] == t[if i < at then i else i - 1]
  {
  }

  lemma FoundBefore<V>(t: seq<Entry<V>>, c: seq<Entry<V>>, i: nat, j: nat)
    requires Sorted(t) && Sorted(c) && i < |t| && j < |c| && t[i] == c[j]
    ensures Has(t, t[i].key) && Has(c, t[i].key)
    ensures Position(t, t[i].key) == i && Position(c, t[i].key) == j
  {
    FoundAt(t, i);
    FoundAt(c, j);
  }

  /** What a scan finds after an insertion. */
  lemma InsertHas<V>(t: seq<Entry<V>>, x: Entry<V>, k: nat)
    requires Sorted(t) && !Has(t, x.key)
    ensures var c := InsertAt(t, Position(t, x.key), x);
      && (Has(c, k) <==> k == x.key || Has(t, k))
      && (Has(c, k) ==> c[Position(c, k)] == if k == x.key then x else t[Position(t, k)])
  {
    var at := Position(t, x.key);
    var c := InsertAt(t, at, x);
    InsertSorted(t, x);
    if k == x.key {
      InsertPlaces(t, at, x, at);
      FoundAt(c, at);
    } else if Has(t, k) {
      var i := Position(t, k);
      InsertPlaces(t, at, x, i);
      FoundBefore(t, c, i, if i < at then i else i + 1);
    } else if Has(c, k) {
      var i := Position(c, k);
      InsertPlaces(t, at, x, i);
      FoundBefore(t, c, if i < at then i else i - 1, i);
    }
  }

  /** Changing a value moves no scan. */
  lemma {:induction false} UpdatePosition<V>(t: seq<Entry<V>>, at: nat, v: V, k: nat)
    requires at < |t|
    ensures Position(t[at := Entry(t[at].key, v)], k) == Position(t, k)
    ensures Has(t[at := Entry(t[at].key, v)], k) == Has(t, k)
    decreases |t|
  {
    var c := t[at := Entry(t[at].key, v)];
    if t[0].key < k {
      if at == 0 {
        assert c[1..] == t[1..];
      } else {
        assert c[1..] == t[1..][at - 1 := Entry(t[1..][at - 1].key, v)];
        UpdatePosition(t[1..], at - 1, v, k);
      }
    }
  }
}
