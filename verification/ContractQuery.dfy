/** The bounded contract listing of src/stn_contract_query.c: one pass over the store that
    keeps at most 16 results and lets each new one bubble up once. */
module ContractQuery {
  import opened Contract
  import C = Contracts

  const MAX_RESULTS: nat := 16

  datatype Item = Item(id: nat, state: nat, kind: nat, sequence: nat, created: nat)

  predicate Terminal(state: nat) { EXECUTED <= state <= CLOSED }

  /** Open contracts first, then the newest, then by identifier. */
  predicate Before(a: Item, b: Item) {
    if Terminal(a.state) != Terminal(b.state) then !Terminal(a.state)
    else if a.created != b.created then a.created > b.created
    else a.id < b.id
  }

  ghost predicate Sorted(s: seq<Item>) { forall i, j :: 0 <= i < j < |s| ==> !Before(s[j], s[i]) }

  /** The place of the first element that `x` precedes. */
  function Slot(s: seq<Item>, x: Item): (p: nat)
    ensures p <= |s|
    ensures forall k :: 0 <= k < p ==> !Before(x, s[k])
    ensures p < |s| ==> Before(x, s[p])
  {
    if s == [] || Before(x, s[0]) then 0 else 1 + Slot(s[1..], x)
  }

  function PutAt(s: seq<Item>, p: nat, x: Item): seq<Item>
    requires p <= |s|
  {
    s[..p] + [x] + s[p..]
  }

  function Insert(s: seq<Item>, x: Item): seq<Item> { PutAt(s, Slot(s, x), x) }

  /** All the items, sorted. */
  function Ranked(items: seq<Item>): seq<Item> {
    if items == [] then [] else Insert(Ranked(items[..|items| - 1]), items[|items| - 1])
  }

  function Take(s: seq<Item>, n: nat): seq<Item> { if |s| <= n then s else s[..n] }

  predicate IsParty(e: C.Entry, identity: nat) {
    exists i :: 0 <= i < |e.current.participants| && e.current.participants[i].identity == identity
  }

  function ItemOf(e: C.Entry): Item {
    Item(e.id, e.current.state, e.current.kind, e.current.sequence, e.current.created)
  }

  /** The contracts an identity takes part in, in the order of registration. */
  function Matching(entries: seq<C.Entry>, identity: nat): seq<Item> {
    if entries == [] then []
    else
      var rest := Matching(entries[..|entries| - 1], identity);
      var e := entries[|entries| - 1];
      if IsParty(e, identity) then rest + [ItemOf(e)] else rest
  }

  function Min(a: nat, b: nat): nat { if a < b then a else b }

  /** stn_contract_query_identity. */
  function Query(entries: seq<C.Entry>, identity: nat, capacity: nat): Result<seq<Item>> {
    if Min(capacity, 16) == 0 then Err(Capacity)
    else Ok(Take(Ranked(Matching(entries, identity)), Min(capacity, 16)))
  }

  // ------------------------------------------------------------------- a real ranking

  lemma InsertMultiset(s: seq<Item>, x: Item)
    ensures multiset(Insert(s, x)) == multiset(s) + multiset{x} && |Insert(s, x)| == |s| + 1
  {
    var p := Slot(s, x);
    assert s == s[..p] + s[p..];
  }

  lemma InsertSorted(s: seq<Item>, x: Item)
    requires Sorted(s)
    ensures Sorted(Insert(s, x))
  {
    var p, n := Slot(s, x), Insert(s, x);
    forall j | p <= j < |s| ensures Before(x, s[j]) { BeforeCarries(s, x, p, j); }
    forall i, j | 0 <= i < j < |n| ensures !Before(n[j], n[i]) {
      var a, b := if i < p then i else i - 1, if j < p then j else j - 1;
      assert i != p ==> n[i] == s[a];
      assert j != p ==> n[j] == s[b];
    }
  }

  /** Ranking is sorting: the same items, none before an earlier one. */
  lemma {:induction false} RankedIsSorted(items: seq<Item>)
    ensures Sorted(Ranked(items)) && multiset(Ranked(items)) == multiset(items) && |Ranked(items)| == |items|
  {
    if items != [] {
      var n := |items| - 1;
      RankedIsSorted(items[..n]);
      InsertSorted(Ranked(items[..n]), items[n]);
      InsertMultiset(Ranked(items[..n]), items[n]);
      assert items == items[..n] + [items[n]];
    }
  }

  /** Contracts have distinct identifiers, so the ranking is the only sorted arrangement. */
  lemma {:induction false} RankingIsUnique(a: seq<Item>, b: seq<Item>)
    requires Sorted(a) && Sorted(b) && multiset(a) == multiset(b)
    requires forall i, j :: 0 <= i < j < |a| ==> a[i].id != a[j].id
    ensures a == b
    decreases |a|
  {
    if a == [] {
      assert |multiset(b)| == 0;
    } else {
      assert |multiset(a)| == |a| && |multiset(b)| == |b|;
      SameFirst(a, b);
      TailMultiset(a);
      TailMultiset(b);
      RankingIsUnique(a[1..], b[1..]);
      assert a == [a[0]] + a[1..] && b == [b[0]] + b[1..];
    }
  }

  lemma SameFirst(a: seq<Item>, b: seq<Item>)
    requires a != [] && b != [] && Sorted(a) && Sorted(b) && multiset(a) == multiset(b)
    requires forall i, j :: 0 <= i < j < |a| ==> a[i].id != a[j].id
    ensures a[0] == b[0]
  {
    assert b[0] in multiset(a) && a[0] in multiset(b);
    var i :| 0 <= i < |a| && a[i] == b[0];
    var j :| 0 <= j < |b| && b[j] == a[0];
    assert !Before(b[j], b[0]);
    assert !Before(a[i], a[0]);
    OrderIsTotal(a[0], b[0]);
  }

  lemma OrderIsTotal(x: Item, y: Item)
    ensures !Before(x, y) && !Before(y, x) ==> x.id == y.id
  {
  }

  lemma TailMultiset(a: seq<Item>)
    requires a != []
    ensures multiset(a[1..]) == multiset(a) - multiset{a[0]}
  {
    assert a == [a[0]] + a[1..];
  }

  // ------------------------------------------------------------------- bounded insertion

  lemma BeforeCarries(s: seq<Item>, x: Item, i: nat, j: nat)
    requires Sorted(s) && i <= j < |s| && Before(x, s[i])
    ensures Before(x, s[j])
  {
    assert i < j ==> !Before(s[j], s[i]);
  }

  /** In a sorted list the slot is where bubbling stops. */
  lemma SlotIs(s: seq<Item>, x: Item, j: nat)
    requires Sorted(s) && j <= |s| && (forall k :: j <= k < |s| ==> Before(x, s[k]))
    requires j == 0 || !Before(x, s[j - 1])
    ensures Slot(s, x) == j
  {
    var p := Slot(s, x);
    if p < j { BeforeCarries(s, x, p, j - 1); }
  }

  lemma {:induction false} SlotInPrefix(s: seq<Item>, x: Item, n: nat)
    requires n <= |s|
    ensures Slot(s[..n], x) == Min(Slot(s, x), n)
  {
    var p, q := Slot(s, x), Slot(s[..n], x);
    assert q < n ==> Before(x, s[q]);
  }

  /** Forgetting all but the first `n` commutes with inserting. */
  lemma InsertTake(s: seq<Item>, x: Item, n: nat)
    ensures Take(Insert(Take(s, n), x), n) == Take(Insert(s, x), n)
  {
    if |s| > n {
      var p := Slot(s, x);
      SlotInPrefix(s, x, n);
      PutTake(s, p, x, n);
    }
  }

  lemma PutTake(s: seq<Item>, p: nat, x: Item, n: nat)
    requires p <= |s| && n < |s|
    ensures PutAt(s[..n], Min(p, n), x)[..n] == PutAt(s, p, x)[..n]
  {
  }

  lemma LoseLast(s: seq<Item>, p: nat, x: Item)
    requires p < |s|
    ensures PutAt(s, p, x)[..|s|] == PutAt(s[..|s| - 1], p, x)
  {
  }

  /** A full list only changes when the newcomer precedes its last element, and then loses
      that one. */
  lemma {:induction false} FullInsert(s: seq<Item>, x: Item)
    requires Sorted(s) && s != []
    ensures var n := |s|;
      Take(Insert(s, x), n) == if Before(x, s[n - 1]) then Insert(s[..n - 1], x) else s
  {
    if Before(x, s[|s| - 1]) { FullLosesLast(s, x); } else { FullStays(s, x); }
  }

  lemma FullLosesLast(s: seq<Item>, x: Item)
    requires s != [] && Before(x, s[|s| - 1])
    ensures Take(Insert(s, x), |s|) == Insert(s[..|s| - 1], x)
  {
    SlotInPrefix(s, x, |s| - 1);
    LoseLast(s, Slot(s, x), x);
  }

  lemma FullStays(s: seq<Item>, x: Item)
    requires Sorted(s) && s != [] && !Before(x, s[|s| - 1])
    ensures Take(Insert(s, x), |s|) == s
  {
    SlotIs(s, x, |s|);
    assert PutAt(s, |s|, x)[..|s|] == s;
  }

  // ------------------------------------------------------------------------ the pass

  /** The participant loop of contains_identity. */
  method Contains(e: C.Entry, identity: nat) returns (found: bool)
    ensures found == IsParty(e, identity)
  {
    var i: nat := 0;
    while i < |e.current.participants|
      invariant i <= |e.current.participants|
      invariant forall k :: 0 <= k < i ==> e.current.participants[k].identity != identity
    {
      if e.current.participants[i].identity == identity { return true; }
      i := i + 1;
    }
    found := false;
  }

  /** One bubbling pass: the last of `n` results moves up past everything it precedes. */
  method BubbleUp(results: array<Item>, n: nat)
    requires 0 < n <= results.Length && Sorted(results[..n - 1])
    modifies results
    ensures results[..n] == Insert(old(results[..n - 1]), old(results[n - 1]))
    ensures results[n..] == old(results[n..])
  {
    ghost var s, x := results[..n - 1], results[n - 1];
    var j := n - 1;
    while j > 0 && Before(results[j], results[j - 1])
      invariant 0 <= j < n && results[j] == x && results[n..] == old(results[n..])
      invariant results[..j] == s[..j]
      invariant results[j + 1..n] == s[j..]
      invariant forall k :: j <= k < n - 1 ==> Before(x, s[k])
    {
      assert results[j - 1] == s[j - 1];
      results[j - 1], results[j] := results[j], results[j - 1];
      assert results[j..n] == [s[j - 1]] + s[j..] == s[j - 1..];
      j := j - 1;
    }
    SlotIs(s, x, j);
    Arranged(results[..], s, x, j, n);
  }

  lemma Arranged(r: seq<Item>, s: seq<Item>, x: Item, j: nat, n: nat)
    requires j < n <= |r| && |s| == n - 1 && r[..j] == s[..j] && r[j] == x && r[j + 1..n] == s[j..]
    ensures r[..n] == s[..j] + [x] + s[j..]
  {
    assert r[..n] == r[..j] + [r[j]] + r[j + 1..n];
  }

  /** A result list with room takes the newcomer in. */
  method Grow(results: array<Item>, n: nat, x: Item)
    requires n < results.Length && Sorted(results[..n])
    modifies results
    ensures results[..n + 1] == Insert(old(results[..n]), x)
  {
    ghost var s := results[..n];
    results[n] := x;
    assert results[..n] == s;
    BubbleUp(results, n + 1);
  }

  /** A full one gives up its last element for a newcomer that precedes it. */
  method Replace(results: array<Item>, n: nat, x: Item)
    requires 0 < n <= results.Length && Sorted(results[..n - 1])
    modifies results
    ensures results[..n] == Insert(old(results[..n - 1]), x)
  {
    ghost var s := results[..n - 1];
    results[n - 1] := x;
    assert results[..n - 1] == s;
    BubbleUp(results, n);
  }

  /** One matching contract enters the bounded results. */
  method Enter(results: array<Item>, n: nat, limit: nat, x: Item) returns (m: nat)
    requires n <= limit <= results.Length && 0 < limit && Sorted(results[..n])
    modifies results
    ensures m <= limit && results[..m] == Take(Insert(old(results[..n]), x), limit)
  {
    ghost var s := results[..n];
    if n < limit {
      Grow(results, n, x);
      return n + 1;
    }
    if Before(x, results[n - 1]) {
      assert results[..n - 1] == s[..n - 1];
      SortedTake(s, n - 1);
      Replace(results, n, x);
    }
    FullInsert(s, x);
    m := n;
  }

  lemma SortedTake(s: seq<Item>, n: nat)
    requires Sorted(s)
    ensures Sorted(Take(s, n)) && |Take(s, n)| <= n
  {
  }

  lemma NextMatching(entries: seq<C.Entry>, identity: nat, i: nat)
    requires i < |entries|
    ensures var seen, next := Matching(entries[..i], identity), Matching(entries[..i + 1], identity);
      && Ranked(next) == (if IsParty(entries[i], identity) then Insert(Ranked(seen), ItemOf(entries[i])) else Ranked(seen))
      && Sorted(Ranked(seen))
  {
    assert entries[..i + 1][..i] == entries[..i];
    var seen := Matching(entries[..i], identity);
    RankedIsSorted(seen);
    assert (seen + [ItemOf(entries[i])])[..|seen|] == seen;
  }

  /** The pass keeps the top of the ranking of what it has seen, so it ends with exactly
      the first results of the full ranking. */
  method QueryIdentity(entries: seq<C.Entry>, identity: nat, results: array<Item>) returns (r: Result<nat>)
    modifies results
    ensures match Query(entries, identity, results.Length)
      case Ok(items) => r == Ok(|items|) && |items| <= results.Length && results[..|items|] == items
      case Err(e) => r == Err(e)
  {
    var limit := Min(results.Length, MAX_RESULTS);
    if limit == 0 { return Err(Capacity); }
    var n: nat, i: nat := 0, 0;
    while i < |entries|
      invariant i <= |entries| && n <= limit
      invariant results[..n] == Take(Ranked(Matching(entries[..i], identity)), limit)
    {
      ghost var ranked := Ranked(Matching(entries[..i], identity));
      NextMatching(entries, identity, i);
      SortedTake(ranked, limit);
      var member := Contains(entries[i], identity);
      if member {
        InsertTake(ranked, ItemOf(entries[i]), limit);
        n := Enter(results, n, limit, ItemOf(entries[i]));
      }
      i := i + 1;
    }
    assert entries[..i] == entries;
    r := Ok(n);
  }
}
