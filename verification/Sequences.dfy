/** Concatenation facts the solver is better told than left to find. */
module Sequences {

  lemma Assoc<T>(a: seq<T>, b: seq<T>, c: seq<T>)
    ensures (a + b) + c == a + (b + c)
  {
  }

  lemma Split<T>(s: seq<T>, i: nat)
    requires i <= |s|
    ensures s[..i] + s[i..] == s
  {
  }

  lemma SplitAt<T>(s: seq<T>, i: nat)
    requires i < |s|
    ensures s[..i] + [s[i]] == s[..i + 1]
    ensures s[..i + 1] + s[i + 1..] == s
    ensures [s[i]] + s[i + 1..] == s[i..]
  {
  }

  /** Cutting a concatenation where it was glued. */
  lemma Slices<T>(a: seq<T>, b: seq<T>, c: seq<T>)
    ensures var s := a + b + c;
      s[..|a|] == a && s[|a|..|a| + |b|] == b && s[|a| + |b|..] == c
  {
  }

  /** What each element contributes, in order. */
  function Flat<T, K>(keys: T -> seq<K>, s: seq<T>): seq<K> {
    if s == [] then [] else keys(s[0]) + Flat(keys, s[1..])
  }

  lemma {:induction false} FlatConcat<T, K>(keys: T -> seq<K>, a: seq<T>, b: seq<T>)
    ensures Flat(keys, a + b) == Flat(keys, a) + Flat(keys, b)
  {
    if a == [] {
      assert a + b == b;
    } else {
      FlatConcat(keys, a[1..], b);
      assert (a + b)[1..] == a[1..] + b;
      Assoc(keys(a[0]), Flat(keys, a[1..]), Flat(keys, b));
    }
  }

  lemma FlatOne<T, K>(keys: T -> seq<K>, t: T)
    ensures Flat(keys, [t]) == keys(t)
  {
    assert [t][1..] == [];
    assert Flat(keys, [t]) == keys(t) + Flat(keys, []);
  }

  /** A list that grew by the keys of `x` and then by those of `y`. */
  lemma FlatTwice<T, K>(keys: T -> seq<K>, b: seq<K>, m: seq<K>, n: seq<K>, x: seq<T>, y: seq<T>)
    requires m == b + Flat(keys, x) && n == m + Flat(keys, y)
    ensures n == b + Flat(keys, x + y)
  {
    FlatConcat(keys, x, y);
    Assoc(b, Flat(keys, x), Flat(keys, y));
  }
}
