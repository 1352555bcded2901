/** Bytes, their big-endian value, and the two wire helpers every codec and every
    multi-precision routine of the node is built on. */
module BigEndian {

  type byte = b: int | 0 <= b < 256

  const TWO_64: nat := 0x1_0000000000000000
  const UINT64_MAX: nat := TWO_64 - 1
  const TWO_255: nat := 0x8000000000000000_0000000000000000_0000000000000000_0000000000000000
  const TWO_256: nat := 0x1_0000000000000000_0000000000000000_0000000000000000_0000000000000000
  const TWO_320: nat := 0x1_0000000000000000_0000000000000000_0000000000000000_0000000000000000_0000000000000000

  function Pow256(n: nat): (p: nat)
    ensures p >= 1
  {
    if n == 0 then 1 else 256 * Pow256(n - 1)
  }

  /** The unsigned integer whose most significant byte comes first. */
  function Value(s: seq<byte>): nat {
    if s == [] then 0 else Value(s[..|s| - 1]) * 256 + s[|s| - 1]
  }

  /** The low `n` bytes of `v`, most significant first. */
  function Bytes(n: nat, v: nat): (s: seq<byte>)
    ensures |s| == n
  {
    if n == 0 then [] else Bytes(n - 1, v / 256) + [v % 256]
  }

  lemma {:induction false} PowSum(m: nat, n: nat)
    ensures Pow256(m + n) == Pow256(m) * Pow256(n)
  {
    if n == 0 {
    } else {
      PowSum(m, n - 1);
      assert Pow256(m + n) == 256 * Pow256(m + (n - 1));
      assert 256 * (Pow256(m) * Pow256(n - 1)) == Pow256(m) * (256 * Pow256(n - 1));
    }
  }

  lemma {:induction false} PowMonotone(m: nat, n: nat)
    requires m <= n
    ensures Pow256(m) <= Pow256(n)
  {
    if m < n { PowMonotone(m, n - 1); }
  }

  lemma PowTable()
    ensures Pow256(1) == 0x100 && Pow256(2) == 0x1_0000 && Pow256(4) == 0x1_0000_0000
    ensures Pow256(8) == TWO_64
    ensures Pow256(32) == TWO_256
    ensures Pow256(40) == TWO_320
  {
    PowSum(4, 4);
    PowSum(8, 8);
    PowSum(16, 16);
    PowSum(32, 8);
  }

  lemma {:induction false} ValueBound(s: seq<byte>)
    ensures Value(s) < Pow256(|s|)
  {
    if s == [] {
    } else {
      ValueBound(s[..|s| - 1]);
    }
  }

  lemma {:induction false} ValueConcat(a: seq<byte>, b: seq<byte>)
    ensures Value(a + b) == Value(a) * Pow256(|b|) + Value(b)
  {
    if b == [] {
      assert a + b == a;
    } else {
      var front := b[..|b| - 1];
      assert (a + b)[..|a + b| - 1] == a + front;
      ValueConcat(a, front);
      assert (Value(a) * Pow256(|front|)) * 256 == Value(a) * (256 * Pow256(|front|));
    }
  }

  /** Peeling the most significant byte, the direction the carry loops need. */
  lemma ValueHead(s: seq<byte>)
    requires s != []
    ensures Value(s) == s[0] * Pow256(|s| - 1) + Value(s[1..])
  {
    ValueConcat(s[..1], s[1..]);
    assert s[..1] + s[1..] == s;
    assert Value(s[..1]) == s[0];
  }

  lemma {:induction false} ValueUpdate(s: seq<byte>, i: nat, b: byte)
    requires i < |s|
    ensures Value(s[i := b]) == Value(s) + (b - s[i]) * Pow256(|s| - 1 - i)
  {
    var n := |s| - 1;
    if i == n {
      assert s[i := b][..n] == s[..n];
    } else {
      assert s[i := b][..n] == s[..n][i := b];
      ValueUpdate(s[..n], i, b);
      assert ((b - s[i]) * Pow256(n - 1 - i)) * 256 == (b - s[i]) * (256 * Pow256(n - 1 - i));
    }
  }

  lemma {:induction false} ValueOfZeros(s: seq<byte>)
    requires forall i :: 0 <= i < |s| ==> s[i] == 0
    ensures Value(s) == 0
  {
    if s != [] { ValueOfZeros(s[..|s| - 1]); }
  }

  lemma {:induction false} ZeroValueIsZeros(s: seq<byte>)
    requires Value(s) == 0
    ensures forall i :: 0 <= i < |s| ==> s[i] == 0
  {
    if s != [] { ZeroValueIsZeros(s[..|s| - 1]); }
  }

  /** Writing and then reading gives the integer back, modulo the field width. */
  lemma {:induction false} ValueOfBytes(n: nat, v: nat)
    ensures Value(Bytes(n, v)) == v % Pow256(n)
    ensures v < Pow256(n) ==> Value(Bytes(n, v)) == v
  {
    if n == 0 {
    } else {
      ValueOfBytes(n - 1, v / 256);
      var p := Pow256(n - 1);
      assert Bytes(n, v)[..n - 1] == Bytes(n - 1, v / 256);
      ModSplit(v, p);
      if v < Pow256(n) { assert v / 256 < p; }
    }
  }

  lemma ModSplit(v: nat, p: nat)
    requires p >= 1
    ensures ((v / 256) % p) * 256 + v % 256 == v % (256 * p)
  {
    var q := v / 256;
    var r := ((q % p) * 256) + v % 256;
    assert q == (q / p) * p + q % p;
    assert v == (q / p) * (256 * p) + r by {
      assert v == q * 256 + v % 256;
      assert ((q / p) * p) * 256 == (q / p) * (256 * p);
    }
    assert 0 <= r < 256 * p;
    QuotientUnique(v, 256 * p, q / p, r);
  }

  lemma QuotientUnique(n: int, d: int, q: int, r: int)
    requires d > 0 && 0 <= r < d && n == q * d + r
    ensures n / d == q && n % d == r
  {
    var k := q - n / d;
    assert k * d == n % d - r by { assert n == (n / d) * d + n % d; }
    if k >= 1 {
      MulMonotone(1, k, d);
    } else if k <= -1 {
      MulMonotone(k, -1, d);
    }
  }

  lemma MulMonotone(a: int, b: int, d: int)
    requires a <= b && d >= 0
    ensures a * d <= b * d
  {
    assert (b - a) * d >= 0;
  }

  /** Reading and then writing gives the bytes back. */
  lemma {:induction false} BytesOfValue(s: seq<byte>)
    ensures Bytes(|s|, Value(s)) == s
  {
    if s != [] { BytesOfValue(s[..|s| - 1]); }
  }

  /** memcmp: the sign of the first difference of two equal-length byte strings. */
  function Compare(a: seq<byte>, b: seq<byte>): int
    requires |a| == |b|
  {
    if a == [] then 0
    else if a[0] < b[0] then -1
    else if a[0] > b[0] then 1
    else Compare(a[1..], b[1..])
  }

  /** The most significant byte decides whatever follows. */
  lemma HeadDecides(x: int, y: int, p: nat, u: nat, v: nat)
    requires x < y && u < p
    ensures x * p + u < y * p + v
  {
    MulMonotone(x + 1, y, p);
  }

  /** memcmp on equal-length strings is the order of their big-endian values, which
      is why identifiers can be modelled by their values wherever only order matters. */
  lemma {:induction false} CompareIsOrder(a: seq<byte>, b: seq<byte>)
    requires |a| == |b|
    ensures Compare(a, b) < 0 <==> Value(a) < Value(b)
    ensures Compare(a, b) == 0 <==> a == b
    ensures Compare(a, b) > 0 <==> Value(a) > Value(b)
  {
    if a != [] {
      ValueHead(a);
      ValueHead(b);
      ValueBound(a[1..]);
      ValueBound(b[1..]);
      var p := Pow256(|a| - 1);
      var u, v := Value(a[1..]), Value(b[1..]);
      if a[0] < b[0] {
        HeadDecides(a[0], b[0], p, u, v);
      } else if a[0] > b[0] {
        HeadDecides(b[0], a[0], p, v, u);
      } else {
        CompareIsOrder(a[1..], b[1..]);
        assert a == [a[0]] + a[1..] && b == [b[0]] + b[1..];
      }
    }
  }

  /** stn_wire_read: the accumulator is 64 bits wide, so only the low 64 bits of a
      longer field would survive; every caller reads at most eight bytes. */
  method WireRead(p: seq<byte>) returns (v: nat)
    ensures v == Value(p) % TWO_64
    ensures |p| <= 8 ==> v == Value(p)
  {
    v := 0;
    for i := 0 to |p|
      invariant v == Value(p[..i]) % TWO_64
    {
      assert p[..i + 1][..i] == p[..i];
      ShiftIn(Value(p[..i]), p[i]);
      v := (v * 256) % TWO_64 + p[i];
    }
    assert p[..|p|] == p;
    if |p| <= 8 { SmallValue(p); }
  }

  lemma ShiftIn(v: nat, b: byte)
    ensures ((v % TWO_64) * 256) % TWO_64 + b == (v * 256 + b) % TWO_64
  {
    var q := v / TWO_64;
    var r := v % TWO_64;
    var w := r * 256;
    var top := w / TWO_64;
    assert v * 256 + b == (q * 256 + top) * TWO_64 + (w % TWO_64 + b);
    assert w % TWO_64 % 256 == 0;
    QuotientUnique(v * 256 + b, TWO_64, q * 256 + top, w % TWO_64 + b);
  }

  lemma SmallValue(p: seq<byte>)
    requires |p| <= 8
    ensures Value(p) < TWO_64
  {
    ValueBound(p);
    PowTable();
    PowMonotone(|p|, 8);
  }

  /** stn_wire_write: stores the low `n` bytes of `v` at `at`, least significant last,
      and touches nothing else. */
  method WireWrite(p: array<byte>, at: nat, n: nat, v: nat)
    requires at + n <= p.Length
    modifies p
    ensures p[at..at + n] == Bytes(n, v)
    ensures p[..at] == old(p[..at]) && p[at + n..] == old(p[at + n..])
  {
    var k, w := n, v;
    while k != 0
      invariant 0 <= k <= n
      invariant Bytes(k, w) + p[at + k..at + n] == Bytes(n, v)
      invariant p[..at] == old(p[..at]) && p[at + n..] == old(p[at + n..])
    {
      ghost var tail := p[at + k..at + n];
      k := k - 1;
      p[at + k] := w % 256;
      assert p[at + k..at + n] == [w % 256] + tail;
      assert Bytes(k + 1, w) == Bytes(k, w / 256) + [w % 256];
      w := w / 256;
    }
  }
}
