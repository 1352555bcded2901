/** The 257-bit restoring division behind stn_target_work and the doubling loop of
    stn_work_at_height (src/stn_pow.c). */
module WorkDivision {
  import opened BigEndian
  import opened Status
  import opened Pow
  import opened PowArithmetic

  function Pow2(n: nat): (p: nat)
    ensures p >= 1
  {
    if n == 0 then 1 else 2 * Pow2(n - 1)
  }

  lemma {:induction false} Pow2Split(j: nat, k: nat)
    ensures Pow2(8 * j + k) == Pow2(k) * Pow256(j)
  {
    if j == 0 {
    } else {
      Pow2Split(j - 1, k);
      var n := 8 * (j - 1) + k;
      assert Pow2(n + 8) == 256 * Pow2(n) by {
        assert Pow2(n + 4) == 16 * Pow2(n) by { assert Pow2(n + 2) == 4 * Pow2(n); }
        assert Pow2(n + 6) == 4 * Pow2(n + 4);
      }
      assert 256 * (Pow2(k) * Pow256(j - 1)) == Pow2(k) * (256 * Pow256(j - 1));
    }
  }

  /** b | (1 << k). */
  function SetBit(b: byte, k: nat): byte
    requires k < 8
  {
    BitTable();
    if (b / Pow2(k)) % 2 == 1 then b else b + Pow2(k)
  }

  lemma BitTable()
    ensures Pow2(0) == 1 && Pow2(1) == 2 && Pow2(2) == 4 && Pow2(3) == 8 && Pow2(4) == 16
    ensures Pow2(5) == 32 && Pow2(6) == 64 && Pow2(7) == 128 && Pow2(8) == 256
  {
    assert Pow2(4) == 16;
    assert Pow2(6) == 64;
  }

  /** When only higher bits are present, setting bit k is adding it. */
  lemma SetFreshBit(b: byte, k: nat)
    requires k < 8 && b % Pow2(k + 1) == 0
    ensures SetBit(b, k) == b + Pow2(k)
    ensures b % Pow2(k) == 0 && SetBit(b, k) % Pow2(k) == 0
  {
    var p := Pow2(k);
    var m := b / (2 * p);
    assert b == m * (2 * p);
    assert m * (2 * p) == (2 * m) * p;
    StepProduct(2 * m + 1, p);
    QuotientUnique(b, p, 2 * m, 0);
    QuotientUnique(b + p, p, 2 * m + 1, 0);
  }

  /** The borrow loop: byte-wise subtraction in place. */
  method SubtractFrom(r: array<byte>, d: seq<byte>)
    requires r.Length == |d| && Value(d) <= Value(r[..])
    modifies r
    ensures Value(r[..]) == Value(old(r[..])) - Value(d)
  {
    ghost var n := |d|;
    ghost var before := r[..];
    ghost var borrows: seq<nat> := seq(n + 1, _ => 0);
    var borrow := 0;
    var i := |d|;
    while i != 0
      invariant 0 <= i <= n && |borrows| == n + 1
      invariant borrow == borrows[i] <= 1 && borrows[n] == 0
      invariant forall k :: 0 <= k < i ==> r[k] == before[k]
      invariant forall k :: i <= k < n ==> r[k] as int + d[k] as int + borrows[k + 1] == before[k] + 256 * borrows[k]
    {
      i := i - 1;
      var sub: int := d[i] as int + borrow;
      var v: int := r[i];
      r[i] := if v < sub then v - sub + 256 else v - sub;
      borrow := if v < sub then 1 else 0;
      borrows := borrows[i := borrow];
    }
    Borrowed(before, r[..], d, borrows);
  }

  lemma Borrowed(before: seq<byte>, after: seq<byte>, d: seq<byte>, borrows: seq<nat>)
    requires |before| == |after| == |d| && |borrows| == |d| + 1
    requires borrows[|d|] == 0 && borrows[0] <= 1 && Value(d) <= Value(before)
    requires forall k :: 0 <= k < |d| ==> after[k] as int + d[k] as int + borrows[k + 1] == before[k] + 256 * borrows[k]
    ensures Value(after) == Value(before) - Value(d)
  {
    var col: seq<nat> := seq(|d|, k requires 0 <= k < |d| => after[k] as int + d[k] as int);
    SumColumns(after, d, col);
    CarriedValue(col, before, borrows);
    ValueBound(after);
    NoFinalBorrow(Value(before), Value(after), Value(d), borrows[0], Pow256(|d|));
  }

  lemma NoFinalBorrow(x: nat, y: nat, d: nat, b: nat, p: nat)
    requires b <= 1 && y < p && d <= x && y + d == x + b * p
    ensures y == x - d
  {
  }

  /** Only bits above `bit` are set in the quotient. */
  ghost predicate LowClear(bit: int, q: seq<byte>)
    requires -1 <= bit <= 256 && |q| == WORK_SIZE
  {
    bit >= 0 ==>
      && (forall k :: 39 - bit / 8 < k < 40 ==> q[k] == 0)
      && q[39 - bit / 8] % Pow2(bit % 8 + 1) == 0
  }

  lemma LowClearStep(bit: nat, q: seq<byte>, i: nat, b: byte)
    requires bit <= 256 && |q| == WORK_SIZE && LowClear(bit, q)
    requires i == 39 - bit / 8 && b % Pow2(bit % 8) == 0
    ensures LowClear(bit - 1, q[i := b])
  {
    if bit % 8 == 0 {
      assert bit > 0 ==> (bit - 1) / 8 == bit / 8 - 1;
    } else {
      assert (bit - 1) / 8 == bit / 8 && (bit - 1) % 8 + 1 == bit % 8;
    }
  }

  /** The part of the numerator 2^256 already shifted in before `bit` is processed. */
  function Prefix(bit: int): nat
    requires -1 <= bit <= 256
  {
    if bit == 256 then 0 else Pow2(255 - bit)
  }

  /** The state of the long division before `bit` is processed, with quotient Q so far. */
  ghost predicate Dividing(bit: int, Q: nat, R: nat, D: nat, q: seq<byte>)
  {
    && -1 <= bit <= 256 && |q| == WORK_SIZE
    && Prefix(bit) == Q * D + R && R < D
    && Value(q) == Q * Pow2(bit + 1)
    && LowClear(bit, q)
  }

  lemma ShiftIn(bit: nat, Q: nat, R: nat, D: nat)
    requires bit <= 256 && Prefix(bit) == Q * D + R
    ensures Prefix(bit - 1) == (2 * Q) * D + 2 * R + (if bit == 256 then 1 else 0)
  {
    var qd := Q * D;
    assert 2 * qd == (2 * Q) * D;
  }

  lemma ShiftQuotient(Q: nat, bit: nat)
    ensures Q * Pow2(bit + 1) == (2 * Q) * Pow2(bit)
    ensures (2 * Q + 1) * Pow2(bit) == (2 * Q) * Pow2(bit) + Pow2(bit)
  {
    var p := Pow2(bit);
    assert Q * (2 * p) == (2 * Q) * p;
  }

  lemma LeaveBit(bit: nat, Q: nat, R: nat, D: nat, q: seq<byte>, R': nat)
    requires Dividing(bit, Q, R, D, q)
    requires R' == 2 * R + (if bit == 256 then 1 else 0) && R' < D
    ensures Dividing(bit - 1, 2 * Q, R', D, q)
  {
    ShiftIn(bit, Q, R, D);
    ShiftQuotient(Q, bit);
    var i := 39 - bit / 8;
    SetFreshBit(q[i], bit % 8);
    LowClearStep(bit, q, i, q[i]);
    assert q[i := q[i]] == q;
  }

  lemma TakeBit(bit: nat, Q: nat, R: nat, D: nat, q: seq<byte>, R': nat, i: nat)
    requires Dividing(bit, Q, R, D, q)
    requires R' == 2 * R + (if bit == 256 then 1 else 0) && D <= R'
    requires i == 39 - bit / 8
    ensures Dividing(bit - 1, 2 * Q + 1, R' - D, D, q[i := SetBit(q[i], bit % 8)])
  {
    ShiftIn(bit, Q, R, D);
    StepProduct(2 * Q + 1, D);
    ShiftQuotient(Q, bit);
    SetFreshBit(q[i], bit % 8);
    ValueUpdate(q, i, SetBit(q[i], bit % 8));
    Pow2Split(bit / 8, bit % 8);
    LowClearStep(bit, q, i, SetBit(q[i], bit % 8));
  }

  lemma Finished(Q: nat, R: nat, D: nat, q: seq<byte>)
    requires Dividing(-1, Q, R, D, q)
    ensures Value(q) == TWO_256 / D && q == Bytes(WORK_SIZE, TWO_256 / D)
  {
    Pow2Split(32, 0);
    PowTable();
    QuotientUnique(TWO_256, D, Q, R);
    BytesOfValue(q);
  }

  /** One turn of the division loop; the result says whether the denominator fitted. */
  method DivideStep(remainder: array<byte>, denominator: seq<byte>, q: array<byte>, bit: nat, ghost Q: nat)
    returns (fits: bool, ghost Q': nat)
    requires remainder.Length == |denominator| == 33 && q != remainder && bit <= 256
    requires 2 <= Value(denominator) <= TWO_255
    requires Dividing(bit, Q, Value(remainder[..]), Value(denominator), q[..])
    modifies remainder, q
    ensures fits ==> bit < 256
    ensures Dividing(bit - 1, Q', Value(remainder[..]), Value(denominator), q[..])
  {
    ghost var R := Value(remainder[..]);
    ghost var D := Value(denominator);
    ghost var digits := q[..];
    ShiftLeft(remainder, if bit == 256 then 1 else 0);
    ghost var R' := Value(remainder[..]);
    assert digits == q[..];
    CompareIsOrder(remainder[..], denominator);
    fits := Compare(remainder[..], denominator) >= 0;
    if fits {
      SubtractFrom(remainder, denominator);
      var i := WORK_SIZE - 1 - bit / 8;
      TakeBit(bit, Q, R, D, digits, R', i);
      q[i] := SetBit(q[i], bit % 8);
      assert q[..] == digits[i := SetBit(digits[i], bit % 8)];
      Q' := 2 * Q + 1;
      FirstBit(bit, Q, R, D);
    } else {
      LeaveBit(bit, Q, R, D, digits, R');
      Q' := 2 * Q;
    }
  }

  /** Before bit 256 nothing has been shifted in, so the remainder is zero. */
  lemma FirstBit(bit: nat, Q: nat, R: nat, D: nat)
    requires bit <= 256 && Prefix(bit) == Q * D + R
    ensures bit == 256 ==> R == 0
  {
    MulMonotone(0, Q, D);
  }

  /** The bounded binary long division of the 257-bit numerator 2^256. */
  method Divide(denominator: seq<byte>) returns (r: Outcome<seq<byte>>)
    requires |denominator| == 33 && 2 <= Value(denominator) <= TWO_255
    ensures r == Ok(Bytes(WORK_SIZE, TWO_256 / Value(denominator)))
  {
    var remainder := new byte[33](_ => 0);
    var q := new byte[WORK_SIZE](_ => 0);
    ghost var Q: nat := 0;
    Started(Value(denominator), remainder[..], q[..]);
    var bit := 256;
    while bit >= 0
      invariant -1 <= bit <= 256
      invariant Dividing(bit, Q, Value(remainder[..]), Value(denominator), q[..])
      decreases bit + 1
    {
      var fits, Q' := DivideStep(remainder, denominator, q, bit, Q);
      if fits && bit == 256 { return Err(Overflow); }
      Q := Q';
      bit := bit - 1;
    }
    Finished(Q, Value(remainder[..]), Value(denominator), q[..]);
    r := Ok(q[..]);
  }

  lemma Started(D: nat, remainder: seq<byte>, q: seq<byte>)
    requires D > 0 && |q| == WORK_SIZE
    requires forall i :: 0 <= i < |remainder| ==> remainder[i] == 0
    requires forall i :: 0 <= i < |q| ==> q[i] == 0
    ensures Dividing(256, 0, Value(remainder), D, q)
  {
    ValueOfZeros(remainder);
    ValueOfZeros(q);
  }

  /** stn_target_work: exactly floor(2^256/(target+1)); the overflow exit is never taken. */
  method TargetWork(target: seq<byte>) returns (r: Outcome<seq<byte>>)
    ensures r == TargetWorkOf(target)
  {
    var status := TargetValidate(target);
    if status.Err? { return Err(status.status); }
    var denominator := Denominator(target);
    r := Divide(denominator);
  }

  /** target + 1 in 33 bytes. */
  method Denominator(target: seq<byte>) returns (d: seq<byte>)
    requires ValidTarget(target)
    ensures |d| == 33 && Value(d) == Value(target) + 1
  {
    var wide := [0] + target;
    ValueHead(wide);
    assert wide[1..] == target;
    var a := new byte[33](_ => 0);
    var col: seq<nat> := seq(33, i requires 0 <= i < 33 => wide[i]);
    PlainColumns(wide, col);
    var carry := Propagate(a, 0, col, 1, 1);
    assert a[0..33] == a[..];
    PowTable();
    assert Pow256(33) == 256 * Pow256(32);
    if carry != 0 { MulMonotone(1, carry, Pow256(33)); }
    d := a[..];
  }

  lemma {:induction false} PlainColumns(s: seq<byte>, col: seq<nat>)
    requires |s| == |col| && forall k :: 0 <= k < |s| ==> col[k] == s[k]
    ensures Columns(col) == Value(s)
  {
    if |s| > 0 { PlainColumns(s[..|s| - 1], col[..|s| - 1]); }
  }

  /** r := 2 * r + carry; the top bit of a 33-byte remainder below 2^256 is never lost. */
  method ShiftLeft(r: array<byte>, carry: nat)
    requires r.Length == 33 && carry <= 1 && Value(r[..]) < TWO_256
    modifies r
    ensures Value(r[..]) == 2 * Value(old(r[..])) + carry
  {
    ghost var before := r[..];
    var col := TimesFactor(r[..], 2);
    var out := Propagate(r, 0, col, carry, 2);
    assert r[0..33] == r[..];
    PowTable();
    assert Pow256(33) == 256 * Pow256(32);
    if out != 0 { MulMonotone(1, out, Pow256(33)); }
  }

  /** height * unit by double-and-add over the bits of the height. */
  method Multiply(unit: seq<byte>, height: nat) returns (sum: seq<byte>)
    requires |unit| == WORK_SIZE && height * Value(unit) < TWO_320
    ensures |sum| == WORK_SIZE && Value(sum) == height * Value(unit)
  {
    ghost var total := height * Value(unit);
    var power := unit;
    sum := Bytes(WORK_SIZE, 0);
    WorkValue(0);
    var h: nat := height;
    while h != 0
      invariant |sum| == |power| == WORK_SIZE
      invariant Value(sum) + h * Value(power) == total
    {
      Halve(h, Value(power), Value(sum));
      if h % 2 != 0 {
        sum := AddWithin(sum, power);
      }
      h := h / 2;
      if h != 0 {
        power := AddWithin(power, power);
      }
    }
  }

  /** stn_work_at_height. */
  method WorkAtHeight(target: seq<byte>, height: nat) returns (r: Outcome<seq<byte>>)
    requires height <= UINT64_MAX
    ensures r == WorkAt(target, height)
  {
    r := TargetWork(target);
    if r.Err? { return; }
    var unit := r.value;
    ghost var u := UnitWork(target);
    UnitWorkBounds(target);
    WorkValue(u);
    WorkProduct(u, height);
    WorkProduct(u, height + 1);
    StepProduct(height + 1, u);
    var sum := Multiply(unit, height);
    sum := AddWithin(sum, unit);
    BytesOfValue(sum);
    r := Ok(sum);
  }

  /** An addition whose exact sum is known to fit cannot report an overflow. */
  method AddWithin(a: seq<byte>, b: seq<byte>) returns (s: seq<byte>)
    requires |a| == |b| == WORK_SIZE && Value(a) + Value(b) < TWO_320
    ensures |s| == WORK_SIZE && Value(s) == Value(a) + Value(b)
  {
    var r := WorkAdd(a, b);
    WorkValue(Value(a) + Value(b));
    s := r.value;
  }

  /** One turn of double-and-add keeps sum + h * power and stays below it. */
  lemma Halve(h: nat, p: nat, s: nat)
    ensures s + h * p == (if h % 2 != 0 then s + p else s) + (h / 2) * (2 * p)
    ensures h % 2 != 0 ==> s + p <= s + h * p
    ensures h / 2 != 0 ==> 2 * p <= s + h * p
  {
    var g := h / 2;
    assert h * p == g * (2 * p) + (h % 2) * p by {
      assert h == g * 2 + h % 2;
      assert (g * 2 + h % 2) * p == g * (2 * p) + (h % 2) * p;
    }
    MulMonotone(if g == 0 then 0 else 1, g, 2 * p);
  }
}
