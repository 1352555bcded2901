/** The byte loops of src/stn_pow.c and src/stn_economy.c, each proved to compute the
    integer its specification in module Pow names. Typing a scratch variable `uint32` or
    `byte` makes Dafny prove that no step leaves the width the program gives it. */
module PowArithmetic {
  import opened BigEndian
  import opened Status
  import opened Pow

  lemma TopBit(t: seq<byte>)
    requires |t| == 32
    ensures t[0] < 0x80 <==> Value(t) < TWO_255
  {
    ValueHead(t);
    ValueBound(t[1..]);
    PowTable();
    assert Pow256(32) == 256 * Pow256(31);
  }

  method TargetValidate(t: seq<byte>) returns (r: Outcome<()>)
    ensures r == CheckTarget(t)
  {
    if |t| != 32 { return Err(Length); }
    var any := false;
    for i := 0 to 32
      invariant any <==> exists k :: 0 <= k < i && t[k] != 0
    {
      any := any || t[i] != 0;
    }
    TopBit(t);
    if any {
      if Value(t) == 0 { ZeroValueIsZeros(t); }
    } else {
      ValueOfZeros(t);
    }
    r := if any && t[0] < 0x80 then Ok(()) else Err(Target);
  }

  /** hash <= target, compared as memcmp compares them. */
  method PowCompare(hash: seq<byte>, target: seq<byte>) returns (r: Outcome<()>)
    requires |hash| == 32
    ensures r == if !ValidTarget(target) then CheckTarget(target)
                 else if Value(hash) <= Value(target) then Ok(()) else Err(Work)
  {
    r := TargetValidate(target);
    if r.Ok? {
      CompareIsOrder(hash, target);
      r := if Compare(hash, target) <= 0 then Ok(()) else Err(Work);
    }
  }

  // ------------------------------------------------------------------ carry loops

  /** Columns of a base-256 computation before their carries are propagated. */
  function Columns(col: seq<nat>): nat {
    if col == [] then 0 else Columns(col[..|col| - 1]) * 256 + col[|col| - 1]
  }

  /** `carries[k]` leaves column k, `carries[k + 1]` enters it. */
  ghost predicate Carried(col: seq<nat>, digits: seq<byte>, carries: seq<nat>) {
    |digits| == |col| && |carries| == |col| + 1 &&
    forall k :: 0 <= k < |col| ==> col[k] + carries[k + 1] == digits[k] + 256 * carries[k]
  }

  lemma {:induction false} CarriedValue(col: seq<nat>, digits: seq<byte>, carries: seq<nat>)
    requires Carried(col, digits, carries)
    ensures Columns(col) + carries[|col|] == Value(digits) + carries[0] * Pow256(|col|)
  {
    if |col| > 0 {
      var n := |col| - 1;
      CarriedValue(col[..n], digits[..n], carries[..n + 1]);
      assert carries[0] * (256 * Pow256(n)) == 256 * (carries[0] * Pow256(n));
    }
  }

  /** The loop every routine here shares: add the carry, keep the low byte, carry the rest.
      With columns up to 255*m and a carry up to m, nothing leaves 32 bits. */
  method Propagate(out: array<byte>, at: nat, col: seq<nat>, init: nat, ghost m: nat) returns (carry: uint32)
    requires at + |col| <= out.Length
    requires init <= m <= MAX_SPAN && forall k :: 0 <= k < |col| ==> col[k] <= 255 * m
    modifies out
    ensures carry <= m
    ensures Columns(col) + init == Value(out[at..at + |col|]) + carry * Pow256(|col|)
    ensures out[..at] == old(out[..at]) && out[at + |col|..] == old(out[at + |col|..])
  {
    ghost var n := |col|;
    ghost var carries: seq<nat> := seq(n + 1, _ => init);
    carry := init;
    var i := |col|;
    while i != 0
      invariant 0 <= i <= n && |carries| == n + 1
      invariant carry == carries[i] <= m && carries[n] == init
      invariant forall k :: i <= k < n ==> col[k] + carries[k + 1] == out[at + k] + 256 * carries[k]
      invariant out[..at] == old(out[..at]) && out[at + n..] == old(out[at + n..])
    {
      i := i - 1;
      var v: uint32 := col[i] + carry;
      out[at + i] := v % 256;
      carry := v / 256;
      carries := carries[i := carry];
    }
    CarriedValue(col, out[at..at + n], carries);
  }

  lemma {:induction false} SumColumns(a: seq<byte>, b: seq<byte>, col: seq<nat>)
    requires |a| == |b| == |col| && forall k :: 0 <= k < |a| ==> col[k] == a[k] as int + b[k] as int
    ensures Columns(col) == Value(a) + Value(b)
  {
    if |a| > 0 {
      var n := |a| - 1;
      SumColumns(a[..n], b[..n], col[..n]);
    }
  }

  lemma Distribute(x: nat, y: nat, f: nat)
    ensures (x * 256 + y) * f == (x * f) * 256 + y * f
  {
  }

  lemma {:induction false} ScaledColumns(t: seq<byte>, f: nat, col: seq<nat>)
    requires |t| == |col| && forall k :: 0 <= k < |t| ==> col[k] == t[k] * f
    ensures Columns(col) == Value(t) * f
  {
    if |t| > 0 {
      var n := |t| - 1;
      ScaledColumns(t[..n], f, col[..n]);
      Distribute(Value(t[..n]), t[n], f);
    }
  }

  /** 320-bit addition; a carry out of the first byte is an overflow. */
  method WorkAdd(a: seq<byte>, b: seq<byte>) returns (r: Outcome<seq<byte>>)
    requires |a| == |b| == WORK_SIZE
    ensures r == WorkSum(a, b)
  {
    var sum := new byte[WORK_SIZE](_ => 0);
    var col := seq(WORK_SIZE, i requires 0 <= i < WORK_SIZE => a[i] as int + b[i] as int);
    SumColumns(a, b, col);
    var carry := Propagate(sum, 0, col, 0, 2);
    assert sum[0..WORK_SIZE] == sum[..];
    OverflowIffCarry(sum[..], carry, Value(a) + Value(b));
    if carry != 0 { return Err(Overflow); }
    r := Ok(sum[..]);
  }

  lemma OverflowIffCarry(s: seq<byte>, carry: nat, total: nat)
    requires |s| == WORK_SIZE && total == Value(s) + carry * Pow256(WORK_SIZE)
    ensures carry != 0 <==> total >= TWO_320
    ensures carry == 0 ==> s == Bytes(WORK_SIZE, total)
  {
    PowTable();
    ValueBound(s);
    BytesOfValue(s);
    if carry != 0 { MulMonotone(1, carry, Pow256(WORK_SIZE)); }
  }

  lemma ByteTimes(b: byte, f: nat)
    ensures b * f <= 255 * f
  {
    MulMonotone(b, 255, f);
  }

  method TimesFactor(t: seq<byte>, f: nat) returns (col: seq<nat>)
    ensures |col| == |t| && Columns(col) == Value(t) * f
    ensures forall k :: 0 <= k < |col| ==> col[k] <= 255 * f
  {
    col := seq(|t|, i requires 0 <= i < |t| => t[i] * f);
    ScaledColumns(t, f, col);
    forall k | 0 <= k < |col| ensures col[k] <= 255 * f { ByteTimes(t[k], f); }
  }

  /** The 34-byte product of a target and a clamped span: no byte is lost. */
  method Scale(col: seq<nat>, factor: uint32) returns (scaled: array<byte>)
    requires |col| == 32 && factor <= MAX_SPAN && forall k :: 0 <= k < |col| ==> col[k] <= 255 * factor
    ensures fresh(scaled) && scaled.Length == 34
    ensures Value(scaled[..]) == Columns(col)
  {
    scaled := new byte[34](_ => 0);
    var carry := Propagate(scaled, 2, col, 0, factor);
    PutCarry(scaled, carry);
  }

  /** The two bytes in front of the product take the last carry. */
  method PutCarry(scaled: array<byte>, carry: uint32)
    requires scaled.Length == 34 && carry < 0x1_0000
    modifies scaled
    ensures Value(scaled[..]) == carry * Pow256(32) + Value(old(scaled[2..34]))
  {
    scaled[1] := carry % 256;
    scaled[0] := carry / 256;
    assert scaled[..][2..] == old(scaled[2..34]);
    CarryPrefix(scaled[..], carry);
  }

  lemma CarryPrefix(s: seq<byte>, carry: nat)
    requires |s| == 34 && carry < 0x1_0000 && s[0] == carry / 256 && s[1] == carry % 256
    ensures Value(s) == carry * Pow256(32) + Value(s[2..])
  {
    ValueConcat(s[..2], s[2..]);
    assert s == s[..2] + s[2..];
    assert s[..2][..1] == [s[0]];
    assert Value(s[..2]) == Value([s[0]]) * 256 + s[1] == carry;
  }

  /** Long division by 3600: every quotient digit fits a byte. */
  method DivideBySpan(scaled: array<byte>) returns (quotient: array<byte>)
    requires scaled.Length == 34
    ensures fresh(quotient) && quotient.Length == 34
    ensures Value(quotient[..]) == Value(scaled[..]) / EXPECTED_SPAN
  {
    quotient := new byte[34](_ => 0);
    var remainder: uint32 := 0;
    for i := 0 to 34
      invariant remainder < EXPECTED_SPAN
      invariant Value(scaled[..i]) == Value(quotient[..i]) * EXPECTED_SPAN + remainder
    {
      ghost var done := quotient[..i];
      var v: uint32 := remainder * 256 + scaled[i];
      quotient[i] := v / EXPECTED_SPAN;
      remainder := v % EXPECTED_SPAN;
      assert scaled[..i + 1] == scaled[..i] + [scaled[i]];
      assert quotient[..i + 1] == done + [quotient[i]];
      AppendDigit(scaled[..i], scaled[i]);
      AppendDigit(done, quotient[i]);
    }
    assert scaled[..34] == scaled[..] && quotient[..34] == quotient[..];
    QuotientUnique(Value(scaled[..]), EXPECTED_SPAN, Value(quotient[..]), remainder);
  }

  lemma AppendDigit(s: seq<byte>, b: byte)
    ensures Value(s + [b]) == Value(s) * 256 + b
  {
    assert (s + [b])[..|s|] == s;
  }

  /** stn_target_next. */
  method TargetNext(height: nat, bootstrap: seq<byte>, history: seq<WindowHeader>)
    returns (r: Outcome<seq<byte>>)
    ensures r == NextTarget(height, bootstrap, history)
  {
    var boundary := height >= 60 && height % 60 == 0;
    var status := TargetValidate(bootstrap);
    if status.Err? { return Err(status.status); }
    var required := if height == 0 then 0 else if boundary then 60 else 1;
    if |history| < required { return Err(Unresolved); }
    if |history| != required { return Err(Content); }
    for i := 0 to |history|
      invariant CheckEntries(height, bootstrap, history, 0) == CheckEntries(height, bootstrap, history, i)
    {
      if history[i].height != height - |history| + i || history[i].version != POW_BLOCK_VERSION {
        return Err(Content);
      }
      status := TargetValidate(history[i].target);
      if status.Err? { return Err(status.status); }
      if height <= 60 && history[i].target != bootstrap { return Err(Content); }
    }
    if !boundary {
      return Ok(if height < 60 then bootstrap else history[|history| - 1].target);
    }
    CheckedEntry(height, bootstrap, history, 0, 59);
    var span := if history[59].timestamp <= history[0].timestamp then 0
                else history[59].timestamp - history[0].timestamp;
    var factor: uint32 := if span < 900 then 900 else if span > 14400 then 14400 else span;
    var result := Adjust(history[59].target, factor);
    r := Ok(result);
  }

  /** The filling of the largest target: 0x7f and thirty-one times 0xff. */
  method LargestBytes() returns (s: seq<byte>)
    ensures s == Bytes(32, TWO_255 - 1)
  {
    var top := new byte[32](_ => 255);
    top[0] := 0x7f;
    s := top[..];
    LargestTarget(s);
  }

  /** Scale, divide, and clamp the complete quotient before narrowing it to 32 bytes. */
  method Adjust(t: seq<byte>, factor: uint32) returns (result: seq<byte>)
    requires ValidTarget(t) && MIN_SPAN <= factor <= MAX_SPAN
    ensures result == Bytes(32, Clamp(1, Value(t) * factor / EXPECTED_SPAN, TWO_255 - 1))
  {
    var col := TimesFactor(t, factor);
    var scaled := Scale(col, factor);
    var quotient := DivideBySpan(scaled);
    ghost var q := quotient[..];
    Split34(q);
    if quotient[0] != 0 || quotient[1] != 0 || quotient[2] >= 128 {
      result := LargestBytes();
    } else {
      var narrow := new byte[32](i requires 0 <= i < 32 reads quotient => quotient[i + 2]);
      assert narrow[..] == q[2..];
      ghost var before := narrow[..];
      BytesOfValue(before);
      var status := TargetValidate(narrow[..]);
      if status.Err? {
        ZeroValueIsZeros(before);
        narrow[31] := 1;
        assert narrow[..] == before[31 := 1];
        ValueUpdate(before, 31, 1);
        BytesOfValue(narrow[..]);
      }
      result := narrow[..];
    }
  }

  lemma SuffixHead(a: seq<byte>, i: nat)
    requires i < |a|
    ensures Value(a[i..]) == a[i] * Pow256(|a| - i - 1) + Value(a[i + 1..])
  {
    ValueHead(a[i..]);
    assert a[i..][1..] == a[i + 1..];
  }

  lemma SplitValue(q: seq<byte>)
    requires |q| >= 2
    ensures Value(q) == q[0] * Pow256(|q| - 1) + q[1] * Pow256(|q| - 2) + Value(q[2..])
  {
    SuffixHead(q, 0);
    SuffixHead(q, 1);
    assert q[0..] == q;
  }

  lemma Split34(q: seq<byte>)
    requires |q| == 34
    ensures q[0] != 0 || q[1] != 0 || q[2] >= 128 ==> Value(q) >= TWO_255
    ensures q[0] == 0 && q[1] == 0 && q[2] < 128 ==> Value(q) == Value(q[2..]) < TWO_255
  {
    SplitValue(q);
    TopBit(q[2..]);
    TopTerm(q[0], 33);
    TopTerm(q[1], 32);
  }

  lemma TopTerm(b: byte, e: nat)
    requires e >= 32
    ensures b == 0 ==> b * Pow256(e) == 0
    ensures b != 0 ==> b * Pow256(e) >= TWO_255
    decreases e
  {
    PowTable();
    if e > 32 { TopTerm(b, e - 1); MulMonotone(b, 256 * b, Pow256(e - 1)); MulAssoc(b, Pow256(e - 1)); }
    else { MulMonotone(if b == 0 then 0 else 1, b, Pow256(32)); }
  }

  lemma MulAssoc(b: nat, x: nat)
    ensures (256 * b) * x == b * (256 * x)
  {
  }

  lemma {:induction false} AllOnes(s: seq<byte>)
    requires forall i :: 0 <= i < |s| ==> s[i] == 255
    ensures Value(s) == Pow256(|s|) - 1
  {
    if s != [] { AllOnes(s[..|s| - 1]); }
  }

  lemma LargestTarget(s: seq<byte>)
    requires |s| == 32 && s[0] == 127 && forall i :: 1 <= i < 32 ==> s[i] == 255
    ensures Value(s) == TWO_255 - 1 && s == Bytes(32, TWO_255 - 1)
  {
    SuffixHead(s, 0);
    assert s[0..] == s;
    AllOnes(s[1..]);
    PowTable();
    assert Pow256(32) == 256 * Pow256(31);
    BytesOfValue(s);
  }

  /** The share target is ten times the chain target, saturated at the largest target. */
  method ShareTarget(target: seq<byte>) returns (r: Outcome<seq<byte>>)
    ensures r == if !ValidTarget(target) then Err(CheckTarget(target).status)
                 else Ok(Bytes(32, Clamp(1, 10 * Value(target), TWO_255 - 1)))
  {
    var status := TargetValidate(target);
    if status.Err? { return Err(status.status); }
    var result := Tenfold(target);
    r := Ok(result);
  }

  method Tenfold(target: seq<byte>) returns (answer: seq<byte>)
    requires ValidTarget(target)
    ensures answer == Bytes(32, Clamp(1, 10 * Value(target), TWO_255 - 1))
  {
    var col := TimesFactor(target, SHARE_FACTOR);
    answer := Saturate(col, SHARE_FACTOR);
  }

  /** The carry loop, and the largest target when the product does not fit below it. */
  method Saturate(col: seq<nat>, factor: uint32) returns (answer: seq<byte>)
    requires |col| == 32 && factor <= MAX_SPAN && forall k :: 0 <= k < |col| ==> col[k] <= 255 * factor
    requires Columns(col) >= 1
    ensures answer == Bytes(32, Clamp(1, Columns(col), TWO_255 - 1))
  {
    var result := new byte[32](_ => 0);
    var carry := Propagate(result, 0, col, 0, factor);
    answer := result[0..32];
    Saturates(answer, carry, Columns(col));
    if carry != 0 || answer[0] >= 0x80 { answer := LargestBytes(); }
  }

  lemma Saturates(s: seq<byte>, carry: nat, total: nat)
    requires |s| == 32 && total == Value(s) + carry * Pow256(32) && total >= 1
    ensures if carry != 0 || s[0] >= 0x80 then Clamp(1, total, TWO_255 - 1) == TWO_255 - 1
            else s == Bytes(32, Clamp(1, total, TWO_255 - 1))
  {
    PowTable();
    TopBit(s);
    if carry != 0 {
      MulMonotone(1, carry, Pow256(32));
    } else {
      BytesOfValue(s);
    }
  }
}
