/** Proof-of-work arithmetic (src/stn_pow.c, src/stn_economy.c): targets, expected work
    and the difficulty rule, computed byte by byte and specified by exact integers. */
module Pow {
  import opened BigEndian
  import opened Status

  const POW_BLOCK_VERSION: nat := 3
  const WORK_SIZE: nat := 40
  const WINDOW: nat := 60
  const EXPECTED_SPAN: nat := 3600
  const MIN_SPAN: nat := 900
  const MAX_SPAN: nat := 14400
  const SHARE_FACTOR: nat := 10

  type uint32 = x: int | 0 <= x < 0x1_0000_0000

  // ---------------------------------------------------------------- specification

  /** Targets range over 1 .. 2^255-1. */
  predicate ValidTarget(t: seq<byte>) {
    |t| == 32 && 1 <= Value(t) < TWO_255
  }

  function CheckTarget(t: seq<byte>): Outcome<()> {
    if |t| != 32 then Err(Length) else if ValidTarget(t) then Ok(()) else Err(Target)
  }

  function Quotient(n: nat, d: nat): nat
    requires d > 0
  {
    n / d
  }

  /** floor(2^256 / (t + 1)), the expected number of hashes behind one block. */
  function UnitWork(t: seq<byte>): nat {
    Quotient(TWO_256, Value(t) + 1)
  }

  function TargetWorkOf(t: seq<byte>): Outcome<seq<byte>> {
    if ValidTarget(t) then Ok(Bytes(WORK_SIZE, UnitWork(t)))
    else Err(CheckTarget(t).status)
  }

  function WorkSum(a: seq<byte>, b: seq<byte>): Outcome<seq<byte>> {
    if Value(a) + Value(b) < TWO_320 then Ok(Bytes(WORK_SIZE, Value(a) + Value(b)))
    else Err(Overflow)
  }

  function WorkAt(t: seq<byte>, height: nat): Outcome<seq<byte>> {
    if ValidTarget(t) then Ok(Bytes(WORK_SIZE, (height + 1) * UnitWork(t)))
    else Err(CheckTarget(t).status)
  }

  /** The header fields the difficulty rule reads. */
  datatype WindowHeader = WindowHeader(version: nat, height: nat, timestamp: nat, target: seq<byte>)

  function Clamp(lo: int, x: int, hi: int): int
    requires lo <= hi
  {
    if x < lo then lo else if x > hi then hi else x
  }

  /** The adjusted target as one integer formula: the span between the endpoints of the
      window, clamped, scales the last target; the result is clamped to the valid range. */
  function Retarget(t: nat, first: nat, last: nat): nat {
    var span := Clamp(MIN_SPAN, last - first, MAX_SPAN);
    Clamp(1, t * span / EXPECTED_SPAN, TWO_255 - 1)
  }

  predicate IsBoundary(height: nat) { height >= WINDOW && height % WINDOW == 0 }

  function RequiredCount(height: nat): nat {
    if height == 0 then 0 else if IsBoundary(height) then WINDOW else 1
  }

  function CheckEntry(h: WindowHeader, height: nat, count: nat, i: nat, bootstrap: seq<byte>): Outcome<()> {
    if h.height != height - count + i || h.version != POW_BLOCK_VERSION then Err(Content)
    else if !ValidTarget(h.target) then Err(CheckTarget(h.target).status)
    else if height <= 60 && h.target != bootstrap then Err(Content)
    else Ok(())
  }

  /** The first failing entry decides the status. */
  function CheckEntries(height: nat, bootstrap: seq<byte>, history: seq<WindowHeader>, i: nat): Outcome<()>
    requires i <= |history|
    decreases |history| - i
  {
    if i == |history| then Ok(())
    else
      var r := CheckEntry(history[i], height, |history|, i, bootstrap);
      if r.Err? then r else CheckEntries(height, bootstrap, history, i + 1)
  }

  function NextTarget(height: nat, bootstrap: seq<byte>, history: seq<WindowHeader>): Outcome<seq<byte>> {
    if !ValidTarget(bootstrap) then Err(CheckTarget(bootstrap).status)
    else if |history| < RequiredCount(height) then Err(Unresolved)
    else if |history| != RequiredCount(height) then Err(Content)
    else if CheckEntries(height, bootstrap, history, 0).Err? then
      Err(CheckEntries(height, bootstrap, history, 0).status)
    else if IsBoundary(height) then
      Ok(Bytes(32, Retarget(Value(history[59].target), history[0].timestamp, history[59].timestamp)))
    else if height < WINDOW then Ok(bootstrap)
    else Ok(history[0].target)
  }

  // ------------------------------------------------------------ facts about the rules

  lemma UnitWorkBounds(t: seq<byte>)
    requires ValidTarget(t)
    ensures 2 <= UnitWork(t) <= TWO_255
    ensures UnitWork(t) * (Value(t) + 1) <= TWO_256 < (UnitWork(t) + 1) * (Value(t) + 1)
  {
    var d := Value(t) + 1;
    var q := UnitWork(t);
    assert TWO_256 == q * d + TWO_256 % d;
    if q < 2 { MulMonotone(q, 1, d); }
    if q > TWO_255 { MulMonotone(TWO_255 + 1, q, d); MulMonotone(2, d, TWO_255 + 1); }
  }

  /** The adjusted target is always valid, at most four times the old one and at least a
      quarter of it, rounded down. */
  lemma RetargetBounds(t: nat, first: nat, last: nat)
    requires 1 <= t < TWO_255
    ensures 1 <= Retarget(t, first, last) < TWO_255
    ensures t / 4 <= Retarget(t, first, last) <= 4 * t
  {
    var span := Clamp(MIN_SPAN, last - first, MAX_SPAN);
    MulMonotone(MIN_SPAN, span, t);
    MulMonotone(span, MAX_SPAN, t);
    assert t * span == span * t;
  }

  /** A number forced into the range of targets. */
  function Forced(x: int): int { if x < 1 then 1 else if x >= TWO_255 then TWO_255 - 1 else x }

  /** The rule in seconds: a period of four hours or more quadruples the target, one of a
      quarter of an hour or less divides it by four, one of an hour leaves it alone, and in
      between it scales with the time the period took. */
  predicate Rescaled(t: nat, span: int, n: nat) {
    && (span >= 14400 ==> n == Forced(4 * t))
    && (span <= 900 ==> n == Forced(t / 4))
    && (span == 3600 ==> n == t)
    && (900 <= span <= 14400 ==> n == Forced(t * span / 3600))
  }

  lemma RetargetExactly(t: nat, first: nat, last: nat)
    requires 1 <= t < TWO_255
    ensures Rescaled(t, last - first, Retarget(t, first, last))
  {
    assert t * 14400 == 4 * t * 3600;
    assert t * 900 / 3600 == t / 4;
  }

  lemma {:induction false} CheckedEntry(height: nat, bootstrap: seq<byte>, history: seq<WindowHeader>, i: nat, k: nat)
    requires i <= k < |history|
    requires CheckEntries(height, bootstrap, history, i).Ok?
    ensures CheckEntry(history[k], height, |history|, k, bootstrap).Ok?
    decreases k - i
  {
    if i < k { CheckedEntry(height, bootstrap, history, i + 1, k); }
  }

  lemma RetargetIsValid(t: seq<byte>, first: nat, last: nat)
    requires ValidTarget(t)
    ensures Value(Bytes(32, Retarget(Value(t), first, last))) == Retarget(Value(t), first, last)
    ensures ValidTarget(Bytes(32, Retarget(Value(t), first, last)))
  {
    RetargetBounds(Value(t), first, last);
    PowTable();
    ValueOfBytes(32, Retarget(Value(t), first, last));
  }

  /** The target at a height in numbers and seconds: the bootstrap for the first sixty blocks,
      then that of the block before, and at every multiple of sixty that one rescaled by the
      time its period took. */
  predicate InSeconds(height: nat, bootstrap: seq<byte>, before: seq<byte>, first: nat, last: nat, own: seq<byte>) {
    && (height < 60 ==> own == bootstrap)
    && (height >= 60 && height % 60 != 0 ==> own == before)
    && (height >= 60 && height % 60 == 0 ==> Rescaled(Value(before), last - first, Value(own)))
  }

  lemma RetargetRescales(t: seq<byte>, n: seq<byte>, first: nat, last: nat)
    requires ValidTarget(t) && n == Bytes(32, Retarget(Value(t), first, last))
    ensures Rescaled(Value(t), last - first, Value(n))
  {
    RetargetIsValid(t, first, last);
    RetargetExactly(Value(t), first, last);
  }

  /** Whatever the difficulty rule answers is a valid target. */
  lemma NextTargetIsValid(height: nat, bootstrap: seq<byte>, history: seq<WindowHeader>)
    requires NextTarget(height, bootstrap, history).Ok?
    ensures ValidTarget(NextTarget(height, bootstrap, history).value)
  {
    if |history| > 0 {
      CheckedEntry(height, bootstrap, history, 0, |history| - 1);
      if IsBoundary(height) {
        RetargetIsValid(history[59].target, history[0].timestamp, history[59].timestamp);
      }
    }
  }

  lemma WorkProduct(u: nat, n: nat)
    requires u <= TWO_255 && n <= TWO_64
    ensures n * u < TWO_320
  {
    MulMonotone(n, TWO_64, u);
    MulMonotone(u, TWO_255, TWO_64);
  }

  /** n blocks of work never leave the 320-bit domain. */
  lemma WorkFits(t: seq<byte>, n: nat)
    requires ValidTarget(t) && n <= TWO_64
    ensures n * UnitWork(t) < TWO_320
    ensures Value(Bytes(WORK_SIZE, n * UnitWork(t))) == n * UnitWork(t)
  {
    UnitWorkBounds(t);
    WorkProduct(UnitWork(t), n);
    WorkValue(n * UnitWork(t));
  }

  lemma WorkValue(w: nat)
    requires w < TWO_320
    ensures Value(Bytes(WORK_SIZE, w)) == w
  {
    PowTable();
    ValueOfBytes(WORK_SIZE, w);
  }

  /** n successive additions of the same unit, the way the validator accumulates work. */
  function RepeatedSum(unit: seq<byte>, n: nat): Outcome<seq<byte>> {
    if n == 0 then Ok(Bytes(WORK_SIZE, 0))
    else
      var r := RepeatedSum(unit, n - 1);
      if r.Err? then r else WorkSum(r.value, unit)
  }

  lemma WorkSumOf(x: nat, y: nat)
    requires x + y < TWO_320
    ensures WorkSum(Bytes(WORK_SIZE, x), Bytes(WORK_SIZE, y)) == Ok(Bytes(WORK_SIZE, x + y))
  {
    WorkValue(x);
    WorkValue(y);
  }

  lemma {:induction false} RepeatedSumIs(u: nat, n: nat, total: nat)
    requires total == n * u < TWO_320
    ensures RepeatedSum(Bytes(WORK_SIZE, u), n) == Ok(Bytes(WORK_SIZE, total))
  {
    if n > 0 {
      StepProduct(n, u);
      RepeatedSumIs(u, n - 1, total - u);
      RepeatedStep(u, n, total - u, total);
    }
  }

  /** The closed form agrees with height + 1 successive additions, none of which overflows. */
  lemma RepeatedSumIsWorkAt(t: seq<byte>, n: nat)
    requires ValidTarget(t) && n <= TWO_64
    ensures RepeatedSum(Bytes(WORK_SIZE, UnitWork(t)), n) == Ok(Bytes(WORK_SIZE, n * UnitWork(t)))
    ensures n > 0 ==> RepeatedSum(Bytes(WORK_SIZE, UnitWork(t)), n) == WorkAt(t, n - 1)
  {
    WorkFits(t, n);
    RepeatedSumIs(UnitWork(t), n, n * UnitWork(t));
  }

  lemma RepeatedStep(u: nat, n: nat, before: nat, after: nat)
    requires n > 0 && RepeatedSum(Bytes(WORK_SIZE, u), n - 1) == Ok(Bytes(WORK_SIZE, before))
    requires before + u == after < TWO_320
    ensures RepeatedSum(Bytes(WORK_SIZE, u), n) == Ok(Bytes(WORK_SIZE, after))
  {
    WorkSumOf(before, u);
  }

  lemma StepProduct(n: nat, u: nat)
    requires n > 0
    ensures 0 <= (n - 1) * u == n * u - u
  {
  }
}
