/** Gas estimation by bounded binary search, the EIP-1559 base fee, and the header
    checks against the parent block. */
module Gas {
  import opened Prelude

  // ----- gas estimation -----

  const INTRINSIC: nat := 21_000
  const MAX_ITERATIONS: nat := 25

  function Half(width: nat): (r: nat) { (width + 1) / 2 }

  /** The search window after `n` halvings, rounded up. */
  function Halved(width: nat, n: nat): (r: nat) {
    if n == 0 then width else Half(Halved(width, n - 1))
  }

  /** More gas never makes a call fail. */
  ghost predicate Monotone(ok: nat -> bool) {
    forall g, h :: g <= h && ok(g) ==> ok(h)
  }

  /** The smallest limit above `floor` at which the call succeeds. */
  ghost predicate IsLeast(ok: nat -> bool, floor: int, m: nat) {
    m > floor && ok(m) && forall g: nat :: floor < g < m ==> !ok(g)
  }

  /** `estimate_gas`, with `ok(g)` for the simulation succeeding with gas limit `g`. The
      result always lets the call succeed, and for monotone calls it exceeds the least
      succeeding limit above 21000 by less than the final search window. */
  method EstimateGas(ok: nat -> bool, requested: Option<nat>, blockLimit: nat) returns (r: Result<nat, ()>)
    ensures var upper := Upper(requested, blockLimit);
      && (r.Ok? <==> ok(upper))
      && (r.Ok? ==> ok(r.value) && r.value <= upper)
      && (r.Ok? && upper <= INTRINSIC ==> r.value == upper)
    ensures var upper := Upper(requested, blockLimit);
      r.Ok? && upper > INTRINSIC && Monotone(ok) ==>
        forall m: nat :: IsLeast(ok, INTRINSIC, m) ==>
          0 <= r.value - m && (r.value == m || r.value - m < Halved(upper - INTRINSIC, MAX_ITERATIONS))
  {
    var upper := Upper(requested, blockLimit);
    if !ok(upper) {
      return Err(());
    }
    var lo: nat, hi: nat, best: nat, iters: nat := INTRINSIC, upper, upper, 0;
    while lo + 1 < hi && iters < MAX_ITERATIONS
      invariant iters <= MAX_ITERATIONS
      invariant best == hi <= upper && ok(hi) && lo >= INTRINSIC
      invariant upper <= INTRINSIC ==> hi == upper
      invariant upper > INTRINSIC ==> INTRINSIC <= lo < hi && hi - lo <= Halved(upper - INTRINSIC, iters)
      invariant lo == INTRINSIC || !ok(lo)
      decreases MAX_ITERATIONS - iters
    {
      iters := iters + 1;
      var mid: nat := lo + (hi - lo) / 2;
      if ok(mid) {
        best := mid;
        hi := mid;
      } else {
        lo := mid;
      }
    }
    r := Ok(best);
  }

  function Upper(requested: Option<nat>, blockLimit: nat): (r: nat) {
    var want := if requested.Some? then requested.value else blockLimit;
    if want <= blockLimit then want else blockLimit
  }

  lemma HalvedBound(width: nat, n: nat)
    requires width <= Pow2(n)
    ensures Halved(width, n) <= 1
  {
    HalvedGeneral(width, n);
    var p := Pow2(n);
    DivBounds(width + p - 1, p);
    MulLt(CeilDiv(width, p), 2, p);
  }

  function Pow2(n: nat): (r: nat)
    ensures r >= 1
  {
    if n == 0 then 1 else 2 * Pow2(n - 1)
  }

  /** Repeated halving rounded up is one division by the power of two rounded up. */
  lemma {:induction false} HalvedGeneral(width: nat, n: nat)
    ensures Halved(width, n) == CeilDiv(width, Pow2(n))
  {
    if n == 0 {
      assert CeilDiv(width, 1) == width;
    } else {
      HalvedGeneral(width, n - 1);
      HalveOnce(width, Pow2(n - 1));
    }
  }

  function CeilDiv(width: nat, p: nat): (r: nat)
    requires p >= 1
  {
    (width + p - 1) / p
  }

  lemma HalveOnce(width: nat, p: nat)
    requires p >= 1
    ensures Half(CeilDiv(width, p)) == CeilDiv(width, 2 * p)
  {
    DivBounds(width + p - 1, p);
    DivBounds(width + 2 * p - 1, 2 * p);
    HalveCeil(width, p, CeilDiv(width, p), CeilDiv(width, 2 * p));
  }

  lemma HalveCeil(width: nat, p: nat, q: nat, top: nat)
    requires p >= 1
    requires q * p <= width + p - 1 < q * p + p
    requires top * (2 * p) <= width + 2 * p - 1 < top * (2 * p) + 2 * p
    ensures (q + 1) / 2 == top
  {
    MulLt(q, 2 * top + 1, p);
    if top > 0 {
      MulLt(2 * top - 1, q + 1, p);
    }
  }

  /** Within 2^25 above the intrinsic cost the estimate is the least succeeding limit
      above 21000; it is the least of all exactly when 21000 itself is not enough. */
  lemma EstimateExactIff(ok: nat -> bool, upper: nat, r: nat, m: nat)
    requires upper > INTRINSIC && upper - INTRINSIC <= Pow2(MAX_ITERATIONS)
    requires Monotone(ok) && IsLeast(ok, INTRINSIC, m) && r >= m
    requires r == m || r - m < Halved(upper - INTRINSIC, MAX_ITERATIONS)
    ensures r == m
    ensures IsLeast(ok, -1, r) <==> !ok(INTRINSIC)
  {
    HalvedBound(upper - INTRINSIC, MAX_ITERATIONS);
    if ok(INTRINSIC) {
      assert !IsLeast(ok, -1, r);
    } else {
      forall g: nat | g < m ensures !ok(g) {
        assert g <= INTRINSIC ==> (ok(g) ==> ok(INTRINSIC));
      }
    }
  }

  // ----- base fee -----

  datatype BaseFeeParams = BaseFeeParams(elasticity: nat, denominator: nat)

  const DEFAULT_PARAMS := BaseFeeParams(2, 8)

  function SaturatingMul128(a: nat, b: nat): (r: nat) {
    if a * b > U128_MAX then U128_MAX else a * b
  }

  /** `as u64` */
  function Truncate64(a: nat): (r: nat) { a % (U64_MAX + 1) }

  function Target(gasLimit: nat, p: BaseFeeParams): (r: nat)
    requires p.elasticity > 0
  {
    gasLimit / p.elasticity
  }

  function Quot(a: nat, d: nat): (r: nat)
    requires d > 0
    ensures r * d <= a < r * d + d
  {
    a / d
  }

  /** The fee change before it is cast back to 64 bits. */
  function RawDelta(fee: nat, distance: nat, target: nat, p: BaseFeeParams): (r: nat)
    requires target > 0 && p.denominator > 0
  {
    Quot(Quot(SaturatingMul128(fee, distance), target), p.denominator)
  }

  /** `calculate_base_fee`. A zero target is only allowed where the source does not
      divide by it. */
  function NextBaseFee(fee: nat, used: nat, gasLimit: nat, p: BaseFeeParams): (r: nat)
    requires p.elasticity > 0 && p.denominator > 0
    requires Target(gasLimit, p) > 0 || used == 0
  {
    var target := Target(gasLimit, p);
    if used == target then fee
    else if used > target then
      Raise(fee, RawDelta(fee, used - target, target, p))
    else
      Lower(fee, RawDelta(fee, target - used, target, p))
  }

  function Raise(fee: nat, raw: nat): (r: nat) {
    SaturatingAdd(fee, Truncate64(if raw < 1 then 1 else raw))
  }

  function Lower(fee: nat, raw: nat): (r: nat) {
    if Truncate64(raw) > fee then 0 else fee - Truncate64(raw)
  }

  /** Without truncation, raising and lowering follow the size of the change. */
  lemma ShiftBounds(fee: nat, small: nat, large: nat)
    requires fee <= U64_MAX && small <= large <= U64_MAX
    ensures Lower(fee, large) <= Lower(fee, small) <= fee <= Raise(fee, small) <= Raise(fee, large) <= U64_MAX
    ensures large <= fee ==> Lower(fee, large) == fee - large
    ensures Raise(fee, large) <= fee + (if large < 1 then 1 else large)
  {
  }

  lemma MulMono(a: nat, b: nat, c: nat, d: nat)
    requires a <= b && c <= d
    ensures a * c <= b * d
  {
    assert a * c <= b * c by { MulLe(a, b, c); }
    assert b * c <= b * d by { MulLe(c, d, b); }
  }

  lemma QuotMono(a: nat, b: nat, d: nat)
    requires a <= b && d > 0
    ensures Quot(a, d) <= Quot(b, d)
  {
    MulLt(Quot(a, d), Quot(b, d) + 1, d);
  }

  lemma QuotCancel(a: nat, d: nat)
    requires d > 0
    ensures Quot(a * d, d) == a
  {
    MulLt(Quot(a * d, d), a + 1, d);
    MulLt(a, Quot(a * d, d) + 1, d);
  }

  /** The fee change is monotone in the distance from the target, and a distance of `k`
      targets changes the fee by at most `k` eighths. */
  lemma RawDeltaBounds(fee: nat, near: nat, far: nat, k: nat, target: nat)
    requires fee <= U64_MAX && near <= far <= k * target && target > 0 && far <= U64_MAX
    ensures RawDelta(fee, near, target, DEFAULT_PARAMS) <= RawDelta(fee, far, target, DEFAULT_PARAMS) <= fee * k / 8
  {
    MulMono(fee, U64_MAX, near, U64_MAX);
    MulMono(fee, U64_MAX, far, U64_MAX);
    assert U64_MAX * U64_MAX <= U128_MAX;
    MulMono(fee, fee, near, far);
    MulMono(fee, fee, far, k * target);
    assert fee * (k * target) == fee * k * target;
    QuotMono(fee * near, fee * far, target);
    QuotMono(fee * far, fee * k * target, target);
    QuotCancel(fee * k, target);
    QuotMono(Quot(fee * near, target), Quot(fee * far, target), 8);
    QuotMono(Quot(fee * far, target), fee * k, 8);
  }

  /** Bounds of one step with the default parameters and at most the block's gas used:
      the cast never truncates, a positive fee stays positive, the fee falls by at most
      an eighth and, unless a block with an odd limit is full, rises by at most an eighth
      or one. */
  lemma BaseFeeStep(fee: nat, used: nat, gasLimit: nat)
    requires fee <= U64_MAX && used <= gasLimit <= U64_MAX && Target(gasLimit, DEFAULT_PARAMS) > 0
    ensures
      var target := Target(gasLimit, DEFAULT_PARAMS);
      var next := NextBaseFee(fee, used, gasLimit, DEFAULT_PARAMS);
      var distance := if used > target then used - target else target - used;
      && RawDelta(fee, distance, target, DEFAULT_PARAMS) <= U64_MAX
      && next <= U64_MAX
      && (fee > 0 ==> next > 0)
      && fee - fee / 8 <= next
      && (gasLimit % 2 == 0 || used < gasLimit ==> next <= fee + EighthOrOne(fee))
  {
    var target := Target(gasLimit, DEFAULT_PARAMS);
    if used > target {
      RiseStep(fee, used - target, target);
    } else {
      RawDeltaBounds(fee, target - used, target - used, 1, target);
      ShiftBounds(fee, RawDelta(fee, target - used, target, DEFAULT_PARAMS), RawDelta(fee, target - used, target, DEFAULT_PARAMS));
    }
  }

  /** A rise by a distance of at most two targets, or at most one. */
  lemma RiseStep(fee: nat, distance: nat, target: nat)
    requires fee <= U64_MAX && 0 < target && distance <= 2 * target && distance <= U64_MAX
    ensures var raw := RawDelta(fee, distance, target, DEFAULT_PARAMS);
      raw <= U64_MAX && fee <= Raise(fee, raw) <= U64_MAX && Raise(fee, raw) > 0
      && (distance <= target ==> Raise(fee, raw) <= fee + EighthOrOne(fee))
  {
    var raw := RawDelta(fee, distance, target, DEFAULT_PARAMS);
    RawDeltaBounds(fee, distance, distance, 2, target);
    if distance <= target {
      RawDeltaBounds(fee, distance, distance, 1, target);
    }
    ShiftBounds(fee, raw, raw);
  }

  function EighthOrOne(fee: nat): (r: nat) {
    if fee / 8 < 1 then 1 else fee / 8
  }

  /** A fee that rises by more than an eighth when a block with an odd limit is full. */
  function SteepFee(target: nat): (r: nat) {
    8 * (target / 8 + 1) + 7
  }

  lemma SteepDelta(fee: nat, target: nat)
    requires target > 0 && target <= fee <= U64_MAX && target < U64_MAX
    ensures Quot(fee + 1, 8) <= RawDelta(fee, target + 1, target, DEFAULT_PARAMS) <= U64_MAX
  {
    MulMono(fee, U64_MAX, target + 1, U64_MAX);
    assert U64_MAX * U64_MAX <= U128_MAX;
    assert (fee + 1) * target == fee * target + target && fee * (target + 1) == fee * target + fee;
    QuotMono((fee + 1) * target, fee * (target + 1), target);
    QuotCancel(fee + 1, target);
    QuotMono(fee + 1, Quot(fee * (target + 1), target), 8);
    RawDeltaBounds(fee, target + 1, target + 1, 2, target);
  }

  lemma FullOddBlockRisesMore(gasLimit: nat)
    requires gasLimit <= U64_MAX && gasLimit % 2 == 1 && Target(gasLimit, DEFAULT_PARAMS) > 0
    ensures var fee := SteepFee(Target(gasLimit, DEFAULT_PARAMS));
      fee <= U64_MAX && NextBaseFee(fee, gasLimit, gasLimit, DEFAULT_PARAMS) > fee + EighthOrOne(fee)
  {
    var target := Target(gasLimit, DEFAULT_PARAMS);
    assert gasLimit - target == target + 1;
    SteepRise(SteepFee(target), target);
  }

  lemma SteepRise(fee: nat, target: nat)
    requires 0 < target && 2 * target < U64_MAX && fee == SteepFee(target)
    ensures fee <= U64_MAX && Raise(fee, RawDelta(fee, target + 1, target, DEFAULT_PARAMS)) > fee + EighthOrOne(fee)
  {
    SteepBounds(fee, target);
    SteepDelta(fee, target);
    RawDeltaBounds(fee, target + 1, target + 1, 2, target);
    PlainRaise(fee, RawDelta(fee, target + 1, target, DEFAULT_PARAMS));
  }

  lemma SteepBounds(fee: nat, target: nat)
    requires 2 * target < U64_MAX && fee == SteepFee(target)
    ensures target <= fee && fee + fee * 2 / 8 <= U64_MAX
    ensures Quot(fee + 1, 8) == EighthOrOne(fee) + 1
  {
  }

  lemma PlainRaise(fee: nat, raw: nat)
    requires raw >= 1 && fee + raw <= U64_MAX
    ensures Raise(fee, raw) == fee + raw
  {
  }

  /** For given gas used and limit, every fee rises by at most an eighth or one, if and
      only if the limit is even or the block is not full. */
  lemma RiseBoundIff(used: nat, gasLimit: nat)
    requires used <= gasLimit <= U64_MAX && Target(gasLimit, DEFAULT_PARAMS) > 0
    ensures (forall fee: nat :: fee <= U64_MAX ==>
        NextBaseFee(fee, used, gasLimit, DEFAULT_PARAMS) <= fee + EighthOrOne(fee))
      <==> gasLimit % 2 == 0 || used < gasLimit
  {
    if gasLimit % 2 == 0 || used < gasLimit {
      forall fee: nat | fee <= U64_MAX
        ensures NextBaseFee(fee, used, gasLimit, DEFAULT_PARAMS) <= fee + EighthOrOne(fee)
      {
        BaseFeeStep(fee, used, gasLimit);
      }
    } else {
      FullOddBlockRisesMore(gasLimit);
    }
  }

  /** More gas used never lowers the next fee. */
  lemma BaseFeeMonotone(fee: nat, less: nat, more: nat, gasLimit: nat)
    requires fee <= U64_MAX && less <= more <= gasLimit <= U64_MAX && Target(gasLimit, DEFAULT_PARAMS) > 0
    ensures NextBaseFee(fee, less, gasLimit, DEFAULT_PARAMS) <= NextBaseFee(fee, more, gasLimit, DEFAULT_PARAMS)
  {
    var target := Target(gasLimit, DEFAULT_PARAMS);
    if less > target {
      RaiseMonotone(fee, less - target, more - target, target);
    } else if more <= target {
      LowerMonotone(fee, target - more, target - less, target);
    } else {
      LowerMonotone(fee, target - less, target - less, target);
      RaiseMonotone(fee, more - target, more - target, target);
    }
  }

  lemma RaiseMonotone(fee: nat, near: nat, far: nat, target: nat)
    requires fee <= U64_MAX && near <= far <= 2 * target && target > 0 && far <= U64_MAX
    ensures fee <= Raise(fee, RawDelta(fee, near, target, DEFAULT_PARAMS)) <= Raise(fee, RawDelta(fee, far, target, DEFAULT_PARAMS))
  {
    RawDeltaBounds(fee, near, far, 2, target);
    ShiftBounds(fee, RawDelta(fee, near, target, DEFAULT_PARAMS), RawDelta(fee, far, target, DEFAULT_PARAMS));
  }

  lemma LowerMonotone(fee: nat, near: nat, far: nat, target: nat)
    requires fee <= U64_MAX && near <= far <= target <= U64_MAX && target > 0
    ensures Lower(fee, RawDelta(fee, far, target, DEFAULT_PARAMS)) <= Lower(fee, RawDelta(fee, near, target, DEFAULT_PARAMS)) <= fee
  {
    RawDeltaBounds(fee, near, far, 1, target);
    ShiftBounds(fee, RawDelta(fee, near, target, DEFAULT_PARAMS), RawDelta(fee, far, target, DEFAULT_PARAMS));
  }

  // ----- headers -----

  datatype Header = Header(
    number: nat, hash: nat, parentHash: nat, timestamp: nat, gasLimit: nat, gasUsed: nat, baseFee: Option<nat>)

  const MIN_GAS_LIMIT: nat := 5_000
  const MAX_DELTA_DIVISOR: nat := 1_024

  datatype HeaderError = NotSequential | WrongParent | TimeBackwards | LimitTooLow | LimitTooHigh
    | LimitJump | MissingBaseFee | WrongBaseFee

  function AbsDiff(a: nat, b: nat): (r: nat) { if a < b then b - a else a - b }

  /** `validate_header_against_parent` with the default configuration. */
  function ValidateAgainstParent(h: Header, parent: Header): (r: Result<(), HeaderError>)
    requires parent.gasLimit >= 2 || parent.gasUsed == 0
  {
    if h.number != parent.number + 1 then Err(NotSequential)
    else if h.parentHash != parent.hash then Err(WrongParent)
    else if h.timestamp < parent.timestamp then Err(TimeBackwards)
    else if h.gasLimit < MIN_GAS_LIMIT then Err(LimitTooLow)
    else if h.gasLimit > U64_MAX then Err(LimitTooHigh)
    else if AbsDiff(h.gasLimit, parent.gasLimit) >= parent.gasLimit / MAX_DELTA_DIVISOR then Err(LimitJump)
    else if parent.baseFee.None? then Ok(())
    else if h.baseFee.None? then Err(MissingBaseFee)
    else if h.baseFee.value != NextBaseFee(parent.baseFee.value, parent.gasUsed, parent.gasLimit, DEFAULT_PARAMS) then Err(WrongBaseFee)
    else Ok(())
  }

  /** A header chain in which every block passes the checks against its parent and uses
      no more gas than its limit. */
  predicate ValidChain(hs: seq<Header>) {
    && (forall h <- hs :: h.gasUsed <= h.gasLimit && MIN_GAS_LIMIT <= h.gasLimit <= U64_MAX)
    && (forall i: nat :: i + 1 < |hs| ==> ValidateAgainstParent(hs[i + 1], hs[i]).Ok?)
  }

  function Eighths(fee: nat, n: nat): (r: nat) {
    if n == 0 then fee else Eighths(fee, n - 1) - Eighths(fee, n - 1) / 8
  }

  /** Along any valid header chain that starts with a positive 64-bit base fee, every
      block has one, and after `n` blocks it has fallen no further than `n` steps of one
      eighth. */
  lemma {:induction false} BaseFeeAlongChain(hs: seq<Header>, n: nat)
    requires ValidChain(hs) && n < |hs|
    requires hs[0].baseFee.Some? && 0 < hs[0].baseFee.value <= U64_MAX
    ensures hs[n].baseFee.Some? && 0 < hs[n].baseFee.value <= U64_MAX
    ensures hs[n].baseFee.value >= Eighths(hs[0].baseFee.value, n)
    ensures hs[n].number == hs[0].number + n && hs[n].timestamp >= hs[0].timestamp
  {
    if n > 0 {
      BaseFeeAlongChain(hs, n - 1);
      var parent := hs[n - 1];
      assert ValidateAgainstParent(hs[n - 1 + 1], parent).Ok?;
      BaseFeeStep(parent.baseFee.value, parent.gasUsed, parent.gasLimit);
      EighthMono(Eighths(hs[0].baseFee.value, n - 1), parent.baseFee.value);
    }
  }

  lemma EighthMono(a: nat, b: nat)
    requires a <= b
    ensures a - a / 8 <= b - b / 8
  {
  }
}
