/** The proof-of-work reward: its configuration, the share of fees that funds it, and
    the controller that retargets its difficulty after every block. */
module RewardDifficulty {
  import opened Wrappers
  import opened BlockRewards

  /** `cap` is the target that the configured minimum difficulty stands for, which is
      also the genesis target. */
  datatype PowConfig = PowConfig(cap: nat, factor: U64, precision: PositiveU64, targetClaims: U64,
                                 rateDenominator: PositiveU64, claimsPerBlock: PositiveU64,
                                 powShare: U64, shareDenominator: PositiveU64)

  datatype PowConfigError =
    | FactorNotBelowPrecision | ClaimRateScaleOverflow | ShareExceedsDenominator | CapNotAboveFloor

  // ---------------------------------------------------------------------------
  // Configuration

  /** A smoothing step can still raise the target `f`. */
  predicate CanRise(c: PowConfig, f: int)
  {
    c.factor <= f * (c.precision - c.factor)
  }

  /** The floor is the least positive target that the smoothing can still raise. */
  function RewardTargetFloor(c: PowConfig): (r: Result<PositiveU64, PowConfigError>)
    ensures r.Ok? <==> c.factor < c.precision
    ensures r.Ok? ==> CanRise(c, r.value)
    ensures r.Ok? ==> forall f :: 1 <= f < r.value ==> !CanRise(c, f)
  {
    if c.factor >= c.precision then Err(FactorNotBelowPrecision)
    else
      CeilingIsLeast(c);
      Ok(Max(Ceiling(c.factor, c.precision - c.factor), 1))
  }

  function Ceiling(x: int, d: int): int
    requires d >= 1
  {
    x / d + (if x % d == 0 then 0 else 1)
  }

  lemma CeilingIsLeast(c: PowConfig)
    requires c.factor < c.precision
    ensures var f := Ceiling(c.factor, c.precision - c.factor); 0 <= f <= c.factor && CanRise(c, Max(f, 1))
    ensures forall f :: 1 <= f < Ceiling(c.factor, c.precision - c.factor) ==> !CanRise(c, f)
  {
    var x, d := c.factor, c.precision - c.factor;
    QuotientBounds(x, d);
    if x < Ceiling(x, d) {
      BelowCeiling(x, d, x);
      AtLeast(x, d);
    }
    forall f | 1 <= f < Ceiling(x, d)
      ensures !CanRise(c, f)
    {
      BelowCeiling(x, d, f);
    }
  }

  lemma BelowCeiling(x: int, d: int, f: int)
    requires x >= 0 && d >= 1 && f < Ceiling(x, d)
    ensures f * d < x
  {
    QuotientBounds(x, d);
    var q := x / d;
    assert x == q * d + x % d;
    if x % d == 0 {
      Monotone(f, q - 1, d);
      assert (q - 1) * d == q * d - d;
    } else {
      Monotone(f, q, d);
    }
  }

  function Validate(c: PowConfig): Option<PowConfigError>
  {
    if c.factor >= c.precision then Some(FactorNotBelowPrecision)
    else if c.powShare > c.shareDenominator then Some(ShareExceedsDenominator)
    else if c.cap <= RewardTargetFloor(c).value then Some(CapNotAboveFloor)
    else if c.rateDenominator * c.claimsPerBlock > U64_MAX then Some(ClaimRateScaleOverflow)
    else None
  }

  /** The diverted share, rounded down, is at most the fees. */
  function PowFeeShare(c: PowConfig, fees: U64): (r: U64)
    requires c.powShare <= c.shareDenominator
    ensures r <= fees
    ensures r * c.shareDenominator <= fees * c.powShare < (r + 1) * c.shareDenominator
  {
    Monotone(c.powShare, c.shareDenominator, fees);
    Monotone(c.shareDenominator, U64_MAX, fees);
    Monotone(fees, U64_MAX, U64_MAX);
    assert fees * c.powShare >= 0;
    var product: U128 := fees * c.powShare;
    QuotientBounds(product, c.shareDenominator);
    assert (fees + 1) * c.shareDenominator == fees * c.shareDenominator + c.shareDenominator;
    QuotientAtMost(product, c.shareDenominator, fees);
    product / c.shareDenominator
  }

  // ---------------------------------------------------------------------------
  // The controller

  /** The smoothed demand, `q = factor / precision`, in units of one over the current
      target times the precision. */
  function Demand(c: PowConfig, claims: U64): (d: int)
    requires c.factor < c.precision
    ensures d >= 1
  {
    Max((c.precision - c.factor) * claims + c.factor * c.targetClaims, 1)
  }

  /** `compute_new_reward_difficulty`. */
  function Retarget(c: PowConfig, claims: U64, current: nat): nat
    requires c.factor < c.precision
  {
    Product(c.targetClaims, current * c.precision);
    QuotientNonNegative(c.targetClaims * (current * c.precision), Demand(c, claims));
    Min(Max(c.targetClaims * (current * c.precision) / Demand(c, claims), RewardTargetFloor(c).value), c.cap)
  }

  predicate InRange(c: PowConfig, target: nat)
    requires c.factor < c.precision
  {
    RewardTargetFloor(c).value <= target <= c.cap
  }

  lemma QuotientAtLeast(x: int, d: int, m: int)
    requires x >= 0 && d > 0 && m * d <= x
    ensures x / d >= m
  {
    QuotientBounds(x, d);
    if x / d + 1 <= m {
      Monotone(x / d + 1, m, d);
    }
  }

  lemma DemandAtTarget(c: PowConfig, claims: U64)
    requires c.factor < c.precision && c.targetClaims > 0
    ensures c.precision * c.targetClaims >= 1
    ensures claims <= c.targetClaims ==> Demand(c, claims) <= c.precision * c.targetClaims
    ensures claims >= c.targetClaims ==> Demand(c, claims) >= c.precision * c.targetClaims
  {
    var w, t := c.precision - c.factor, c.targetClaims;
    AtLeast(c.precision, t);
    assert w * t + c.factor * t == c.precision * t;
    if claims <= t {
      Monotone(claims, t, w);
    } else {
      Monotone(t, claims, w);
    }
  }

  /** The step before clamping: it eases with at most the target number of claims and
      hardens with at least that many. */
  lemma StepDirection(c: PowConfig, claims: U64, current: nat)
    requires c.factor < c.precision && c.targetClaims > 0
    ensures claims <= c.targetClaims ==> c.targetClaims * (current * c.precision) / Demand(c, claims) >= current
    ensures claims >= c.targetClaims ==> c.targetClaims * (current * c.precision) / Demand(c, claims) <= current
  {
    var d, whole := Demand(c, claims), c.precision * c.targetClaims;
    var x := c.targetClaims * (current * c.precision);
    assert x == current * whole;
    DemandAtTarget(c, claims);
    Product(current, whole);
    if claims <= c.targetClaims {
      Monotone(d, whole, current);
      QuotientAtLeast(x, d, current);
    }
    if claims >= c.targetClaims {
      Monotone(whole, d, current);
      assert (current + 1) * d == current * d + d;
      QuotientAtMost(x, d, current);
    }
  }

  /** Without a claim target the step leads to zero. */
  lemma StepWithoutTarget(c: PowConfig, claims: U64, current: nat)
    requires c.factor < c.precision && c.targetClaims == 0
    ensures c.targetClaims * (current * c.precision) / Demand(c, claims) == 0
  {
    QuotientIs(0, Demand(c, claims), 0);
  }

  /** What an accepted configuration gives the controller: from any target and any
      number of claims it stays in range; with at most the target number of claims it
      does not harden, with at least that many it does not ease. */
  lemma {:induction false} RetargetStaysInRange(c: PowConfig, claims: U64, current: nat)
    requires Validate(c).None?
    ensures InRange(c, Retarget(c, claims, current))
    ensures InRange(c, current) && 0 < c.targetClaims && claims <= c.targetClaims ==>
      Retarget(c, claims, current) >= current
    ensures InRange(c, current) && claims >= c.targetClaims ==> Retarget(c, claims, current) <= current
  {
    if c.targetClaims > 0 {
      StepDirection(c, claims, current);
    } else {
      StepWithoutTarget(c, claims, current);
    }
  }

  /** The weight of this block's claims and of the claim target in the estimate, at
      least one. */
  function Estimate(c: PowConfig, claims: U64): int
  {
    var d := (c.precision - c.factor) * claims + c.factor * c.targetClaims;
    if d == 0 then 1 else d
  }

  /** The new target is the quotient of the claim target by the smoothed demand, rounded
      down: exactly between the floor and the cap, and from one side at each of them. */
  lemma {:induction false} RetargetIsTheQuotient(c: PowConfig, claims: U64, current: nat)
    requires Validate(c).None?
    ensures Estimate(c, claims) >= 1
    ensures var r, d, x := Retarget(c, claims, current), Estimate(c, claims), c.targetClaims * current * c.precision;
      && (RewardTargetFloor(c).value < r ==> r * d <= x)
      && (r < c.cap ==> x < (r + 1) * d)
  {
    Product(c.precision - c.factor, claims);
    Product(c.factor, c.targetClaims);
    assert Demand(c, claims) == Estimate(c, claims);
    var d, x, floor := Estimate(c, claims), c.targetClaims * (current * c.precision), RewardTargetFloor(c).value;
    Associates(c.targetClaims, current, c.precision);
    Product(c.targetClaims, current * c.precision);
    QuotientBounds(x, d);
    var q, r := x / d, Retarget(c, claims, current);
    assert floor < r ==> r <= q;
    assert r < c.cap ==> q <= r;
    if r <= q {
      Monotone(r, q, d);
    }
    if q <= r {
      Monotone(q + 1, r + 1, d);
    }
  }

  /** More claims never ease the target. */
  lemma {:induction false} MoreClaimsHarden(c: PowConfig, fewer: U64, more: U64, current: nat)
    requires c.factor < c.precision && fewer <= more
    ensures Retarget(c, more, current) <= Retarget(c, fewer, current)
  {
    var x, d, d' := c.targetClaims * (current * c.precision), Demand(c, fewer), Demand(c, more);
    Product(c.targetClaims, current * c.precision);
    Monotone(fewer, more, c.precision - c.factor);
    QuotientBounds(x, d');
    Monotone(d, d', x / d');
    QuotientAtLeast(x, d, x / d');
  }

  /** The target number of claims leaves every target in range alone, exactly when
      the configuration sets one. */
  lemma {:induction false} OnTargetIsFixedExactlyWhenTargetIsSet(c: PowConfig)
    requires Validate(c).None?
    ensures c.targetClaims > 0 <==>
      forall current: nat :: InRange(c, current) ==> Retarget(c, c.targetClaims, current) == current
  {
    if c.targetClaims > 0 {
      forall current: nat | InRange(c, current) ensures Retarget(c, c.targetClaims, current) == current {
        RetargetStaysInRange(c, c.targetClaims, current);
      }
    } else {
      StepWithoutTarget(c, 0, c.cap);
      assert InRange(c, c.cap);
    }
  }

  /** The cap check is what lets the target move, together with a claim target that
      the check does not ask for. */
  lemma {:induction false} TargetMovesExactlyWhen(c: PowConfig)
    requires c.factor < c.precision
    ensures (exists n: U64, m: U64, x: nat, y: nat :: Retarget(c, n, x) != Retarget(c, m, y))
       <==> c.cap > RewardTargetFloor(c).value && c.targetClaims > 0
  {
    var floor := RewardTargetFloor(c).value;
    if c.cap > floor && c.targetClaims > 0 {
      StepDirection(c, c.targetClaims, c.cap);
      StepDirection(c, c.targetClaims, floor);
      assert Retarget(c, c.targetClaims, c.cap) != Retarget(c, c.targetClaims, floor);
    } else {
      forall n: U64, x: nat ensures Retarget(c, n, x) == Min(floor, c.cap) {
        if c.targetClaims == 0 {
          StepWithoutTarget(c, n, x);
        }
      }
    }
  }

  lemma CancelFactor(x: int, y: int, t: int)
    requires t > 0 && x * t <= y * t
    ensures x <= y
  {
    assert (y + 1) * t == y * t + t;
    if y + 1 <= x {
      Monotone(y + 1, x, t);
    }
  }

  /** A quotient by a demand of at least `f * t` is at most the value over `f`. */
  lemma QuotientBelow(t: int, y: int, d: int, f: int)
    requires t > 0 && y >= 0 && f > 0 && d >= f * t && d > 0
    ensures t * y / d * f <= y
  {
    Product(t, y);
    QuotientBounds(t * y, d);
    var q := t * y / d;
    Monotone(f * t, d, q);
    Associates(q, f, t);
    CancelFactor(q * f, y, t);
  }

  /** The share of the fees over unbounded integers. */
  function RawShare(c: PowConfig, fees: int): int
  {
    fees * c.powShare / c.shareDenominator
  }

  /** What validation protects. Each error names something that goes wrong: no floor, a
      share above the fees, a target that cannot move, a payout scale that does not fit;
      an accepted configuration has none of them. */
  lemma {:induction false} ValidationProtects(c: PowConfig)
    ensures Validate(c) == Some(FactorNotBelowPrecision) <==> RewardTargetFloor(c).Err?
    ensures Validate(c) == Some(ShareExceedsDenominator) ==> exists fees: U64 :: RawShare(c, fees) > fees
    ensures Validate(c) == Some(CapNotAboveFloor) ==>
      c.factor < c.precision && forall n: U64, m: U64, x: nat, y: nat :: Retarget(c, n, x) == Retarget(c, m, y)
    ensures Validate(c) == Some(ClaimRateScaleOverflow) ==> c.rateDenominator * c.claimsPerBlock > U64_MAX
    ensures Validate(c).None? ==>
      && c.factor < c.precision && 1 <= c.rateDenominator * c.claimsPerBlock <= U64_MAX
      && (forall fees: U64 :: RawShare(c, fees) <= fees)
      && (c.targetClaims > 0 ==> exists n: U64, m: U64, x: nat, y: nat :: Retarget(c, n, x) != Retarget(c, m, y))
  {
    AtLeast(c.rateDenominator, c.claimsPerBlock);
    if Validate(c) == Some(ShareExceedsDenominator) {
      WholeShare(c);
    }
    if c.factor < c.precision {
      TargetMovesExactlyWhen(c);
    }
    if Validate(c).None? {
      forall fees: U64 ensures RawShare(c, fees) <= fees {
        var r := PowFeeShare(c, fees);
        Monotone(c.powShare, c.shareDenominator, fees);
        Product(fees, c.powShare);
        assert (fees + 1) * c.shareDenominator == fees * c.shareDenominator + c.shareDenominator;
        QuotientAtMost(fees * c.powShare, c.shareDenominator, fees);
      }
    }
  }

  /** With fees equal to the denominator the share is the numerator. */
  lemma WholeShare(c: PowConfig)
    ensures RawShare(c, c.shareDenominator) == c.powShare
  {
    var d: int, p: int := c.shareDenominator, c.powShare;
    assert (p + 1) * d == d * p + d;
    Product(d, p);
    QuotientIs(d * p, d, p);
  }

  /** One step never eases the target by more than the smoothing allows. */
  lemma {:induction false} EasingIsBounded(c: PowConfig, claims: U64, current: nat)
    requires Validate(c).None? && InRange(c, current)
    ensures c.factor > 0 ==> Retarget(c, claims, current) * c.factor <= current * c.precision
  {
    var f: int, t: int, floor: int := c.factor, c.targetClaims, RewardTargetFloor(c).value;
    Monotone(floor, current, f);
    Monotone(f, c.precision, current);
    if t == 0 {
      StepWithoutTarget(c, claims, current);
    } else if f > 0 {
      Product(c.precision - f, claims);
      var y, d := current * c.precision, Demand(c, claims);
      QuotientBelow(t, y, d, f);
      Monotone(Retarget(c, claims, current), Max(t * y / d, floor), f);
    }
  }

  // ---------------------------------------------------------------------------
  // Blocks without claims

  /** The smoothing can act on empty blocks: there is a claim target, and the step is
      not the identity, which it is only without smoothing and with both the target
      and the precision at one. */
  predicate Eases(c: PowConfig)
  {
    c.targetClaims > 0 && (c.factor > 0 || c.targetClaims * c.precision >= 2)
  }

  /** The target after `n` blocks without claims. */
  function After(c: PowConfig, current: nat, n: nat): nat
    requires c.factor < c.precision
  {
    if n == 0 then current else Retarget(c, 0, After(c, current, n - 1))
  }

  /** A target that can rise does, by the smoothing alone. */
  lemma SmoothingRaises(current: int, f: int, p: int, t: int)
    requires 0 < f < p && t > 0 && f <= current * (p - f)
    ensures (current + 1) * (f * t) <= t * (current * p)
  {
    assert (current + 1) * f == current * f + f;
    assert current * p == current * f + current * (p - f);
    Monotone((current + 1) * f, current * p, t);
    Associates(current + 1, f, t);
  }

  lemma EmptyBlockEases(c: PowConfig, current: nat)
    requires Validate(c).None? && Eases(c) && InRange(c, current) && current < c.cap
    ensures Retarget(c, 0, current) > current
  {
    var f: int, t: int, p: int := c.factor, c.targetClaims, c.precision;
    Product(t, current * p);
    if f > 0 {
      Monotone(RewardTargetFloor(c).value, current, p - f);
      SmoothingRaises(current, f, p, t);
      AtLeast(f, t);
      assert Demand(c, 0) == f * t;
    } else {
      ScalingRaises(current, t, p);
      assert Demand(c, 0) == 1;
    }
    QuotientAtLeast(t * (current * p), Demand(c, 0), current + 1);
  }

  lemma ScalingRaises(current: int, t: int, p: int)
    requires current >= 1 && t * p >= 2
    ensures t * (current * p) >= current + 1
  {
    assert t * (current * p) == t * p * current;
    Monotone(2, t * p, current);
  }

  lemma EmptyBlockKeeps(c: PowConfig)
    requires Validate(c).None? && !Eases(c)
    ensures Retarget(c, 0, RewardTargetFloor(c).value) == RewardTargetFloor(c).value
  {
    var floor := RewardTargetFloor(c).value;
    if c.targetClaims == 0 {
      StepWithoutTarget(c, 0, floor);
    } else {
      AtLeast(c.targetClaims, c.precision);
      AtLeast(c.precision, c.targetClaims);
      assert c.targetClaims == 1 && c.precision == 1;
    }
  }

  lemma {:induction false} DroughtEasesToCap(c: PowConfig, current: nat, n: nat)
    requires Validate(c).None? && Eases(c) && InRange(c, current)
    ensures InRange(c, After(c, current, n)) && After(c, current, n) >= Min(current + n, c.cap)
  {
    if n > 0 {
      DroughtEasesToCap(c, current, n - 1);
      var previous := After(c, current, n - 1);
      RetargetStaysInRange(c, 0, previous);
      if previous < c.cap {
        EmptyBlockEases(c, previous);
      }
    }
  }

  lemma {:induction false} StuckAtFloor(c: PowConfig, n: nat)
    requires Validate(c).None? && !Eases(c)
    ensures After(c, RewardTargetFloor(c).value, n) == RewardTargetFloor(c).value
  {
    if n > 0 {
      StuckAtFloor(c, n - 1);
      EmptyBlockKeeps(c);
    }
  }

  ghost predicate Recovers(c: PowConfig, current: nat)
    requires c.factor < c.precision
  {
    exists n: nat :: After(c, current, n) == c.cap
  }

  /** The floor is meant to keep the target from values it cannot recover from: every
      target in range eases back to the genesis target once claims stay away, exactly
      for the configurations that ease. */
  lemma {:induction false} TargetRecoversExactlyWhenItEases(c: PowConfig)
    requires Validate(c).None?
    ensures Eases(c) <==> forall current: nat :: InRange(c, current) ==> Recovers(c, current)
  {
    var floor := RewardTargetFloor(c).value;
    if Eases(c) {
      forall current: nat | InRange(c, current) ensures Recovers(c, current) {
        DroughtEasesToCap(c, current, c.cap);
        assert After(c, current, c.cap) == c.cap;
      }
    } else {
      forall n: nat ensures After(c, floor, n) == floor {
        StuckAtFloor(c, n);
      }
      assert InRange(c, floor) && !Recovers(c, floor);
    }
  }

  /** Accepted configurations that never recover, whatever the cap: no claim target, or no
      smoothing with the target and the precision at one. */
  lemma {:induction false} AcceptedTargetCanStayAtFloor(cap: nat, n: nat)
    requires cap > 9
    ensures var c := PowConfig(cap, 9, 10, 0, 1, 1, 0, 1); Validate(c).None? && After(c, 9, n) == 9
    ensures var c := PowConfig(cap, 0, 1, 1, 1, 1, 0, 1); Validate(c).None? && After(c, 1, n) == 1
  {
    var noTarget, noSmoothing := PowConfig(cap, 9, 10, 0, 1, 1, 0, 1), PowConfig(cap, 0, 1, 1, 1, 1, 0, 1);
    assert RewardTargetFloor(noTarget).value == 9 && RewardTargetFloor(noSmoothing).value == 1;
    StuckAtFloor(noTarget, n);
    StuckAtFloor(noSmoothing, n);
  }
}
