/** Block rewards, in machine integers. Every
    intermediate value is bound to a bounded type, so a step that could leave it
    would not verify. */
module BlockRewards {
  import opened Wrappers

  const U64_MAX: int := 0xFFFF_FFFF_FFFF_FFFF
  const U128_MAX: int := 0xFFFF_FFFF_FFFF_FFFF_FFFF_FFFF_FFFF_FFFF

  type U32 = x: int | 0 <= x <= 0xFFFF_FFFF
  type U64 = x: int | 0 <= x <= 0xFFFF_FFFF_FFFF_FFFF
  type U128 = x: int | 0 <= x <= 0xFFFF_FFFF_FFFF_FFFF_FFFF_FFFF_FFFF_FFFF
  type PositiveU32 = x: int | 1 <= x <= 0xFFFF_FFFF witness 1
  type PositiveU64 = x: int | 1 <= x <= 0xFFFF_FFFF_FFFF_FFFF witness 1

  function SaturatingAdd(a: U128, b: U128): U128
  {
    if a + b <= U128_MAX then a + b else U128_MAX
  }

  function SaturatingSub(a: U128, b: U128): U128
  {
    if a >= b then a - b else 0
  }

  function SaturatingMul(a: U128, b: U128): U128
  {
    if a * b <= U128_MAX then assert a * b >= 0; a * b else U128_MAX
  }

  function CheckedMul(a: U128, b: U128): Option<U128>
  {
    if a * b <= U128_MAX then assert a * b >= 0; Some(a * b) else None
  }

  function Min(a: int, b: int): int
  {
    if a <= b then a else b
  }

  function Max(a: int, b: int): int
  {
    if a <= b then b else a
  }

  // ---------------------------------------------------------------------------
  // Configuration

  datatype Ratio = Ratio(numerator: U32, denominator: PositiveU32)

  /** A fraction strictly between 0 and 1. */
  predicate IsProper(f: Ratio)
  {
    0 < f.numerator < f.denominator
  }

  datatype Config = Config(stakeTarget: U64, scale: PositiveU64, feeAverageNumerator: U64, maxEmission: Ratio,
                           blendShare: Ratio)

  /** What a constructed configuration satisfies. */
  predicate ValidConfig(c: Config)
  {
    IsProper(c.blendShare) && c.maxEmission.denominator * c.scale * c.blendShare.denominator <= U128_MAX / U64_MAX
  }

  function New(stakeTarget: U64, scale: PositiveU64, feeAverageNumerator: U64, maxEmission: Ratio,
               blendShare: Ratio): (r: Option<Config>)
    requires IsProper(blendShare)
    ensures r.Some? <==> ValidConfig(Config(stakeTarget, scale, feeAverageNumerator, maxEmission, blendShare))
    ensures r.Some? ==> r.value == Config(stakeTarget, scale, feeAverageNumerator, maxEmission, blendShare)
  {
    var c := Config(stakeTarget, scale, feeAverageNumerator, maxEmission, blendShare);
    match CheckedMul(maxEmission.denominator, scale)
    case None =>
      AtLeast(maxEmission.denominator * scale, blendShare.denominator);
      None
    case Some(part) =>
      match CheckedMul(part, blendShare.denominator)
      case None => None
      case Some(bound) => if bound <= U128_MAX / U64_MAX then Some(c) else None
  }

  // ---------------------------------------------------------------------------
  // The reward over unbounded integers

  /** The emission's weight out of `scale`: the stake target plus the weighted fees,
      less the stake, clamped to the scale. */
  function Weight(c: Config, pooledFees: int, totalStake: int): int
  {
    Max(0, Min(c.stakeTarget + c.feeAverageNumerator * pooledFees - totalStake, c.scale))
  }

  /** The reward is this over the emission's denominator times the scale: the
      weighted mean of the full emission and the block's fee. */
  function RewardNumerator(c: Config, weight: int, blockFee: int): int
  {
    c.maxEmission.numerator * weight + c.maxEmission.denominator * (c.scale - weight) * blockFee
  }

  function RewardDenominator(c: Config): int
  {
    c.maxEmission.denominator * c.scale
  }

  /** The reward in whole units. */
  function Reward(c: Config, pooledFees: int, blockFee: int, totalStake: int): int
  {
    RewardNumerator(c, Weight(c, pooledFees, totalStake), blockFee) / Positive(c)
  }

  function Positive(c: Config): (d: int)
    ensures d == RewardDenominator(c) && d >= 1
  {
    AtLeast(c.maxEmission.denominator, c.scale);
    c.maxEmission.denominator * c.scale
  }

  // ---------------------------------------------------------------------------
  // The reward as computed

  /** A quotient known to be a `u64`. */
  function Share(numerator: U128, factor: U128, denominator: U128): U64
    requires 0 < denominator && 0 <= numerator * factor <= U128_MAX
    requires numerator * factor / denominator <= U64_MAX
  {
    var product: U128 := numerator * factor;
    QuotientNonNegative(product, denominator);
    product / denominator
  }

  /** To the Blend nodes, then to the leader. Each share is its exact part rounded
      down; together they are the whole reward or one less, and never more than the
      larger of the full emission and the fee. */
  function Rewards(c: Config, pooledFees: U128, blockFee: U64, totalStake: U64): (r: (U64, U64))
    requires ValidConfig(c)
    ensures
      var n, d := RewardNumerator(c, Weight(c, pooledFees, totalStake), blockFee), RewardDenominator(c);
      var share := c.blendShare;
      && r.0 * (d * share.denominator) <= n * share.numerator < (r.0 + 1) * (d * share.denominator)
      && r.1 * (d * share.denominator) <= n * (share.denominator - share.numerator)
      && n * (share.denominator - share.numerator) < (r.1 + 1) * (d * share.denominator)
    ensures var whole := Reward(c, pooledFees, blockFee, totalStake);
      r.0 + r.1 == whole || r.0 + r.1 == whole - 1
    ensures (r.0 + r.1) * c.maxEmission.denominator
         <= Max(c.maxEmission.numerator, c.maxEmission.denominator * blockFee)
  {
    var scale: U128 := c.scale;
    var weight: U128 := Min(
        SaturatingSub(SaturatingAdd(c.stakeTarget, SaturatingMul(c.feeAverageNumerator, pooledFees)), totalStake),
        scale);
    WeightIsExact(c, pooledFees, totalStake);
    NumeratorFits(c, weight, blockFee);
    var emitted: U128 := c.maxEmission.numerator * weight;
    var kept: U128 := c.maxEmission.denominator * (scale - weight);
    var pooled: U128 := kept * blockFee;
    var n: U128 := emitted + pooled;
    var b, sd := c.blendShare.numerator, c.blendShare.denominator;
    DenominatorFits(c);
    var denominator: U128 := SaturatingMul(SaturatingMul(c.maxEmission.denominator, scale), sd);
    ShareFits(c, n, b);
    ShareFits(c, n, sd - b);
    SharesAddUp(c, n, b);
    RewardBound(c, weight, blockFee);
    QuotientBounds(n * b, denominator);
    QuotientBounds(n * (sd - b), denominator);
    TotalBound(c, n, Share(n, b, denominator) + Share(n, sd - b, denominator), blockFee);
    (Share(n, b, denominator), Share(n, sd - b, denominator))
  }

  // ---------------------------------------------------------------------------
  // Arithmetic

  lemma AtLeast(x: int, y: int)
    requires x >= 0 && y >= 1
    ensures x * y >= x
  {
    assert x * y == x + x * (y - 1);
    assert x * (y - 1) >= 0;
  }

  lemma Monotone(x: int, y: int, z: int)
    requires x <= y && z >= 0
    ensures x * z <= y * z
  {
    assert (y - x) * z >= 0;
  }

  lemma QuotientNonNegative(x: int, d: int)
    requires x >= 0 && d > 0
    ensures x / d >= 0
  {
  }

  lemma QuotientBounds(x: int, d: int)
    requires x >= 0 && d > 0
    ensures 0 <= x / d && x / d * d <= x < (x / d + 1) * d
  {
    assert x == d * (x / d) + x % d;
    assert (x / d + 1) * d == x / d * d + d;
  }

  lemma QuotientIs(x: int, d: int, q: int)
    requires d > 0 && x >= 0 && q * d <= x < (q + 1) * d
    ensures x / d == q
  {
    QuotientBounds(x, d);
    if x / d < q {
      Monotone(x / d + 1, q, d);
    } else if x / d > q {
      Monotone(q + 1, x / d, d);
    }
  }

  lemma QuotientAtMost(x: int, d: int, m: int)
    requires x >= 0 && d > 0 && x < (m + 1) * d
    ensures x / d <= m
  {
    QuotientBounds(x, d);
    if x / d >= m + 1 {
      Monotone(m + 1, x / d, d);
    }
  }

  lemma Associates(x: int, y: int, z: int)
    ensures x * y * z == x * (y * z)
  {
  }

  /** A common factor cancels. */
  lemma QuotientCancels(x: int, d: int, k: int)
    requires x >= 0 && d > 0 && k > 0
    ensures d * k > 0 && x * k / (d * k) == x / d
  {
    AtLeast(d, k);
    AtLeast(x, k);
    QuotientBounds(x, d);
    var q := x / d;
    Monotone(q * d, x, k);
    Associates(q, d, k);
    Scaled(x, (q + 1) * d, k);
    Associates(q + 1, d, k);
    QuotientIs(x * k, d * k, q);
  }

  lemma Scaled(x: int, y: int, k: int)
    requires x < y && k > 0
    ensures x * k < y * k
  {
    Monotone(x + 1, y, k);
    assert (x + 1) * k == x * k + k;
  }

  /** Two floors add up to the floor of the sum, or one less. */
  lemma FloorsAddUp(x: int, y: int, d: int)
    requires x >= 0 && y >= 0 && d > 0
    ensures x / d + y / d == (x + y) / d || x / d + y / d == (x + y) / d - 1
  {
    QuotientBounds(x, d);
    QuotientBounds(y, d);
    var q := x / d + y / d;
    assert q * d == x / d * d + y / d * d;
    assert (q + 1) * d == q * d + d && (q + 2) * d == q * d + d + d;
    if x + y < (q + 1) * d {
      QuotientIs(x + y, d, q);
    } else {
      QuotientIs(x + y, d, q + 1);
    }
  }

  /** A weighted mean is at most the larger of the two. */
  lemma MeanBound(a: int, b: int, m: int, w: int, s: int)
    requires a <= m && b <= m && 0 <= w <= s
    ensures a * w + b * (s - w) <= m * s
  {
    Monotone(a, m, w);
    Monotone(b, m, s - w);
    assert m * w + m * (s - w) == m * s;
  }

  // ---------------------------------------------------------------------------
  // The saturating forms are exact

  lemma WeightIsExact(c: Config, pooledFees: U128, totalStake: U64)
    ensures Min(
              SaturatingSub(SaturatingAdd(c.stakeTarget, SaturatingMul(c.feeAverageNumerator, pooledFees)), totalStake),
              c.scale)
         == Weight(c, pooledFees, totalStake)
  {
    assert c.feeAverageNumerator * pooledFees >= 0;
  }

  lemma DenominatorFits(c: Config)
    requires ValidConfig(c)
    ensures var d, sd := RewardDenominator(c), c.blendShare.denominator;
      && 1 <= d <= U64_MAX && 1 <= d * sd <= U64_MAX + 2
      && SaturatingMul(SaturatingMul(c.maxEmission.denominator, c.scale), sd) == d * sd
  {
    var d, sd := Positive(c), c.blendShare.denominator;
    AtLeast(d, sd);
    assert d * sd <= U64_MAX + 2;
    Monotone(2, sd, d);
  }

  lemma Product(x: int, y: int)
    requires x >= 0 && y >= 0
    ensures x * y >= 0
  {
  }

  lemma Regroup(x: int, y: int, z: int)
    ensures x * y * z == x * z * y
  {
  }

  lemma Part(x: int, w: int, s: int)
    requires 0 <= x && 0 <= w <= s
    ensures 0 <= x * (s - w) <= x * s
  {
    Product(x, s - w);
    Product(x, w);
    assert x * (s - w) + x * w == x * s;
  }

  lemma NumeratorFits(c: Config, weight: int, blockFee: U64)
    requires ValidConfig(c) && 0 <= weight <= c.scale
    ensures 0 <= c.maxEmission.numerator * weight
    ensures 0 <= c.maxEmission.denominator * (c.scale - weight) <= RewardDenominator(c)
    ensures 0 <= c.maxEmission.denominator * (c.scale - weight) * blockFee
    ensures RewardNumerator(c, weight, blockFee) <= RewardDenominator(c) * U64_MAX <= U128_MAX
  {
    var ed := c.maxEmission.denominator;
    Product(c.maxEmission.numerator, weight);
    Part(ed, weight, c.scale);
    Product(ed * (c.scale - weight), blockFee);
    RewardBound(c, weight, blockFee);
    var m := Max(c.maxEmission.numerator, ed * blockFee);
    Monotone(blockFee, U64_MAX, ed);
    Monotone(m, ed * U64_MAX, c.scale);
    Regroup(ed, U64_MAX, c.scale);
    DenominatorFits(c);
    Monotone(RewardDenominator(c), U64_MAX, U64_MAX);
  }

  /** The widest product of the split. */
  lemma ShareFits(c: Config, n: int, factor: int)
    requires ValidConfig(c) && 0 <= n <= RewardDenominator(c) * U64_MAX
    requires 0 <= factor <= c.blendShare.denominator
    ensures 0 <= n * factor <= U128_MAX
    ensures 0 < RewardDenominator(c) * c.blendShare.denominator
    ensures n * factor / (RewardDenominator(c) * c.blendShare.denominator) <= U64_MAX
  {
    var d, sd := RewardDenominator(c), c.blendShare.denominator;
    DenominatorFits(c);
    assert n * factor >= 0;
    Monotone(factor, sd, n);
    Monotone(n, d * U64_MAX, sd);
    assert d * U64_MAX * sd == d * sd * U64_MAX;
    Monotone(d * sd, U64_MAX + 2, U64_MAX);
    assert (U64_MAX + 1) * (d * sd) == U64_MAX * (d * sd) + d * sd;
    QuotientAtMost(n * factor, d * sd, U64_MAX);
  }

  lemma SharesAddUp(c: Config, n: int, b: int)
    requires ValidConfig(c) && 0 <= n && 0 <= b <= c.blendShare.denominator
    ensures var d, sd := RewardDenominator(c), c.blendShare.denominator;
      && d > 0 && d * sd > 0
      && var whole := n * b / (d * sd) + n * (sd - b) / (d * sd); whole == n / d || whole == n / d - 1
  {
    var d, sd := Positive(c), c.blendShare.denominator;
    QuotientCancels(n, d, sd);
    Distributes(n, b, sd);
    var x, y, k := n * b, n * (sd - b), d * sd;
    FloorsAddUp(x, y, k);
  }

  lemma Distributes(n: int, b: int, sd: int)
    requires 0 <= n && 0 <= b <= sd
    ensures n * b >= 0 && n * (sd - b) >= 0 && n * b + n * (sd - b) == n * sd
  {
  }

  lemma RewardBound(c: Config, weight: int, blockFee: U64)
    requires 0 <= weight <= c.scale
    ensures RewardNumerator(c, weight, blockFee)
         <= Max(c.maxEmission.numerator, c.maxEmission.denominator * blockFee) * c.scale
  {
    var ed, scale := c.maxEmission.denominator, c.scale;
    MeanBound(c.maxEmission.numerator, ed * blockFee, Max(c.maxEmission.numerator, ed * blockFee), weight, scale);
    Regroup(ed, scale - weight, blockFee);
  }

  lemma TotalBound(c: Config, n: int, total: int, blockFee: U64)
    requires 0 <= n <= Max(c.maxEmission.numerator, c.maxEmission.denominator * blockFee) * c.scale
    requires total <= n / Positive(c)
    ensures total * c.maxEmission.denominator <= Max(c.maxEmission.numerator, c.maxEmission.denominator * blockFee)
  {
    var d, ed := Positive(c), c.maxEmission.denominator;
    var m := Max(c.maxEmission.numerator, c.maxEmission.denominator * blockFee);
    QuotientBounds(n, d);
    Monotone(total, n / d, d);
    assert total * d == total * ed * c.scale;
    assert (m + 1) * c.scale == m * c.scale + c.scale;
    if total * ed > m {
      Monotone(m + 1, total * ed, c.scale);
    }
  }
}
