/** The linear-sum score: fixed-point arithmetic on 256-bit numbers with overflow compensation, reductions and clamps.

    The big numbers of the source are unbounded and signed and divide towards zero; a division by zero throws. */
module LinearSum {
  import opened Arithmetic
  import opened Common
  import HashRing

  const UINT256_MAX: nat := HashRing.RING_SIZE
  const UINT64_MAX: nat := 0xFFFF_FFFF_FFFF_FFFF
  const UINT40_MAX: nat := 0xFF_FFFF_FFFF
  const MAX_SAFE_INTEGER: int := 0x1F_FFFF_FFFF_FFFF
  const ONE_ETHER: nat := 1_000_000_000_000_000_000

  datatype Result<+T> = Ok(value: T) | DivisionByZero | Overflow

  datatype Params = Params(distanceScaleFactor: nat, stakeScaleFactor: nat, w1: nat, w2: nat)

  datatype Context = Context(maxNeighbourhoodDistance: nat, r2: nat, nodesNumber: nat, minStake: nat, maxStake: nat)

  /** Division towards zero. */
  function Div(a: int, b: int): int
    requires b != 0
  {
    if a >= 0 then (if b > 0 then a / b else -(a / -b)) else (if b > 0 then -(-a / b) else -a / -b)
  }

  // ----- Normalized distance -----

  function MaxMultiplier(distance: nat): nat
    requires distance >= 1
  {
    UINT256_MAX / distance
  }

  /** The scale factor that is used, and by how much the divisor is reduced in return. */
  function ScaledFactor(distance: nat, scaleFactor: nat): nat
    requires distance >= 1
  {
    if scaleFactor > MaxMultiplier(distance) then MaxMultiplier(distance) else scaleFactor
  }

  function Compensation(distance: nat, scaleFactor: nat): nat
    requires 1 <= distance <= UINT256_MAX
  {
    if scaleFactor > MaxMultiplier(distance) then
      MaxMultiplierPositive(distance);
      scaleFactor / MaxMultiplier(distance)
    else 1
  }

  lemma MaxMultiplierPositive(distance: nat)
    requires 1 <= distance <= UINT256_MAX
    ensures MaxMultiplier(distance) >= 1
  {
    DivAtLeast(UINT256_MAX, distance, 1);
  }

  lemma CompensationPositive(distance: nat, scaleFactor: nat)
    requires 1 <= distance <= UINT256_MAX
    ensures Compensation(distance, scaleFactor) >= 1
  {
    MaxMultiplierPositive(distance);
    if scaleFactor > MaxMultiplier(distance) {
      DivAtLeast(scaleFactor, MaxMultiplier(distance), 1);
    }
  }

  function Divisor(c: Context): nat
    requires c.nodesNumber >= 1
  {
    var ideal := (HashRing.RING_SIZE / c.nodesNumber) * ((c.r2 + 1) / 2);
    if c.maxNeighbourhoodDistance <= ideal then c.maxNeighbourhoodDistance else ideal
  }

  /** The quotient of the scaled distance and the adjusted divisor. */
  function NormalizedDistance(distance: nat, scaleFactor: nat, divisor: nat): Result<nat>
    requires distance <= UINT256_MAX
  {
    if distance == 0 then DivisionByZero
    else
      CompensationPositive(distance, scaleFactor);
      var adjustedDivisor := divisor / Compensation(distance, scaleFactor);
      if adjustedDivisor == 0 then DivisionByZero
      else Ok(distance * ScaledFactor(distance, scaleFactor) / adjustedDivisor)
  }

  /** The product that is divided never exceeds 256 bits. */
  lemma ScaledDistanceFits(distance: nat, scaleFactor: nat)
    requires 1 <= distance <= UINT256_MAX
    ensures distance * ScaledFactor(distance, scaleFactor) <= UINT256_MAX
  {
    var m := MaxMultiplier(distance);
    DivBounds(UINT256_MAX, distance);
    MulMono(ScaledFactor(distance, scaleFactor), m, distance);
  }

  /** A quotient of at least one loses less than half of its value by rounding down. */
  lemma HalfLost(a: nat, b: nat)
    requires 1 <= b <= a
    ensures (a / b) * b <= a < 2 * ((a / b) * b)
  {
    DivBounds(a, b);
    DivAtLeast(a, b, 1);
    MulMono(1, a / b, b);
  }

  /** Replacing both factors by their quotients changes the result by at most a factor of two either way. */
  lemma CompensatedQuotient(d: nat, sf: nat, mm: nat, div: nat)
    requires d >= 1 && 1 <= mm < sf && sf / mm <= div
    ensures sf / mm >= 1 && div / (sf / mm) >= 1
    ensures var n := d * mm / (div / (sf / mm));
      (d * sf) / (2 * div) <= n && n * div <= 2 * (d * sf)
  {
    var cf := sf / mm;
    DivAtLeast(sf, mm, 1);
    HalfLost(sf, mm);
    HalfLost(div, cf);
    var adj := div / cf;
    DivAtLeast(div, cf, 1);
    var n := d * mm / adj;
    DivBounds(d * mm, adj);
    QuotientBelow(d, sf, mm, cf, adj, div, n);
    QuotientAbove(d, sf, mm, cf, adj, div);
  }

  lemma QuotientBelow(d: nat, sf: nat, mm: nat, cf: nat, adj: nat, div: nat, n: nat)
    requires cf * mm <= sf && div < 2 * (adj * cf) && n * adj <= d * mm
    ensures n * div <= 2 * (d * sf)
  {
    MulMono(div, 2 * (adj * cf), n);
    assert n * (2 * (adj * cf)) == 2 * ((n * adj) * cf);
    MulMono(n * adj, d * mm, cf);
    assert (d * mm) * cf == (cf * mm) * d;
    MulMono(cf * mm, sf, d);
  }

  lemma CrossMultiplied(d: nat, sf: nat, mm: nat, cf: nat, adj: nat, div: nat, q: nat)
    requires d >= 1 && cf >= 1 && sf < 2 * (cf * mm) && adj * cf <= div && q * (2 * div) <= d * sf
    ensures q * adj < d * mm
  {
    MulStrict(sf, 2 * (cf * mm), d);
    assert (2 * (cf * mm)) * d == 2 * ((d * mm) * cf);
    assert q * (2 * div) == 2 * (q * div);
    MulMono(adj * cf, div, q);
    assert (adj * cf) * q == (q * adj) * cf;
    CancelFactor(q * adj, d * mm, cf);
  }

  lemma QuotientAbove(d: nat, sf: nat, mm: nat, cf: nat, adj: nat, div: nat)
    requires d >= 1 && cf >= 1 && adj >= 1 && div >= 1 && sf < 2 * (cf * mm) && adj * cf <= div
    ensures (d * sf) / (2 * div) <= d * mm / adj
  {
    var x, y := d * sf, d * mm;
    var q := x / (2 * div);
    DivAtLeast(x, 2 * div, q);
    CrossMultiplied(d, sf, mm, cf, adj, div, q);
    DivAtLeast(y, adj, q);
  }

  lemma LargerDivisor(x: nat, small: nat, large: nat)
    requires 1 <= small <= large
    ensures x / large <= x / small
  {
    DivAtLeast(x, large, x / large);
    FitsSmaller(x, small, large, x / large);
    DivAtLeast(x, small, x / large);
  }

  lemma FitsSmaller(x: nat, small: nat, large: nat, q: nat)
    requires small <= large && q * large <= x
    ensures q * small <= x
  {
    MulMono(small, large, q);
  }

  lemma PlainQuotient(x: nat, div: nat)
    requires div >= 1
    ensures x / (2 * div) <= x / div
    ensures (x / div) * div <= 2 * x
  {
    LargerDivisor(x, div, 2 * div);
    DivBounds(x, div);
  }

  /** When the normalized distance is defined, and which quotient it is then. */
  lemma NormalizedDistanceIs(distance: nat, scaleFactor: nat, divisor: nat)
    requires distance <= UINT256_MAX
    ensures NormalizedDistance(distance, scaleFactor, divisor).Ok? <==>
      distance >= 1 && divisor >= Compensation(distance, scaleFactor)
    ensures NormalizedDistance(distance, scaleFactor, divisor).Ok? ==>
      var cf := Compensation(distance, scaleFactor);
      && cf >= 1 && divisor / cf >= 1
      && NormalizedDistance(distance, scaleFactor, divisor).value
        == distance * ScaledFactor(distance, scaleFactor) / (divisor / cf)
  {
    if distance >= 1 {
      CompensationPositive(distance, scaleFactor);
      DivAtLeast(divisor, Compensation(distance, scaleFactor), 1);
      hide Compensation, ScaledFactor;
    }
  }

  /** The normalized distance is exact without compensation, and within a factor of two with it; it is defined exactly
      for positive distances whose divisor reaches the compensation. */
  lemma NormalizedDistanceAccuracy(distance: nat, scaleFactor: nat, divisor: nat)
    requires distance <= UINT256_MAX
    ensures NormalizedDistance(distance, scaleFactor, divisor).Ok? <==>
      distance >= 1 && divisor >= Compensation(distance, scaleFactor)
    ensures NormalizedDistance(distance, scaleFactor, divisor).Ok? ==>
      var n := NormalizedDistance(distance, scaleFactor, divisor).value;
      && divisor >= 1
      && (distance * scaleFactor) / (2 * divisor) <= n && n * divisor <= 2 * (distance * scaleFactor)
      && (Compensation(distance, scaleFactor) == 1 && scaleFactor <= MaxMultiplier(distance) ==>
            n == distance * scaleFactor / divisor)
  {
    NormalizedDistanceIs(distance, scaleFactor, divisor);
    hide NormalizedDistance;
    if distance >= 1 && divisor >= Compensation(distance, scaleFactor) {
      var mm := MaxMultiplier(distance);
      MaxMultiplierPositive(distance);
      hide MaxMultiplier;
      if scaleFactor > mm {
        CompensatedQuotient(distance, scaleFactor, mm, divisor);
      } else {
        PlainQuotient(distance * scaleFactor, divisor);
        assert divisor / 1 == divisor;
      }
    }
  }

  /** What compensation takes from the scale factor, and what it takes from the divisor. */
  function FactorLoss(distance: nat, scaleFactor: nat): nat
    requires distance >= 1
  {
    if scaleFactor > MaxMultiplier(distance) then MaxMultiplier(distance) else 0
  }

  function DivisorLoss(distance: nat, scaleFactor: nat): nat
    requires 1 <= distance <= UINT256_MAX
  {
    if scaleFactor > MaxMultiplier(distance) then Compensation(distance, scaleFactor) else 0
  }

  lemma BoundAbove(d: nat, sf: nat, mm: nat, cf: nat, div: nat, adj: nat, n: nat)
    requires cf * mm <= sf && div < adj * cf + cf && n * adj <= d * mm
    ensures n * (div - cf) <= d * sf
  {
    MulMono(div - cf, adj * cf, n);
    MulMono(n * adj, d * mm, cf);
    MulMono(cf * mm, sf, d);
    assert (adj * cf) * n == (n * adj) * cf;
    assert (d * mm) * cf == (cf * mm) * d;
  }

  lemma BoundBelow(d: nat, sf: nat, mm: nat, cf: nat, div: nat, adj: nat, n: nat)
    requires cf >= 1 && sf < cf * mm + mm && adj * cf <= div && d * mm < n * adj + adj
    ensures d * (sf - mm) < (n + 1) * div
  {
    MulMono(sf - mm, cf * mm, d);
    assert n * adj + adj == (n + 1) * adj;
    MulStrict(d * mm, (n + 1) * adj, cf);
    MulMono(adj * cf, div, n + 1);
    assert (cf * mm) * d == (d * mm) * cf;
    assert ((n + 1) * adj) * cf == (adj * cf) * (n + 1);
  }

  /** The normalized distance lies between the quotients with the reduced scale factor and with the reduced divisor: its
      relative error is at most the share of the losses, which is tiny for distances of the order of the ring. */
  lemma NormalizedDistanceBounds(distance: nat, scaleFactor: nat, divisor: nat)
    requires NormalizedDistanceIsDefined(distance, scaleFactor, divisor)
    ensures var n := NormalizedDistance(distance, scaleFactor, divisor).value;
      && n * (divisor - DivisorLoss(distance, scaleFactor)) <= distance * scaleFactor
      && distance * (scaleFactor - FactorLoss(distance, scaleFactor)) < (n + 1) * divisor
  {
    NormalizedDistanceAccuracy(distance, scaleFactor, divisor);
    var mm, cf := MaxMultiplier(distance), Compensation(distance, scaleFactor);
    CompensationPositive(distance, scaleFactor);
    var adj := divisor / cf;
    var x := distance * ScaledFactor(distance, scaleFactor);
    DivAtLeast(divisor, cf, 1);
    DivBounds(divisor, cf);
    DivBounds(x, adj);
    var n := NormalizedDistance(distance, scaleFactor, divisor).value;
    assert n == x / adj;
    if scaleFactor > mm {
      MaxMultiplierPositive(distance);
      DivBounds(scaleFactor, mm);
      hide MaxMultiplier, Compensation, NormalizedDistance;
      BoundAbove(distance, scaleFactor, mm, cf, divisor, adj, n);
      BoundBelow(distance, scaleFactor, mm, cf, divisor, adj, n);
    } else {
      assert adj == divisor;
      assert (n + 1) * adj == n * adj + adj;
    }
  }

  predicate NormalizedDistanceIsDefined(distance: nat, scaleFactor: nat, divisor: nat) {
    1 <= distance <= UINT256_MAX && NormalizedDistance(distance, scaleFactor, divisor).Ok?
  }

  // ----- The score -----

  function Reduced(x: int): int {
    if x > UINT64_MAX then x % (UINT64_MAX + 1) else x
  }

  function NormalizedStake(stake: nat, p: Params, c: Context): Result<int> {
    if c.maxStake - c.minStake == 0 then DivisionByZero
    else Ok(Div(p.stakeScaleFactor * (stake - c.minStake), c.maxStake - c.minStake))
  }

  /** The three branches at the end of `linearSum`, before the conversion to 40 bits. */
  function FinalScore(p: Params, nd: nat, ns: int): int {
    var stakeScore := ns * p.w2;
    if ONE_ETHER >= nd then (ONE_ETHER - nd) * p.w1 + stakeScore
    else
      var proximityScore := (nd - ONE_ETHER) * p.w1;
      if stakeScore >= proximityScore then stakeScore - proximityScore else 0
  }

  function ToUint40(value: int, maxValue: nat): Result<int> {
    if maxValue == 0 then DivisionByZero else Ok(Div(value * UINT40_MAX, maxValue))
  }

  function LinearSum(p: Params, c: Context, distance: nat, stake: nat): Result<int>
    requires distance <= UINT256_MAX
  {
    if c.nodesNumber == 0 then DivisionByZero
    else
      match NormalizedDistance(distance, p.distanceScaleFactor, Divisor(c))
      case DivisionByZero => DivisionByZero
      case Overflow => Overflow
      case Ok(nd) =>
        match NormalizedStake(stake, p, c)
        case DivisionByZero => DivisionByZero
        case Overflow => Overflow
        case Ok(ns) =>
          match ToUint40(FinalScore(p, Reduced(nd), Reduced(ns)), ONE_ETHER * (p.w1 + p.w2))
          case DivisionByZero => DivisionByZero
          case Overflow => Overflow
          case Ok(score) =>
            // `toNumber` throws outside the safe integers
            if -MAX_SAFE_INTEGER <= score <= MAX_SAFE_INTEGER then Ok(score) else Overflow
  }

  /** The three branches are the weighted sum cut off at zero, except exactly when the proximity part is not negative
      and the stake part outweighs it downwards, which takes a stake below the minimum. */
  lemma ThreeBranchesAreClampIff(p: Params, nd: nat, ns: int)
    ensures var sum := p.w1 * (ONE_ETHER - nd) + p.w2 * ns;
      FinalScore(p, nd, ns) == Max(0, sum) <==> !(nd <= ONE_ETHER && sum < 0)
  {
  }

  lemma ClampForStakes(p: Params, nd: nat, ns: nat)
    ensures FinalScore(p, nd, ns) == Max(0, p.w1 * (ONE_ETHER - nd) + p.w2 * ns)
  {
    assert p.w2 * ns >= 0;
    assert nd <= ONE_ETHER ==> p.w1 * (ONE_ETHER - nd) >= 0;
  }

  predicate StakeInRange(stake: nat, p: Params, c: Context) {
    c.minStake <= stake <= c.maxStake && c.minStake < c.maxStake && p.stakeScaleFactor <= ONE_ETHER
  }

  lemma StakeIsNormalized(stake: nat, p: Params, c: Context)
    requires StakeInRange(stake, p, c)
    ensures NormalizedStake(stake, p, c).Ok?
    ensures 0 <= NormalizedStake(stake, p, c).value <= p.stakeScaleFactor
    ensures Reduced(NormalizedStake(stake, p, c).value) == NormalizedStake(stake, p, c).value
  {
    ShareOf(p.stakeScaleFactor, stake - c.minStake, c.maxStake - c.minStake);
  }

  lemma ShareOf(whole: nat, a: nat, b: nat)
    requires a <= b && b >= 1
    ensures 0 <= whole * a / b <= whole && whole * a >= 0
  {
    MulMono(a, b, whole);
    DivMono(whole * a, whole * b, b);
    DivModUnique(whole * b, b, whole, 0);
  }

  lemma ShareMono(whole: nat, a1: nat, a2: nat, b: nat)
    requires a1 <= a2 && b >= 1
    ensures whole * a1 / b <= whole * a2 / b
  {
    MulMono(a1, a2, whole);
    DivMono(whole * a1, whole * a2, b);
  }

  lemma FinalScoreRange(p: Params, nd: nat, ns: nat)
    requires ns <= ONE_ETHER
    ensures 0 <= FinalScore(p, nd, ns) <= ONE_ETHER * (p.w1 + p.w2)
  {
    ClampForStakes(p, nd, ns);
    MulMono(ONE_ETHER - nd, ONE_ETHER, p.w1);
    MulMono(ns, ONE_ETHER, p.w2);
    assert ONE_ETHER * (p.w1 + p.w2) == ONE_ETHER * p.w1 + ONE_ETHER * p.w2;
  }

  lemma Uint40Range(value: nat, maxValue: nat)
    requires maxValue >= 1 && value <= maxValue
    ensures ToUint40(value, maxValue).Ok? && 0 <= ToUint40(value, maxValue).value <= UINT40_MAX
  {
    MulMono(value, maxValue, UINT40_MAX);
    DivMono(value * UINT40_MAX, maxValue * UINT40_MAX, maxValue);
    DivAtLeast(maxValue * UINT40_MAX, maxValue, UINT40_MAX + 1);
    assert (UINT40_MAX + 1) * maxValue == maxValue * UINT40_MAX + maxValue;
  }

  /** The conversion scales the full range to 40 bits and rounds down. */
  lemma Uint40IsFloor(value: nat, maxValue: nat)
    requires maxValue >= 1
    ensures ToUint40(value, maxValue).Ok?
    ensures var score := ToUint40(value, maxValue).value;
      score * maxValue <= value * UINT40_MAX < (score + 1) * maxValue
    ensures value == maxValue ==> ToUint40(value, maxValue) == Ok(UINT40_MAX)
  {
    DivBounds(value * UINT40_MAX, maxValue);
    var score := value * UINT40_MAX / maxValue;
    assert (score + 1) * maxValue == score * maxValue + maxValue;
    DivModUnique(maxValue * UINT40_MAX, maxValue, UINT40_MAX, 0);
  }

  /** For stakes in range the score is a 40-bit number whenever no division by zero throws; it never overflows. */
  lemma ScoreIs40Bits(p: Params, c: Context, distance: nat, stake: nat)
    requires distance <= UINT256_MAX && StakeInRange(stake, p, c)
    ensures LinearSum(p, c, distance, stake).Ok? <==>
      && c.nodesNumber >= 1 && p.w1 + p.w2 >= 1 && distance >= 1
      && Divisor(c) >= Compensation(distance, p.distanceScaleFactor)
    ensures LinearSum(p, c, distance, stake).Ok? ==> 0 <= LinearSum(p, c, distance, stake).value <= UINT40_MAX
    ensures !LinearSum(p, c, distance, stake).Overflow?
  {
    StakeIsNormalized(stake, p, c);
    if c.nodesNumber >= 1 {
      NormalizedDistanceAccuracy(distance, p.distanceScaleFactor, Divisor(c));
      var nd := NormalizedDistance(distance, p.distanceScaleFactor, Divisor(c));
      if nd.Ok? && p.w1 + p.w2 >= 1 {
        var ns := NormalizedStake(stake, p, c).value;
        FinalScoreRange(p, Reduced(nd.value), ns);
        Uint40Range(FinalScore(p, Reduced(nd.value), ns), ONE_ETHER * (p.w1 + p.w2));
      }
    }
  }

  /** The score of a stake in range, once everything that can throw is settled. */
  lemma ScoreValue(p: Params, c: Context, distance: nat, stake: nat)
    requires distance <= UINT256_MAX && StakeInRange(stake, p, c) && LinearSum(p, c, distance, stake).Ok?
    ensures p.w1 + p.w2 >= 1 && c.nodesNumber >= 1
    ensures NormalizedDistance(distance, p.distanceScaleFactor, Divisor(c)).Ok?
    ensures NormalizedStake(stake, p, c).Ok? && NormalizedStake(stake, p, c).value >= 0
    ensures LinearSum(p, c, distance, stake) ==
      ToUint40(FinalScore(p, Reduced(NormalizedDistance(distance, p.distanceScaleFactor, Divisor(c)).value),
                          NormalizedStake(stake, p, c).value),
               ONE_ETHER * (p.w1 + p.w2))
  {
    StakeIsNormalized(stake, p, c);
    hide NormalizedDistance, FinalScore;
  }

  lemma FinalScoreMono(p: Params, nd1: nat, nd2: nat, ns1: nat, ns2: nat)
    requires nd2 <= nd1 && ns1 <= ns2
    ensures FinalScore(p, nd1, ns1) <= FinalScore(p, nd2, ns2)
    ensures 0 <= FinalScore(p, nd1, ns1)
  {
    ClampForStakes(p, nd1, ns1);
    ClampForStakes(p, nd2, ns2);
    MulMono(ONE_ETHER - nd1, ONE_ETHER - nd2, p.w1);
    MulMono(ns1, ns2, p.w2);
  }

  lemma Uint40Mono(v1: nat, v2: nat, maxValue: nat)
    requires maxValue >= 1 && v1 <= v2
    ensures ToUint40(v1, maxValue).value <= ToUint40(v2, maxValue).value
  {
    MulMono(v1, v2, UINT40_MAX);
    DivMono(v1 * UINT40_MAX, v2 * UINT40_MAX, maxValue);
  }

  /** More stake never lowers the score. */
  lemma ScoreIsMonotoneInStake(p: Params, c: Context, distance: nat, stake1: nat, stake2: nat)
    requires distance <= UINT256_MAX && stake1 <= stake2
    requires StakeInRange(stake1, p, c) && StakeInRange(stake2, p, c)
    requires LinearSum(p, c, distance, stake1).Ok?
    ensures LinearSum(p, c, distance, stake2).Ok?
    ensures LinearSum(p, c, distance, stake1).value <= LinearSum(p, c, distance, stake2).value
  {
    ScoreIs40Bits(p, c, distance, stake1);
    ScoreIs40Bits(p, c, distance, stake2);
    ScoreValue(p, c, distance, stake1);
    ScoreValue(p, c, distance, stake2);
    ShareMono(p.stakeScaleFactor, stake1 - c.minStake, stake2 - c.minStake, c.maxStake - c.minStake);
    ShareOf(p.stakeScaleFactor, stake1 - c.minStake, c.maxStake - c.minStake);
    var ns1, ns2 := NormalizedStake(stake1, p, c).value, NormalizedStake(stake2, p, c).value;
    assert ns1 <= ns2;
    hide LinearSum, NormalizedDistance, NormalizedStake, FinalScore, ToUint40;
    var nd := Reduced(NormalizedDistance(distance, p.distanceScaleFactor, Divisor(c)).value);
    FinalScoreMono(p, nd, nd, ns1, ns2);
    Uint40Mono(FinalScore(p, nd, ns1), FinalScore(p, nd, ns2), ONE_ETHER * (p.w1 + p.w2));
  }

  // ----- What the score is -----

  /** Division towards zero: the remainder is smaller than the divisor and has the sign of the dividend. */
  lemma DivTowardsZero(a: int, b: int) returns (rem: int)
    requires b != 0
    ensures a == Div(a, b) * b + rem
    ensures if a >= 0 then 0 <= rem < Magnitude(b) else 0 - Magnitude(b) < rem <= 0
  {
    rem := a - Div(a, b) * b;
    var m := Magnitude(b);
    if a >= 0 {
      DivBounds(a, m);
    } else {
      DivBounds(-a, m);
    }
  }

  function Magnitude(b: int): nat { if b >= 0 then b else -b }

  /** The divisor of the normalized distance: the largest distance, or the ideal one if that is smaller, where half of
      the replication factor is rounded up. */
  lemma DivisorIs(c: Context, half: nat)
    requires c.nodesNumber >= 1 && c.r2 <= 2 * half <= c.r2 + 1
    ensures Divisor(c) == Min(c.maxNeighbourhoodDistance, HashRing.RING_SIZE / c.nodesNumber * half)
  {
    assert (c.r2 + 1) / 2 == half;
  }

  /** The normalized stake is the place of the stake between the lowest and the highest one, rounded down: nothing at
      the lowest, the whole scale factor at the highest. */
  lemma StakeIsItsPlace(stake: nat, p: Params, c: Context)
    requires StakeInRange(stake, p, c)
    ensures NormalizedStake(stake, p, c).Ok?
    ensures var ns, d := NormalizedStake(stake, p, c).value, c.maxStake - c.minStake;
      && ns * d <= p.stakeScaleFactor * (stake - c.minStake) < (ns + 1) * d
      && (stake == c.minStake ==> ns == 0)
      && (stake == c.maxStake ==> ns == p.stakeScaleFactor)
  {
    StakeIsNormalized(stake, p, c);
    var d, x := c.maxStake - c.minStake, p.stakeScaleFactor * (stake - c.minStake);
    ShareOf(p.stakeScaleFactor, stake - c.minStake, d);
    DivBounds(x, d);
    var ns := x / d;
    assert (ns + 1) * d == ns * d + d;
    if stake == c.minStake {
      assert x == 0;
    }
    DivModUnique(p.stakeScaleFactor * d, d, p.stakeScaleFactor, 0);
  }

  lemma ReducedIsRemainder(x: nat)
    ensures Reduced(x) == x % 0x1_0000_0000_0000_0000
  {
  }

  /** The score is the weighted sum of the distance from one ether, modulo 64 bits, and of the place of the stake: cut
      off at zero, scaled from its full range to 40 bits and rounded down. */
  lemma ScoreIsWeightedSum(p: Params, c: Context, distance: nat, stake: nat) returns (nd: nat, ns: nat)
    requires distance <= UINT256_MAX && StakeInRange(stake, p, c) && LinearSum(p, c, distance, stake).Ok?
    ensures c.nodesNumber >= 1 && NormalizedDistance(distance, p.distanceScaleFactor, Divisor(c)) == Ok(nd)
    ensures var d := c.maxStake - c.minStake;
      && ns * d <= p.stakeScaleFactor * (stake - c.minStake) < (ns + 1) * d
      && (stake == c.minStake ==> ns == 0) && (stake == c.maxStake ==> ns == p.stakeScaleFactor)
    ensures var ether := 1_000_000_000_000_000_000;
      var sum := Max(0, p.w1 * (ether - nd % 0x1_0000_0000_0000_0000) + p.w2 * ns);
      var full, score := ether * (p.w1 + p.w2), LinearSum(p, c, distance, stake).value;
      score * full <= sum * 0xFF_FFFF_FFFF < (score + 1) * full
  {
    ScoreValue(p, c, distance, stake);
    StakeIsItsPlace(stake, p, c);
    nd := NormalizedDistance(distance, p.distanceScaleFactor, Divisor(c)).value;
    ns := NormalizedStake(stake, p, c).value;
    ReducedIsRemainder(nd);
    hide LinearSum, NormalizedDistance, NormalizedStake, Divisor, Reduced;
    ClampForStakes(p, Reduced(nd), ns);
    hide FinalScore;
    Uint40IsFloor(FinalScore(p, Reduced(nd), ns), ONE_ETHER * (p.w1 + p.w2));
  }

  /** Outside the range of stakes the score can be negative or large: it throws exactly if it is no safe integer. */
  lemma OverflowIff(p: Params, c: Context, distance: nat, stake: nat)
    requires distance <= UINT256_MAX && c.nodesNumber >= 1 && c.maxStake != c.minStake && p.w1 + p.w2 >= 1
    requires NormalizedDistance(distance, p.distanceScaleFactor, Divisor(c)).Ok?
    ensures var nd := NormalizedDistance(distance, p.distanceScaleFactor, Divisor(c)).value;
      var ns := Div(p.stakeScaleFactor * (stake - c.minStake), c.maxStake - c.minStake);
      var score := Div(FinalScore(p, Reduced(nd), Reduced(ns)) * 0xFF_FFFF_FFFF, ONE_ETHER * (p.w1 + p.w2));
      LinearSum(p, c, distance, stake) ==
        if -9_007_199_254_740_991 <= score <= 9_007_199_254_740_991 then Ok(score) else Overflow
  {
    hide NormalizedDistance, FinalScore, Reduced, Divisor;
  }

  // ----- When a nearer peer never scores less -----

  /** The two distances are scaled by the same factor and compensated alike. */
  predicate SameScale(p: Params, near: nat, far: nat) {
    && 1 <= near <= UINT256_MAX && 1 <= far <= UINT256_MAX
    && (MaxMultiplier(near) == MaxMultiplier(far)
        || (p.distanceScaleFactor <= MaxMultiplier(near) && p.distanceScaleFactor <= MaxMultiplier(far)))
  }

  /** The normalized distance fits in 64 bits. */
  predicate Fits64(p: Params, c: Context, distance: nat) {
    && c.nodesNumber >= 1 && 1 <= distance <= UINT256_MAX
    && NormalizedDistance(distance, p.distanceScaleFactor, Divisor(c)).Ok?
    && NormalizedDistance(distance, p.distanceScaleFactor, Divisor(c)).value <= UINT64_MAX
  }

  /** Fits in 64 bits without compensation. */
  predicate Uncompensated(p: Params, c: Context, distance: nat) {
    Fits64(p, c, distance) && p.distanceScaleFactor <= MaxMultiplier(distance)
  }

  /** The score depends on the distance through the reduced normalized distance only, and decreases with it. */
  lemma ScoreFollowsDistance(p: Params, c: Context, near: nat, far: nat, stake: nat)
    requires Fits64(p, c, near) && Fits64(p, c, far) && StakeInRange(stake, p, c) && p.w1 + p.w2 >= 1
    requires NormalizedDistance(near, p.distanceScaleFactor, Divisor(c)).value
      <= NormalizedDistance(far, p.distanceScaleFactor, Divisor(c)).value
    ensures LinearSum(p, c, near, stake).Ok? && LinearSum(p, c, far, stake).Ok?
    ensures LinearSum(p, c, far, stake).value <= LinearSum(p, c, near, stake).value
  {
    ScoreIs40Bits(p, c, near, stake);
    ScoreIs40Bits(p, c, far, stake);
    NormalizedDistanceAccuracy(near, p.distanceScaleFactor, Divisor(c));
    NormalizedDistanceAccuracy(far, p.distanceScaleFactor, Divisor(c));
    ScoreValue(p, c, near, stake);
    ScoreValue(p, c, far, stake);
    hide LinearSum, NormalizedStake, FinalScore, ToUint40, NormalizedDistance, Divisor;
    var ns := NormalizedStake(stake, p, c).value;
    var nd1 := NormalizedDistance(near, p.distanceScaleFactor, Divisor(c)).value;
    var nd2 := NormalizedDistance(far, p.distanceScaleFactor, Divisor(c)).value;
    FinalScoreMono(p, nd2, nd1, ns, ns);
    Uint40Mono(FinalScore(p, nd2, ns), FinalScore(p, nd1, ns), ONE_ETHER * (p.w1 + p.w2));
  }

  /** With the same scale the normalized distance is monotone, whether it is compensated or not. */
  lemma SameScaleIsMonotone(p: Params, near: nat, far: nat, div: nat)
    requires near <= far && SameScale(p, near, far)
    requires NormalizedDistance(near, p.distanceScaleFactor, div).Ok?
    ensures NormalizedDistance(far, p.distanceScaleFactor, div).Ok?
    ensures NormalizedDistance(near, p.distanceScaleFactor, div).value
      <= NormalizedDistance(far, p.distanceScaleFactor, div).value
  {
    var factor, cf := ScaledFactor(near, p.distanceScaleFactor), Compensation(near, p.distanceScaleFactor);
    assert factor == ScaledFactor(far, p.distanceScaleFactor) && cf == Compensation(far, p.distanceScaleFactor);
    CompensationPositive(near, p.distanceScaleFactor);
    MulMono(near, far, factor);
    DivMono(near * factor, far * factor, div / cf);
  }

  /** Four times the distance makes up for the factor of two that either compensation may cost. */
  lemma FourTimesIsMonotone(p: Params, near: nat, far: nat, div: nat)
    requires 1 <= near && 4 * near <= far <= UINT256_MAX
    requires NormalizedDistance(near, p.distanceScaleFactor, div).Ok?
    requires NormalizedDistance(far, p.distanceScaleFactor, div).Ok?
    ensures NormalizedDistance(near, p.distanceScaleFactor, div).value
      <= NormalizedDistance(far, p.distanceScaleFactor, div).value
  {
    var sf := p.distanceScaleFactor;
    NormalizedDistanceAccuracy(near, sf, div);
    NormalizedDistanceAccuracy(far, sf, div);
    hide NormalizedDistance;
    QuarterBelow(NormalizedDistance(near, sf, div).value, near, far, sf, div);
  }

  lemma QuarterBelow(n: nat, near: nat, far: nat, sf: nat, div: nat)
    requires div >= 1 && n * div <= 2 * (near * sf) && 4 * near <= far
    ensures n <= far * sf / (2 * div)
  {
    var x, y := near * sf, far * sf;
    MulMono(4 * near, far, sf);
    assert (4 * near) * sf == 4 * x;
    assert n * (2 * div) == 2 * (n * div);
    DivAtLeast(y, 2 * div, n);
  }

  /** The far distance exceeds the near one by more than the two losses. */
  predicate WellSeparated(p: Params, near: nat, far: nat, div: nat) {
    var sf := p.distanceScaleFactor;
    && 1 <= near <= UINT256_MAX && 1 <= far <= UINT256_MAX && DivisorLoss(near, sf) < div
    && AtMostInProportion(near * sf, far * (sf - FactorLoss(far, sf)), div - DivisorLoss(near, sf), div)
  }

  /** `x / low <= y / div`, without fractions. */
  predicate AtMostInProportion(x: int, y: int, low: nat, div: nat) {
    x * div <= y * low
  }

  lemma WellSeparatedIsMonotone(p: Params, near: nat, far: nat, div: nat)
    requires WellSeparated(p, near, far, div)
    requires NormalizedDistance(near, p.distanceScaleFactor, div).Ok?
    requires NormalizedDistance(far, p.distanceScaleFactor, div).Ok?
    ensures NormalizedDistance(near, p.distanceScaleFactor, div).value
      <= NormalizedDistance(far, p.distanceScaleFactor, div).value
  {
    hide NormalizedDistance, FactorLoss, DivisorLoss, AtMostInProportion;
    var sf := p.distanceScaleFactor;
    NormalizedDistanceBounds(near, sf, div);
    NormalizedDistanceBounds(far, sf, div);
    SeparatedQuotients(near * sf, far * (sf - FactorLoss(far, sf)), div, div - DivisorLoss(near, sf),
                       NormalizedDistance(near, sf, div).value, NormalizedDistance(far, sf, div).value);
  }

  lemma SeparatedQuotients(x: int, y: int, div: nat, low: nat, n: nat, m: nat)
    requires low >= 1 && n * low <= x && y < (m + 1) * div && AtMostInProportion(x, y, low, div)
    ensures n <= m
  {
    if m < n {
      MulMono(m + 1, n, low);
      MulMono((m + 1) * low, x, div);
      MulStrict(y, (m + 1) * div, low);
      Rearranged(m + 1, div, low);
    }
  }

  lemma Rearranged(a: int, b: int, c: int)
    ensures (a * b) * c == (a * c) * b
  {
  }

  /** No neighbour is reduced to 64 bits as long as the neighbourhood is at most nine times as wide as the divisor. */
  lemma NeighboursFit64(p: Params, c: Context, distance: nat)
    requires c.nodesNumber >= 1 && 1 <= distance <= c.maxNeighbourhoodDistance && distance <= UINT256_MAX
    requires c.maxNeighbourhoodDistance <= 9 * Divisor(c) && p.distanceScaleFactor <= ONE_ETHER
    requires NormalizedDistance(distance, p.distanceScaleFactor, Divisor(c)).Ok?
    ensures Fits64(p, c, distance)
    ensures Divisor(c) == c.maxNeighbourhoodDistance ==>
      NormalizedDistance(distance, p.distanceScaleFactor, Divisor(c)).value <= 2 * ONE_ETHER
  {
    var sf, div := p.distanceScaleFactor, Divisor(c);
    NormalizedDistanceAccuracy(distance, sf, div);
    var n := NormalizedDistance(distance, sf, div).value;
    hide NormalizedDistance, Divisor;
    var width := if div == c.maxNeighbourhoodDistance then div else 9 * div;
    MulMono(distance, width, sf);
    MulMono(sf, ONE_ETHER, width);
    if n > 18 * ONE_ETHER {
      MulStrict(18 * ONE_ETHER, n, div);
    }
    if width == div && n > 2 * ONE_ETHER {
      MulStrict(2 * ONE_ETHER, n, div);
    }
  }

  /** Two members of such a neighbourhood are ranked by distance if they share a scale, or are farther apart than the
      losses of compensation, or one is four times as far as the other. */
  lemma NearerNeighbourScoresAtLeast(p: Params, c: Context, near: nat, far: nat, stake: nat)
    requires near <= far <= c.maxNeighbourhoodDistance <= UINT256_MAX && StakeInRange(stake, p, c)
    requires c.nodesNumber >= 1 && c.maxNeighbourhoodDistance <= 9 * Divisor(c) && p.distanceScaleFactor <= ONE_ETHER
    requires LinearSum(p, c, near, stake).Ok? && LinearSum(p, c, far, stake).Ok?
    requires SameScale(p, near, far) || WellSeparated(p, near, far, Divisor(c)) || 4 * near <= far
    ensures LinearSum(p, c, far, stake).value <= LinearSum(p, c, near, stake).value
  {
    ScoreIs40Bits(p, c, near, stake);
    ScoreIs40Bits(p, c, far, stake);
    ScoreValue(p, c, near, stake);
    ScoreValue(p, c, far, stake);
    NeighboursFit64(p, c, near);
    NeighboursFit64(p, c, far);
    hide LinearSum, NormalizedDistance, Divisor;
    if SameScale(p, near, far) {
      SameScaleIsMonotone(p, near, far, Divisor(c));
    } else if WellSeparated(p, near, far, Divisor(c)) {
      WellSeparatedIsMonotone(p, near, far, Divisor(c));
    } else {
      FourTimesIsMonotone(p, near, far, Divisor(c));
    }
    ScoreFollowsDistance(p, c, near, far, stake);
  }

  const MILLION: nat := 1_000_000

  /** `a` falls short of `b` by less than one part in ten million. */
  predicate Nearly(a: int, b: nat) {
    10 * MILLION * a >= (10 * MILLION - 1) * b && a >= 0
  }

  lemma NearlyProduct(near: nat, far: nat, sf: nat, factor: nat, div: nat, low: nat)
    requires Nearly(factor, sf) && Nearly(low, div) && (MILLION + 1) * near <= MILLION * far
    ensures AtMostInProportion(near * sf, far * factor, low, div)
  {
    var m := 10 * MILLION;
    ProductMono((MILLION + 1) * near, MILLION * far, (m - 1) * sf, m * factor);
    ProductMono(((MILLION + 1) * near) * ((m - 1) * sf), (MILLION * far) * (m * factor), (m - 1) * div, m * low);
    Collected(MILLION + 1, near, m - 1, sf, m - 1, div);
    Collected(MILLION, far, m, factor, m, low);
    var x, y := (near * sf) * div, (far * factor) * low;
    assert (MILLION + 1) * (m - 1) * (m - 1) * x <= MILLION * m * m * y;
    assert x >= 0;
  }

  lemma ProductMono(a: nat, b: nat, c: nat, d: nat)
    requires a <= b && c <= d
    ensures a * c <= b * d
  {
    MulMono(a, b, c);
    MulMono(c, d, b);
  }

  lemma Collected(k: nat, a: nat, l: nat, b: nat, m: nat, c: nat)
    ensures ((k * a) * (l * b)) * (m * c) == (k * l * m) * ((a * b) * c)
  {
    Regrouped(k, a, l, b);
    Regrouped(k * l, a * b, m, c);
  }

  lemma Regrouped(k: nat, a: nat, l: nat, b: nat)
    ensures (k * a) * (l * b) == (k * l) * (a * b)
  {
    assert (k * a) * (l * b) == k * (a * (l * b));
    assert a * (l * b) == l * (a * b);
    assert k * (l * (a * b)) == (k * l) * (a * b);
  }

  /** At a scale factor of one ether, and unless distances and divisor are vanishing parts of the ring, compensation
      never inverts two distances that are one part in a million apart. */
  lemma MillionthApartIsSeparated(p: Params, near: nat, far: nat, div: nat)
    requires p.distanceScaleFactor == ONE_ETHER && 1 <= near && (MILLION + 1) * near <= MILLION * far
    requires far <= UINT256_MAX < far * 100_000_000_000 && div >= 10_000_000 * ONE_ETHER
    ensures WellSeparated(p, near, far, div)
  {
    var sf := ONE_ETHER;
    DivAtLeast(UINT256_MAX, far, 100_000_000_000);
    assert FactorLoss(far, sf) < 100_000_000_000;
    MaxMultiplierPositive(near);
    QuotientAtMost(sf, MaxMultiplier(near));
    assert DivisorLoss(near, sf) <= sf;
    hide FactorLoss, DivisorLoss;
    NearlyProduct(near, far, sf, sf - FactorLoss(far, sf), div, div - DivisorLoss(near, sf));
  }

  /** Where neither compensation nor reduction is needed, a nearer peer never scores less. */
  lemma ScoreIsAntitoneInDistance(p: Params, c: Context, near: nat, far: nat, stake: nat)
    requires near <= far && Uncompensated(p, c, near) && Uncompensated(p, c, far) && StakeInRange(stake, p, c)
    requires p.w1 + p.w2 >= 1
    ensures LinearSum(p, c, near, stake).Ok? && LinearSum(p, c, far, stake).Ok?
    ensures LinearSum(p, c, far, stake).value <= LinearSum(p, c, near, stake).value
  {
    SameScaleIsMonotone(p, near, far, Divisor(c));
    ScoreFollowsDistance(p, c, near, far, stake);
  }

  // ----- Where reduction breaks the order -----

  /** What the score is once its three quotients are known. */
  lemma ScoreAt(p: Params, c: Context, distance: nat, stake: nat, nd: nat, ns: nat, score: nat)
    requires distance <= UINT256_MAX && StakeInRange(stake, p, c) && c.nodesNumber >= 1 && p.w1 + p.w2 >= 1
    requires NormalizedDistance(distance, p.distanceScaleFactor, Divisor(c)) == Ok(nd)
    requires NormalizedStake(stake, p, c) == Ok(ns)
    requires ToUint40(FinalScore(p, Reduced(nd), ns), ONE_ETHER * (p.w1 + p.w2)) == Ok(score)
    ensures LinearSum(p, c, distance, stake) == Ok(score)
  {
    StakeIsNormalized(stake, p, c);
    ScoreIs40Bits(p, c, distance, stake);
    NormalizedDistanceAccuracy(distance, p.distanceScaleFactor, Divisor(c));
    ScoreValue(p, c, distance, stake);
  }

  /** One more unit of distance adds at most the scale factor and one to the quotient. */
  lemma QuotientStep(sf: nat, div: nat, d: nat)
    requires div >= 1 && d >= 1
    ensures (d - 1) * sf / div <= d * sf / div <= (d - 1) * sf / div + sf + 1
  {
    var x := (d - 1) * sf;
    assert d * sf == x + sf;
    DivMono(x, x + sf, div);
    DivBounds(x, div);
    var q := x / div + sf + 2;
    assert q * div == (x / div) * div + div + (sf + 1) * div;
    MulMono(1, div, sf + 1);
    assert q * div > x + sf;
    DivAtLeast(x + sf, div, q);
  }

  lemma QuotientAtMost(x: nat, div: nat)
    requires div >= 1
    ensures x / div <= x
  {
    DivBounds(x, div);
    MulMono(1, div, x / div);
  }

  /** The first distance whose normalization exceeds 64 bits. */
  lemma {:induction false} FirstReduced(sf: nat, div: nat, last: nat) returns (d: nat)
    requires div >= 1 && sf <= UINT64_MAX && last >= 1 && last * sf / div > UINT64_MAX
    ensures 2 <= d <= last && (d - 1) * sf / div <= UINT64_MAX < d * sf / div
    decreases last
  {
    QuotientAtMost(sf, div);
    assert last >= 2;
    if (last - 1) * sf / div > UINT64_MAX {
      d := FirstReduced(sf, div, last - 1);
    } else {
      d := last;
    }
  }

  ghost predicate ReducedInOrder(sf: nat, div: nat, last: nat)
    requires last <= UINT256_MAX
  {
    forall near: nat, far: nat :: 1 <= near <= far <= last ==>
      var n, f := NormalizedDistance(near, sf, div), NormalizedDistance(far, sf, div);
      n.Ok? && f.Ok? ==> Reduced(n.value) <= Reduced(f.value)
  }

  lemma UncompensatedQuotient(sf: nat, div: nat, last: nat, d: nat)
    requires 1 <= d <= last <= UINT256_MAX && sf <= MaxMultiplier(last) && div >= 1
    ensures NormalizedDistance(d, sf, div) == Ok(d * sf / div)
  {
    LargerDivisor(UINT256_MAX, d, last);
    assert div / 1 == div;
  }

  lemma InOrderBelow(sf: nat, div: nat, last: nat, near: nat, far: nat)
    requires 1 <= near <= far <= last <= UINT256_MAX && div >= 1 && sf <= MaxMultiplier(last)
    requires last * sf / div <= UINT64_MAX
    ensures NormalizedDistance(near, sf, div).Ok? && NormalizedDistance(far, sf, div).Ok?
    ensures Reduced(NormalizedDistance(near, sf, div).value) <= Reduced(NormalizedDistance(far, sf, div).value)
  {
    UncompensatedQuotient(sf, div, last, near);
    UncompensatedQuotient(sf, div, last, far);
    hide NormalizedDistance, MaxMultiplier;
    MulMono(near, far, sf);
    MulMono(far, last, sf);
    DivMono(near * sf, far * sf, div);
    DivMono(far * sf, last * sf, div);
  }

  lemma OutOfOrder(sf: nat, div: nat, last: nat) returns (d: nat)
    requires 1 <= last <= UINT256_MAX && div >= 1 && sf <= MaxMultiplier(last) && sf <= ONE_ETHER
    requires last * sf / div > UINT64_MAX
    ensures 2 <= d <= last
    ensures NormalizedDistance(d - 1, sf, div).Ok? && NormalizedDistance(d, sf, div).Ok?
    ensures Reduced(NormalizedDistance(d - 1, sf, div).value) > Reduced(NormalizedDistance(d, sf, div).value)
  {
    d := FirstReduced(sf, div, last);
    QuotientStep(sf, div, d);
    UncompensatedQuotient(sf, div, last, d - 1);
    UncompensatedQuotient(sf, div, last, d);
    hide NormalizedDistance, MaxMultiplier;
    assert Reduced(d * sf / div) <= sf < Reduced((d - 1) * sf / div);
  }

  /** Up to a distance that needs no compensation, the order of the reduced normalized distances is that of the
      distances exactly if the largest of them still fits in 64 bits. */
  lemma ReductionKeepsOrderIff(sf: nat, div: nat, last: nat)
    requires 1 <= last <= UINT256_MAX && div >= 1 && sf <= MaxMultiplier(last) && sf <= ONE_ETHER
    ensures NormalizedDistance(last, sf, div).Ok?
    ensures ReducedInOrder(sf, div, last) <==> NormalizedDistance(last, sf, div).value <= UINT64_MAX
  {
    UncompensatedQuotient(sf, div, last, last);
    hide NormalizedDistance, MaxMultiplier, Reduced;
    if last * sf / div <= UINT64_MAX {
      forall near: nat, far: nat | 1 <= near <= far <= last
        ensures NormalizedDistance(near, sf, div).Ok? && NormalizedDistance(far, sf, div).Ok?
        ensures Reduced(NormalizedDistance(near, sf, div).value) <= Reduced(NormalizedDistance(far, sf, div).value)
      {
        InOrderBelow(sf, div, last, near, far);
      }
    } else {
      var d := OutOfOrder(sf, div, last);
    }
  }

  /** The first reduced value stays clearly below one ether. */
  lemma FirstReducedIsSmall(sf: nat, div: nat, d: nat)
    requires 1 <= d && div >= 1 && sf <= ONE_ETHER
    requires (d - 1) * sf / div <= UINT64_MAX < d * sf / div
    ensures 2 * ONE_ETHER < (d - 1) * sf / div
    ensures Reduced(d * sf / div) == d * sf / div - UINT64_MAX - 1 <= 980_000_000_000_000_000
  {
    QuotientStep(sf, div, d);
    if div >= 2 {
      HalfStep(sf, div, d);
    } else {
      assert d * sf / 1 == d * sf && (d - 1) * sf / 1 == (d - 1) * sf && d * sf == (d - 1) * sf + sf;
      if sf > 980_000_000_000_000_000 - 1 {
        NineteenthStep(sf, d);
      }
    }
  }

  lemma HalfStep(sf: nat, div: nat, d: nat)
    requires div >= 2 && d >= 1
    ensures d * sf / div <= (d - 1) * sf / div + sf / 2 + 1
  {
    var x := (d - 1) * sf;
    assert d * sf == x + sf;
    DivBounds(x, div);
    var q := x / div + sf / 2 + 2;
    assert q * div == (x / div) * div + div + (sf / 2 + 1) * div;
    MulMono(2, div, sf / 2 + 1);
    DivAtLeast(x + sf, div, q);
  }

  lemma NineteenthStep(sf: nat, d: nat)
    requires 1 <= d && 980_000_000_000_000_000 <= sf <= ONE_ETHER && (d - 1) * sf <= UINT64_MAX < d * sf
    ensures d == 19
  {
    if d <= 18 {
      MulMono(d, 18, sf);
    } else if d >= 20 {
      MulMono(19, d - 1, sf);
    }
  }

  ghost predicate ScoresInOrder(p: Params, c: Context, last: nat)
    requires last <= UINT256_MAX
  {
    forall near: nat, far: nat, stake: nat :: 1 <= near <= far <= last && StakeInRange(stake, p, c) ==>
      var n, f := LinearSum(p, c, near, stake), LinearSum(p, c, far, stake);
      n.Ok? && f.Ok? && f.value <= n.value
  }

  /** A peer at the lowest stake scores nothing from twice the divisor on, and something just after the reduction. */
  lemma ReducedPeerScores(p: Params, c: Context, d: nat)
    requires c.nodesNumber >= 1 && Divisor(c) >= 1 && 2 <= d <= UINT256_MAX
    requires p.distanceScaleFactor <= MaxMultiplier(d) && p.distanceScaleFactor <= ONE_ETHER
    requires StakeInRange(c.minStake, p, c) && 1 <= p.w1 && p.w2 <= 0xFFFF_FFFF * p.w1
    requires (d - 1) * p.distanceScaleFactor / Divisor(c) <= UINT64_MAX < d * p.distanceScaleFactor / Divisor(c)
    ensures LinearSum(p, c, d - 1, c.minStake) == Ok(0)
    ensures LinearSum(p, c, d, c.minStake).Ok? && LinearSum(p, c, d, c.minStake).value >= 1
  {
    var sf, div := p.distanceScaleFactor, Divisor(c);
    var n, f := (d - 1) * sf / div, d * sf / div;
    UncompensatedQuotient(sf, div, d, d - 1);
    UncompensatedQuotient(sf, div, d, d);
    FirstReducedIsSmall(sf, div, d);
    assert NormalizedStake(c.minStake, p, c) == Ok(0) by {
      assert p.stakeScaleFactor * (c.minStake - c.minStake) == 0;
    }
    hide NormalizedDistance, Divisor, MaxMultiplier, NormalizedStake, Reduced;
    assert Reduced(n) == n by {
      NoReduction(n);
    }
    LowestScore(p, n);
    ScoreAt(p, c, d - 1, c.minStake, n, 0, 0);
    var score := ScoreNearEther(p, Reduced(f));
    ScoreAt(p, c, d, c.minStake, f, 0, score);
  }

  lemma NoReduction(n: nat)
    requires n <= UINT64_MAX
    ensures Reduced(n) == n
  {
  }

  lemma LowestScore(p: Params, nd: nat)
    requires nd > ONE_ETHER && p.w1 >= 1
    ensures ToUint40(FinalScore(p, nd, 0), ONE_ETHER * (p.w1 + p.w2)) == Ok(0)
  {
    MulMono(1, nd - ONE_ETHER, p.w1);
    assert 0 * p.w2 == 0;
    assert 0 * UINT40_MAX == 0;
  }

  lemma ScoreNearEther(p: Params, nd: nat) returns (score: nat)
    requires nd <= 980_000_000_000_000_000 && 1 <= p.w1 && p.w2 <= 0xFFFF_FFFF * p.w1
    ensures score >= 1 && ToUint40(FinalScore(p, nd, 0), ONE_ETHER * (p.w1 + p.w2)) == Ok(score)
  {
    var total := ONE_ETHER * (p.w1 + p.w2);
    assert 0 * p.w2 == 0;
    var value := (ONE_ETHER - nd) * p.w1;
    MulMono(20_000_000_000_000_000, ONE_ETHER - nd, p.w1);
    assert FinalScore(p, nd, 0) == value;
    hide FinalScore;
    assert value * UINT40_MAX >= total;
    DivAtLeast(value * UINT40_MAX, total, 1);
    score := value * UINT40_MAX / total;
  }

  /** Up to a distance that needs no compensation, nearer peers never score less, whatever the stakes, exactly if the
      normalization of the largest distance fits in 64 bits.  (The first weight must not vanish against the second.) */
  lemma ScoreOrderIff(p: Params, c: Context, last: nat)
    requires c.nodesNumber >= 1 && Divisor(c) >= 1 && 1 <= last <= UINT256_MAX
    requires p.distanceScaleFactor <= MaxMultiplier(last) && p.distanceScaleFactor <= ONE_ETHER
    requires c.minStake < c.maxStake && p.stakeScaleFactor <= ONE_ETHER && 1 <= p.w1 && p.w2 <= 0xFFFF_FFFF * p.w1
    ensures NormalizedDistance(last, p.distanceScaleFactor, Divisor(c)).Ok?
    ensures ScoresInOrder(p, c, last) <==>
      NormalizedDistance(last, p.distanceScaleFactor, Divisor(c)).value <= UINT64_MAX
  {
    var sf, div := p.distanceScaleFactor, Divisor(c);
    UncompensatedQuotient(sf, div, last, last);
    if last * sf / div <= UINT64_MAX {
      forall near: nat, far: nat, stake: nat | 1 <= near <= far <= last && StakeInRange(stake, p, c)
        ensures LinearSum(p, c, near, stake).Ok? && LinearSum(p, c, far, stake).Ok?
        ensures LinearSum(p, c, far, stake).value <= LinearSum(p, c, near, stake).value
      {
        UpToLast(p, c, near, last);
        UpToLast(p, c, far, last);
        hide NormalizedDistance, Divisor, LinearSum;
        ScoreIsAntitoneInDistance(p, c, near, far, stake);
      }
    } else {
      var d := FirstReduced(sf, div, last);
      LargerDivisor(UINT256_MAX, d, last);
      hide NormalizedDistance, LinearSum;
      ReducedPeerScores(p, c, d);
    }
  }

  lemma UpToLast(p: Params, c: Context, d: nat, last: nat)
    requires c.nodesNumber >= 1 && Divisor(c) >= 1 && 1 <= d <= last <= UINT256_MAX
    requires p.distanceScaleFactor <= MaxMultiplier(last)
    requires last * p.distanceScaleFactor / Divisor(c) <= UINT64_MAX
    ensures Uncompensated(p, c, d)
  {
    var sf := p.distanceScaleFactor;
    LargerDivisor(UINT256_MAX, d, last);
    UncompensatedQuotient(sf, Divisor(c), last, d);
    MulMono(d, last, sf);
    DivMono(d * sf, last * sf, Divisor(c));
  }

  const ONE_PERCENT: nat := 1157920892373161954235709850086879078532699846656405640394575840079131296390

  const WIDE: Context := Context(UINT256_MAX / 5, 20, 1000, 0, 1)

  const EQUAL_WEIGHTS: Params := Params(ONE_ETHER, ONE_ETHER, 1, 1)

  lemma WideDivisor()
    ensures Divisor(WIDE) == ONE_PERCENT
  {
  }

  /** The four quotients of a compensated distance at a scale factor of one ether. */
  lemma CompensatedValue(d: nat, div: nat, mm: nat, cf: nat, adj: nat, nd: nat)
    requires 1 <= d <= UINT256_MAX && d * mm <= UINT256_MAX < d * mm + d
    requires 1 <= mm < ONE_ETHER && cf * mm <= ONE_ETHER < cf * mm + mm
    requires 1 <= adj && adj * cf <= div < adj * cf + cf
    requires nd * adj <= d * mm < nd * adj + adj
    ensures NormalizedDistance(d, ONE_ETHER, div) == Ok(nd)
  {
    DivModUnique(UINT256_MAX, d, mm, UINT256_MAX - d * mm);
    DivModUnique(ONE_ETHER, mm, cf, ONE_ETHER - cf * mm);
    DivModUnique(div, cf, adj, div - adj * cf);
    DivModUnique(d * mm, adj, nd, d * mm - nd * adj);
  }

  lemma WideDistances()
    ensures NormalizedDistance(UINT256_MAX * 18 / 100, ONE_ETHER, ONE_PERCENT) == Ok(18 * ONE_ETHER)
    ensures NormalizedDistance(UINT256_MAX * 19 / 100, ONE_ETHER, ONE_PERCENT) == Ok(19 * ONE_ETHER)
  {
    hide NormalizedDistance;
    CompensatedValue(
      UINT256_MAX * 18 / 100, ONE_PERCENT, 5, 200000000000000000,
      5789604461865809771178549250434395392663499233282028201972, 18000000000000000000);
    CompensatedValue(
      UINT256_MAX * 19 / 100, ONE_PERCENT, 5, 200000000000000000,
      5789604461865809771178549250434395392663499233282028201972, 19000000000000000000);
  }

  /** Neighbours at 18 and 19 hundredths of the ring, in a neighbourhood that is twenty times as wide as the divisor:
      the reduction to 64 bits lifts the score of the farther one from the lowest to almost a quarter of the highest. */
  lemma ReductionBreaksOrder()
    ensures var near, far := UINT256_MAX * 18 / 100, UINT256_MAX * 19 / 100;
      && near < far <= WIDE.maxNeighbourhoodDistance && 20 * Divisor(WIDE) <= WIDE.maxNeighbourhoodDistance
      && LinearSum(EQUAL_WEIGHTS, WIDE, near, 0) == Ok(0)
      && LinearSum(EQUAL_WEIGHTS, WIDE, far, 0) == Ok(245_600_151_841)
  {
    WideDivisor();
    WideDistances();
    hide NormalizedDistance, Divisor;
    assert NormalizedStake(0, EQUAL_WEIGHTS, WIDE) == Ok(0);
    assert FinalScore(EQUAL_WEIGHTS, 18 * ONE_ETHER, 0) == 0;
    assert Reduced(19 * ONE_ETHER) == 553_255_926_290_448_384;
    assert FinalScore(EQUAL_WEIGHTS, 553_255_926_290_448_384, 0) == 446_744_073_709_551_616;
    hide FinalScore, Reduced;
    ScoreAt(EQUAL_WEIGHTS, WIDE, UINT256_MAX * 18 / 100, 0, 18 * ONE_ETHER, 0, 0);
    ScoreAt(EQUAL_WEIGHTS, WIDE, UINT256_MAX * 19 / 100, 0, 19 * ONE_ETHER, 0, 245_600_151_841);
  }

  const NARROW: Context :=
    Context(893481485552804095867942168813441909149045540723214754421564581618669140303, 20, 100, 0, ONE_ETHER)

  lemma NarrowDistances()
    ensures NormalizedDistance(UINT256_MAX / 214, ONE_ETHER, NARROW.maxNeighbourhoodDistance)
      == Ok(605_591_204_625_313_567)
    ensures NormalizedDistance(UINT256_MAX / 214 + 1, ONE_ETHER, NARROW.maxNeighbourhoodDistance)
      == Ok(605_591_204_625_313_508)
  {
    hide NormalizedDistance;
    CompensatedValue(
      UINT256_MAX / 214, NARROW.maxNeighbourhoodDistance, 214, 4672897196261682,
      191205037908300086458401595357681064394778704314183305974707, 605591204625313567);
    CompensatedValue(
      UINT256_MAX / 214 + 1, NARROW.maxNeighbourhoodDistance, 213, 4694835680751173,
      190311556422747301156916701792105601343168670781990545510262, 605591204625313508);
  }

  lemma NarrowScores()
    ensures NormalizedStake(8_004_976, EQUAL_WEIGHTS, NARROW) == Ok(8_004_976)
    ensures ToUint40(FinalScore(EQUAL_WEIGHTS, Reduced(605_591_204_625_313_567), 8_004_976), 2 * ONE_ETHER)
      == Ok(216_828_528_309)
    ensures ToUint40(FinalScore(EQUAL_WEIGHTS, Reduced(605_591_204_625_313_508), 8_004_976), 2 * ONE_ETHER)
      == Ok(216_828_528_310)
  {
    assert FinalScore(EQUAL_WEIGHTS, 605_591_204_625_313_567, 8_004_976) == 394_408_795_382_691_409;
    assert FinalScore(EQUAL_WEIGHTS, 605_591_204_625_313_508, 8_004_976) == 394_408_795_382_691_468;
  }

  /** Compensation alone can do so too: at the border between two multipliers, here 214 and 213, the farther of two
      peers at successive distances scores one more. */
  lemma CompensationBreaksOrder()
    ensures var near := UINT256_MAX / 214;
      && near + 1 <= NARROW.maxNeighbourhoodDistance == Divisor(NARROW)
      && LinearSum(EQUAL_WEIGHTS, NARROW, near, 8_004_976) == Ok(216_828_528_309)
      && LinearSum(EQUAL_WEIGHTS, NARROW, near + 1, 8_004_976) == Ok(216_828_528_310)
  {
    assert Divisor(NARROW) == NARROW.maxNeighbourhoodDistance;
    NarrowDistances();
    NarrowScores();
    hide NormalizedDistance, Divisor, NormalizedStake, FinalScore, Reduced, ToUint40;
    ScoreAt(EQUAL_WEIGHTS, NARROW, UINT256_MAX / 214, 8_004_976, 605_591_204_625_313_567, 8_004_976, 216_828_528_309);
    ScoreAt(
      EQUAL_WEIGHTS, NARROW, UINT256_MAX / 214 + 1, 8_004_976, 605_591_204_625_313_508, 8_004_976, 216_828_528_310);
  }
}
