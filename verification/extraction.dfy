/** Ore extraction of optimizer.py and optimizer2.py: miner speed and power,
    the extraction limit of a resource, and the closed-form allocation of a
    quota over a resource's impure, normal and pure nodes that equalises
    the marginal power of all unsaturated miners. */
module Extraction {
  import opened Basics
  import opened Settings
  import opened Catalog

  /** The clock-to-power exponent of miners in both scripts. */
  const MinerExponent: real := 1.6

  /** Purity index of a purity name: impure 0, normal 1, pure 2. */
  function ParsePurity(purity: string): (r: Result<nat>)
    ensures r.Ok? <==> purity in {"impure", "normal", "pure"}
    ensures r.Ok? ==> r.value < 3
    ensures r.Err? ==> r.error == InvalidPurity
  {
    if purity == "impure" then Ok(0)
    else if purity == "normal" then Ok(1)
    else if purity == "pure" then Ok(2)
    else Err(InvalidPurity)
  }

  /** MinerSpeed: the purity is checked first, then the clock. */
  function MinerSpeed(cfg: Config, purity: string, clock: real): (r: Result<real>)
    ensures ParsePurity(purity).Err? ==> r == Err(InvalidPurity)
    ensures ParsePurity(purity).Ok? ==> (r.Err? <==> !(0.0 <= clock <= MaxClock))
    ensures ParsePurity(purity).Ok? && r.Err? ==> r.error == InvalidClock
  {
    match ParsePurity(purity)
    case Err(e) => Err(e)
    case Ok(i) =>
      if !(0.0 <= clock <= MaxClock) then Err(InvalidClock)
      else Ok(MinerBaseSpeed(cfg.minerMK, i) * clock)
  }

  /** A miner's output is proportional to its clock, and each purity step
      doubles it. */
  lemma MinerSpeedScales(cfg: Config, clock: real)
    requires 0.0 <= clock <= MaxClock
    ensures MinerSpeed(cfg, "impure", clock).Ok? && MinerSpeed(cfg, "impure", clock).value == MinerBaseSpeed(cfg.minerMK, 0) * clock
    ensures MinerSpeed(cfg, "normal", clock).value == 2.0 * MinerSpeed(cfg, "impure", clock).value
    ensures MinerSpeed(cfg, "pure", clock).value == 4.0 * MinerSpeed(cfg, "impure", clock).value
    ensures MinerSpeed(cfg, "impure", 0.0) == Ok(0.0)
  {
  }

  /** MinerPower: base power times clock^1.6, for a clock in [0, 2.5]. */
  function MinerPower(cfg: Config, clock: real): (r: Result<real>)
    ensures r.Err? <==> !(0.0 <= clock <= MaxClock)
    ensures r.Err? ==> r.error == InvalidClock
  {
    if !(0.0 <= clock <= MaxClock) then Err(InvalidClock)
    else Ok(MinerBasePower(cfg.minerMK) * cfg.pow(clock, MinerExponent))
  }

  /** At clock 1 a miner draws its base power; at any positive clock it
      draws some. */
  lemma MinerPowerBase(cfg: Config, clock: real)
    requires PowLaws(cfg.pow)
    requires 0.0 < clock <= MaxClock
    ensures MinerPower(cfg, 1.0) == Ok(MinerBasePower(cfg.minerMK))
    ensures MinerPower(cfg, clock).value > 0.0
  {
    assert cfg.pow(clock, MinerExponent) > 0.0;
  }

  /** Items per minute one miner on a purity-i node delivers at clock 2.5,
      limited by the belt. */
  function TierCapacity(cfg: Config, i: nat): (r: real)
    requires i < 3
    ensures 0.0 < r <= Belt(cfg)
  {
    Min(Belt(cfg), MinerBaseSpeed(cfg.minerMK, i) * MaxClock)
  }

  /** The clock at which a purity-i miner saturates the belt, at most 2.5. */
  function ClockLimit(cfg: Config, i: nat): (r: real)
    requires i < 3
    ensures 0.0 < r <= MaxClock
  {
    Min(MaxClock, Belt(cfg) / MinerBaseSpeed(cfg.minerMK, i))
  }

  /** Running at its clock limit a miner delivers exactly its capacity. */
  lemma ClockLimitCapacity(cfg: Config, i: nat)
    requires i < 3
    ensures MinerBaseSpeed(cfg.minerMK, i) * ClockLimit(cfg, i) == TierCapacity(cfg, i)
  {
    var s := MinerBaseSpeed(cfg.minerMK, i);
    var b := Belt(cfg);
    assert s * (b / s) == b;
    if MaxClock <= b / s {
      assert s * MaxClock <= s * (b / s);
    } else {
      assert s * (b / s) < s * MaxClock;
    }
  }

  lemma SpeedDoubles(cfg: Config)
    ensures MinerBaseSpeed(cfg.minerMK, 1) == 2.0 * MinerBaseSpeed(cfg.minerMK, 0)
    ensures MinerBaseSpeed(cfg.minerMK, 2) == 4.0 * MinerBaseSpeed(cfg.minerMK, 0)
  {
  }

  /** Higher purities saturate the belt at lower clocks. */
  lemma ClockLimitOrder(cfg: Config)
    ensures ClockLimit(cfg, 2) <= ClockLimit(cfg, 1) <= ClockLimit(cfg, 0)
  {
    var s0 := MinerBaseSpeed(cfg.minerMK, 0);
    var b := Belt(cfg);
    SpeedDoubles(cfg);
    assert b / (4.0 * s0) <= b / (2.0 * s0) <= b / s0;
  }

  /** Σ count·capacity over the three purities. */
  function OreCapacity(cfg: Config, n: Counts): (r: real)
    ensures r >= 0.0
  {
    n[0] as real * TierCapacity(cfg, 0) + n[1] as real * TierCapacity(cfg, 1) + n[2] as real * TierCapacity(cfg, 2)
  }

  /** MaxExtractOre: the node tuple must have three entries. */
  function MaxExtractOre(cfg: Config, nodes: seq<nat>): (r: Result<real>)
    ensures r.Err? <==> |nodes| != 3
    ensures r.Err? ==> r.error == MalformedNodes
    ensures r.Ok? ==> r.value == OreCapacity(cfg, nodes)
  {
    if |nodes| != 3 then Err(MalformedNodes)
    else Ok(OreCapacity(cfg, nodes))
  }

  /** Node capacity is MinerSpeed at clock 2.5, capped by the belt. */
  lemma TierCapacityIsMinerSpeed(cfg: Config)
    ensures TierCapacity(cfg, 0) == Min(Belt(cfg), MinerSpeed(cfg, "impure", MaxClock).value)
    ensures TierCapacity(cfg, 1) == Min(Belt(cfg), MinerSpeed(cfg, "normal", MaxClock).value)
    ensures TierCapacity(cfg, 2) == Min(Belt(cfg), MinerSpeed(cfg, "pure", MaxClock).value)
  {
  }

  predicate AllZero(n: Counts)
  {
    n[0] == 0 && n[1] == 0 && n[2] == 0
  }

  /** One real per purity, impure first: node counts as reals, or clocks. */
  datatype Triple = Triple(impure: real, normal: real, pure: real)
  {
    function At(i: nat): real
      requires i < 3
    {
      if i == 0 then impure else if i == 1 then normal else pure
    }
  }

  function Reals(n: Counts): Triple
  {
    Triple(n[0] as real, n[1] as real, n[2] as real)
  }

  /** Σ n_i·clock_i·2^i: output of the allocation in impure-miner units. */
  function Weighted(m: Triple, c: Triple): real
  {
    m.impure * c.impure + m.normal * c.normal * 2.0 + m.pure * c.pure * 4.0
  }

  /** Tiers without nodes get clock 0; this leaves the delivered output
      unchanged. */
  function ZeroEmpty(m: Triple, c: Triple): (r: Triple)
    ensures forall i :: 0 <= i < 3 ==> r.At(i) == if m.At(i) == 0.0 then 0.0 else c.At(i)
    ensures Weighted(m, r) == Weighted(m, c)
  {
    Triple(if m.impure == 0.0 then 0.0 else c.impure, if m.normal == 0.0 then 0.0 else c.normal,
           if m.pure == 0.0 then 0.0 else c.pure)
  }

  /** The power-law constants of the allocation: 2^0, 2^(5/3), 2^(8/3),
      2^(10/3), 4^(5/3) and 4^(8/3), as the scripts compute them. */
  datatype Powers = Powers(p0: real, p5: real, p8: real, p10: real, q5: real, q8: real)

  function PowersOf(pow: PowFn): Powers
  {
    Powers(pow(2.0, 0.0), pow(2.0, 5.0 / 3.0), pow(2.0, 8.0 / 3.0), pow(2.0, 10.0 / 3.0),
           pow(4.0, 5.0 / 3.0), pow(4.0, 8.0 / 3.0))
  }

  /** The linear identities between the constants: 2^0 = 1,
      2^(8/3) = 2·2^(5/3), 4^(8/3) = 4·4^(5/3) and 2^(10/3) = 4^(5/3). */
  predicate PowersLinear(k: Powers)
  {
    k.p0 == 1.0 && k.p8 == 2.0 * k.p5 && k.q8 == 4.0 * k.q5 && k.p10 == k.q5
  }

  /** All identities, adding 2^(5/3) > 1 and 4^(5/3) = (2^(5/3))^2. */
  predicate PowersExact(k: Powers)
  {
    PowersLinear(k) && k.p5 > 1.0 && k.q5 == k.p5 * k.p5
  }

  lemma PowersOfExact(pow: PowFn)
    requires PowLaws(pow)
    ensures PowersExact(PowersOf(pow))
  {
  }

  /** n0 + n1·2^(8/3) + n2·4^(8/3): the quota per unit of the common level
      when no tier is pinned. */
  function FirstDenominator(m: Triple, k: Powers): real
  {
    m.impure + m.normal * k.p8 + m.pure * k.q8
  }

  /** n0 + n1·2^(8/3): the same with the pure tier pinned. */
  function SecondDenominator(m: Triple, k: Powers): real
  {
    m.impure + m.normal * k.p8
  }

  /** The closed-form clocks of the three purities for a quota q in
      impure-miner units, given the node counts m. First all tiers share
      one marginal power (clocks z·2^(5i/3)); if the pure tier would exceed
      its limit l2 it is pinned there and the rest re-shared; then the
      normal tier likewise at l1, leaving the impure one to take the
      remainder. A zero denominator raises. */
  function RawShares(m: Triple, q: real, l1: real, l2: real, k: Powers): (r: Result<Triple>)
    ensures r.Err? ==> r.error == DivisionByZero
    ensures m == Triple(0.0, 0.0, 0.0) ==> r.Err?
  {
    if FirstDenominator(m, k) == 0.0 then Err(DivisionByZero)
    else PinPure(q / FirstDenominator(m, k), m, q, l1, l2, k)
  }

  /** The first branch at common level z, else the pure tier is pinned. */
  function PinPure(z: real, m: Triple, q: real, l1: real, l2: real, k: Powers): (r: Result<Triple>)
    ensures r.Err? ==> r.error == DivisionByZero
  {
    if z * k.q5 <= l2 then Ok(Triple(z * k.p0, z * k.p5, z * k.p10))
    else if SecondDenominator(m, k) == 0.0 then Err(DivisionByZero)
    else PinNormal((q - 4.0 * l2 * m.pure) / SecondDenominator(m, k), m, q, l1, l2, k)
  }

  /** The second branch at level z2, else the normal tier is pinned too. */
  function PinNormal(z2: real, m: Triple, q: real, l1: real, l2: real, k: Powers): (r: Result<Triple>)
    ensures r.Err? ==> r.error == DivisionByZero
  {
    if z2 * k.p5 <= l1 then Ok(Triple(z2, z2 * k.p5, l2))
    else if m.impure == 0.0 then Err(DivisionByZero)
    else Ok(Triple((q - 4.0 * l2 * m.pure - 2.0 * l1 * m.normal) / m.impure, l1, l2))
  }

  /** The allocation with the clocks of tiers without nodes set to 0. */
  function Shares(m: Triple, q: real, l1: real, l2: real, k: Powers): (r: Result<Triple>)
    ensures r.Ok? <==> RawShares(m, q, l1, l2, k).Ok?
    ensures r.Ok? ==> r.value == ZeroEmpty(m, RawShares(m, q, l1, l2, k).value)
    ensures r.Err? ==> r.error == DivisionByZero
  {
    match RawShares(m, q, l1, l2, k)
    case Err(e) => Err(e)
    case Ok(c) => Ok(ZeroEmpty(m, c))
  }

  /** Whatever the quota, every allocation delivers it exactly. */
  lemma RawSharesIdentity(m: Triple, q: real, l1: real, l2: real, k: Powers)
    requires PowersLinear(k)
    requires RawShares(m, q, l1, l2, k).Ok?
    ensures Weighted(m, RawShares(m, q, l1, l2, k).value) == q
  {
    var d1 := FirstDenominator(m, k);
    DivMul(q, d1);
    PinPureIdentity(q / d1, m, q, l1, l2, k);
  }

  lemma PinPureIdentity(z: real, m: Triple, q: real, l1: real, l2: real, k: Powers)
    requires PowersLinear(k)
    requires z * FirstDenominator(m, k) == q
    requires PinPure(z, m, q, l1, l2, k).Ok?
    ensures Weighted(m, PinPure(z, m, q, l1, l2, k).value) == q
  {
    if z * k.q5 <= l2 {
      IdentityFirst(m, k, q, z);
      PinPureFirst(z, m, q, l1, l2, k);
    } else {
      var d2 := SecondDenominator(m, k);
      var rest := q - 4.0 * l2 * m.pure;
      DivMul(rest, d2);
      PinNormalIdentity(rest / d2, m, q, l1, l2, k);
      PinPureSecond(z, m, q, l1, l2, k);
    }
  }

  lemma PinNormalIdentity(z2: real, m: Triple, q: real, l1: real, l2: real, k: Powers)
    requires PowersLinear(k)
    requires z2 * SecondDenominator(m, k) == q - 4.0 * l2 * m.pure
    requires PinNormal(z2, m, q, l1, l2, k).Ok?
    ensures Weighted(m, PinNormal(z2, m, q, l1, l2, k).value) == q
  {
    if z2 * k.p5 <= l1 {
      IdentitySecond(m, k, q, l2, z2);
    } else {
      IdentityThird(m, q, l1, l2);
    }
  }

  lemma DivMul(a: real, b: real)
    requires b != 0.0
    ensures (a / b) * b == a
  {
  }

  lemma IdentityFirst(m: Triple, k: Powers, q: real, z: real)
    requires PowersLinear(k)
    requires z * FirstDenominator(m, k) == q
    ensures Weighted(m, Triple(z * k.p0, z * k.p5, z * k.p10)) == q
  {
    assert m.normal * (z * k.p5) * 2.0 == z * (m.normal * k.p8);
    assert m.pure * (z * k.p10) * 4.0 == z * (m.pure * k.q8);
  }

  lemma IdentitySecond(m: Triple, k: Powers, q: real, l2: real, z2: real)
    requires PowersLinear(k)
    requires z2 * SecondDenominator(m, k) == q - 4.0 * l2 * m.pure
    ensures Weighted(m, Triple(z2, z2 * k.p5, l2)) == q
  {
    assert m.normal * (z2 * k.p5) * 2.0 == z2 * (m.normal * k.p8);
  }

  lemma IdentityThird(m: Triple, q: real, l1: real, l2: real)
    requires m.impure != 0.0
    ensures Weighted(m, Triple((q - 4.0 * l2 * m.pure - 2.0 * l1 * m.normal) / m.impure, l1, l2)) == q
  {
    var rest := q - 4.0 * l2 * m.pure - 2.0 * l1 * m.normal;
    assert m.impure * (rest / m.impure) == rest;
  }

  /** Node counts of a resource that has nodes: none negative, one positive. */
  predicate Occupied(m: Triple)
  {
    m.impure >= 0.0 && m.normal >= 0.0 && m.pure >= 0.0 && (m.impure > 0.0 || m.normal > 0.0 || m.pure > 0.0)
  }

  lemma RealsOccupied(n: Counts)
    ensures Occupied(Reals(n)) <==> !AllZero(n)
    ensures Reals(n) == Triple(0.0, 0.0, 0.0) <==> AllZero(n)
  {
  }

  /** Every clock between 0 and its tier's limit. */
  predicate Within(c: Triple, l0: real, l1: real, l2: real)
  {
    0.0 <= c.impure <= l0 && 0.0 <= c.normal <= l1 && 0.0 <= c.pure <= l2
  }

  /** Σ n_i·2^i·l_i: the quota in impure-miner units at which every tier is
      at its limit. */
  function LimitQuota(m: Triple, l0: real, l1: real, l2: real): real
  {
    m.impure * l0 + 2.0 * m.normal * l1 + 4.0 * m.pure * l2
  }

  /** Within the limits the allocation exists for a resource with nodes and
      every clock lies between 0 and its tier's limit. */
  lemma RawSharesBounds(m: Triple, q: real, l0: real, l1: real, l2: real, k: Powers)
    requires PowersExact(k)
    requires 0.0 < l2 <= l1 <= l0
    requires Occupied(m) && 0.0 <= q <= LimitQuota(m, l0, l1, l2)
    ensures RawShares(m, q, l1, l2, k).Ok?
    ensures Within(RawShares(m, q, l1, l2, k).value, l0, l1, l2)
  {
    var d1 := FirstDenominator(m, k);
    PositiveCounts(m, k);
    DivMul(q, d1);
    PinPureBounds(q / d1, m, q, l0, l1, l2, k);
  }

  lemma PinPureBounds(z: real, m: Triple, q: real, l0: real, l1: real, l2: real, k: Powers)
    requires PowersExact(k)
    requires 0.0 < l2 <= l1 <= l0
    requires Occupied(m) && 0.0 <= q <= LimitQuota(m, l0, l1, l2)
    requires FirstDenominator(m, k) > 0.0 && z * FirstDenominator(m, k) == q
    ensures PinPure(z, m, q, l1, l2, k).Ok?
    ensures Within(PinPure(z, m, q, l1, l2, k).value, l0, l1, l2)
  {
    if z * k.q5 <= l2 {
      BoundsFirst(k, q, FirstDenominator(m, k), z, l0, l1, l2);
      PinPureFirst(z, m, q, l1, l2, k);
    } else {
      PinPureBeyond(z, m, q, l0, l1, l2, k);
    }
  }

  lemma PinPureBeyond(z: real, m: Triple, q: real, l0: real, l1: real, l2: real, k: Powers)
    requires PowersExact(k)
    requires 0.0 < l2 <= l1 <= l0
    requires Occupied(m) && 0.0 <= q <= LimitQuota(m, l0, l1, l2)
    requires FirstDenominator(m, k) > 0.0 && z * FirstDenominator(m, k) == q
    requires z * k.q5 > l2
    ensures PinPure(z, m, q, l1, l2, k).Ok?
    ensures Within(PinPure(z, m, q, l1, l2, k).value, l0, l1, l2)
  {
    BeyondFirst(m, k, q, z, l2);
    SecondDenominatorPositive(m, k, q, l0, l1, l2);
    PinNormalBounds(m, q, l0, l1, l2, k);
    PinPureSecond(z, m, q, l1, l2, k);
  }

  lemma PinPureFirst(z: real, m: Triple, q: real, l1: real, l2: real, k: Powers)
    requires z * k.q5 <= l2
    ensures PinPure(z, m, q, l1, l2, k).Ok? && PinPure(z, m, q, l1, l2, k).value == Triple(z * k.p0, z * k.p5, z * k.p10)
  {
  }

  lemma PinPureSecond(z: real, m: Triple, q: real, l1: real, l2: real, k: Powers)
    requires z * k.q5 > l2 && SecondDenominator(m, k) != 0.0
    ensures var r := PinNormal((q - 4.0 * l2 * m.pure) / SecondDenominator(m, k), m, q, l1, l2, k);
            && (PinPure(z, m, q, l1, l2, k).Ok? <==> r.Ok?)
            && (r.Ok? ==> PinPure(z, m, q, l1, l2, k).value == r.value)
  {
  }

  lemma PinNormalBounds(m: Triple, q: real, l0: real, l1: real, l2: real, k: Powers)
    requires PowersExact(k)
    requires 0.0 < l2 <= l1 <= l0
    requires Occupied(m) && q <= LimitQuota(m, l0, l1, l2)
    requires m.pure > 0.0 ==> q > 4.0 * l2 * m.pure
    requires q - 4.0 * l2 * m.pure >= 0.0
    requires SecondDenominator(m, k) > 0.0
    ensures var z2 := (q - 4.0 * l2 * m.pure) / SecondDenominator(m, k);
            PinNormal(z2, m, q, l1, l2, k).Ok? && Within(PinNormal(z2, m, q, l1, l2, k).value, l0, l1, l2)
  {
    var rest := q - 4.0 * l2 * m.pure;
    var z2 := rest / SecondDenominator(m, k);
    DivMul(rest, SecondDenominator(m, k));
    if z2 * k.p5 <= l1 {
      BoundsSecond(k, rest, SecondDenominator(m, k), z2, l0, l1);
      PinNormalSecond(z2, m, q, l1, l2, k);
    } else {
      PinNormalBeyond(z2, m, q, l0, l1, l2, k);
    }
  }

  lemma PinNormalBeyond(z2: real, m: Triple, q: real, l0: real, l1: real, l2: real, k: Powers)
    requires PowersExact(k)
    requires 0.0 < l2 <= l1 <= l0
    requires Occupied(m) && q <= LimitQuota(m, l0, l1, l2)
    requires m.pure > 0.0 ==> q > 4.0 * l2 * m.pure
    requires SecondDenominator(m, k) > 0.0 && z2 * SecondDenominator(m, k) == q - 4.0 * l2 * m.pure
    requires z2 * k.p5 > l1
    ensures PinNormal(z2, m, q, l1, l2, k).Ok? && Within(PinNormal(z2, m, q, l1, l2, k).value, l0, l1, l2)
  {
    BeyondSecond(m, k, q - 4.0 * l2 * m.pure, z2, l1);
    ThirdDenominator(m, q, l0, l1, l2);
    BoundsThird(m, q, l0, l1, l2);
    PinNormalThird(z2, m, q, l1, l2, k);
  }

  lemma PinNormalSecond(z2: real, m: Triple, q: real, l1: real, l2: real, k: Powers)
    requires z2 * k.p5 <= l1
    ensures PinNormal(z2, m, q, l1, l2, k).Ok? && PinNormal(z2, m, q, l1, l2, k).value == Triple(z2, z2 * k.p5, l2)
  {
  }

  lemma PinNormalThird(z2: real, m: Triple, q: real, l1: real, l2: real, k: Powers)
    requires z2 * k.p5 > l1 && m.impure != 0.0
    ensures PinNormal(z2, m, q, l1, l2, k).Ok?
    ensures PinNormal(z2, m, q, l1, l2, k).value
            == Triple((q - 4.0 * l2 * m.pure - 2.0 * l1 * m.normal) / m.impure, l1, l2)
  {
  }

  lemma PositiveCounts(m: Triple, k: Powers)
    requires PowersExact(k) && Occupied(m)
    ensures FirstDenominator(m, k) > 0.0
  {
    assert k.p8 > 0.0 && k.q8 > 0.0;
  }

  /** Past the first branch the normal and impure tiers cannot both be
      empty: the pure tier alone would then need more than its capacity. */
  lemma SecondDenominatorPositive(m: Triple, k: Powers, q: real, l0: real, l1: real, l2: real)
    requires PowersExact(k) && Occupied(m) && l0 > 0.0
    requires m.pure > 0.0 ==> q > 4.0 * l2 * m.pure
    requires q <= LimitQuota(m, l0, l1, l2)
    ensures SecondDenominator(m, k) > 0.0
  {
    if m.normal > 0.0 {
      assert m.normal * k.p8 > 0.0;
    } else if m.pure > 0.0 {
      assert m.normal * l1 == 0.0;
      assert m.impure * l0 > 0.0;
      SignOfFactor(m.impure, l0);
    }
  }

  /** Past the second branch the impure tier is occupied. */
  lemma ThirdDenominator(m: Triple, q: real, l0: real, l1: real, l2: real)
    requires Occupied(m) && l0 > 0.0
    requires m.pure > 0.0 ==> q > 4.0 * l2 * m.pure
    requires m.normal > 0.0 ==> q - 4.0 * l2 * m.pure > 2.0 * l1 * m.normal
    requires q <= LimitQuota(m, l0, l1, l2)
    ensures m.impure > 0.0
  {
    if m.normal > 0.0 || m.pure > 0.0 {
      assert m.impure * l0 > 0.0;
      SignOfFactor(m.impure, l0);
    }
  }

  lemma SignOfFactor(x: real, y: real)
    requires y > 0.0
    ensures x * y >= 0.0 ==> x >= 0.0
    ensures x * y > 0.0 ==> x > 0.0
    ensures x * y < 0.0 ==> x < 0.0
  {
  }

  lemma MulGrow(x: real, a: real)
    requires x >= 0.0 && a >= 1.0
    ensures x <= x * a
  {
    assert x * a - x == x * (a - 1.0);
  }

  lemma BoundsFirst(k: Powers, q: real, d1: real, z: real, l0: real, l1: real, l2: real)
    requires PowersExact(k)
    requires q >= 0.0 && d1 > 0.0 && z * d1 == q
    requires z * k.q5 <= l2 <= l1 <= l0
    ensures Within(Triple(z * k.p0, z * k.p5, z * k.p10), l0, l1, l2)
  {
    SignOfFactor(z, d1);
    var y := z * k.p5;
    var w := z * k.q5;
    MulGrow(z, k.p5);
    MulGrow(y, k.p5);
    SquareFactor(z, k.p5, k.q5);
    assert z * k.p0 == z && z * k.p10 == w;
    Ascending(z, y, w, l0, l1, l2);
  }

  lemma SquareFactor(z: real, p: real, q: real)
    requires q == p * p
    ensures (z * p) * p == z * q
  {
  }

  /** Clocks that ascend below the descending limits lie within them. */
  lemma Ascending(a: real, b: real, c: real, l0: real, l1: real, l2: real)
    requires 0.0 <= a <= b <= c <= l2 <= l1 <= l0
    ensures Within(Triple(a, b, c), l0, l1, l2)
  {
  }

  lemma BoundsSecond(k: Powers, rest: real, d2: real, z2: real, l0: real, l1: real)
    requires PowersExact(k)
    requires rest >= 0.0 && d2 > 0.0 && z2 * d2 == rest
    requires z2 * k.p5 <= l1 <= l0
    ensures 0.0 <= z2 <= l0 && 0.0 <= z2 * k.p5 <= l1
  {
    SignOfFactor(z2, d2);
    MulGrow(z2, k.p5);
  }

  lemma BoundsThird(m: Triple, q: real, l0: real, l1: real, l2: real)
    requires m.impure > 0.0
    requires q - 4.0 * l2 * m.pure - 2.0 * l1 * m.normal >= 0.0
    requires q <= LimitQuota(m, l0, l1, l2)
    ensures 0.0 <= (q - 4.0 * l2 * m.pure - 2.0 * l1 * m.normal) / m.impure <= l0
  {
    var z3 := (q - 4.0 * l2 * m.pure - 2.0 * l1 * m.normal) / m.impure;
    assert z3 * m.impure == q - 4.0 * l2 * m.pure - 2.0 * l1 * m.normal;
    assert z3 * m.impure <= l0 * m.impure;
  }

  /** Past the first branch the pure tier alone needs more than its limit,
      so the remaining quota is non-negative. */
  lemma BeyondFirst(m: Triple, k: Powers, q: real, z: real, l2: real)
    requires PowersExact(k) && Occupied(m) && l2 > 0.0
    requires FirstDenominator(m, k) > 0.0 && z * FirstDenominator(m, k) == q
    requires z * k.q5 > l2
    ensures q - 4.0 * l2 * m.pure >= 0.0
    ensures m.pure > 0.0 ==> q > 4.0 * l2 * m.pure
  {
    SignOfFactor(z, k.q5);
    PartOfSum(z, m.impure + m.normal * k.p8, m.pure * k.q8);
    assert z * (m.pure * k.q8) == 4.0 * m.pure * (z * k.q5);
    ScaleAbove(4.0 * m.pure, z * k.q5, l2);
  }

  lemma BeyondSecond(m: Triple, k: Powers, rest: real, z2: real, l1: real)
    requires PowersExact(k) && Occupied(m) && l1 > 0.0
    requires SecondDenominator(m, k) > 0.0 && z2 * SecondDenominator(m, k) == rest
    requires z2 * k.p5 > l1
    ensures rest - 2.0 * l1 * m.normal >= 0.0
    ensures m.normal > 0.0 ==> rest > 2.0 * l1 * m.normal
  {
    SignOfFactor(z2, k.p5);
    PartOfSum(z2, m.impure, m.normal * k.p8);
    assert z2 * (m.normal * k.p8) == 2.0 * m.normal * (z2 * k.p5);
    ScaleAbove(2.0 * m.normal, z2 * k.p5, l1);
  }

  lemma PartOfSum(z: real, a: real, b: real)
    requires z >= 0.0 && a >= 0.0
    ensures z * (a + b) >= z * b
  {
    assert z * (a + b) == z * a + z * b;
  }

  lemma ScaleAbove(c: real, x: real, y: real)
    requires c >= 0.0 && x > y
    ensures c * x >= c * y
    ensures c > 0.0 ==> c * x > c * y
  {
    assert c * x - c * y == c * (x - y);
  }

  /** A negative quota on a resource with nodes takes the first branch and
      drives every tier's clock below 0. */
  lemma RawSharesNegative(m: Triple, q: real, l1: real, l2: real, k: Powers)
    requires PowersExact(k)
    requires Occupied(m) && q < 0.0 && l2 > 0.0
    ensures RawShares(m, q, l1, l2, k).Ok?
    ensures var c := RawShares(m, q, l1, l2, k).value; c.impure < 0.0 && c.normal < 0.0 && c.pure < 0.0
  {
    var d1 := FirstDenominator(m, k);
    PositiveCounts(m, k);
    DivMul(q, d1);
    PinPureNegative(q / d1, m, q, l1, l2, k);
  }

  lemma PinPureNegative(z: real, m: Triple, q: real, l1: real, l2: real, k: Powers)
    requires PowersExact(k)
    requires q < 0.0 && l2 > 0.0
    requires FirstDenominator(m, k) > 0.0 && z * FirstDenominator(m, k) == q
    ensures PinPure(z, m, q, l1, l2, k).Ok?
    ensures var c := PinPure(z, m, q, l1, l2, k).value; c.impure < 0.0 && c.normal < 0.0 && c.pure < 0.0
  {
    SignOfFactor(z, FirstDenominator(m, k));
    assert z * k.q5 < 0.0 && z * k.p5 < 0.0;
  }

  /** The clocks of the nodes of one resource for a quota, with the clock
      limits and constants of the configuration. */
  function OreClocks(cfg: Config, n: Counts, quota: real): (r: Result<Triple>)
    ensures r.Err? ==> r.error == DivisionByZero
    ensures AllZero(n) ==> r.Err?
  {
    RealsOccupied(n);
    Shares(Reals(n), quota / MinerBaseSpeed(cfg.minerMK, 0), ClockLimit(cfg, 1), ClockLimit(cfg, 2), PowersOf(cfg.pow))
  }

  /** The identity the scripts assert after allocating: whatever the quota,
      every allocation delivers it exactly, Σ n_i·clock_i·2^i = quota / s0
      with s0 the impure miner speed. */
  lemma OreClocksIdentity(cfg: Config, n: Counts, quota: real)
    requires PowLaws(cfg.pow)
    requires OreClocks(cfg, n, quota).Ok?
    ensures Weighted(Reals(n), OreClocks(cfg, n, quota).value) == quota / MinerBaseSpeed(cfg.minerMK, 0)
  {
    PowersOfExact(cfg.pow);
    RawSharesIdentity(Reals(n), quota / MinerBaseSpeed(cfg.minerMK, 0), ClockLimit(cfg, 1), ClockLimit(cfg, 2), PowersOf(cfg.pow));
  }

  /** Within the extraction limit the allocation always exists for a
      resource with nodes, every clock lies between 0 and its tier's limit,
      and tiers without nodes idle. */
  lemma OreClocksBounds(cfg: Config, n: Counts, quota: real)
    requires PowLaws(cfg.pow)
    requires !AllZero(n) && 0.0 <= quota <= OreCapacity(cfg, n)
    ensures OreClocks(cfg, n, quota).Ok?
    ensures forall i :: 0 <= i < 3 ==> 0.0 <= OreClocks(cfg, n, quota).value.At(i) <= ClockLimit(cfg, i)
    ensures forall i :: 0 <= i < 3 && n[i] == 0 ==> OreClocks(cfg, n, quota).value.At(i) == 0.0
  {
    var q := quota / MinerBaseSpeed(cfg.minerMK, 0);
    ClockLimitOrder(cfg);
    QuotaWithinLimits(cfg, n, quota);
    PowersOfExact(cfg.pow);
    RealsOccupied(n);
    RawSharesBounds(Reals(n), q, ClockLimit(cfg, 0), ClockLimit(cfg, 1), ClockLimit(cfg, 2), PowersOf(cfg.pow));
    var c := OreClocks(cfg, n, quota).value;
    forall i | 0 <= i < 3
      ensures 0.0 <= c.At(i) <= ClockLimit(cfg, i)
      ensures n[i] == 0 ==> c.At(i) == 0.0
    {
      assert Reals(n).At(i) == n[i] as real;
    }
  }

  /** The quota in impure-miner units is at most Σ n_i·2^i·l_i. */
  lemma QuotaWithinLimits(cfg: Config, n: Counts, quota: real)
    requires 0.0 <= quota <= OreCapacity(cfg, n)
    ensures 0.0 <= quota / MinerBaseSpeed(cfg.minerMK, 0)
              <= LimitQuota(Reals(n), ClockLimit(cfg, 0), ClockLimit(cfg, 1), ClockLimit(cfg, 2))
  {
    var s0 := MinerBaseSpeed(cfg.minerMK, 0);
    ClockLimitCapacity(cfg, 0);
    ClockLimitCapacity(cfg, 1);
    ClockLimitCapacity(cfg, 2);
    SpeedDoubles(cfg);
    var m := LimitQuota(Reals(n), ClockLimit(cfg, 0), ClockLimit(cfg, 1), ClockLimit(cfg, 2));
    assert OreCapacity(cfg, n) == s0 * m;
    assert quota / s0 <= (s0 * m) / s0;
  }

  /** A negative quota drives some occupied tier's clock below 0. */
  lemma NegativeQuotaClock(cfg: Config, n: Counts, quota: real)
    requires PowLaws(cfg.pow)
    requires !AllZero(n) && quota < 0.0
    ensures OreClocks(cfg, n, quota).Ok?
    ensures exists i :: 0 <= i < 3 && OreClocks(cfg, n, quota).value.At(i) < 0.0
  {
    PowersOfExact(cfg.pow);
    RealsOccupied(n);
    var q := quota / MinerBaseSpeed(cfg.minerMK, 0);
    RawSharesNegative(Reals(n), q, ClockLimit(cfg, 1), ClockLimit(cfg, 2), PowersOf(cfg.pow));
    var c := OreClocks(cfg, n, quota).value;
    if n[0] != 0 {
      assert c.At(0) < 0.0;
    } else if n[1] != 0 {
      assert c.At(1) < 0.0;
    } else {
      assert c.At(2) < 0.0;
    }
  }

  /** Σ n_i·base·clock_i^1.6, the unchecked power of optimizer2.py. */
  function OrePower(cfg: Config, n: Counts, c: Triple): real
  {
    var b := MinerBasePower(cfg.minerMK);
    n[0] as real * (b * cfg.pow(c.impure, MinerExponent)) + n[1] as real * (b * cfg.pow(c.normal, MinerExponent))
      + n[2] as real * (b * cfg.pow(c.pure, MinerExponent))
  }

  /** Σ n_i·MinerPower(clock_i) of optimizer.py, which raises for a clock
      outside [0, 2.5]. */
  function CheckedOrePower(cfg: Config, n: Counts, c: Triple): (r: Result<real>)
    ensures r.Ok? <==> forall i :: 0 <= i < 3 ==> 0.0 <= c.At(i) <= MaxClock
    ensures r.Ok? ==> r.value == OrePower(cfg, n, c)
    ensures r.Err? ==> r.error == InvalidClock
  {
    var p0 := MinerPower(cfg, c.impure);
    var p1 := MinerPower(cfg, c.normal);
    var p2 := MinerPower(cfg, c.pure);
    assert c.At(0) == c.impure && c.At(1) == c.normal && c.At(2) == c.pure;
    if p0.Err? || p1.Err? || p2.Err? then Err(InvalidClock)
    else Ok(n[0] as real * p0.value + n[1] as real * p1.value + n[2] as real * p2.value)
  }

  datatype OreExtraction = OreExtraction(clocks: Triple, power: real)

  /** ExtractionOre of optimizer.py: malformed nodes, then a quota above
      MaxExtractOre, raise; the allocation's power is checked per miner. */
  function ExtractionOre(cfg: Config, nodes: seq<nat>, quota: real): (r: Result<OreExtraction>)
    ensures |nodes| != 3 ==> r == Err(MalformedNodes)
    ensures |nodes| == 3 && quota > OreCapacity(cfg, nodes) ==> r == Err(QuotaTooHigh)
    ensures r.Ok? ==> |nodes| == 3 && OreClocks(cfg, nodes, quota) == Ok(r.value.clocks)
    ensures r.Ok? ==> r.value.power == OrePower(cfg, nodes, r.value.clocks)
  {
    if |nodes| != 3 then Err(MalformedNodes)
    else if quota > OreCapacity(cfg, nodes) then Err(QuotaTooHigh)
    else match OreClocks(cfg, nodes, quota)
      case Err(e) => Err(e)
      case Ok(c) =>
        match CheckedOrePower(cfg, nodes, c)
        case Err(e) => Err(e)
        case Ok(w) => Ok(OreExtraction(c, w))
  }

  /** ExtractionOre succeeds exactly for a quota between 0 and the limit on
      a resource that has nodes; its clocks then respect the tier limits
      and deliver the quota. */
  lemma ExtractionOreDefined(cfg: Config, nodes: seq<nat>, quota: real)
    requires PowLaws(cfg.pow)
    requires |nodes| == 3
    ensures ExtractionOre(cfg, nodes, quota).Ok? <==> !AllZero(nodes) && 0.0 <= quota <= OreCapacity(cfg, nodes)
    ensures ExtractionOre(cfg, nodes, quota).Ok? ==>
              && (forall i :: 0 <= i < 3 ==> 0.0 <= ExtractionOre(cfg, nodes, quota).value.clocks.At(i) <= ClockLimit(cfg, i))
              && Weighted(Reals(nodes), ExtractionOre(cfg, nodes, quota).value.clocks)
                 == quota / MinerBaseSpeed(cfg.minerMK, 0)
  {
    if !AllZero(nodes) && 0.0 <= quota <= OreCapacity(cfg, nodes) {
      OreClocksBounds(cfg, nodes, quota);
      OreClocksIdentity(cfg, nodes, quota);
    } else if !AllZero(nodes) && quota < 0.0 {
      NegativeQuotaClock(cfg, nodes, quota);
    }
  }

  /** The deposits of optimizer2.py: one node triple per resource, a list
      of well triples per resource, and the set of limited resources. */
  datatype Deposits = Deposits(nodes: map<Item, Counts>, wells: map<Item, seq<Counts>>, limited: set<Item>)

  const CrudeOil: Item := "Crude Oil"

  /** Capacity of a well triple: pressurised extractors deliver 30·2^i per
      minute at clock 1, capped by the pipe. */
  function WellCapacity(cfg: Config, w: Counts): (r: real)
    ensures r >= 0.0
  {
    w[0] as real * Min(Pipe(cfg), 30.0 * MaxClock) + w[1] as real * Min(Pipe(cfg), 30.0 * MaxClock * 2.0)
      + w[2] as real * Min(Pipe(cfg), 30.0 * MaxClock * 4.0)
  }

  function WellsCapacity(cfg: Config, ws: seq<Counts>): (r: real)
    ensures r >= 0.0
  {
    if |ws| == 0 then 0.0 else WellCapacity(cfg, ws[0]) + WellsCapacity(cfg, ws[1..])
  }

  /** Registering one more well raises the limit by that well's capacity. */
  lemma {:induction false} WellsCapacityAppend(cfg: Config, ws: seq<Counts>, w: Counts)
    ensures WellsCapacity(cfg, ws + [w]) == WellsCapacity(cfg, ws) + WellCapacity(cfg, w)
  {
    if |ws| == 0 {
      assert ws + [w] == [w];
      assert [w][1..] == [];
    } else {
      assert (ws + [w])[1..] == ws[1..] + [w];
      WellsCapacityAppend(cfg, ws[1..], w);
    }
  }

  /** Capacity of a node triple: crude oil goes through the pipe at 60·2^i
      per minute, every other resource is mined onto a belt. */
  function NodeCapacity(cfg: Config, resource: Item, n: Counts): (r: real)
    ensures r >= 0.0
  {
    if resource == CrudeOil then
      n[0] as real * Min(Pipe(cfg), 60.0 * MaxClock) + n[1] as real * Min(Pipe(cfg), 60.0 * MaxClock * 2.0)
        + n[2] as real * Min(Pipe(cfg), 60.0 * MaxClock * 4.0)
    else OreCapacity(cfg, n)
  }

  /** limitExtract: only limited resources have a limit; it sums the nodes'
      and the wells' capacities. */
  function LimitExtract(cfg: Config, d: Deposits, resource: Item): (r: Result<real>)
    ensures r.Err? <==> resource !in d.limited
    ensures r.Err? ==> r.error == NotLimited
    ensures r.Ok? ==> r.value >= 0.0
    ensures r.Ok? ==> r.value == (if resource in d.nodes then NodeCapacity(cfg, resource, d.nodes[resource]) else 0.0)
                                + (if resource in d.wells then WellsCapacity(cfg, d.wells[resource]) else 0.0)
  {
    if resource !in d.limited then Err(NotLimited)
    else
      (var fromNodes := if resource in d.nodes then NodeCapacity(cfg, resource, d.nodes[resource]) else 0.0;
       var fromWells := if resource in d.wells then WellsCapacity(cfg, d.wells[resource]) else 0.0;
       Ok(fromNodes + fromWells))
  }

  /** For an ore without wells the limit of optimizer2.py is the
      MaxExtractOre of optimizer.py. */
  lemma LimitExtractMatchesMaxExtractOre(cfg: Config, d: Deposits, resource: Item)
    requires resource in d.limited && resource in d.nodes && resource !in d.wells && resource != CrudeOil
    ensures LimitExtract(cfg, d, resource) == MaxExtractOre(cfg, d.nodes[resource])
  {
  }

  /** extractOre of optimizer2.py: a resource without nodes, then a quota
      above the limit, raise; the power is not checked per miner. */
  function ExtractOre(cfg: Config, d: Deposits, resource: Item, quota: real): (r: Result<OreExtraction>)
    ensures resource !in d.nodes ==> r == Err(UnknownResource)
    ensures resource in d.nodes && resource !in d.limited ==> r == Err(NotLimited)
    ensures resource in d.nodes && resource in d.limited && quota > LimitExtract(cfg, d, resource).value
            ==> r == Err(QuotaTooHigh)
    ensures r.Ok? ==> resource in d.nodes && OreClocks(cfg, d.nodes[resource], quota) == Ok(r.value.clocks)
    ensures r.Ok? ==> r.value.power == OrePower(cfg, d.nodes[resource], r.value.clocks)
  {
    if resource !in d.nodes then Err(UnknownResource)
    else match LimitExtract(cfg, d, resource)
      case Err(e) => Err(e)
      case Ok(lim) =>
        if quota > lim then Err(QuotaTooHigh)
        else match OreClocks(cfg, d.nodes[resource], quota)
          case Err(e) => Err(e)
          case Ok(c) => Ok(OreExtraction(c, OrePower(cfg, d.nodes[resource], c)))
  }

  /** Where optimizer.py's ExtractionOre succeeds on the same nodes,
      optimizer2.py's extractOre returns the same clocks and power, and
      every in-range quota of an ore with nodes is served. */
  lemma ExtractOreAgrees(cfg: Config, d: Deposits, resource: Item, quota: real)
    requires PowLaws(cfg.pow)
    requires resource in d.limited && resource in d.nodes && resource !in d.wells && resource != CrudeOil
    ensures ExtractOre(cfg, d, resource, quota).Ok? <==>
              !AllZero(d.nodes[resource]) && quota <= LimitExtract(cfg, d, resource).value
    ensures ExtractionOre(cfg, d.nodes[resource], quota).Ok? ==>
              ExtractOre(cfg, d, resource, quota) == ExtractionOre(cfg, d.nodes[resource], quota)
  {
    var n := d.nodes[resource];
    LimitExtractMatchesMaxExtractOre(cfg, d, resource);
    ExtractionOreDefined(cfg, n, quota);
    if !AllZero(n) && quota <= OreCapacity(cfg, n) && quota < 0.0 {
      NegativeQuotaClock(cfg, n, quota);
    }
  }
}
