/** The general settings of each optimizer script and the game's constant
    tables: building marks, miner speeds and powers, belt and pipe
    capacities, and the free power budget from geysers and alien power
    augmenters (APAs). */
module Settings {
  import opened Basics

  type MinerMark = m: int | 1 <= m <= 3 witness 1
  type BeltMark = m: int | 1 <= m <= 6 witness 1
  type PipeMark = m: int | 1 <= m <= 2 witness 1

  /** Counts of occupied geysers by purity: impure, normal, pure. */
  type Geysers = s: seq<nat> | |s| == 3 witness [0, 0, 0]

  /** One script's settings block, plus the power law its arithmetic uses. */
  datatype Config = Config(
    minerMK: MinerMark,
    beltMK: BeltMark,
    pipeMK: PipeMark,
    geysers: Geysers,
    freeExtraPower: real,    // free power besides geysers (negative: a standing drain)
    pumpsPerPipe: real,      // pipeline pumps charged to water extractors
    minClock: real,          // lowest clock an extraction recipe may run at
    totalSloops: nat,        // somersloops available in the save
    procExponent: real,      // clock-to-power exponent of processing buildings
    extractClockSteps: nat,  // points of the extraction clock grid
    sloopClockSteps: nat,    // points of the overclocked somersloop clock grid
    pow: PowFn)

  const MaxClock: real := 2.5
  const GeothermalBasePower: real := 100.0

  function MinerBasePower(mk: MinerMark): (r: real)
    ensures r > 0.0
  {
    if mk == 1 then 5.0 else if mk == 2 then 12.0 else 30.0
  }

  /** Items per minute of a mark-mk miner at clock 1 on a node of the given
      purity index (0 impure, 1 normal, 2 pure). */
  function MinerBaseSpeed(mk: MinerMark, purity: nat): (r: real)
    requires purity < 3
    ensures r > 0.0
  {
    // 30, 60 and 120 per minute on an impure node for marks 1 to 3; each
    // purity step doubles the speed
    (if mk == 1 then 30.0 else if mk == 2 then 60.0 else 120.0)
      * (if purity == 0 then 1.0 else if purity == 1 then 2.0 else 4.0)
  }

  /** The speed table is fixed by its corner and two doublings: a mark-1
      miner on an impure node makes 30 per minute, and each step up in mark
      or in purity doubles the speed. */
  lemma MinerSpeedTable(mk: MinerMark, purity: nat)
    requires purity < 3
    ensures MinerBaseSpeed(1, 0) == 30.0
    ensures purity > 0 ==> MinerBaseSpeed(mk, purity) == 2.0 * MinerBaseSpeed(mk, purity - 1)
    ensures mk > 1 ==> MinerBaseSpeed(mk, purity) == 2.0 * MinerBaseSpeed(mk - 1, purity)
  {
  }

  function BeltCapacity(mk: BeltMark): (r: real)
    ensures r > 0.0
  {
    if mk == 1 then 60.0 else if mk == 2 then 120.0 else if mk == 3 then 270.0
    else if mk == 4 then 480.0 else if mk == 5 then 780.0 else 1200.0
  }

  function PipeCapacity(mk: PipeMark): (r: real)
    ensures r > 0.0
  {
    if mk == 1 then 300.0 else 600.0
  }

  function Belt(cfg: Config): real { BeltCapacity(cfg.beltMK) }

  function Pipe(cfg: Config): real { PipeCapacity(cfg.pipeMK) }

  /** Power of the occupied geysers: an impure geyser yields the base power
      and every purity step doubles it. */
  function GeyserPower(cfg: Config): (r: real)
    ensures r >= 0.0
  {
    cfg.geysers[0] as real * GeothermalBasePower
      + cfg.geysers[1] as real * GeothermalBasePower * 2.0
      + cfg.geysers[2] as real * GeothermalBasePower * 4.0
  }

  /** Free power of the scripts without APAs: geysers plus the extra term. */
  function FreePower(cfg: Config): real
  {
    GeyserPower(cfg) + cfg.freeExtraPower
  }

  /** Boost factor of u unfueled and f fueled APAs: +10% each, fueled triple. */
  function ApaBoost(u: nat, f: nat): (r: real)
    ensures r >= 1.0
  {
    1.0 + (u as real + 3.0 * f as real) / 10.0
  }

  /** Free power with APAs: each APA adds 500 MW and the boost multiplies
      the geyser power; a non-negative extra term is boosted as well, a
      negative one (a drain) is not. */
  function FreePowerApa(cfg: Config, u: nat, f: nat): real
  {
    if cfg.freeExtraPower >= 0.0 then
      (GeyserPower(cfg) + cfg.freeExtraPower + 500.0 * (u + f) as real) * ApaBoost(u, f)
    else
      (GeyserPower(cfg) + 500.0 * (u + f) as real) * ApaBoost(u, f) + cfg.freeExtraPower
  }

  /** Without APAs the somersloop script's budget is the plain one. */
  lemma FreePowerApaNone(cfg: Config)
    ensures FreePowerApa(cfg, 0, 0) == FreePower(cfg)
  {
  }

  /** More APAs of either kind never lower the budget. */
  lemma FreePowerApaMonotone(cfg: Config, u: nat, f: nat, u': nat, f': nat)
    requires u <= u' && f <= f'
    ensures FreePowerApa(cfg, u, f) <= FreePowerApa(cfg, u', f')
  {
    var base := if cfg.freeExtraPower >= 0.0 then GeyserPower(cfg) + cfg.freeExtraPower
                else GeyserPower(cfg);
    var extra := if cfg.freeExtraPower >= 0.0 then 0.0 else cfg.freeExtraPower;
    assert (u + f) as real <= (u' + f') as real;
    ShiftedProduct(base, 500.0 * (u + f) as real, 500.0 * (u' + f') as real,
                   ApaBoost(u, f), ApaBoost(u', f'), extra);
  }

  /** (base + n)·b + e grows with n and b. */
  lemma ShiftedProduct(base: real, n: real, n': real, b: real, b': real, e: real)
    requires 0.0 <= base && 0.0 <= n <= n' && 0.0 <= b <= b'
    ensures (base + n) * b + e <= (base + n') * b' + e
  {
    MulMonotone(base + n, base + n', b);
    MulMonotone(b, b', base + n');
  }

  lemma MulMonotone(a: real, a': real, c: real)
    requires 0.0 <= a <= a' && 0.0 <= c
    ensures a * c <= a' * c && c * a <= c * a'
  {
    assert a' * c - a * c == (a' - a) * c;
  }

  /** Fuelling one of the APAs instead of leaving it unfuelled gains power. */
  lemma FreePowerFuelGain(cfg: Config, u: nat, f: nat)
    ensures FreePowerApa(cfg, u + 1, f) < FreePowerApa(cfg, u, f + 1)
  {
    var base := if cfg.freeExtraPower >= 0.0 then GeyserPower(cfg) + cfg.freeExtraPower
                else GeyserPower(cfg);
    var a := base + 500.0 * (u + 1 + f) as real;
    assert a > 0.0;
    assert ApaBoost(u + 1, f) < ApaBoost(u, f + 1);
    assert a * (ApaBoost(u, f + 1) - ApaBoost(u + 1, f)) > 0.0;
  }

  /** optimizer.py: no free extra power, no minimum extraction clock. */
  function FirstConfig(pow: PowFn): Config {
    Config(3, 5, 2, [3, 9, 6], 0.0, 0.0, 0.0, 0, 1.6, 0, 0, pow)
  }

  /** optimizer2.py: the same game state; extraction is still linearised. */
  function SecondConfig(pow: PowFn): Config {
    Config(3, 5, 2, [3, 9, 6], 0.0, 0.0, 0.0, 0, 1.6, 0, 0, pow)
  }

  /** optimizer3.py: discretised extraction from a minimum clock of 1%. */
  function ThirdConfig(pow: PowFn): Config {
    Config(3, 5, 2, [3, 9, 6], 0.0, 0.0, 0.01, 0, 1.321928, 500, 0, pow)
  }

  /** optimizerSomer.py: mark-6 belts, more geysers, a water-well drain and
      104 somersloops; the processing exponent log2(2.5) is irrational and
      passed in. */
  function SomerConfig(pow: PowFn, log2of25: real): Config {
    Config(3, 6, 2, [9, 13, 9], -125.9863872, 0.0, 0.01, 104, log2of25, 100, 2, pow)
  }

  lemma ThirdConfigBudget(pow: PowFn)
    ensures FreePower(ThirdConfig(pow)) == 4500.0
  {
  }

  lemma SomerConfigBudget(pow: PowFn, e: real)
    ensures FreePowerApa(SomerConfig(pow, e), 0, 0) == 7100.0 - 125.9863872
    ensures FreePowerApa(SomerConfig(pow, e), 0, 10) == (7100.0 + 5000.0) * 4.0 - 125.9863872
  {
  }
}
