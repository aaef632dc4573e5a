/** Rates and powers of buildings and recipes.

    Sign convention of every rate: consumption of an item is positive,
    production is negative, both per building at the recipe's clock.
    The recipe kinds of the scripts are one tagged datatype. */
module Rates {
  import opened Basics
  import opened Settings

  /** Processing buildings take somersloops; the water extractor charges
      pipeline pumps; generators (negative base power) are boosted by APAs. */
  datatype BuildingKind = Processing | WaterPump | Generator

  datatype Building = Building(
    name: string,
    base: real,       // power at clock 1 (negative for generators)
    exponent: real,   // clock-to-power exponent
    slots: nat,       // somersloop slots
    kind: BuildingKind,
    clock: real)      // the building's configured clock

  /** Numbers of unfueled and fueled alien power augmenters. */
  datatype Apa = Apa(unfueled: nat, fueled: nat)

  const NoApa: Apa := Apa(0, 0)

  /** Factor somersloops apply to output rate: +1/S per slotted sloop. */
  function SloopRateFactor(slots: nat, sloops: nat): real
  {
    if slots > 0 then 1.0 + sloops as real / slots as real else 1.0
  }

  /** Factor somersloops apply to power. */
  function SloopPowerFactor(slots: nat, sloops: nat): real
  {
    if slots > 0 then (1.0 + sloops as real / slots as real) * (1.0 + sloops as real / slots as real)
    else 1.0
  }

  /** The power factor is the square of the rate factor, and a fully slotted
      building doubles its output at four times the power. */
  lemma SloopFactors(slots: nat, sloops: nat)
    ensures SloopPowerFactor(slots, sloops) == SloopRateFactor(slots, sloops) * SloopRateFactor(slots, sloops)
    ensures slots > 0 && sloops == slots ==>
              SloopRateFactor(slots, sloops) == 2.0 && SloopPowerFactor(slots, sloops) == 4.0
    ensures SloopRateFactor(slots, 0) == 1.0 && SloopPowerFactor(slots, 0) == 1.0
  {
  }

  /** Building.power / PowerBuilding.power / WaterExtractor.power.
      Only processing buildings check the number of somersloops. */
  function BuildingPower(cfg: Config, b: Building, clock: real, sloops: nat, apa: Apa): (r: Result<real>)
    ensures r.Err? <==> b.kind == Processing && sloops > b.slots
    ensures r.Err? ==> r.error == TooManySloops
  {
    match b.kind
    case WaterPump =>
      Ok(b.base * cfg.pow(clock, b.exponent) + (120.0 * clock / Pipe(cfg)) * 4.0 * cfg.pumpsPerPipe)
    case Generator =>
      Ok(b.base * cfg.pow(clock, b.exponent) * ApaBoost(apa.unfueled, apa.fueled))
    case Processing =>
      if sloops > b.slots then Err(TooManySloops)
      else Ok(b.base * cfg.pow(clock, b.exponent) * SloopPowerFactor(b.slots, sloops))
  }

  /** Building.ratemult / PowerBuilding.ratemult: a generator's rate follows
      clock^exponent and takes no somersloops argument; every other building
      rejects more somersloops than it has slots. */
  function RateMult(cfg: Config, b: Building, clock: real, sloops: nat): (r: Result<real>)
    ensures r.Err? <==> b.kind != Generator && sloops > b.slots
    ensures b.kind != Generator && b.slots == 0 && sloops == 0 ==> r == Ok(clock)
    ensures b.kind == Generator ==> r == Ok(cfg.pow(clock, b.exponent))
    ensures b.kind != Generator && sloops <= b.slots ==> r == Ok(clock * SloopRateFactor(b.slots, sloops))
  {
    if b.kind == Generator then Ok(cfg.pow(clock, b.exponent))
    else if sloops > b.slots then Err(TooManySloops)
    else Ok(clock * SloopRateFactor(b.slots, sloops))
  }

  /** Somersloops raise power by the square of what they raise output:
      power(c, s) / power(c, 0) == (ratemult(c, s) / ratemult(c, 0))^2. */
  lemma {:induction false} SloopPowerIsSquareOfRate(cfg: Config, b: Building, clock: real, sloops: nat)
    requires b.kind == Processing && sloops <= b.slots
    ensures BuildingPower(cfg, b, clock, sloops, NoApa).Ok? && RateMult(cfg, b, clock, sloops).Ok?
    ensures BuildingPower(cfg, b, clock, sloops, NoApa).value * (clock * clock)
         == BuildingPower(cfg, b, clock, 0, NoApa).value
            * (RateMult(cfg, b, clock, sloops).value * RateMult(cfg, b, clock, sloops).value)
  {
    var p0 := b.base * cfg.pow(clock, b.exponent);
    var f := SloopRateFactor(b.slots, sloops);
    SloopFactors(b.slots, sloops);
    assert BuildingPower(cfg, b, clock, sloops, NoApa).value == p0 * (f * f);
    assert BuildingPower(cfg, b, clock, 0, NoApa).value == p0;
    assert RateMult(cfg, b, clock, sloops).value == clock * f;
    assert (p0 * (f * f)) * (clock * clock) == p0 * ((clock * f) * (clock * f));
  }

  /** A recipe of inputs and outputs per minute at clock 1, run in a building. */
  datatype Process = Process(name: string, inputs: map<Item, real>, outputs: map<Item, real>, building: Building)

  function Amount(m: map<Item, real>, item: Item): real
  {
    if item in m then m[item] else 0.0
  }

  /** Recipe.rate(item, clock, sloops): inputs are scaled with the
      sloop-free multiplier, outputs with the sloop-boosted one. */
  function ProcessRate(cfg: Config, p: Process, item: Item, clock: real, sloops: nat): (r: Result<real>)
    ensures r.Err? <==> item in p.outputs && p.building.kind != Generator && sloops > p.building.slots
  {
    var consumed := Amount(p.inputs, item) * RateMult(cfg, p.building, clock, 0).value;
    if item in p.outputs then
      match RateMult(cfg, p.building, clock, sloops)
      case Err(e) => Err(e)
      case Ok(m) => Ok(consumed - p.outputs[item] * m)
    else Ok(consumed)
  }

  /** The rate's value: outside generators the input amount runs at the
      clock and the output amount at the clock times the somersloop
      factor; in a generator both follow clock^exponent. */
  lemma ProcessRateValue(cfg: Config, p: Process, item: Item, clock: real, sloops: nat)
    ensures ProcessRate(cfg, p, item, clock, sloops).Ok? && p.building.kind != Generator ==>
              ProcessRate(cfg, p, item, clock, sloops).value
              == Amount(p.inputs, item) * clock
                 - Amount(p.outputs, item) * (clock * SloopRateFactor(p.building.slots, sloops))
    ensures p.building.kind == Generator ==>
              && ProcessRate(cfg, p, item, clock, sloops).Ok?
              && ProcessRate(cfg, p, item, clock, sloops).value
                 == Amount(p.inputs, item) * cfg.pow(clock, p.building.exponent)
                    - Amount(p.outputs, item) * cfg.pow(clock, p.building.exponent)
  {
    if p.building.kind != Generator && ProcessRate(cfg, p, item, clock, sloops).Ok? {
      assert RateMult(cfg, p.building, clock, 0).value == clock * SloopRateFactor(p.building.slots, 0) == clock;
      if item in p.outputs {
        NetRate(Amount(p.inputs, item), p.outputs[item], Amount(p.outputs, item), RateMult(cfg, p.building, clock, 0).value,
                RateMult(cfg, p.building, clock, sloops).value,
                clock, clock * SloopRateFactor(p.building.slots, sloops));
      } else {
        OnlyConsumed(Amount(p.inputs, item), Amount(p.outputs, item), RateMult(cfg, p.building, clock, 0).value,
                     clock, clock * SloopRateFactor(p.building.slots, sloops));
      }
    }
  }

  lemma NetRate(a: real, b: real, b': real, m0: real, m: real, c0: real, c: real)
    requires b == b' && m0 == c0 && m == c
    ensures a * m0 - b * m == a * c0 - b' * c
  {
  }

  /** With no output amount, the net rate is the consumption alone. */
  lemma OnlyConsumed(a: real, b: real, m0: real, c0: real, c: real)
    requires b == 0.0 && m0 == c0
    ensures a * m0 == a * c0 - b * c
  {
  }

  /** An item the recipe neither consumes nor produces has rate 0. */
  lemma ProcessRateForeign(cfg: Config, p: Process, item: Item, clock: real, sloops: nat)
    requires item !in p.inputs && item !in p.outputs
    ensures ProcessRate(cfg, p, item, clock, sloops) == Ok(0.0)
  {
  }

  /** At clock 1 without somersloops a recipe consumes its input amount and
      produces its output amount, whatever the building. */
  lemma ProcessRateUnitClock(cfg: Config, p: Process, item: Item)
    requires PowLaws(cfg.pow)
    ensures ProcessRate(cfg, p, item, 1.0, 0) == Ok(Amount(p.inputs, item) - Amount(p.outputs, item))
  {
    assert cfg.pow(1.0, p.building.exponent) == 1.0;
  }

  /** Without somersloops the rate is the net amount times ratemult, the
      formula of the scripts without somersloops. */
  lemma ProcessRateNet(cfg: Config, p: Process, item: Item, clock: real)
    ensures ProcessRate(cfg, p, item, clock, 0).Ok?
    ensures ProcessRate(cfg, p, item, clock, 0).value
         == (Amount(p.inputs, item) - Amount(p.outputs, item)) * RateMult(cfg, p.building, clock, 0).value
  {
    var m := RateMult(cfg, p.building, clock, 0).value;
    assert (Amount(p.inputs, item) - Amount(p.outputs, item)) * m
        == Amount(p.inputs, item) * m - Amount(p.outputs, item) * m;
  }

  /** A fully slotted processing building doubles the output part of the
      rate and leaves the input part unchanged. */
  lemma {:induction false} ProcessRateFullSloops(cfg: Config, p: Process, item: Item, clock: real)
    requires p.building.kind == Processing && p.building.slots > 0
    requires item !in p.inputs || item !in p.outputs
    ensures ProcessRate(cfg, p, item, clock, p.building.slots).Ok?
    ensures item in p.outputs ==>
              ProcessRate(cfg, p, item, clock, p.building.slots).value
              == 2.0 * ProcessRate(cfg, p, item, clock, 0).value
    ensures item !in p.outputs ==>
              ProcessRate(cfg, p, item, clock, p.building.slots) == ProcessRate(cfg, p, item, clock, 0)
  {
    SloopFactors(p.building.slots, p.building.slots);
    if item in p.outputs {
      assert Amount(p.inputs, item) == 0.0;
      assert RateMult(cfg, p.building, clock, p.building.slots).value == clock * 2.0;
      assert RateMult(cfg, p.building, clock, 0).value == clock;
    }
  }

  /** The three extraction buildings. */
  datatype Extractor = Miner | OilExtractor | WellPressurizer

  function ParseExtractor(name: string): (r: Result<Extractor>)
    ensures r.Ok? <==> name in {"Miner", "Oil Extractor", "Resource Well Pressurizer"}
    ensures r.Err? ==> r.error == InvalidBuilding
  {
    if name == "Miner" then Ok(Miner)
    else if name == "Oil Extractor" then Ok(OilExtractor)
    else if name == "Resource Well Pressurizer" then Ok(WellPressurizer)
    else Err(InvalidBuilding)
  }

  /** Items per minute at clock 1 of one extractor on a deposit of value val
      (node rarity 1/2/4, or the summed purity value of a well). */
  function ExtractBaseRate(cfg: Config, e: Extractor, val: pos): (r: real)
    ensures r > 0.0
  {
    match e
    case Miner => MinerBaseSpeed(cfg.minerMK, 0) * val as real
    case OilExtractor => 60.0 * val as real
    case WellPressurizer => 30.0 * val as real
  }

  function ExtractBasePower(cfg: Config, e: Extractor): (r: real)
    ensures r > 0.0
  {
    match e
    case Miner => MinerBasePower(cfg.minerMK)
    case OilExtractor => 40.0
    case WellPressurizer => 150.0
  }

  /** Output of a miner is limited by its belt, of an oil extractor by its
      pipe; a well pressurizer is not limited. */
  function ExtractCap(cfg: Config, e: Extractor): Option<real>
  {
    match e
    case Miner => Some(Belt(cfg))
    case OilExtractor => Some(Pipe(cfg))
    case WellPressurizer => None
  }

  /** Output of base rate br at a clock, limited by an optional cap. */
  function CappedRate(cap: Option<real>, br: real, clock: real): real
  {
    match cap
    case Some(c) => Min(c, br * clock)
    case None => br * clock
  }

  /** ExtractRecipe.rate. */
  function ExtractRate(cfg: Config, e: Extractor, resource: Item, val: pos, clock: real, item: Item): real
  {
    if item != resource then 0.0
    else -CappedRate(ExtractCap(cfg, e), ExtractBaseRate(cfg, e, val), clock)
  }

  /** Extraction only produces: its rate is never positive, is 0 for every
      other item, and a capped extractor never exceeds its belt or pipe. */
  lemma ExtractRateBounds(cfg: Config, e: Extractor, resource: Item, val: pos, clock: real, item: Item)
    requires clock >= 0.0
    ensures ExtractRate(cfg, e, resource, val, clock, item) <= 0.0
    ensures item != resource ==> ExtractRate(cfg, e, resource, val, clock, item) == 0.0
    ensures ExtractCap(cfg, e).Some? ==> -ExtractRate(cfg, e, resource, val, clock, item) <= ExtractCap(cfg, e).value
    ensures item == resource && ExtractCap(cfg, e).None? ==>
              ExtractRate(cfg, e, resource, val, clock, item) == -ExtractBaseRate(cfg, e, val) * clock
  {
  }

  /** maxExtractClock: the clock above which the belt or pipe is saturated,
      never above 2.5. The registered extraction buildings of each resource
      are a parameter. */
  function MaxExtractClock(cfg: Config, extractBuildings: map<Item, seq<Extractor>>,
                           resource: Item, e: Extractor, val: pos): (r: Result<real>)
    ensures r.Ok? <==> resource in extractBuildings && e in extractBuildings[resource]
    ensures r.Err? ==> r.error == UnknownKey
    ensures r.Ok? ==> 0.0 < r.value <= MaxClock
  {
    if resource !in extractBuildings || e !in extractBuildings[resource] then Err(UnknownKey)
    else match ExtractCap(cfg, e)
      case Some(cap) => Ok(Min(MaxClock, cap / ExtractBaseRate(cfg, e, val)))
      case None => Ok(MaxClock)
  }

  /** Up to the maximum clock extraction is proportional to clock (the cap
      is not reached), and at the maximum clock it delivers as much as at
      clock 2.5: overclocking past it gains nothing. */
  lemma {:induction false} MaxExtractClockSaturates(cfg: Config, extractBuildings: map<Item, seq<Extractor>>,
                                                   resource: Item, e: Extractor, val: pos, clock: real)
    requires MaxExtractClock(cfg, extractBuildings, resource, e, val).Ok?
    requires 0.0 <= clock <= MaxExtractClock(cfg, extractBuildings, resource, e, val).value
    ensures ExtractRate(cfg, e, resource, val, clock, resource) == -ExtractBaseRate(cfg, e, val) * clock
    ensures ExtractRate(cfg, e, resource, val, MaxExtractClock(cfg, extractBuildings, resource, e, val).value, resource)
         == ExtractRate(cfg, e, resource, val, MaxClock, resource)
  {
    var br := ExtractBaseRate(cfg, e, val);
    var m := MaxExtractClock(cfg, extractBuildings, resource, e, val).value;
    var cap := ExtractCap(cfg, e);
    assert m == (if cap.Some? then Min(MaxClock, cap.value / br) else MaxClock);
    CappedSaturates(cap, br, clock, m);
  }

  /** Below the maximum clock extraction is proportional to clock. */
  lemma BelowMaxClock(cfg: Config, extractBuildings: map<Item, seq<Extractor>>,
                      resource: Item, e: Extractor, val: pos, clock: real)
    requires MaxExtractClock(cfg, extractBuildings, resource, e, val).Ok?
    requires 0.0 <= clock <= MaxExtractClock(cfg, extractBuildings, resource, e, val).value
    ensures ExtractRate(cfg, e, resource, val, clock, resource) == -ExtractBaseRate(cfg, e, val) * clock
  {
    MaxExtractClockSaturates(cfg, extractBuildings, resource, e, val, clock);
  }

  lemma CappedSaturates(cap: Option<real>, br: real, clock: real, m: real)
    requires br > 0.0 && m == (if cap.Some? then Min(MaxClock, cap.value / br) else MaxClock)
    requires 0.0 <= clock <= m
    ensures CappedRate(cap, br, clock) == br * clock
    ensures CappedRate(cap, br, m) == CappedRate(cap, br, MaxClock)
  {
    if cap.Some? {
      var k := cap.value;
      assert br * (k / br) == k;
      assert br * clock <= br * m;
      if MaxClock <= k / br {
        assert br * MaxClock <= br * (k / br);
      } else {
        assert br * (k / br) < br * MaxClock;
      }
    }
  }

  /** The kinds of recipe the LP chooses activities for. */
  datatype Recipe =
    | Plain(process: Process)                            // a recipe at its building's clock
    | Sloop(base: Process, sloops: nat, clock: real)     // a somersloop-boosted overclocked copy
    | Extract(extractor: Extractor, resource: Item, val: pos, clock: real)
    | Milestone(title: string, requirements: map<Item, real>)
    | Sink(item: Item, points: real)                     // sinks one belt of an item for points

  /** Structured recipe names; two recipes of different kinds never share one. */
  datatype RecipeName =
    | Named(text: string)
    | SinkOf(sunk: Item)
    | ExtractAt(extractorAt: Extractor, resourceAt: Item, tier: pos, at: real)
    | SloopOf(baseName: string, count: nat, speed: real)

  function NameOf(r: Recipe): RecipeName
  {
    match r
    case Plain(p) => Named(p.name)
    case Sloop(p, s, c) => SloopOf(p.name, s, c)
    case Extract(e, res, v, c) => ExtractAt(e, res, v, c)
    case Milestone(l, _) => Named(l)
    case Sink(it, _) => SinkOf(it)
  }

  /** A somersloop copy only ever wraps a non-generator recipe and respects
      the building's slot count; then all rates and powers are defined. */
  predicate WfRecipe(r: Recipe)
  {
    r.Sloop? ==> r.base.building.kind != Generator && r.sloops <= r.base.building.slots
  }

  /** SinkRecipe.rate: one belt of its item consumed, points per item of
      "AWESOME points" produced, nothing else touched. */
  function SinkRate(cfg: Config, sunk: Item, points: real, item: Item): real
  {
    if item == sunk then Belt(cfg)
    else if item == AwesomePoints then -points * Belt(cfg)
    else 0.0
  }

  /** The rate of any recipe for an item. */
  function Rate(cfg: Config, r: Recipe, item: Item): (q: Result<real>)
    ensures WfRecipe(r) ==> q.Ok?
  {
    match r
    case Plain(p) => ProcessRate(cfg, p, item, p.building.clock, 0)
    case Sloop(p, s, c) => ProcessRate(cfg, p, item, c, s)
    case Extract(e, res, v, c) => Ok(ExtractRate(cfg, e, res, v, c, item))
    case Milestone(_, req) => Ok(Amount(req, item))
    case Sink(it, pts) => Ok(SinkRate(cfg, it, pts, item))
  }

  /** The power draw of any recipe; generators consult the APA state. */
  function Power(cfg: Config, r: Recipe, apa: Apa): (q: Result<real>)
    ensures WfRecipe(r) ==> q.Ok?
  {
    match r
    case Plain(p) => BuildingPower(cfg, p.building, p.building.clock, 0, apa)
    case Sloop(p, s, c) => BuildingPower(cfg, p.building, c, s, NoApa)
    case Extract(e, _, _, c) => Ok(ExtractBasePower(cfg, e) * cfg.pow(c, cfg.procExponent))
    case Milestone(_, _) => Ok(0.0)
    case Sink(_, _) => Ok(30.0)
  }

  function RateOf(cfg: Config, r: Recipe, item: Item): real
    requires WfRecipe(r)
  {
    Rate(cfg, r, item).value
  }

  function PowerOf(cfg: Config, r: Recipe, apa: Apa): real
    requires WfRecipe(r)
  {
    Power(cfg, r, apa).value
  }

  /** The items a recipe mentions. */
  function Keys(r: Recipe): set<Item>
  {
    match r
    case Plain(p) => p.inputs.Keys + p.outputs.Keys
    case Sloop(p, _, _) => p.inputs.Keys + p.outputs.Keys
    case Extract(_, res, _, _) => {res}
    case Milestone(_, req) => req.Keys
    case Sink(it, _) => {it, AwesomePoints}
  }

  /** Every recipe has rate 0 for an item it does not mention. */
  lemma RateOutsideKeys(cfg: Config, r: Recipe, item: Item)
    requires WfRecipe(r) && item !in Keys(r)
    ensures Rate(cfg, r, item) == Ok(0.0)
  {
  }

  /** Sign convention: with non-negative amounts and clock, an item only
      consumed has a non-negative rate, an item only produced a
      non-positive one. Milestones only consume; sinks consume their item
      and produce points. */
  lemma RateSign(cfg: Config, r: Recipe, item: Item)
    requires WfRecipe(r)
    requires r.Plain? || r.Sloop? ==>
               var p := if r.Plain? then r.process else r.base;
               var c := if r.Plain? then p.building.clock else r.clock;
               && (forall x :: x in p.inputs ==> p.inputs[x] >= 0.0)
               && (forall x :: x in p.outputs ==> p.outputs[x] >= 0.0)
               && c >= 0.0 && (p.building.kind == Generator ==> cfg.pow(c, p.building.exponent) >= 0.0)
    requires r.Extract? ==> r.clock >= 0.0
    requires r.Milestone? ==> forall x :: x in r.requirements ==> r.requirements[x] >= 0.0
    requires r.Sink? ==> r.points >= 0.0 && r.item != AwesomePoints
    ensures (r.Plain? || r.Sloop? || r.Milestone?) && item !in Outputs(r) ==> RateOf(cfg, r, item) >= 0.0
    ensures (r.Plain? || r.Sloop? || r.Extract?) && item !in Inputs(r) ==> RateOf(cfg, r, item) <= 0.0
    ensures r.Sink? && item == r.item ==> RateOf(cfg, r, item) > 0.0
    ensures r.Sink? && item == AwesomePoints ==> RateOf(cfg, r, item) <= 0.0
  {
    if r.Plain? || r.Sloop? {
      var p := if r.Plain? then r.process else r.base;
      var c := if r.Plain? then p.building.clock else r.clock;
      var s := if r.Plain? then 0 else r.sloops;
      assert Rate(cfg, r, item) == ProcessRate(cfg, p, item, c, s);
      var m0 := RateMult(cfg, p.building, c, 0).value;
      var ms := RateMult(cfg, p.building, c, s).value;
      assert m0 >= 0.0 && ms >= 0.0;
      MulNonNeg(Amount(p.inputs, item), m0);
      MulNonNeg(Amount(p.outputs, item), ms);
    } else if r.Extract? {
      ExtractRateBounds(cfg, r.extractor, r.resource, r.val, r.clock, item);
    }
  }

  lemma MulNonNeg(a: real, b: real)
    requires a >= 0.0 && b >= 0.0
    ensures a * b >= 0.0
  {
  }

  /** Items a recipe consumes. */
  function Inputs(r: Recipe): set<Item>
  {
    match r
    case Plain(p) => p.inputs.Keys
    case Sloop(p, _, _) => p.inputs.Keys
    case Extract(_, _, _, _) => {}
    case Milestone(_, req) => req.Keys
    case Sink(it, _) => {it}
  }

  /** Items a recipe produces. */
  function Outputs(r: Recipe): set<Item>
  {
    match r
    case Plain(p) => p.outputs.Keys
    case Sloop(p, _, _) => p.outputs.Keys
    case Extract(_, res, _, _) => {res}
    case Milestone(_, _) => {}
    case Sink(_, _) => {AwesomePoints}
  }

  /** ExtractRecipe.__init__: the building must be one of the three
      extractors, the clock within [minimum clock, 2.5], and the deposit must
      exist: a well of that value for a pressurizer, a node of that rarity
      otherwise, and a node rarity must be 1, 2 or 4. */
  function MakeExtract(cfg: Config, nodes: map<Item, map<pos, nat>>, wells: map<Item, map<pos, nat>>,
                       building: string, resource: Item, val: int, clock: real): (r: Result<Recipe>)
    ensures r.Ok? <==>
              && ParseExtractor(building).Ok?
              && cfg.minClock <= clock <= MaxClock
              && var tiers := if ParseExtractor(building).value == WellPressurizer then wells else nodes;
                 resource in tiers && val >= 1 && val in tiers[resource]
                 && (ParseExtractor(building).value != WellPressurizer ==> val in {1, 2, 4})
    ensures r.Ok? ==> r.value == Extract(ParseExtractor(building).value, resource, val, clock)
    ensures r.Err? && ParseExtractor(building).Ok? && !(cfg.minClock <= clock <= MaxClock) ==>
              r.error == InvalidClock
  {
    match ParseExtractor(building)
    case Err(e) => Err(e)
    case Ok(e) =>
      if !(cfg.minClock <= clock && clock <= MaxClock) then Err(InvalidClock)
      else
        var tiers := if e == WellPressurizer then wells else nodes;
        if resource !in tiers then Err(UnknownResource)
        else if val < 1 || val !in tiers[resource] then Err(UnknownTier)
        else if e != WellPressurizer && val !in {1, 2, 4} then Err(InvalidRarity)
        else Ok(Extract(e, resource, val, clock))
  }

  /** SloopRecipe.__init__: only a plain, non-generator recipe can be wrapped. */
  function MakeSloop(base: Recipe, sloops: nat, clock: real): (r: Result<Recipe>)
    ensures r.Ok? <==> base.Plain? && base.process.building.kind != Generator
    ensures r.Err? ==> r.error == InvalidRecipeType
    ensures r.Ok? ==> r.value.Sloop? && r.value.base == base.process
  {
    if base.Plain? && base.process.building.kind != Generator then Ok(Sloop(base.process, sloops, clock))
    else Err(InvalidRecipeType)
  }

  /** A somersloop copy reports the rate and power of its base recipe run at
      its own clock and somersloop count, and mentions the same items. */
  lemma SloopDelegates(cfg: Config, base: Recipe, sloops: nat, clock: real, item: Item, apa: Apa)
    requires MakeSloop(base, sloops, clock).Ok?
    ensures var s := MakeSloop(base, sloops, clock).value;
            && Rate(cfg, s, item) == ProcessRate(cfg, base.process, item, clock, sloops)
            && Power(cfg, s, apa) == BuildingPower(cfg, base.process.building, clock, sloops, apa)
            && Keys(s) == Keys(base)
  {
  }
}
