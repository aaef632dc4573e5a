# Satisfactory factory optimizer — a Dafny model

The optimizer plans a Satisfactory factory. Buildings, recipes, resource
nodes, wells and milestones are registered into catalogs. Each recipe has a
rate per item (consumption positive, production negative) and a power
draw. A linear program then chooses how many buildings run each recipe so
that every item balances, no deposit is over-used, and the power stays
within the free power. The five scripts optimizer.py, optimizer2.py,
optimizer3.py, optimizerSomer.py and optimizer4.py are successive
versions of this, and the model covers the following parts:

- **Basics, Settings** (`basics.dfy`, `settings.dfy`): the per-version
  constants (miner, belt and pipe marks, geysers, somersloops, the free
  power with and without alien power augmenters, APAs for short), sums,
  `numpy.linspace`, and the item accumulation of the registration
  functions.
- **Rates** (`rates.dfy`): buildings with somersloop slots and their rate
  and power multipliers; one tagged `Recipe` datatype for plain,
  somersloop, extraction, milestone and sink recipes, with their rates and
  power; `maxExtractClock`.
- **Catalog, Registry** (`catalog.dfy`, `registry.dfy`): node and well
  tier aggregation, recipe registration with duplicate-name rejection, the
  somersloop variant generation, and the referential checks of
  optimizer4.py's milestones, buildings and recipes.
- **Extraction, Linearizer, Budget, Refine** (`extraction.dfy`,
  `linearizer.dfy`, `budget.dfy`, `refine.dfy`): the ore allocation and
  extraction limits of optimizer.py and optimizer2.py, the numeric
  derivative and tangent of an extraction curve, the power row with
  tangent offsets, and the successive-linearisation loops.
- **Assembly** (`assembly.dfy`): the LP of optimizer3.py's `solve` and
  optimizerSomer.py's `solve_sub`. This covers the goal vector, the power,
  deposit, build-limit and somersloop rows, the mass balance, the
  tie-break pass and the reported plan. It also covers the APA enumeration
  of optimizerSomer.py's `solve`.
- **Allocator, NonlinearExtract** (`allocator.dfy`, `nonlinear.dfy`):
  `nlextract`. It builds the extraction methods of a resource and applies
  the quota guards. It then runs the prefix / middle / suffix split
  search, takes the cheapest candidate, and registers the chosen
  extraction recipes.
- **Flow** (`flow.dfy`): `flow`, which splits a plan into the sources and
  sinks of one item.

Exceptions become `Result` values with an `Error` enumeration. The
LP solver is a function parameter: `Assembly.Oracle` for optimizer3.py
and optimizerSomer.py, and `Refine.Solver` for the two refinement loops.
Non-integer powers (`clock**1.6`, `2**(8/3)`, `clock**log2(2.5)`,
`**1.321928`) go through a power-law function `pow` carried in the
configuration. Only the identities real exponentiation satisfies are
assumed of it, as explicit preconditions `PowLaws` and `ExponentLaw`.

Behaviour the scripts show as written is kept:
- the default `minclock` of `nlextract` is 0, which the extraction recipe
  then rejects;
- the oil extractor is consulted for Crude Oil whatever is registered;
- a split with an empty middle is stored without the clock check;
- optimizer2.py's `extractOre` returns negative clocks for a negative
  quota, where optimizer.py's `MinerPower` raises;
- optimizer4.py's `Recipe` appends its items before it checks the
  building;
- both refinement loops can bound the power row as the scripts do, by
  the free power plus the tangents' intercepts (`Budget.AsWritten`); the
  intended bound (`Budget.Corrected`) is the other value of the same
  parameter.

## Model

| member | source | states |
|---|---|---|
| Basics.Linspace | optimizer3.py:315 | numpy.linspace as the extraction grid uses it: n points, the first is lo and the last hi; they lie within [lo, hi] and strictly increase when lo < hi |
| Basics.AddItems | optimizer3.py:343-345 | the item loop of the registration functions: the old item list stays a prefix, the new list holds exactly the old items plus the new ones, each appended item is new, and no duplicate is introduced |
| Settings.MinerBasePower | optimizer3.py:42 | every miner mark draws a positive base power (5, 12, 30 MW) |
| Settings.MinerBaseSpeed | optimizer3.py:43 | every miner mark and purity has a positive base speed |
| Settings.MinerSpeedTable | optimizer3.py:43 | the speed table is fixed by its corner and two doublings: 30 per minute for a mark-1 miner on an impure node, doubled by each step in mark and by each step in purity |
| Settings.BeltCapacity | optimizerSomer.py:46 | every belt mark has a positive capacity (60 to 1200 per minute) |
| Settings.PipeCapacity | optimizer3.py:45 | every pipe mark has a positive capacity (300 or 600 per minute) |
| Settings.GeyserPower | optimizer3.py:48-49 | the geyser power is never negative |
| Settings.ApaBoost | optimizerSomer.py:51-55 | the APA boost factor is at least 1: APAs never shrink the budget multiplier |
| Settings.FreePowerApaNone | optimizerSomer.py:51-55 | without APAs the somersloop script's budget equals the geyser power plus the extra term, whichever branch its sign selects |
| Settings.FreePowerApaMonotone | optimizerSomer.py:51-55 | adding unfueled or fueled APAs never lowers the free power |
| Settings.FreePowerFuelGain | optimizerSomer.py:51-55 | fuelling one more APA instead of running it unfueled strictly raises the free power |
| Settings.ThirdConfigBudget | optimizer3.py:36-49 | optimizer3.py's geysers (3, 9, 6) with no extra power give a 4500 MW budget |
| Settings.SomerConfigBudget | optimizerSomer.py:37-55 | optimizerSomer.py's geysers (9, 13, 9) give 7100 MW minus the water-well drain without APAs, and four times 12100 MW minus the drain with ten fueled APAs |
| Rates.SloopFactors | optimizerSomer.py:72-87 | the somersloop power factor is the square of the rate factor; no sloops leaves both at 1; a fully slotted building doubles output at four times the power |
| Rates.BuildingPower | optimizerSomer.py:72-78 | a processing building raises exactly when more sloops are slotted than it has slots; generators and the water extractor never check |
| Rates.RateMult | optimizerSomer.py:80-87 | ratemult raises exactly when a non-generator gets more sloops than slots; a generator's multiplier is clock^exponent whatever the sloops, every other building's is the clock times 1 + sloops/slots, so a slotless building without sloops multiplies by the clock |
| Rates.SloopPowerIsSquareOfRate | optimizerSomer.py:72-87 | for a processing building within its slots, power scaled to the same clock grows by the square of what ratemult grows by |
| Rates.ProcessRate | optimizerSomer.py:224-230 | Recipe.rate raises exactly when the item is an output and a non-generator building gets more sloops than slots |
| Rates.ProcessRateValue | optimizerSomer.py:224-230 | outside generators the input amount runs at the clock and the output amount at the clock times 1 + sloops/slots; in a generator both follow clock^exponent |
| Rates.ProcessRateForeign | optimizerSomer.py:224-230 | an item neither consumed nor produced has rate 0 |
| Rates.ProcessRateUnitClock | optimizer3.py:220-226 | at clock 1 without sloops the rate is the input amount minus the output amount, in any building |
| Rates.ProcessRateNet | optimizer3.py:220-226 | without sloops the rate is (input amount minus output amount) times ratemult, the formula of the scripts without somersloops |
| Rates.ProcessRateFullSloops | optimizerSomer.py:224-230 | in a fully slotted processing building, for an item that is not both input and output, an output's rate doubles and an input's is unchanged |
| Rates.ParseExtractor | optimizerSomer.py:240-241 | a building name is accepted exactly when it is Miner, Oil Extractor or Resource Well Pressurizer, else the invalid-building error |
| Rates.ExtractBaseRate | optimizer3.py:250-263 | every extractor has a positive base rate on every deposit value |
| Rates.ExtractBasePower | optimizer3.py:251-264 | every extractor has a positive base power |
| Rates.ExtractRateBounds | optimizer3.py:277-287 | extraction never consumes: its rate is at most 0, is 0 for other items, never exceeds the belt (miner) or pipe (oil extractor), and is exactly -base·clock for a well pressurizer |
| Rates.MaxExtractClock | optimizer3.py:289-299 | maxExtractClock succeeds exactly when the building is registered for the resource (KeyError otherwise) and returns a clock in (0, 2.5] |
| Rates.MaxExtractClockSaturates | optimizer3.py:277-299 | up to maxExtractClock the output is proportional to the clock (no cap binds), and at maxExtractClock the output equals that at 2.5 |
| Rates.BelowMaxClock | optimizer3.py:277-299 | below maxExtractClock an extractor delivers base rate times clock |
| Rates.Rate | optimizerSomer.py:224-230 | every well-formed recipe has a rate for every item |
| Rates.Power | optimizerSomer.py:781-784 | every well-formed recipe has a power draw |
| Rates.RateOutsideKeys | optimizerSomer.py:224-230 | every recipe kind has rate 0 for an item it does not mention |
| Rates.RateSign | optimizerSomer.py:224-230 | sign convention across recipe kinds: items only consumed have rate ≥ 0, items only produced ≤ 0; a sink's item is positive and its points non-positive |
| Rates.MakeExtract | optimizer3.py:230-270 | ExtractRecipe.__init__ succeeds exactly when the building is an extractor, the clock lies in [minimum clock, 2.5] and the deposit (well value, or node rarity 1/2/4) exists; success yields the extraction recipe; a bad clock on a valid building is the clock error |
| Rates.MakeSloop | optimizerSomer.py:771-773 | a somersloop copy can be made exactly from a plain non-generator recipe; otherwise the invalid-type error |
| Rates.SloopDelegates | optimizerSomer.py:771-789 | a somersloop copy has its base recipe's rate and power at its own clock and sloop count, and mentions the same items |
| Catalog.AddCount | optimizer3.py:156-159 | adding n deposits to tier v changes only that tier's count, by n, and creates the tier only when n > 0 |
| Catalog.AddTriple | optimizer3.py:155-159 | adding a triple adds n_i to tier 2^i for every i and creates exactly the occupied tiers |
| Catalog.RegN | optimizer3.py:149-160 | regN: an all-zero triple changes nothing; otherwise the resource's tier 2^i grows by n_i, other resources are untouched, and only this resource may be added |
| Catalog.RegW | optimizer3.py:178-189 | regW: an all-zero triple changes nothing; otherwise the tier n0 + 2·n1 + 4·n2 gains one well, other resources are untouched |
| Catalog.RegNKeepsPositive | optimizer3.py:149-160 | regN never records a tier with zero deposits |
| Catalog.RegWKeepsPositive | optimizer3.py:178-189 | regW never records a tier with zero wells |
| Catalog.RegNAccumulates | optimizer3.py:149-160 | registering the same resource twice adds both triples' counts, in either order |
| Catalog.TierList | optimizer3.py:313 | the tiers of a deposit table listed once each; the order is ascending rather than the dict's registration order (see Left out) |
| Catalog.AddRecipe | optimizer3.py:349-351 | appending a recipe adds it to the list and to the by-name index under its name and leaves the other registries alone |
| Catalog.AddRecipeKeepsWf | optimizer3.py:347-351 | appending a recipe under a new name whose items are balanced keeps the catalog invariant |
| Catalog.RegR | optimizer3.py:340-351 | regR: an unknown building raises first and changes nothing; otherwise the items join the list; a duplicate name then raises with the recipes unchanged; else the recipe is appended |
| Catalog.RegMR | optimizer3.py:669-680 | regMR: the requirements join the item list before a duplicate name raises; otherwise the milestone is appended |
| Catalog.RegS | optimizer3.py:707-718 | regS: the sunk item (not the points) joins the item list, a second sink of the same item raises, otherwise the sink is appended |
| Catalog.RegRKeepsWf | optimizer3.py:340-351 | regR keeps the catalog invariant whether it succeeds or raises |
| Catalog.RegMRKeepsWf | optimizer3.py:669-680 | regMR keeps the catalog invariant whether it succeeds or raises |
| Catalog.RegSKeepsWf | optimizer3.py:707-718 | regS keeps the catalog invariant whether it succeeds or raises |
| Catalog.SloopLevels | optimizerSomer.py:793-795 | the copies of one recipe are exactly one per sloop count in the range at every clock of the grid |
| Catalog.SloopVariants | optimizerSomer.py:791-795 | the generation loop yields exactly the copies of eligible recipes (plain, non-generator, with slots) for sloop counts 1..slots at every grid clock |
| Catalog.IndexAll | optimizerSomer.py:796-797 | the by-name index gains every copy's name; a copy that no later copy shares a name with is the one stored under that name, so the last copy of a name wins; names no copy takes keep their recipe |
| Catalog.GenerateSloops | optimizerSomer.py:791-797 | the catalog after generation: the copies are appended, items are unchanged, the index gains their names with the last copy of each name stored under it, and recipes whose names no copy takes keep their entries |
| Catalog.GenerateSloopsKeepsRecipes | optimizerSomer.py:791-797 | generation keeps every recipe well formed and every mentioned item balanced |
| Catalog.SomerSloopClocks | optimizerSomer.py:42 | with two steps, the somersloop clock grid is exactly [1.0, 2.5] |
| Registry.AddMilestone | optimizer4.py:14-25 | Milestone.__init__ raises KeyError exactly when a named prerequisite is unregistered, and then changes nothing; otherwise the milestone is stored under its name with its cost and its prerequisite's object, the other milestones and registries unchanged |
| Registry.AddMilestoneKeepsClosed | optimizer4.py:14-25 | after any Milestone.__init__ every stored milestone sits under its own name and every milestone on a stored prerequisite chain is registered |
| Registry.AddBuilding | optimizer4.py:63-74 | Building.__init__ raises KeyError exactly when a named requirement is unregistered, and then changes nothing; otherwise the building is stored under its name with its base power, clock, exponent and requirement milestone, the other buildings and registries unchanged |
| Registry.LookupAll | optimizer4.py:110 | the requirement lookup succeeds exactly when every name is registered, else KeyError, and returns the milestones in order |
| Registry.AddRecipe | optimizer4.py:99-113 | Recipe.__init__ appends the recipe's new items before anything can raise; it raises KeyError exactly when the building or a requirement is unknown, leaving the recipes unchanged; otherwise it stores the recipe under its name with its alternate flag, inputs, outputs, duration, building object and the requirement milestones in order; milestones and buildings never change |
| Registry.AddMilestoneKeepsWf | optimizer4.py:14-25 | registering a milestone keeps the registry invariant (closed chains, resolved references, covered items) |
| Registry.AddBuildingKeepsWf | optimizer4.py:63-74 | registering a building keeps the registry invariant and every building under its own name |
| Registry.AddRecipeKeepsWf | optimizer4.py:99-113 | registering a recipe keeps the registry invariant whether it succeeds or raises |
| Registry.PyEqLaws | optimizer4.py:30-34 | the __eq__/__hash__ pair is reflexive and symmetric, and equal values hash equally, so a milestone or building and its name are interchangeable dictionary keys |
| Registry.PyEqNotTransitive | optimizer4.py:82-86 | the equality is not transitive: a milestone and a building of the same name both equal that name but not each other |
| Extraction.ParsePurity | optimizer.py:29-36 | a purity name is accepted exactly when it is impure, normal or pure, giving index 0, 1 or 2, and otherwise raises the invalid-purity error |
| Extraction.MinerSpeed | optimizer.py:28-39 | the purity is checked before the clock; the call fails exactly for an unknown purity or a clock outside [0, 2.5] |
| Extraction.MinerSpeedScales | optimizer.py:39 | a miner's output is its base speed times the clock, and each purity step doubles it |
| Extraction.MinerPower | optimizer.py:42-45 | miner power fails exactly for a clock outside [0, 2.5] |
| Extraction.MinerPowerBase | optimizer.py:45 | at clock 1 a miner draws its base power, and at every positive clock it draws some power |
| Extraction.TierCapacity | optimizer.py:52 | one miner on a node of a given purity delivers a positive amount that never exceeds the belt capacity |
| Extraction.ClockLimit | optimizer.py:63-64 | the clock at which a miner saturates the belt is positive and at most 2.5 |
| Extraction.ClockLimitCapacity | optimizer.py:52-64 | a miner running at its clock limit delivers exactly the capacity its node contributes to MaxExtractOre |
| Extraction.ClockLimitOrder | optimizer.py:63-64 | purer nodes saturate the belt at lower clocks |
| Extraction.MaxExtractOre | optimizer.py:48-52 | fails exactly when the node tuple does not have three entries; otherwise gives the summed node capacity |
| Extraction.TierCapacityIsMinerSpeed | optimizer.py:52 | each node's capacity is MinerSpeed at clock 2.5, capped by the belt |
| Extraction.ZeroEmpty | optimizer.py:75-79 | setting the clocks of purities without nodes to 0 leaves every other clock and the delivered output unchanged |
| Extraction.PowersOfExact | optimizer.py:66-74 | the power-law constants of the allocation satisfy the linear identities the closed form relies on |
| Extraction.Shares | optimizer.py:62-79 | the allocation exists exactly when the closed form does, with empty tiers idled, and fails only by division by zero |
| Extraction.RawSharesIdentity | optimizer.py:66-74 | whatever the quota, each of the three branches delivers it exactly |
| Extraction.RawSharesBounds | optimizer.py:66-74 | within the limit, a resource with nodes always gets an allocation, and every clock lies between 0 and its tier's limit |
| Extraction.RawSharesNegative | optimizer.py:66-68 | a negative quota takes the first branch and drives every clock below 0 |
| Extraction.OreClocks | optimizer.py:61-79 | the allocation fails only by division by zero, and always fails for a resource without nodes |
| Extraction.OreClocksIdentity | optimizer.py:80-82 | the closing assertion holds exactly: the clocks deliver quota / impure speed, weighted by node counts and 2^i |
| Extraction.OreClocksBounds | optimizer.py:59-79 | at or below MaxExtractOre, the allocation for a resource with nodes exists, respects every tier's clock limit, and idles tiers without nodes |
| Extraction.QuotaWithinLimits | optimizer.py:52-64 | a non-negative quota at most MaxExtractOre is at most Σ n_i·2^i·l_i in impure-miner units |
| Extraction.NegativeQuotaClock | optimizer.py:66-79 | a negative quota drives some occupied tier's clock below 0, so MinerPower then raises |
| Extraction.CheckedOrePower | optimizer.py:83 | the summed power succeeds exactly when every clock is in [0, 2.5], and then equals the unchecked sum |
| Extraction.ExtractionOre | optimizer.py:55-84 | malformed nodes raise first, then a quota above MaxExtractOre; a success carries the allocation's clocks and their power |
| Extraction.ExtractionOreDefined | optimizer.py:55-84 | ExtractionOre succeeds exactly for a quota between 0 and MaxExtractOre on a resource with nodes; its clocks then respect the limits and deliver the quota |
| Extraction.WellCapacity | optimizer2.py:207-209 | a well's capacity is non-negative |
| Extraction.WellsCapacityAppend | optimizer2.py:138-140 | registering one more well raises the limit by exactly that well's capacity |
| Extraction.NodeCapacity | optimizer2.py:202-206 | crude oil nodes are limited by the pipe and other nodes by the belt; either capacity is non-negative |
| Extraction.LimitExtract | optimizer2.py:199-210 | only limited resources have a limit, which is the sum of the node and well capacities |
| Extraction.LimitExtractMatchesMaxExtractOre | optimizer2.py:199-210 | for an ore without wells, the limit in optimizer2.py equals the MaxExtractOre of optimizer.py |
| Extraction.ExtractOre | optimizer2.py:214-243 | a resource without nodes raises, then one that is not limited, then a quota above the limit; a success carries the allocation and its unchecked power |
| Extraction.ExtractOreAgrees | optimizer2.py:214-243 | wherever optimizer.py's ExtractionOre succeeds, optimizer2.py's extractOre returns the same result; it succeeds exactly for an ore with nodes and a quota at most the limit, negative quotas included |
| Linearizer.Step | optimizer2.py:263-275 | the centred half-width is never 0; for a positive quota it is positive, at most eps and the quota, and at most the distance to the maximum |
| Linearizer.StencilOf | optimizer2.py:263-275 | the derivative samples two distinct points around the quota: one-sided at the maximum and at 0, centred elsewhere, and never outside [0, qmax] inside the range |
| Linearizer.Secant | optimizer2.py:266-275 | the difference quotient succeeds exactly when the curve succeeds at the sampled points; at the 0 end only the upper point is evaluated |
| Linearizer.DerivativeDefined | optimizer.py:87-93 | a curve defined on [0, qmax] has a derivative everywhere in that range |
| Linearizer.DerivativeDefinedUnbounded | optimizer2.py:272-275 | with no maximum, a curve defined on [0, q + eps] has a derivative at every quota q ≥ 0 |
| Linearizer.DerivativeOfLinear | optimizer2.py:263-275 | the derivative of a linear curve through the origin is its slope, at every quota and for every stencil |
| Linearizer.TangentAt | optimizer.py:222-225 | a tangent exists exactly when the derivative and the curve value exist, and its slope is the derivative |
| Linearizer.TangentMeetsCurve | optimizer.py:222-225 | the tangent line slope·q + offset passes through the curve at the reference quota |
| Linearizer.LinearizeDefined | optimizer.py:206-225 | every ore with nodes can be linearised anywhere in [0, MaxExtractOre], including the constructor's first tangent at the maximum |
| Linearizer.CapacityAboveStep | optimizer.py:48-52 | a resource with a node can deliver at least 60 items per minute, so the derivative's steps stay in range |
| Linearizer.LinearRate | optimizer2.py:309-313 | an extraction recipe's rate is -1 exactly for its own resource and 0 for every other item |
| Linearizer.ReferenceQuota | optimizer2.py:289-297 | the linearisation point is the guess clamped to [10^-6, limit], clamped from below only for Water |
| Linearizer.RecipeLimit | optimizer2.py:286-287 | Water never consults limitExtract; every other resource uses its limit, which may raise |
| Linearizer.ExtractPower | optimizer2.py:289-297 | power raises for a guess outside the accepted range (or an unlimited resource), and is never below 0.01 |
| Linearizer.ExtractOffset | optimizer2.py:299-306 | offset raises in the same cases as power, and succeeds only when power does |
| Linearizer.TangentIdentity | optimizer2.py:289-306 | whenever the slope is above 0.01, the line of slope power(g) and intercept offset(g) meets the extraction curve at the reference quota |
| Linearizer.ExtractDefined | optimizer2.py:289-306 | inside its accepted range, a limited resource whose curve is defined on [0, limit] always has a power and an offset |
| Linearizer.WaterCurveLinear | optimizer2.py:248-251 | Water's extraction cost is linear in the quota, at a slope of at least 0.01 |
| Linearizer.WaterTangentExact | optimizer2.py:289-303 | for Water the tangent is the curve itself: power is the cost per item and the offset is 0, for every accepted guess |
| Linearizer.Squash | optimizer2.py:280 | removing whitespace (every character Python's `str.split()` splits on, ASCII and Unicode) never lengthens a name, leaves no whitespace behind, and changes nothing in a name that has none |
| Linearizer.SquashAppend | optimizer2.py:280 | squashing works piecewise: the squashed concatenation is the concatenation of the squashed parts |
| Linearizer.SquashChar | optimizer2.py:280 | a single character is kept exactly when it is not whitespace |
| Linearizer.SquashNoBreakSpace | optimizer2.py:280 | a no-break space between letters is removed, as `str.split()` removes it |
| Linearizer.RegER | optimizer2.py:314-320 | regER raises exactly for a resource with neither nodes nor wells other than Water; otherwise it appends the recipe and files it under extract_<name> |
| Linearizer.RegERKeepsFiled | optimizer2.py:314-320 | after a successful regER, every registered extraction recipe is still filed under its name |
| Budget.BudgetMeaning | optimizer2.py:648-665 | with the intercepts subtracted from the free power, the LP's power row admits exactly the plans whose linearised draw Σ(slope·x + offset) fits the free power |
| Budget.WrittenBudgetMeaning | optimizer2.py:648-665 | with the intercepts added, as both scripts do, the row admits exactly the plans whose draw minus twice the intercepts fits, so the intercepts count with the wrong sign |
| Budget.RowBoundMeaning | optimizer2.py:648-665 | the bound rule picks the right-hand side: under the scripts' rule the row admits the plans whose draw minus twice the intercepts fits, under the corrected rule those whose draw fits |
| Budget.WrittenBoundRejectsAffordablePlan | optimizer.py:286-291 | one tangent of slope 1 and intercept -2 with 10 units of free power: the plan extracting 10 draws 8 and fits, yet the row as written rejects it, while the corrected row accepts it |
| Refine.PowerRow | optimizer.py:282-284 | the power row keeps Water's cost at column 0 and the fixed powers after the ores, and puts each ore's current tangent slope at its column |
| Refine.OreOffsets | optimizer.py:287-291 | each ore's column carries its tangent's intercept and every other column carries none, so the offsets sum to the tangents' intercepts |
| Refine.Relinearize | optimizer.py:306-309 | exactly the ores whose quota moved by more than 0.001 are re-linearised at the new quota, the others keep their tangent; it raises exactly when a needed linearisation does |
| Refine.RelinearizeStill | optimizer.py:318-321 | when no quota moved, re-linearising keeps every tangent |
| Refine.NewPoints | optimizer.py:309 | each tangent's reference quota becomes the new quota where it moved and stays otherwise |
| Refine.RelinearizeKeepsTangents | optimizer.py:306-321 | after re-linearising, every tangent is still the linearisation of its ore at its reference quota |
| Refine.OreLoop | optimizer.py:310-322 | a loop that stops returns the solver's plan for the final tangents under the chosen bound rule, with every tangent taken at its point and no quota moved; when nothing moved, it stops at once with the current plan |
| Refine.LinearizeAll | optimizer.py:207-209 | the initial linearisation succeeds exactly when every ore's succeeds, and then gives each ore's tangent at its point |
| Refine.OptimizeOre | optimizer.py:207-209 | the script's result, when it has one, is a converged plan in the sense of the loop under the chosen bound rule, starting from tangents at MaxExtractOre |
| Refine.FirstTangentsDefined | optimizer.py:207-209 | every ore with nodes has its first tangent at its maximum, so the initial linearisation never raises |
| Refine.Pass | optimizer2.py:654-665 | the power row holds each fixed recipe's power and each extraction recipe's power at its guess, with offsets only at extraction columns; it raises exactly when some extraction recipe's power or offset does |
| Refine.Guess | optimizer2.py:656-663 | before the first solve each non-Water resource is guessed at its limit, Water at 13426, and fixed recipes at 0 |
| Refine.InitialGuess | optimizer2.py:653-663 | the initial guesses exist exactly when every resource's limit exists, and are the per-column guesses |
| Refine.Clamp | optimizer2.py:676-678 | the plan keeps its length and raises every negative activity to 0 |
| Refine.ColumnMoved | optimizer2.py:680-688 | fixed recipes never move; on the first comparison a non-Water resource moves when its quota changes by more than 0.01, and otherwise a move is judged by the offset, which may raise |
| Refine.AnyMoved | optimizer2.py:679-688 | the recompute flag succeeds exactly when every column's comparison does, and is set exactly when some column moved |
| Refine.Step | optimizer2.py:673-678 | one round solves the power constraint of its guesses, bounded by the chosen rule, and returns a non-negative plan, the clamped solver answer; a failing power or offset raises |
| Refine.Loop | optimizer2.py:690-713 | a loop that stops returns a converged round: the constraint of its guesses, the clamped solver plan under the chosen bound rule, and no offset moved |
| Refine.Optimize | optimizer2.py:673-713 | solve() up to the objective ends in a converged round under the chosen bound rule; if no re-solve was needed, that round's guesses are the initial ones |
| Refine.OptimizeRecipes | optimizer2.py:653-713 | with the recipes' own power and offset, a result is converged under the chosen bound rule and starts from the limits as guesses; a missing limit raises before any solve |
| Refine.ConvergedWithinBudget | optimizer2.py:690-713 | if the converged plan satisfies its own power row, its linearised draw fits the free power under the corrected rule; under the scripts' rule only its draw minus twice the offsets does |
| Refine.ScriptBound | optimizer2.py:694-697 | under the scripts' rule the last solve of optimizer2.py bounds the power row by the free power plus the offsets, and the round's plan is that solve's answer clamped |
| Refine.OreScriptBound | optimizer.py:312-315 | under the scripts' rule the final plan of optimizer.py is the solver's answer for the row bounded by the free power plus the tangents' intercepts |
| Refine.OreConvergedWithinBudget | optimizer.py:310-322 | if optimizer.py's final plan satisfies its own power row, its tangent draw fits the free power under the corrected rule; under the scripts' rule only its draw minus twice the intercepts does |
| Assembly.Position | optimizer3.py:844 | list.index finds the first position holding the recipe, and reports its absence otherwise |
| Assembly.Goal | optimizer3.py:839-846 | an item or points target sets each recipe's goal to its rate for the target; a recipe target sets -1 at its first position and 0 elsewhere; any other target raises UnknownTarget |
| Assembly.Penalised | optimizer3.py:847 | the penalty is added to every goal coefficient |
| Assembly.PowerRow | optimizerSomer.py:1019-1025 | the power row holds every recipe's draw at the given APA counts, bounded by the free power those APAs leave |
| Assembly.DepositRow | optimizer3.py:859-867 | a deposit row counts exactly the extraction recipes of that building, resource and deposit value, bounded by the number of such deposits |
| Assembly.TierKeys | optimizer3.py:859 | one key per deposit value of a building and resource, in ascending tier order (see Left out) |
| Assembly.ExtractorKeys | optimizer3.py:854-858 | a resource's keys exist exactly when each of its extraction buildings has deposits of it, otherwise KeyError; they are exactly the keys of that resource's buildings and values |
| Assembly.DepositKeys | optimizer3.py:853-867 | the keys of all resources exist exactly when every building has deposits of its resource, and are exactly the keys of every resource, building and value |
| Assembly.DepositKeysOfTable | optimizer3.py:853-867 | iterating the extraction-building table, the deposit rows exist exactly when every registered building of every resource has deposits of it, and they are then every registered resource, building and value, whatever the key order |
| Assembly.SloopRow | optimizerSomer.py:1045-1050 | the somersloop row counts the somersloops slotted in each somersloop recipe against the total left after ten per APA |
| Assembly.BalanceRow | optimizer3.py:872-878 | one equality row per item, holding each recipe's balance coefficient |
| Assembly.BalanceCoeffIsRate | optimizer3.py:874-878 | a balance coefficient is the recipe's rate for every item except the target and the points, which are left unbalanced |
| Assembly.UpperRows | optimizerSomer.py:1019-1050 | the inequality rows are, in order, power, one row per deposit key, the optional build limit, and the somersloop row for the somersloop script |
| Assembly.EqualityRows | optimizerSomer.py:1052-1060 | one balance row per registered item in order; the somersloop script supplies the wells' water and takes 5 matrices per fueled APA |
| Assembly.AssembleLP | optimizerSomer.py:1007-1060 | for resources that are the extraction-building table's keys, each once, the LP exists exactly when the goal and the deposit rows do (and, for the somersloop script, Water and the Alien Power Matrix are items); a bad goal raises first |
| Assembly.FeasibleMeaning | optimizerSomer.py:1019-1060 | a feasible plan stays within the free power and within the count of every registered deposit kind, balances every item except the target up to the given supplies, and slots no more somersloops than remain |
| Assembly.ThirdPowerBound | optimizer3.py:849-870 | optimizer3.py bounds power by FreePower and has no somersloop row |
| Assembly.TieBreakLP | optimizer3.py:904-906 | the tie-break LP keeps the inequalities and appends one equality pinning the primary objective to the value reached |
| Assembly.Plan | optimizer3.py:918-921 | the plan lists exactly the non-milestone recipes whose activity exceeds 10^-9, under their names, with the last recipe of a name winning |
| Assembly.SolveSub | optimizer3.py:886-923 | assembly errors propagate; a solved plan reports the unpenalised objective of the primary point, and keeps the tie-break point only when the second solve returns one |
| Assembly.TieBreakKeepsObjective | optimizer3.py:903-917 | with a sound LP primitive, the kept point is feasible for the primary LP and reaches exactly the primary objective |
| Assembly.ReportedValue | optimizer3.py:898-902 | the reported value is the goal's value without the penalty, divided by 1000 for ProjectAssembly4 |
| Assembly.Layer | optimizerSomer.py:1110-1111 | all splits of t APAs into unfueled and fueled, with fueled ascending |
| Assembly.ApaOrder | optimizerSomer.py:1109-1111 | the order solve tries holds exactly the APA splits of at most t APAs, each once, by total ascending and then by fueled ascending |
| Assembly.ApaBudget | optimizerSomer.py:1050 | every split solve tries leaves a non-negative number of somersloops for the somersloop row |
| Assembly.BestApa | optimizerSomer.py:1108-1113 | the loop keeps the first candidate with the largest value; it raises exactly when some candidate raises, with the first such error; it keeps nothing only when no LP succeeded |
| Assembly.BestOverSplits | optimizerSomer.py:1108-1113 | the kept candidate is at least as good as every split of at most t APAs whose LP succeeds |
| Assembly.Solve | optimizerSomer.py:1107-1114 | solve returns an APA split within TotalSomersloops // 10 APAs whose value no other successful split exceeds, or nothing when no split succeeds |
| Allocator.Middle | optimizer3.py:977 | each middle method runs at lam·(rate/power)^(1/(e-1)) |
| Allocator.DeliveredMiddle | optimizer3.py:976-977 | the middle delivers lam times the total weight Σ num·rate^(1+a)·power^(-a), given the exponent rule |
| Allocator.MiddleDelivers | optimizer3.py:976-977 | with lam = q / Σ weights, the middle delivers exactly the remaining quota q |
| Allocator.SplitClocks | optimizer3.py:973-977 | a split runs the prefix at its limits, the middle at the given clocks and the suffix at the minimum clock |
| Allocator.Split | optimizer3.py:970-984 | with an empty middle, a candidate is stored exactly when nothing remains of the quota, without checking admissibility; with a non-empty middle, only admissible clocks are stored; the stored power is what the methods draw; a zero weight raises division by zero |
| Allocator.SplitConserves | optimizer3.py:970-977 | every stored candidate delivers exactly the quota |
| Allocator.SplitBounds | optimizer3.py:971-984 | a stored candidate with a middle is admissible; one without a middle is admissible when the minimum clock is at most every limit |
| Allocator.Row | optimizer3.py:969-984 | the candidates of one i are exactly those Split stores for j = i .. n, and they exist when every such Split does |
| Allocator.Grid | optimizer3.py:968-984 | the stored candidates are exactly those Split stores for the pairs i ≤ j, in the order the search visits them; a division by zero anywhere raises |
| Allocator.GridCandidates | optimizer3.py:968-984 | every candidate of the search sets one clock per method and delivers the quota, and is admissible when the minimum clock is at most every limit |
| Allocator.Cheapest | optimizer3.py:985 | min() over the candidates fails exactly when there is none, and otherwise returns the first of the cheapest |
| Allocator.SortByCost | optimizer3.py:966 | sorting by power per item gives a permutation of the methods, in ascending cost order |
| Allocator.InsertStable | optimizer3.py:966 | inserting a method puts it ahead of every method of its cost and keeps the order of the others |
| Allocator.SortStable | optimizer3.py:966 | the sort is stable, as Python's list.sort is: for every cost, the methods of that cost keep their relative order |
| Allocator.SortedMethodsWf | optimizer3.py:966 | sorting keeps every method's figures positive |
| NonlinearExtract.ExtractorName | optimizer3.py:1008 | the building name the output loop passes to ExtractRecipe parses back to the same extractor |
| NonlinearExtract.TierMethods | optimizer3.py:953-961 | the methods of one extractor on a list of tiers exist exactly when it has tiers to work and is registered for the resource; each method has the tier's count, the base rate and power, and the clock limit |
| NonlinearExtract.Block | optimizer3.py:953-961 | an extractor's block exists exactly when its deposit table exists (a missing one is a KeyError); it holds only methods of that extractor on distinct tiers, and when the extractor applies, it covers every tier |
| NonlinearExtract.Tiered | optimizer3.py:954-961 | over every tier of the deposit table, taken in ascending order (see Left out), the methods describe each tier once and cover them all |
| NonlinearExtract.Methods | optimizer3.py:949-961 | the method list exists exactly when the resource has extraction buildings and every applicable extractor has its deposit table; it lists every tier of every applicable extractor, each described once |
| NonlinearExtract.MethodsWf | optimizer3.py:955-961 | every listed method has positive count, rate, power and clock limit |
| NonlinearExtract.DescribedTiers | optimizer3.py:953-961 | for methods of one resource, working distinct tiers is the same as listing no method twice |
| NonlinearExtract.SortedMethods | optimizer3.py:966 | the sorted methods still describe distinct tiers of the resource |
| NonlinearExtract.PlanName | optimizer3.py:988-1005 | the key the output loop builds for a method at a clock is the name of the extraction recipe at that clock |
| NonlinearExtract.RegisterOne | optimizer3.py:989-1012 | one output step raises exactly for a node tier whose value is not 1, 2 or 4, or for a new recipe whose construction fails; a known name leaves the registries unchanged, and a new one registers exactly the recipe it spells |
| NonlinearExtract.Register | optimizer3.py:987-1012 | the output loop only adds recipes to the registries, and raises only with the errors of its steps |
| NonlinearExtract.RegisterSucceeds | optimizer3.py:987-1012 | the loop goes through when every method has a rarity, a deposit and a clock between the minimum and 2.5 |
| NonlinearExtract.RegisterRaises | optimizer3.py:987-1012 | a loop that goes through met a rarity for every node tier and an admissible clock for every recipe it had to create |
| NonlinearExtract.RegisterNames | optimizer3.py:1007-1011 | afterwards the by-name index holds exactly the earlier names plus one name per method |
| NonlinearExtract.RegisterRecipes | optimizer3.py:1007-1011 | every name the loop adds maps to the extraction recipe it spells |
| NonlinearExtract.RegisterPlanKeys | optimizer3.py:1012 | the plan holds exactly what it held plus one name per method |
| NonlinearExtract.RegisterPlanKeeps | optimizer3.py:1012 | a name no method takes keeps its count in the plan |
| NonlinearExtract.RegisterPlanCounts | optimizer3.py:1012 | the last method of each name sets that name's building count |
| NonlinearExtract.RegisterKeepsWf | optimizer3.py:1006-1011 | registering keeps the catalog well formed once the resource is under balance |
| NonlinearExtract.Choose | optimizer3.py:967-985 | the chosen candidate is one of the search's candidates, no candidate is cheaper, and its power is what the methods draw at its clocks; the search raises NoCandidate exactly when nothing was stored |
| NonlinearExtract.NlExtract | optimizer3.py:948-1013 | an unknown resource or a missing deposit table raises KeyError; the quota raises QuotaTooHigh exactly above the capacity at the limits, and QuotaTooLow exactly below what the minimum clock delivers; a success only adds recipes |
| NonlinearExtract.Guarded | optimizer3.py:962-965 | the two quota guards raise exactly above the capacity and exactly below the floor, in that order |
| NonlinearExtract.NlExtractCheapest | optimizer3.py:948-985 | a successful call lists every tier of every applicable extractor exactly once, sorted by power per item, and reports the cheapest candidate of the split search with its power |
| NonlinearExtract.NlExtractPlan | optimizer3.py:986-1013 | the returned plan names one recipe per method at the chosen clock, each with the method's building count, and every new name is registered as the recipe it spells |
| NonlinearExtract.DistinctNames | optimizer3.py:988-1005 | methods on distinct tiers get distinct names whatever their clocks, so no plan entry overwrites another |
| NonlinearExtract.NlExtractKeepsWf | optimizer3.py:1006-1011 | a successful call keeps a well-formed catalog well formed when the resource is under balance |
| NonlinearExtract.PlanOutputIsDelivered | optimizer3.py:277-287 | below the clock limits, the registered recipes extract what the search's methods deliver at the chosen clocks |
| NonlinearExtract.MethodOutput | optimizer3.py:277-287 | one method's recipe below its clock limit extracts num·rate·clock items per minute |
| NonlinearExtract.PlanPowerIsDraw | optimizer3.py:272-275 | summed over the plan, the recipes' power formula is the power the search charges the methods |
| NonlinearExtract.MethodPower | optimizer3.py:272-275 | one method's recipe draws num·power·clock^e, what the search charges it |
| NonlinearExtract.NlExtractMeetsQuota | optimizer3.py:948-1013 | when the power law obeys the exponent rule and the minimum clock is non-negative and at most every limit, the registered recipes extract exactly the quota, and the reported power is what they draw |
| Flow.ItemRates | optimizer3.py:933-935 | the rates exist exactly when every plan entry names a registered recipe whose rate for the item exists; they are those rates in plan order; otherwise the first entry that fails raises its error |
| Flow.SplitPlaces | optimizer3.py:936-939 | each entry with a negative rate is a source supplying -rate·activity, each with a positive rate is a sink taking rate·activity, and no other name appears |
| Flow.Flow | optimizer3.py:930-946 | flow succeeds exactly when every entry resolves, and otherwise raises the error of the first entry that does not |
| Flow.FlowSides | optimizer3.py:936-939 | a recipe is a source exactly when its rate for the item is negative and a sink exactly when it is positive, with the amounts it moves; both sides name only plan entries |
| Flow.FlowDisjoint | optimizer3.py:936-939 | no recipe is both a source and a sink of the item |
| Flow.SplitBalance | optimizer3.py:936-941 | the outflow exceeds the inflow by exactly the plan's net use Σ rate·activity |
| Flow.SplitNonNegative | optimizer3.py:936-941 | with non-negative activities, both totals are non-negative |
| Flow.FlowBalance | optimizer3.py:930-946 | the report balances the plan's net use of the item, and its totals are non-negative for non-negative activities |
| Flow.SplitTotals | optimizer3.py:940-941 | the inflow is the total of the source amounts and the outflow the total of the sink amounts |
| Flow.FlowTotals | optimizer3.py:940-941 | flow's two totals are the sums of its two sides |

## Left out

- The LP solve (`linprog`), its backend fallback loops, its status codes and LP optimality. The solver is a parameter. Only feasibility of what it returns is assumed (`Assembly.Sound`), and only in the lemmas that say so.
- `shadowprices` (optimizer3.py) needs a dual LP solve, which is outside the model.
- somersloops.py is not part of this model: its substance is numerical root finding and minimisation.
- Floating point and rounding: every value is an exact real. The 10^-7 tolerance of the allocation's closing assertion is replaced by the exact identity.
- Non-integer exponents are not computed. `pow` is a parameter with the laws stated as preconditions, and log2(2.5) is a configuration field.
- Recipe-name formatting (`f"{clock*100:.7g}"`, `"".join(name.split())` apart from `Linearizer.Squash`): recipe names are a structured datatype, so two clocks that format alike stay distinct.
- The ordering of the returned dictionaries: `solve` sorts its plan by name and `flow` sorts each side by amount. Plans and sides are maps, and the model promises their contents only.
- The iteration order of `inputs.keys() | outputs.keys()` (a Python set): the model promises the items that are added and that none is repeated, not the order in which they are appended.
- The hardcoded catalog tables (the long lists of `regR`, `regMR`, `regS`, `regN` and `regW` calls): registration is modelled generically. Only the configuration constants of optimizer3.py and optimizerSomer.py are given (`Settings.ThirdConfigBudget`, `Settings.SomerConfigBudget`).
- `OreGraph` and matplotlib, `prettyprint`, the print statements, `setclocks` and the `bc` and `eu` dictionaries are output only.
- `ProgressState` and the `symbsimp` import of optimizer4.py are left out: the class is unfinished and assigns to a type subscript.
- optimizer2.py's goal vector and its `Recipes.index(target)` lookup: the refinement loop takes the LP apart from the power row and bound as fixed inside the solver parameter. The same holds for the non-power rows of optimizer.py's module-level LP.
- `extractNitrogen` and `extractOil` of optimizer2.py are empty stubs in the source.
- The unbounded `while recompute` loops carry a `fuel` bound. When it runs out the model reports `NotConverged`, which the scripts never raise: they would loop on.
- Assembly.SolveSub: a failed LP is `None`. The script instead returns its matrices and lets `solve` compare them with the best result, which either keeps them (when they come first) or raises. Assembly.BestApa therefore skips failed candidates.
- NonlinearExtract.Register: a raise in the middle of the output loop leaves the earlier recipes registered in the script. The error result does not carry that partial registry.
- Allocator.GridCandidates: admissibility is stated only when the minimum clock is at most every method's limit. The script stores an empty-middle candidate without checking its clocks, so with a minimum clock above some limit the chosen clocks can exceed that limit.
- Allocator.SplitBounds: the same condition applies to a candidate without a middle, for the same reason.
- Settings.MinerBasePower: the contract states that every mark's base power is positive. The table values themselves are in the body.
- Settings.MinerBaseSpeed: the contract states positivity. The table itself is pinned down by Settings.MinerSpeedTable.
- Settings.BeltCapacity: the contract states positivity. The table values are in the body.
- Settings.PipeCapacity: the contract states positivity. The table values are in the body.
- The order of raises among several faulty entries of a Python dictionary follows the list order of the model's entries.
- Extraction.ExtractOre: for a negative quota, Python's `clocks[i]**1.6` of the negative clock is a complex number. The model's `pow` returns a real for every argument, so the model gives a real power there.
- Catalog.TierList: a deposit table is a map, so its tiers are taken in ascending order. The scripts iterate a deposit dict in the order its tiers were first registered: the Crude Oil wells, for example, come as 18, 6, 12. Assembly.TierKeys and NonlinearExtract.Tiered inherit this, so the model's deposit rows, extraction recipes and nlextract methods come in ascending tier order. The set of rows and recipes is the same. Within one block the tiers differ in cost, so nlextract's stable sort yields the same method list.
- Assembly.Goal: a recipe target is looked up as a plain recipe name. Somersloop copies and extraction recipes have structured names in the model, so a target string that would name one of them in the script is not resolved and gives UnknownTarget.

## Findings

| source | as written | input that shows it | evidently intended | confidence | as-written member | corrected member |
|---|---|---|---|---|---|---|
| optimizer2.py:665 | the power bound is `FreePower + Σ offset`: each tangent's intercept is added to the free power (likewise at optimizer2.py:696 and optimizer.py:291 and 315) | one extraction column with tangent slope 1 and intercept -2, free power 10, activity 10: the tangent draw is 10·1 − 2 = 8 ≤ 10, yet the row demands 10 ≤ 10 + (−2) = 8 and rejects the plan | the intercepts move to the right-hand side with a minus sign, `FreePower − Σ offset`, so that the row bounds Σ(slope·x + offset) by the free power | not executed | Budget.WrittenBoundRejectsAffordablePlan | Budget.BudgetMeaning |

Budget.WrittenBudgetMeaning states what the bound as written admits: plans whose draw minus twice the intercepts fits. The refinement loops in `Refine` take the bound rule as a parameter. With `Budget.AsWritten` they are the scripts: `Refine.OreScriptBound` and `Refine.ScriptBound` state that the solver receives the free power plus the intercepts. With `Budget.Corrected` they use `Budget.PowerBound`. `Refine.ConvergedWithinBudget` and `Refine.OreConvergedWithinBudget` state what the converged plan's draw satisfies under each rule.
