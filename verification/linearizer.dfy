/** Linearisation of the convex extraction-power curves: the numeric
    derivative of optimizer.py and optimizer2.py, the tangent each
    extraction recipe contributes to the power constraint, and the
    extraction recipes of optimizer2.py. */
module Linearizer {
  import opened Basics
  import opened Settings
  import opened Catalog
  import opened Extraction

  /** The power an extraction function reports for a quota; it may raise. */
  type Curve = real -> Result<real>

  /** The two quotas a difference quotient samples. An anchored stencil
      starts at 0 and takes the curve's value there to be 0 instead of
      evaluating it. */
  datatype Stencil = Stencil(lo: real, hi: real, anchored: bool)

  /** Half-width of the centred difference: min(|q - qmax|, eps, q), or
      min(eps, q) when the quota is unbounded. */
  function Step(q: real, qmax: Option<real>, eps: real): (e: real)
    requires eps > 0.0 && q != 0.0 && (qmax.Some? ==> q != qmax.value)
    ensures e != 0.0
    ensures q > 0.0 ==> 0.0 < e <= q && e <= eps
    ensures q > 0.0 && qmax.Some? ==> e <= Abs(q - qmax.value)
  {
    if qmax.Some? then Min(Min(Abs(q - qmax.value), eps), q) else Min(eps, q)
  }

  /** The sample points of derivative (optimizer2.py) and of
      ExtractionDerivative (optimizer.py): one-sided below the maximum,
      one-sided above 0, centred everywhere else. */
  function StencilOf(q: real, qmax: Option<real>, eps: real): (s: Stencil)
    requires eps > 0.0
    ensures s.lo != s.hi
    ensures s.anchored ==> s.lo == 0.0
    ensures q >= 0.0 ==> s.lo < s.hi && s.lo <= q <= s.hi
    ensures qmax.Some? && 0.0 < q < qmax.value ==> 0.0 <= s.lo && s.hi <= qmax.value
    ensures qmax.Some? && 0.0 <= q <= qmax.value && eps <= qmax.value ==> 0.0 <= s.lo && s.hi <= qmax.value
    ensures qmax.None? && q >= 0.0 ==> 0.0 <= s.lo && s.hi <= q + eps
  {
    if qmax.Some? && q == qmax.value then Stencil(q - eps, q, false)
    else if q == 0.0 then Stencil(0.0, eps, true)
    else
      var e := Step(q, qmax, eps);
      Stencil(q - e, q + e, false)
  }

  /** The difference quotient over a stencil; the upper point is evaluated
      first, and either evaluation may raise. */
  function Secant(f: Curve, s: Stencil): (r: Result<real>)
    requires s.lo != s.hi
    ensures r.Ok? <==> f(s.hi).Ok? && (s.anchored || f(s.lo).Ok?)
  {
    match f(s.hi)
    case Err(e) => Err(e)
    case Ok(vh) =>
      if s.anchored then Ok(vh / (s.hi - s.lo))
      else
        match f(s.lo)
        case Err(e) => Err(e)
        case Ok(vl) => Ok((vh - vl) / (s.hi - s.lo))
  }

  /** derivative / ExtractionDerivative: the slope of the curve at q. */
  function Derivative(f: Curve, q: real, qmax: Option<real>, eps: real): Result<real>
    requires eps > 0.0
  {
    Secant(f, StencilOf(q, qmax, eps))
  }

  /** Within [0, qmax] the derivative only samples [0, qmax] (provided the
      one-sided step fits), so a curve defined there has a derivative. */
  lemma DerivativeDefined(f: Curve, q: real, m: real, eps: real)
    requires eps > 0.0 && 0.0 <= q <= m && eps <= m
    requires forall x :: 0.0 <= x <= m ==> f(x).Ok?
    ensures Derivative(f, q, Some(m), eps).Ok?
  {
    var s := StencilOf(q, Some(m), eps);
    assert f(s.hi).Ok? && f(s.lo).Ok?;
  }

  /** An unbounded quota at or above 0 only samples [0, q + eps]. */
  lemma DerivativeDefinedUnbounded(f: Curve, q: real, eps: real)
    requires eps > 0.0 && 0.0 <= q
    requires forall x :: 0.0 <= x <= q + eps ==> f(x).Ok?
    ensures Derivative(f, q, None, eps).Ok?
  {
    var s := StencilOf(q, None, eps);
    assert f(s.hi).Ok? && f(s.lo).Ok?;
  }

  /** A curve through the origin with constant slope c: the derivative is
      exactly c wherever it is taken. */
  ghost predicate LinearCurve(f: Curve, c: real)
  {
    forall x :: f(x).Ok? && f(x).value == c * x
  }

  lemma DerivativeOfLinear(f: Curve, c: real, q: real, qmax: Option<real>, eps: real)
    requires eps > 0.0 && LinearCurve(f, c)
    ensures Derivative(f, q, qmax, eps).Ok? && Derivative(f, q, qmax, eps).value == c
  {
    SecantOfLinear(f, c, StencilOf(q, qmax, eps));
  }

  lemma SecantOfLinear(f: Curve, c: real, s: Stencil)
    requires s.lo != s.hi && (s.anchored ==> s.lo == 0.0) && LinearCurve(f, c)
    ensures Secant(f, s).Ok? && Secant(f, s).value == c
  {
    var vh := f(s.hi).value;
    var w := s.hi - s.lo;
    DivCancel(c, w);
    if s.anchored {
      assert vh == c * w;
    } else {
      var vl := f(s.lo).value;
      assert vh - vl == c * w;
    }
  }

  lemma DivCancel(c: real, h: real)
    requires h != 0.0
    ensures (c * h) / h == c
  {
  }

  // ----- optimizer.py -----

  /** The step of ExtractionDerivative. */
  const OreStep: real := 0.001

  /** The ore power curve of optimizer.py: ExtractionOre's power. */
  function OreCurve(cfg: Config, nodes: Counts): Curve
  {
    (q: real) => match ExtractionOre(cfg, nodes, q)
                 case Err(e) => Err(e)
                 case Ok(x) => Ok(x.power)
  }

  /** ExtractionDerivative: MaxExtractOre as the upper bound. */
  function ExtractionDerivative(cfg: Config, nodes: Counts, q: real): Result<real>
  {
    Derivative(OreCurve(cfg, nodes), q, Some(OreCapacity(cfg, nodes)), OreStep)
  }

  /** The tangent an extraction recipe contributes: its slope goes into the
      power row, its offset into the power bound. */
  datatype Tangent = Tangent(slope: real, offset: real)

  /** The tangent of a curve at q: the derivative there as slope, and the
      offset that puts the line through the curve at q. */
  function TangentAt(f: Curve, q: real, qmax: Option<real>, eps: real): (r: Result<Tangent>)
    requires eps > 0.0
    ensures r.Ok? <==> Derivative(f, q, qmax, eps).Ok? && f(q).Ok?
    ensures r.Ok? ==> r.value.slope == Derivative(f, q, qmax, eps).value
  {
    match Derivative(f, q, qmax, eps)
    case Err(e) => Err(e)
    case Ok(slope) =>
      match f(q)
      case Err(e) => Err(e)
      case Ok(v) => Ok(Tangent(slope, v - slope * q))
  }

  /** The tangent line meets the curve at its reference quota. */
  lemma TangentMeetsCurve(f: Curve, q: real, qmax: Option<real>, eps: real)
    requires eps > 0.0 && TangentAt(f, q, qmax, eps).Ok?
    ensures TangentAt(f, q, qmax, eps).value.offset + TangentAt(f, q, qmax, eps).value.slope * q == f(q).value
  {
  }

  /** ExtractRecipe.linearize of optimizer.py (and, at MaxExtractOre, its
      constructor): the tangent of ExtractionOre's power curve at q. */
  function Linearize(cfg: Config, nodes: Counts, q: real): Result<Tangent>
  {
    TangentAt(OreCurve(cfg, nodes), q, Some(OreCapacity(cfg, nodes)), OreStep)
  }

  /** Every ore with nodes can be linearised anywhere in [0, MaxExtractOre];
      the constructor's first tangent at the maximum is one of these. */
  lemma LinearizeDefined(cfg: Config, nodes: Counts, q: real)
    requires PowLaws(cfg.pow)
    requires !AllZero(nodes) && 0.0 <= q <= OreCapacity(cfg, nodes)
    ensures Linearize(cfg, nodes, q).Ok?
  {
    var m := OreCapacity(cfg, nodes);
    var f := OreCurve(cfg, nodes);
    forall x | 0.0 <= x <= m
      ensures f(x).Ok?
    {
      ExtractionOreDefined(cfg, nodes, x);
    }
    CapacityAboveStep(cfg, nodes);
    DerivativeDefined(f, q, m, OreStep);
  }

  /** A resource with a node can deliver at least 60 items per minute. */
  lemma CapacityAboveStep(cfg: Config, nodes: Counts)
    requires !AllZero(nodes)
    ensures OreCapacity(cfg, nodes) >= 60.0
  {
    assert TierCapacity(cfg, 0) >= 60.0 && TierCapacity(cfg, 1) >= 60.0 && TierCapacity(cfg, 2) >= 60.0;
  }

  // ----- optimizer2.py -----

  /** Tolerance of the guessed-quota checks, 10^-6. */
  const QuotaTolerance: real := 0.000001

  /** Lower bound on every extraction slope. */
  const MinSlope: real := 0.01

  /** The step of derivative. */
  const DerivativeStep: real := 0.5

  /** An extraction recipe of optimizer2.py: produces one unit of its
      resource per unit of activity, with power drawn from its extraction
      function. */
  datatype LinearExtract = LinearExtract(resource: Item, curve: Curve)

  /** ExtractRecipe.rate: -1 for its resource, 0 for everything else. */
  function LinearRate(r: LinearExtract, item: Item): (v: real)
    ensures v == -1.0 <==> item == r.resource
    ensures v == 0.0 <==> item != r.resource
  {
    if item == r.resource then -1.0 else 0.0
  }

  /** The quota power and offset linearise at: the guess clamped to
      [10^-6, limit], or only from below for Water. */
  function ReferenceQuota(r: LinearExtract, limit: real, g: real): (q: real)
    ensures q >= QuotaTolerance
    ensures r.resource != Water && limit >= QuotaTolerance ==> q <= limit
    ensures QuotaTolerance <= g && (r.resource == Water || g <= limit) ==> q == g
  {
    if r.resource == Water then Max(g, QuotaTolerance) else Max(QuotaTolerance, Min(g, limit))
  }

  /** The bound passed to derivative: none for Water. */
  function UpperBound(r: LinearExtract, limit: real): Option<real>
  {
    if r.resource == Water then None else Some(limit)
  }

  /** The limit of a non-Water resource, which limitExtract may refuse;
      Water's is never consulted. */
  function RecipeLimit(cfg: Config, d: Deposits, r: LinearExtract): (l: Result<real>)
    ensures r.resource == Water ==> l == Ok(0.0)
    ensures r.resource != Water ==> l == LimitExtract(cfg, d, r.resource)
  {
    if r.resource == Water then Ok(0.0) else LimitExtract(cfg, d, r.resource)
  }

  /** Whether a guessed quota is accepted: at least -10^-6, and for
      resources other than Water at most limit + 10^-6. */
  predicate GuessAccepted(r: LinearExtract, limit: real, g: real)
  {
    g >= -QuotaTolerance && (r.resource == Water || g <= limit + QuotaTolerance)
  }

  /** ExtractRecipe.power: the slope at the reference quota, never below
      0.01; a guess outside the accepted range raises. */
  function ExtractPower(cfg: Config, d: Deposits, r: LinearExtract, g: real): (p: Result<real>)
    ensures p.Ok? ==> p.value >= MinSlope
    ensures RecipeLimit(cfg, d, r).Err? ==> p == Err(NotLimited)
    ensures RecipeLimit(cfg, d, r).Ok? && !GuessAccepted(r, RecipeLimit(cfg, d, r).value, g) ==> p == Err(InvalidQuota)
  {
    match RecipeLimit(cfg, d, r)
    case Err(e) => Err(e)
    case Ok(limit) =>
      if !GuessAccepted(r, limit, g) then Err(InvalidQuota)
      else
        match Derivative(r.curve, ReferenceQuota(r, limit, g), UpperBound(r, limit), DerivativeStep)
        case Err(e) => Err(e)
        case Ok(slope) => Ok(Max(MinSlope, slope))
  }

  /** ExtractRecipe.offset: the curve at the reference quota minus the
      tangent's rise from 0. */
  function ExtractOffset(cfg: Config, d: Deposits, r: LinearExtract, g: real): (o: Result<real>)
    ensures o.Ok? ==> ExtractPower(cfg, d, r, g).Ok?
    ensures RecipeLimit(cfg, d, r).Err? ==> o == Err(NotLimited)
    ensures RecipeLimit(cfg, d, r).Ok? && !GuessAccepted(r, RecipeLimit(cfg, d, r).value, g) ==> o == Err(InvalidQuota)
  {
    match RecipeLimit(cfg, d, r)
    case Err(e) => Err(e)
    case Ok(limit) =>
      if !GuessAccepted(r, limit, g) then Err(InvalidQuota)
      else
        var q := ReferenceQuota(r, limit, g);
        match r.curve(q)
        case Err(e) => Err(e)
        case Ok(v) =>
          match ExtractPower(cfg, d, r, g)
          case Err(e) => Err(e)
          case Ok(p) => Ok(v - q * p)
  }

  /** The tangent of slope power(g) and intercept offset(g) meets the curve
      at the reference quota. */
  lemma TangentIdentity(cfg: Config, d: Deposits, r: LinearExtract, g: real)
    requires ExtractOffset(cfg, d, r, g).Ok?
    ensures var q := ReferenceQuota(r, RecipeLimit(cfg, d, r).value, g);
            && r.curve(q).Ok?
            && ExtractOffset(cfg, d, r, g).value + q * ExtractPower(cfg, d, r, g).value == r.curve(q).value
  {
  }

  /** Inside its accepted range a limited resource whose curve is defined
      on [0, limit] always has a power and an offset. */
  lemma ExtractDefined(cfg: Config, d: Deposits, r: LinearExtract, g: real)
    requires r.resource != Water && r.resource in d.limited
    requires LimitExtract(cfg, d, r.resource).value >= DerivativeStep
    requires forall x :: 0.0 <= x <= LimitExtract(cfg, d, r.resource).value ==> r.curve(x).Ok?
    requires -QuotaTolerance <= g <= LimitExtract(cfg, d, r.resource).value + QuotaTolerance
    ensures ExtractPower(cfg, d, r, g).Ok? && ExtractOffset(cfg, d, r, g).Ok?
  {
    var limit := LimitExtract(cfg, d, r.resource).value;
    var q := ReferenceQuota(r, limit, g);
    DerivativeDefined(r.curve, q, limit, DerivativeStep);
  }

  /** The Water curve of extractWater: linear in the quota, at the water
      extractor's power per item plus the pumps it pays for. */
  function WaterCost(cfg: Config): real
  {
    20.0 * cfg.pow(1.0, MinerExponent) / 120.0 + 4.0 * cfg.pumpsPerPipe / Pipe(cfg)
  }

  function WaterCurve(cfg: Config): Curve
  {
    (q: real) => Ok(WaterCost(cfg) * q)
  }

  lemma WaterCurveLinear(cfg: Config)
    requires PowLaws(cfg.pow) && cfg.pumpsPerPipe >= 0.0
    ensures LinearCurve(WaterCurve(cfg), WaterCost(cfg))
    ensures WaterCost(cfg) >= MinSlope
  {
    assert WaterCost(cfg) >= 20.0 / 120.0;
  }

  /** For a linear Water curve the tangent is the curve itself: power is
      the cost per item (when at least 0.01) and the offset vanishes,
      whatever the accepted guess. */
  lemma WaterTangentExact(cfg: Config, d: Deposits, r: LinearExtract, c: real, g: real)
    requires r.resource == Water && LinearCurve(r.curve, c) && c >= MinSlope
    requires g >= -QuotaTolerance
    ensures ExtractPower(cfg, d, r, g).Ok? && ExtractPower(cfg, d, r, g).value == c
    ensures ExtractOffset(cfg, d, r, g).Ok? && ExtractOffset(cfg, d, r, g).value == 0.0
  {
    var q := ReferenceQuota(r, 0.0, g);
    DerivativeOfLinear(r.curve, c, q, None, DerivativeStep);
    assert r.curve(q).value == c * q;
  }

  /** The extraction recipes registered so far. */
  datatype Extractions = Extractions(recipes: seq<LinearExtract>, byName: map<string, LinearExtract>)

  /** The characters Python's str.split() splits on: the ASCII controls
      9-13 and 28-31, the space, and the Unicode separators. */
  predicate IsSpace(c: char)
  {
    || '\U{9}' <= c <= '\U{D}' || '\U{1C}' <= c <= '\U{20}'
    || c == '\U{85}' || c == '\U{A0}' || c == '\U{1680}'
    || '\U{2000}' <= c <= '\U{200A}' || c == '\U{2028}' || c == '\U{2029}'
    || c == '\U{202F}' || c == '\U{205F}' || c == '\U{3000}'
  }

  /** "".join(s.split()): the string with all whitespace removed. */
  function Squash(s: string): (r: string)
    ensures |r| <= |s|
    ensures forall i :: 0 <= i < |r| ==> !IsSpace(r[i])
    ensures (forall i :: 0 <= i < |s| ==> !IsSpace(s[i])) ==> r == s
  {
    if |s| == 0 then ""
    else if IsSpace(s[0]) then Squash(s[1..])
    else [s[0]] + Squash(s[1..])
  }

  /** Removing whitespace works piecewise: the squashed concatenation is
      the concatenation of the squashed parts, so every non-space
      character is kept, in order. */
  lemma {:induction false} SquashAppend(a: string, b: string)
    ensures Squash(a + b) == Squash(a) + Squash(b)
    decreases |a|
  {
    if |a| == 0 {
      assert a + b == b;
    } else {
      assert (a + b)[0] == a[0] && (a + b)[1..] == a[1..] + b;
      SquashAppend(a[1..], b);
    }
  }

  /** A single character survives exactly when it is not whitespace. */
  lemma SquashChar(c: char)
    ensures Squash([c]) == if IsSpace(c) then [] else [c]
  {
  }

  /** A no-break space between two letters is removed, as str.split()
      removes it. */
  lemma SquashNoBreakSpace()
    ensures Squash("a\U{A0}b") == "ab"
  {
  }

  function ExtractName(resource: Item): string
  {
    "extract_" + Squash(resource)
  }

  /** regER: a resource must have nodes or wells, or be Water; the recipe
      is appended to the list and filed under its name. */
  function RegER(reg: Extractions, d: Deposits, resource: Item, curve: Curve): (r: Result<Extractions>)
    ensures r.Err? <==> resource !in d.nodes.Keys + d.wells.Keys + {Water}
    ensures r.Err? ==> r.error == UnknownResource
    ensures r.Ok? ==> r.value.recipes == reg.recipes + [LinearExtract(resource, curve)]
    ensures r.Ok? ==> r.value.byName == reg.byName[ExtractName(resource) := LinearExtract(resource, curve)]
  {
    if resource !in d.nodes.Keys + d.wells.Keys + {Water} then Err(UnknownResource)
    else
      var x := LinearExtract(resource, curve);
      Ok(Extractions(reg.recipes + [x], reg.byName[ExtractName(resource) := x]))
  }

  /** Registered extraction recipes are filed under their names. */
  predicate Filed(reg: Extractions)
  {
    forall i :: 0 <= i < |reg.recipes| ==>
      ExtractName(reg.recipes[i].resource) in reg.byName
  }

  /** Every resource whose recipe regER accepted stays filed. */
  lemma RegERKeepsFiled(reg: Extractions, d: Deposits, resource: Item, curve: Curve)
    requires Filed(reg)
    requires RegER(reg, d, resource, curve).Ok?
    ensures Filed(RegER(reg, d, resource, curve).value)
  {
    var r := RegER(reg, d, resource, curve).value;
    forall i | 0 <= i < |r.recipes|
      ensures ExtractName(r.recipes[i].resource) in r.byName
    {
      if i < |reg.recipes| {
        assert r.recipes[i] == reg.recipes[i];
      }
    }
  }
}
