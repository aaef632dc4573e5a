/** The LP that solve of optimizer3.py and solve_sub of optimizerSomer.py
    hand to the LP primitive, the tie-break second pass, the reported value
    and plan, and the enumeration of alien power augmenter (APA) counts in
    solve of optimizerSomer.py. The primitive itself is a parameter: it
    returns a point or reports failure. */
module Assembly {
  import opened Basics
  import opened Settings
  import opened Rates
  import opened Catalog

  /** A constraint row: a coefficient per recipe and the right-hand side. */
  datatype Row = Row(coeffs: seq<real>, bound: real)

  /** Minimise c·x subject to ub[k]·x <= ub[k].bound, eq[k]·x == eq[k].bound
      and x >= 0. */
  datatype LP = LP(c: seq<real>, ub: seq<Row>, eq: seq<Row>)

  predicate RowsShaped(rows: seq<Row>, n: nat)
  {
    forall k :: 0 <= k < |rows| ==> |rows[k].coeffs| == n
  }

  predicate Feasible(lp: LP, x: seq<real>)
  {
    && |lp.c| == |x| && RowsShaped(lp.ub, |x|) && RowsShaped(lp.eq, |x|)
    && (forall i :: 0 <= i < |x| ==> x[i] >= 0.0)
    && (forall k :: 0 <= k < |lp.ub| ==> Dot(lp.ub[k].coeffs, x) <= lp.ub[k].bound)
    && (forall k :: 0 <= k < |lp.eq| ==> Dot(lp.eq[k].coeffs, x) == lp.eq[k].bound)
  }

  /** The LP primitive: a point, or nothing when it reports failure. */
  type Oracle = LP -> Option<seq<real>>

  /** What the primitive promises: every point it returns is feasible. */
  ghost predicate Sound(solve: Oracle)
  {
    forall lp :: solve(lp).Some? ==> Feasible(lp, solve(lp).value)
  }

  function Ones(n: nat): (r: seq<real>)
    ensures |r| == n && forall i :: 0 <= i < n ==> r[i] == 1.0
  {
    seq(n, i => 1.0)
  }

  /** The milestone whose objective the script scales by 1000. */
  const ProjectAssembly4: string := "ProjectAssembly4"

  const AlienPowerMatrix: Item := "Alien Power Matrix"

  /** Water the somersloop script credits from water wells, per minute. */
  const WellWater: real := 999.26898

  /** Activities at or below this are left out of the plan. */
  const Support: real := 0.000000001

  /** The parts of the catalog invariant assembly relies on: recipes are
      well formed, their items are under balance, items are listed once. */
  predicate Ready(cat: Catalog)
  {
    AllWf(cat.recipes) && ItemsBalanced(cat) && NoDuplicates(cat.items)
  }

  lemma WfReady(cat: Catalog)
    requires Wf(cat)
    ensures Ready(cat)
  {
  }

  // ----- objective -----

  /** A target the scripts maximise the production of. */
  predicate ItemTarget(cat: Catalog, target: string)
  {
    target == AwesomePoints || target in cat.items
  }

  /** list.index: the first position of a recipe. */
  function Position(rs: seq<Recipe>, r: Recipe): (k: Option<nat>)
    ensures k.Some? ==> k.value < |rs| && rs[k.value] == r && forall j :: 0 <= j < k.value ==> rs[j] != r
    ensures k.None? ==> r !in rs
  {
    if |rs| == 0 then None
    else if rs[0] == r then Some(0)
    else
      match Position(rs[1..], r)
      case None => None
      case Some(k) => Some(k + 1)
  }

  /** The goal vector before the penalty: the rate of an item target
      (production is negative, so minimising maximises it), or -1 at the
      first position of a recipe target. */
  function Goal(cfg: Config, cat: Catalog, target: string): (c: Result<seq<real>>)
    requires AllWf(cat.recipes)
    ensures c.Ok? ==> |c.value| == |cat.recipes|
    ensures ItemTarget(cat, target) ==>
              c.Ok? && forall i :: 0 <= i < |cat.recipes| ==> c.value[i] == RateOf(cfg, cat.recipes[i], target)
    ensures !ItemTarget(cat, target) && Named(target) !in cat.byName ==> c.Err? && c.error == UnknownTarget
    ensures !ItemTarget(cat, target) && Named(target) in cat.byName ==>
              (c.Ok? <==> cat.byName[Named(target)] in cat.recipes)
    ensures !ItemTarget(cat, target) && c.Ok? ==>
              forall i :: 0 <= i < |cat.recipes| ==>
                c.value[i] == if i == Position(cat.recipes, cat.byName[Named(target)]).value then -1.0 else 0.0
  {
    var n := |cat.recipes|;
    if ItemTarget(cat, target) then Ok(seq(n, i requires 0 <= i < n => RateOf(cfg, cat.recipes[i], target)))
    else if Named(target) !in cat.byName then Err(UnknownTarget)
    else
      match Position(cat.recipes, cat.byName[Named(target)])
      case None => Err(UnknownKey)
      case Some(k) => Ok(seq(n, i => if i == k then -1.0 else 0.0))
  }

  /** c += penalty. */
  function Penalised(g: seq<real>, penalty: real): (c: seq<real>)
    ensures |c| == |g| && forall i :: 0 <= i < |g| ==> c[i] == g[i] + penalty
  {
    seq(|g|, i requires 0 <= i < |g| => g[i] + penalty)
  }

  lemma {:induction false} DotPenalised(g: seq<real>, penalty: real, x: seq<real>)
    requires |g| == |x|
    ensures Dot(Penalised(g, penalty), x) == Dot(g, x) + penalty * Sum(x)
  {
    if |g| > 0 {
      assert Penalised(g, penalty)[1..] == Penalised(g[1..], penalty);
      DotPenalised(g[1..], penalty, x[1..]);
    }
  }

  // ----- inequality rows -----

  /** The power row: every recipe's draw against the free power. */
  function PowerRow(cfg: Config, rs: seq<Recipe>, apa: Apa): (row: Row)
    requires AllWf(rs)
    ensures |row.coeffs| == |rs| && row.bound == FreePowerApa(cfg, apa.unfueled, apa.fueled)
    ensures forall i :: 0 <= i < |rs| ==> row.coeffs[i] == PowerOf(cfg, rs[i], apa)
  {
    Row(seq(|rs|, i requires 0 <= i < |rs| => PowerOf(cfg, rs[i], apa)), FreePowerApa(cfg, apa.unfueled, apa.fueled))
  }

  /** One row per resource, extraction building and deposit value. */
  datatype DepositKey = DepositKey(resource: Item, extractor: Extractor, val: pos)

  /** The deposits a building draws from: wells for the pressurizer, nodes
      otherwise. */
  function DepositsOf(cat: Catalog, e: Extractor): map<Item, Tiers>
  {
    if e == WellPressurizer then cat.wells else cat.nodes
  }

  function ExtractorsOf(cat: Catalog, resource: Item): seq<Extractor>
  {
    if resource in cat.extractBuildings then cat.extractBuildings[resource] else []
  }

  /** Whether a recipe extracts at a deposit key. */
  predicate Draws(r: Recipe, k: DepositKey)
  {
    r.Extract? && r.extractor == k.extractor && r.resource == k.resource && r.val == k.val
  }

  /** The recipes drawing from one kind of deposit share its count. */
  function DepositRow(cat: Catalog, k: DepositKey): (row: Row)
    ensures |row.coeffs| == |cat.recipes|
    ensures forall i :: 0 <= i < |cat.recipes| ==> row.coeffs[i] == if Draws(cat.recipes[i], k) then 1.0 else 0.0
    ensures row.bound == Count(TiersOf(DepositsOf(cat, k.extractor), k.resource), k.val) as real
  {
    var n := |cat.recipes|;
    Row(seq(n, i requires 0 <= i < n => if Draws(cat.recipes[i], k) then 1.0 else 0.0),
        Count(TiersOf(DepositsOf(cat, k.extractor), k.resource), k.val) as real)
  }

  function TierKeys(resource: Item, e: Extractor, vals: seq<pos>): (r: seq<DepositKey>)
    ensures |r| == |vals| && forall j :: 0 <= j < |vals| ==> r[j] == DepositKey(resource, e, vals[j])
  {
    seq(|vals|, j requires 0 <= j < |vals| => DepositKey(resource, e, vals[j]))
  }

  /** The keys of one resource, building by building; a building without
      deposits of the resource raises. */
  function ExtractorKeys(cat: Catalog, resource: Item, es: seq<Extractor>): (r: Result<seq<DepositKey>>)
    ensures r.Ok? <==> forall j :: 0 <= j < |es| ==> resource in DepositsOf(cat, es[j])
    ensures r.Err? ==> r.error == UnknownKey
    ensures r.Ok? ==> forall k :: k in r.value <==>
              k.resource == resource && k.extractor in es && k.val in TiersOf(DepositsOf(cat, k.extractor), resource)
    decreases |es|
  {
    if |es| == 0 then Ok([])
    else if resource !in DepositsOf(cat, es[0]) then Err(UnknownKey)
    else
      match ExtractorKeys(cat, resource, es[1..])
      case Err(e) => Err(e)
      case Ok(rest) =>
        var here := TierKeys(resource, es[0], TierList(DepositsOf(cat, es[0])[resource]));
        ExtractorKeysStep(cat, resource, es, here, rest);
        Ok(here + rest)
  }

  lemma ExtractorKeysStep(cat: Catalog, resource: Item, es: seq<Extractor>, here: seq<DepositKey>, rest: seq<DepositKey>)
    requires |es| > 0 && resource in DepositsOf(cat, es[0])
    requires here == TierKeys(resource, es[0], TierList(DepositsOf(cat, es[0])[resource]))
    requires forall k :: k in rest <==>
               k.resource == resource && k.extractor in es[1..] && k.val in TiersOf(DepositsOf(cat, k.extractor), resource)
    ensures forall k :: k in here + rest <==>
              k.resource == resource && k.extractor in es && k.val in TiersOf(DepositsOf(cat, k.extractor), resource)
  {
    var vals := TierList(DepositsOf(cat, es[0])[resource]);
    forall k
      ensures k in here <==> k.resource == resource && k.extractor == es[0] && k.val in DepositsOf(cat, es[0])[resource]
    {
      if k in here {
        var j :| 0 <= j < |here| && here[j] == k;
        assert vals[j] in Elements(vals);
      }
      if k.resource == resource && k.extractor == es[0] && k.val in DepositsOf(cat, es[0])[resource] {
        assert k.val in Elements(vals);
        var j :| 0 <= j < |vals| && vals[j] == k.val;
        assert here[j] == k;
      }
    }
    forall e: Extractor
      ensures e in es <==> e == es[0] || e in es[1..]
    {
      if e in es {
        var j :| 0 <= j < |es| && es[j] == e;
        if j > 0 {
          assert es[1..][j - 1] == e;
        }
      }
    }
  }

  /** The keys of all resources, in the order the extraction buildings
      were registered. */
  function DepositKeys(cat: Catalog, resources: seq<Item>): (r: Result<seq<DepositKey>>)
    ensures r.Ok? <==> forall j, e :: 0 <= j < |resources| && e in ExtractorsOf(cat, resources[j]) ==>
                         resources[j] in DepositsOf(cat, e)
    ensures r.Err? ==> r.error == UnknownKey
    ensures r.Ok? ==> forall k :: k in r.value <==>
              k.resource in resources && k.extractor in ExtractorsOf(cat, k.resource)
              && k.val in TiersOf(DepositsOf(cat, k.extractor), k.resource)
    decreases |resources|
  {
    if |resources| == 0 then Ok([])
    else
      match ExtractorKeys(cat, resources[0], ExtractorsOf(cat, resources[0]))
      case Err(e) => Err(e)
      case Ok(here) =>
        match DepositKeys(cat, resources[1..])
        case Err(e) =>
          assert !forall j, e :: 0 <= j < |resources| && e in ExtractorsOf(cat, resources[j]) ==>
                   resources[j] in DepositsOf(cat, e) by {
            var j, e :| 0 <= j < |resources| - 1 && e in ExtractorsOf(cat, resources[1..][j])
                        && resources[1..][j] !in DepositsOf(cat, e);
            assert resources[1 + j] == resources[1..][j];
          }
          Err(e)
        case Ok(rest) =>
          DepositKeysStep(cat, resources, here, rest);
          Ok(here + rest)
  }

  lemma DepositKeysStep(cat: Catalog, resources: seq<Item>, here: seq<DepositKey>, rest: seq<DepositKey>)
    requires |resources| > 0
    requires forall e :: e in ExtractorsOf(cat, resources[0]) ==> resources[0] in DepositsOf(cat, e)
    requires forall j, e :: 0 <= j < |resources| - 1 && e in ExtractorsOf(cat, resources[1..][j]) ==>
               resources[1..][j] in DepositsOf(cat, e)
    requires forall k :: k in here <==>
               k.resource == resources[0] && k.extractor in ExtractorsOf(cat, resources[0])
               && k.val in TiersOf(DepositsOf(cat, k.extractor), resources[0])
    requires forall k :: k in rest <==>
               k.resource in resources[1..] && k.extractor in ExtractorsOf(cat, k.resource)
               && k.val in TiersOf(DepositsOf(cat, k.extractor), k.resource)
    ensures forall j, e :: 0 <= j < |resources| && e in ExtractorsOf(cat, resources[j]) ==>
              resources[j] in DepositsOf(cat, e)
    ensures forall k :: k in here + rest <==>
              k.resource in resources && k.extractor in ExtractorsOf(cat, k.resource)
              && k.val in TiersOf(DepositsOf(cat, k.extractor), k.resource)
  {
    forall j, e | 0 <= j < |resources| && e in ExtractorsOf(cat, resources[j])
      ensures resources[j] in DepositsOf(cat, e)
    {
      if j > 0 {
        assert resources[1..][j - 1] == resources[j];
      }
    }
    forall x
      ensures x in resources <==> x == resources[0] || x in resources[1..]
    {
      if x in resources {
        var j :| 0 <= j < |resources| && resources[j] == x;
        if j > 0 {
          assert resources[1..][j - 1] == x;
        }
      }
    }
  }

  /** The somersloop row: slotted somersloops against those not spent on
      APAs, ten per APA. */
  function SloopRow(cfg: Config, rs: seq<Recipe>, apa: Apa): (row: Row)
    ensures |row.coeffs| == |rs|
    ensures forall i :: 0 <= i < |rs| ==> row.coeffs[i] == if rs[i].Sloop? then rs[i].sloops as real else 0.0
    ensures row.bound == (cfg.totalSloops - 10 * (apa.unfueled + apa.fueled)) as real
  {
    Row(seq(|rs|, i requires 0 <= i < |rs| => if rs[i].Sloop? then rs[i].sloops as real else 0.0),
        (cfg.totalSloops - 10 * (apa.unfueled + apa.fueled)) as real)
  }

  // ----- equality rows -----

  /** The two scripts that assemble this LP. */
  datatype Variant = Third | Somer

  /** The balance coefficient of a recipe for an item: its rate, except
      that the target and the points are not balanced. */
  function BalanceCoeff(cfg: Config, r: Recipe, item: Item, target: string): real
    requires WfRecipe(r)
  {
    if item in Keys(r) && item != target && item != AwesomePoints then RateOf(cfg, r, item) else 0.0
  }

  /** What an item's balance must come to: the somersloop script takes
      the wells' water and five matrices per fueled APA as given. */
  function Supply(variant: Variant, apa: Apa, item: Item): real
  {
    if variant == Somer && item == Water then WellWater
    else if variant == Somer && item == AlienPowerMatrix then -5.0 * apa.fueled as real
    else 0.0
  }

  function BalanceRow(cfg: Config, rs: seq<Recipe>, item: Item, target: string, rhs: real): (row: Row)
    requires AllWf(rs)
    ensures |row.coeffs| == |rs| && row.bound == rhs
    ensures forall i :: 0 <= i < |rs| ==> row.coeffs[i] == BalanceCoeff(cfg, rs[i], item, target)
  {
    Row(seq(|rs|, i requires 0 <= i < |rs| => BalanceCoeff(cfg, rs[i], item, target)), rhs)
  }

  /** A balance coefficient is the recipe's rate for every item but the
      target and the points: items a recipe does not mention have rate 0. */
  lemma BalanceCoeffIsRate(cfg: Config, r: Recipe, item: Item, target: string)
    requires WfRecipe(r)
    ensures BalanceCoeff(cfg, r, item, target) ==
            if item == target || item == AwesomePoints then 0.0 else RateOf(cfg, r, item)
  {
    if item !in Keys(r) {
      RateOutsideKeys(cfg, r, item);
    }
  }

  // ----- the LP -----

  /** What assembly needs beyond the catalog: the variant, the target, the
      APA counts, the penalty, an optional limit on the number of
      buildings, and the resources in the order their extraction buildings
      were registered. */
  datatype Request = Request(variant: Variant, target: string, apa: Apa, penalty: real,
                             buildLimit: Option<real>, resources: seq<Item>)

  /** The scripts iterate the extraction-building table itself, so the
      resources are its keys, each once. */
  predicate ListsResources(cat: Catalog, resources: seq<Item>)
  {
    NoDuplicates(resources) && Elements(resources) == cat.extractBuildings.Keys
  }

  /** With the table's keys as resources, the deposit keys exist exactly
      when every registered building of every resource has deposits of it,
      and they are then every registered (resource, building, value)
      triple, whatever the order of the keys. */
  lemma DepositKeysOfTable(cat: Catalog, resources: seq<Item>)
    requires ListsResources(cat, resources)
    ensures DepositKeys(cat, resources).Ok? <==>
              forall x, e :: x in cat.extractBuildings && e in cat.extractBuildings[x] ==> x in DepositsOf(cat, e)
    ensures DepositKeys(cat, resources).Ok? ==> forall k :: k in DepositKeys(cat, resources).value <==>
              k.extractor in ExtractorsOf(cat, k.resource) && k.val in TiersOf(DepositsOf(cat, k.extractor), k.resource)
  {
    if forall x, e :: x in cat.extractBuildings && e in cat.extractBuildings[x] ==> x in DepositsOf(cat, e) {
      forall j, e | 0 <= j < |resources| && e in ExtractorsOf(cat, resources[j])
        ensures resources[j] in DepositsOf(cat, e)
      {
        assert resources[j] in Elements(resources);
      }
    } else {
      var x, e :| x in cat.extractBuildings && e in cat.extractBuildings[x] && x !in DepositsOf(cat, e);
      assert x in Elements(resources);
      var j :| 0 <= j < |resources| && resources[j] == x;
      assert e in ExtractorsOf(cat, resources[j]);
    }
  }

  /** The inequality rows: power, deposits, the optional build limit and,
      for the somersloop script, the somersloop budget. */
  function UpperRows(cfg: Config, cat: Catalog, req: Request, keys: seq<DepositKey>): (rows: seq<Row>)
    requires AllWf(cat.recipes)
    ensures |rows| == 1 + |keys| + (if req.buildLimit.Some? then 1 else 0) + (if req.variant == Somer then 1 else 0)
    ensures RowsShaped(rows, |cat.recipes|)
    ensures rows[0] == PowerRow(cfg, cat.recipes, req.apa)
    ensures forall j :: 0 <= j < |keys| ==> rows[1 + j] == DepositRow(cat, keys[j])
    ensures req.buildLimit.Some? ==> rows[1 + |keys|] == Row(Ones(|cat.recipes|), req.buildLimit.value)
    ensures req.variant == Somer ==> rows[|rows| - 1] == SloopRow(cfg, cat.recipes, req.apa)
  {
    var head := [PowerRow(cfg, cat.recipes, req.apa)] + DepositRows(cat, keys);
    var tail := ExtraRows(cfg, cat, req);
    ConcatShaped(head, tail, |cat.recipes|);
    head + tail
  }

  function DepositRows(cat: Catalog, keys: seq<DepositKey>): (rows: seq<Row>)
    ensures |rows| == |keys| && RowsShaped(rows, |cat.recipes|)
    ensures forall j :: 0 <= j < |keys| ==> rows[j] == DepositRow(cat, keys[j])
  {
    seq(|keys|, j requires 0 <= j < |keys| => DepositRow(cat, keys[j]))
  }

  /** The build-limit row, when there is one, then the somersloop row. */
  function ExtraRows(cfg: Config, cat: Catalog, req: Request): (rows: seq<Row>)
    ensures |rows| == (if req.buildLimit.Some? then 1 else 0) + (if req.variant == Somer then 1 else 0)
    ensures RowsShaped(rows, |cat.recipes|)
    ensures req.buildLimit.Some? ==> rows[0] == Row(Ones(|cat.recipes|), req.buildLimit.value)
    ensures req.variant == Somer ==> rows[|rows| - 1] == SloopRow(cfg, cat.recipes, req.apa)
  {
    var limit := if req.buildLimit.Some? then [Row(Ones(|cat.recipes|), req.buildLimit.value)] else [];
    var sloops := if req.variant == Somer then [SloopRow(cfg, cat.recipes, req.apa)] else [];
    limit + sloops
  }

  lemma ConcatShaped(a: seq<Row>, b: seq<Row>, n: nat)
    requires RowsShaped(a, n) && RowsShaped(b, n)
    ensures RowsShaped(a + b, n)
  {
    assert forall k :: 0 <= k < |a + b| ==> (a + b)[k] == if k < |a| then a[k] else b[k - |a|];
  }

  /** The equality rows, one per balanced item in registration order. */
  function EqualityRows(cfg: Config, cat: Catalog, req: Request): (rows: seq<Row>)
    requires AllWf(cat.recipes)
    ensures |rows| == |cat.items| && RowsShaped(rows, |cat.recipes|)
    ensures forall k :: 0 <= k < |cat.items| ==>
              rows[k] == BalanceRow(cfg, cat.recipes, cat.items[k], req.target, Supply(req.variant, req.apa, cat.items[k]))
  {
    seq(|cat.items|, k requires 0 <= k < |cat.items| =>
      BalanceRow(cfg, cat.recipes, cat.items[k], req.target, Supply(req.variant, req.apa, cat.items[k])))
  }

  /** The LP of solve / solve_sub. The goal is checked first, the deposit
      rows next, and the somersloop script needs Water and the Alien Power
      Matrix under balance. */
  function AssembleLP(cfg: Config, cat: Catalog, req: Request): (r: Result<LP>)
    requires Ready(cat) && ListsResources(cat, req.resources)
    ensures Goal(cfg, cat, req.target).Err? ==> r.Err? && r.error == Goal(cfg, cat, req.target).error
    ensures r.Ok? <==>
              && Goal(cfg, cat, req.target).Ok? && DepositKeys(cat, req.resources).Ok?
              && (req.variant == Somer ==> AlienPowerMatrix in cat.items && Water in cat.items)
    ensures r.Ok? ==> r.value.c == Penalised(Goal(cfg, cat, req.target).value, req.penalty)
    ensures r.Ok? ==> r.value.ub == UpperRows(cfg, cat, req, DepositKeys(cat, req.resources).value)
    ensures r.Ok? ==> r.value.eq == EqualityRows(cfg, cat, req)
  {
    match Goal(cfg, cat, req.target)
    case Err(e) => Err(e)
    case Ok(g) =>
      match DepositKeys(cat, req.resources)
      case Err(e) => Err(e)
      case Ok(keys) =>
        if req.variant == Somer && (AlienPowerMatrix !in cat.items || Water !in cat.items) then Err(UnknownKey)
        else Ok(LP(Penalised(g, req.penalty), UpperRows(cfg, cat, req, keys), EqualityRows(cfg, cat, req)))
  }

  /** What a feasible point of the assembled LP means for the factory:
      power within the free power, no deposit kind over-used, every
      balanced item other than the target produced exactly as consumed
      (up to the somersloop script's supplies), and, for that script, no
      more somersloops slotted than are left after the APAs. */
  lemma FeasibleMeaning(cfg: Config, cat: Catalog, req: Request, x: seq<real>)
    requires Ready(cat) && ListsResources(cat, req.resources) && AssembleLP(cfg, cat, req).Ok?
    requires Feasible(AssembleLP(cfg, cat, req).value, x)
    ensures Dot(PowerRow(cfg, cat.recipes, req.apa).coeffs, x) <= FreePowerApa(cfg, req.apa.unfueled, req.apa.fueled)
    ensures forall k :: k in DepositKeys(cat, req.resources).value ==>
              Dot(DepositRow(cat, k).coeffs, x) <= Count(TiersOf(DepositsOf(cat, k.extractor), k.resource), k.val) as real
    ensures forall k: DepositKey ::
              k.extractor in ExtractorsOf(cat, k.resource) && k.val in TiersOf(DepositsOf(cat, k.extractor), k.resource) ==>
              Dot(DepositRow(cat, k).coeffs, x) <= Count(TiersOf(DepositsOf(cat, k.extractor), k.resource), k.val) as real
    ensures forall k :: 0 <= k < |cat.items| ==>
              Dot(BalanceRow(cfg, cat.recipes, cat.items[k], req.target, 0.0).coeffs, x)
              == Supply(req.variant, req.apa, cat.items[k])
    ensures req.variant == Somer ==>
              Dot(SloopRow(cfg, cat.recipes, req.apa).coeffs, x) <= (cfg.totalSloops - 10 * (req.apa.unfueled + req.apa.fueled)) as real
  {
    var lp := AssembleLP(cfg, cat, req).value;
    var keys := DepositKeys(cat, req.resources).value;
    DepositKeysOfTable(cat, req.resources);
    assert lp.ub[0] == PowerRow(cfg, cat.recipes, req.apa);
    forall k | k in keys
      ensures Dot(DepositRow(cat, k).coeffs, x) <= Count(TiersOf(DepositsOf(cat, k.extractor), k.resource), k.val) as real
    {
      var j :| 0 <= j < |keys| && keys[j] == k;
      assert lp.ub[1 + j] == DepositRow(cat, k);
    }
    forall k | 0 <= k < |cat.items|
      ensures Dot(BalanceRow(cfg, cat.recipes, cat.items[k], req.target, 0.0).coeffs, x)
              == Supply(req.variant, req.apa, cat.items[k])
    {
      var row := BalanceRow(cfg, cat.recipes, cat.items[k], req.target, Supply(req.variant, req.apa, cat.items[k]));
      assert lp.eq[k] == row;
      assert BalanceRow(cfg, cat.recipes, cat.items[k], req.target, 0.0).coeffs == row.coeffs;
    }
    if req.variant == Somer {
      assert lp.ub[|lp.ub| - 1] == SloopRow(cfg, cat.recipes, req.apa);
    }
  }

  /** optimizer3.py has no APAs: its power bound is FreePower. */
  lemma ThirdPowerBound(cfg: Config, cat: Catalog, req: Request)
    requires Ready(cat) && ListsResources(cat, req.resources)
    requires req.variant == Third && req.apa == NoApa && AssembleLP(cfg, cat, req).Ok?
    ensures AssembleLP(cfg, cat, req).value.ub[0].bound == FreePower(cfg)
    ensures |AssembleLP(cfg, cat, req).value.ub| == 1 + |DepositKeys(cat, req.resources).value| +
              (if req.buildLimit.Some? then 1 else 0)
  {
    FreePowerApaNone(cfg);
  }

  // ----- solving, tie-break and plan -----

  /** The tie-break LP: the primary objective pinned to the value reached,
      the sum of all activities minimised. */
  function TieBreakLP(lp: LP, x: seq<real>): (lp2: LP)
    requires |lp.c| == |x|
    ensures lp2.ub == lp.ub && |lp2.eq| == |lp.eq| + 1
    ensures forall k :: 0 <= k < |lp.eq| ==> lp2.eq[k] == lp.eq[k]
    ensures lp2.eq[|lp.eq|] == Row(lp.c, Dot(lp.c, x))
  {
    LP(Ones(|lp.c|), lp.ub, lp.eq + [Row(lp.c, Dot(lp.c, x))])
  }

  /** Whether a recipe belongs in the plan: a milestone never does, any
      other recipe when its activity exceeds Support. */
  predicate Listed(r: Recipe, a: real)
  {
    a > Support && !r.Milestone?
  }

  /** The reported plan: the listed recipes' activities by name, a later
      recipe of the same name overwriting an earlier one. */
  function Plan(rs: seq<Recipe>, x: seq<real>): (m: map<RecipeName, real>)
    requires |rs| == |x|
    ensures forall name :: name in m <==> exists i :: 0 <= i < |rs| && Listed(rs[i], x[i]) && NameOf(rs[i]) == name
    ensures forall name :: name in m ==> m[name] > Support
    ensures forall i :: (0 <= i < |rs| && Listed(rs[i], x[i])
                         && (forall j :: i < j < |rs| ==> NameOf(rs[j]) != NameOf(rs[i]))) ==> m[NameOf(rs[i])] == x[i]
    decreases |rs|
  {
    if |rs| == 0 then map[]
    else
      var n := |rs| - 1;
      var m := Plan(rs[..n], x[..n]);
      PlanStep(rs, x, rs[..n], x[..n], m);
      if Listed(rs[n], x[n]) then m[NameOf(rs[n]) := x[n]] else m
  }

  lemma PlanStep(rs: seq<Recipe>, x: seq<real>, p: seq<Recipe>, xp: seq<real>, m: map<RecipeName, real>)
    requires |rs| == |x| > 0 && p == rs[..|rs| - 1] && xp == x[..|x| - 1]
    requires forall name :: name in m <==> exists i :: 0 <= i < |p| && Listed(p[i], xp[i]) && NameOf(p[i]) == name
    requires forall i :: (0 <= i < |p| && Listed(p[i], xp[i])
                          && (forall j :: i < j < |p| ==> NameOf(p[j]) != NameOf(p[i]))) ==> m[NameOf(p[i])] == xp[i]
    ensures var n := |rs| - 1;
            var m' := if Listed(rs[n], x[n]) then m[NameOf(rs[n]) := x[n]] else m;
            && (forall name :: name in m' <==> exists i :: 0 <= i < |rs| && Listed(rs[i], x[i]) && NameOf(rs[i]) == name)
            && (forall i :: (0 <= i < |rs| && Listed(rs[i], x[i])
                             && (forall j :: i < j < |rs| ==> NameOf(rs[j]) != NameOf(rs[i]))) ==> m'[NameOf(rs[i])] == x[i])
  {
    var n := |rs| - 1;
    assert forall i :: 0 <= i < n ==> p[i] == rs[i] && xp[i] == x[i];
  }

  /** The reported value: the primary objective with the penalty taken
      back out, and scaled down for ProjectAssembly4. */
  function Reported(target: string, fun: real, penalty: real, total: real): real
  {
    var v := -fun + penalty * total;
    if target == ProjectAssembly4 then v / 1000.0 else v
  }

  /** The outcome of one solve: the primary point, the point kept after the
      tie-break, the reported value and the plan. */
  datatype Solved = Solved(first: seq<real>, x: seq<real>, value: real, plan: map<RecipeName, real>)

  /** solve / solve_sub: assemble, solve; a failed solve (or a point of
      the wrong size) is None. The tie-break point replaces the primary one
      only when the second solve succeeds. */
  function SolveSub(cfg: Config, cat: Catalog, req: Request, solve: Oracle): (r: Result<Option<Solved>>)
    requires Ready(cat) && ListsResources(cat, req.resources)
    ensures r.Err? <==> AssembleLP(cfg, cat, req).Err?
    ensures r.Err? ==> r.error == AssembleLP(cfg, cat, req).error
    ensures r.Ok? && r.value.Some? ==>
              var lp := AssembleLP(cfg, cat, req).value;
              && solve(lp).Some? && solve(lp).value == r.value.value.first && |r.value.value.first| == |lp.c|
              && r.value.value.value == Reported(req.target, Dot(lp.c, r.value.value.first), req.penalty, Sum(r.value.value.first))
              && |r.value.value.x| == |lp.c| == |cat.recipes|
              && r.value.value.plan == Plan(cat.recipes, r.value.value.x)
              && (r.value.value.x == r.value.value.first ||
                  (solve(TieBreakLP(lp, r.value.value.first)).Some? && solve(TieBreakLP(lp, r.value.value.first)).value == r.value.value.x))
  {
    match AssembleLP(cfg, cat, req)
    case Err(e) => Err(e)
    case Ok(lp) =>
      match solve(lp)
      case None => Ok(None)
      case Some(x1) =>
        if |x1| != |lp.c| then Ok(None)
        else
          var x := match solve(TieBreakLP(lp, x1))
                   case None => x1
                   case Some(x2) => if |x2| == |x1| then x2 else x1;
          Ok(Some(Solved(x1, x, Reported(req.target, Dot(lp.c, x1), req.penalty, Sum(x1)), Plan(cat.recipes, x))))
  }

  /** The tie-break never changes the objective: with a sound primitive the
      kept point is feasible for the primary LP and reaches the primary
      objective exactly. */
  lemma TieBreakKeepsObjective(cfg: Config, cat: Catalog, req: Request, solve: Oracle)
    requires Ready(cat) && ListsResources(cat, req.resources) && Sound(solve)
    requires SolveSub(cfg, cat, req, solve).Ok? && SolveSub(cfg, cat, req, solve).value.Some?
    ensures var lp := AssembleLP(cfg, cat, req).value;
            var s := SolveSub(cfg, cat, req, solve).value.value;
            Feasible(lp, s.x) && Dot(lp.c, s.x) == Dot(lp.c, s.first)
  {
    var lp := AssembleLP(cfg, cat, req).value;
    var s := SolveSub(cfg, cat, req, solve).value.value;
    assert Feasible(lp, s.first);
    if s.x != s.first {
      var lp2 := TieBreakLP(lp, s.first);
      assert Feasible(lp2, s.x);
      assert lp2.eq[|lp.eq|] == Row(lp.c, Dot(lp.c, s.first));
      forall k | 0 <= k < |lp.eq|
        ensures Dot(lp.eq[k].coeffs, s.x) == lp.eq[k].bound
      {
        assert lp2.eq[k] == lp.eq[k];
      }
    }
  }

  /** The reported value is the objective without the penalty: the
      production of an item target, or the activity of a recipe target
      (scaled for ProjectAssembly4). */
  lemma ReportedValue(cfg: Config, cat: Catalog, req: Request, solve: Oracle)
    requires Ready(cat) && ListsResources(cat, req.resources)
    requires SolveSub(cfg, cat, req, solve).Ok? && SolveSub(cfg, cat, req, solve).value.Some?
    ensures var s := SolveSub(cfg, cat, req, solve).value.value;
            var v := -Dot(Goal(cfg, cat, req.target).value, s.first);
            s.value == if req.target == ProjectAssembly4 then v / 1000.0 else v
  {
    var s := SolveSub(cfg, cat, req, solve).value.value;
    var lp := AssembleLP(cfg, cat, req).value;
    var g := Goal(cfg, cat, req.target).value;
    assert lp.c == Penalised(g, req.penalty);
    ReportedUnpenalised(req.target, g, req.penalty, s.first, s.value);
  }

  lemma {:induction false} ReportedUnpenalised(target: string, g: seq<real>, penalty: real, x: seq<real>, value: real)
    requires |g| == |x|
    requires value == Reported(target, Dot(Penalised(g, penalty), x), penalty, Sum(x))
    ensures value == if target == ProjectAssembly4 then -Dot(g, x) / 1000.0 else -Dot(g, x)
  {
    DotPenalised(g, penalty, x);
  }

  // ----- APA enumeration -----

  /** All splits of t APAs into unfueled and fueled, fueled ascending. */
  function Layer(t: nat): (r: seq<Apa>)
    ensures |r| == t + 1 && forall p :: 0 <= p <= t ==> r[p] == Apa(t - p, p)
  {
    seq(t + 1, p requires 0 <= p <= t => Apa(t - p, p))
  }

  /** a comes before b in the enumeration: a smaller total, or the same
      total with fewer fueled. */
  predicate ApaBefore(a: Apa, b: Apa)
  {
    a.unfueled + a.fueled < b.unfueled + b.fueled
    || (a.unfueled + a.fueled == b.unfueled + b.fueled && a.fueled < b.fueled)
  }

  /** The order solve tries APA counts in: by total, then by fueled, each
      split once. */
  function ApaOrder(t: nat): (r: seq<Apa>)
    ensures forall a :: a in r <==> a.unfueled + a.fueled <= t
    ensures forall i, j :: 0 <= i < j < |r| ==> ApaBefore(r[i], r[j])
    decreases t
  {
    var layer := Layer(t);
    assert forall a :: a in layer <==> a.unfueled + a.fueled == t by {
      forall a
        ensures a in layer <==> a.unfueled + a.fueled == t
      {
        if a.unfueled + a.fueled == t {
          assert layer[a.fueled] == a;
        }
      }
    }
    if t == 0 then layer
    else
      var prev := ApaOrder(t - 1);
      ApaOrderStep(prev, layer, t);
      prev + layer
  }

  lemma ApaOrderStep(prev: seq<Apa>, layer: seq<Apa>, t: nat)
    requires t > 0 && layer == Layer(t)
    requires forall a :: a in prev ==> a.unfueled + a.fueled <= t - 1
    requires forall i, j :: 0 <= i < j < |prev| ==> ApaBefore(prev[i], prev[j])
    ensures forall i, j :: 0 <= i < j < |prev + layer| ==> ApaBefore((prev + layer)[i], (prev + layer)[j])
  {
    forall i, j | 0 <= i < j < |prev + layer|
      ensures ApaBefore((prev + layer)[i], (prev + layer)[j])
    {
      if j < |prev| {
        assert (prev + layer)[i] == prev[i] && (prev + layer)[j] == prev[j];
      } else if i < |prev| {
        assert (prev + layer)[i] == prev[i] && prev[i] in prev;
        assert (prev + layer)[j] == layer[j - |prev|];
      } else {
        assert (prev + layer)[i] == layer[i - |prev|] && (prev + layer)[j] == layer[j - |prev|];
      }
    }
  }

  /** solve tries at most TotalSomersloops // 10 APAs, so the somersloop
      row's bound is never negative. */
  lemma ApaBudget(cfg: Config, a: Apa)
    requires a in ApaOrder(cfg.totalSloops / 10)
    ensures (cfg.totalSloops - 10 * (a.unfueled + a.fueled)) as real >= 0.0
  {
  }

  /** The kept candidate: its position in the order, its APA counts and
      its outcome. */
  datatype Choice = Choice(index: nat, apa: Apa, solved: Solved)

  predicate Succeeded(r: Result<Option<Solved>>)
  {
    r.Ok? && r.value.Some?
  }

  /** c is the first candidate among order[..k] with the largest value. */
  predicate BestAmong(sub: Apa -> Result<Option<Solved>>, order: seq<Apa>, k: nat, c: Choice)
    requires k <= |order|
  {
    && c.index < k && order[c.index] == c.apa
    && Succeeded(sub(c.apa)) && sub(c.apa).value.value == c.solved
    && (forall j :: 0 <= j < k && Succeeded(sub(order[j])) ==> sub(order[j]).value.value.value <= c.solved.value)
    && (forall j :: 0 <= j < c.index && Succeeded(sub(order[j])) ==> sub(order[j]).value.value.value < c.solved.value)
  }

  /** The loop of solve: keep the first candidate with the largest value;
      a candidate whose LP fails is never kept; an exception ends the
      search. */
  method BestApa(sub: Apa -> Result<Option<Solved>>, order: seq<Apa>) returns (r: Result<Option<Choice>>)
    ensures r.Err? <==> exists k :: 0 <= k < |order| && sub(order[k]).Err?
    ensures r.Err? ==> exists k :: 0 <= k < |order| && sub(order[k]).Err? && sub(order[k]).error == r.error
                                   && forall j :: 0 <= j < k ==> sub(order[j]).Ok?
    ensures r.Ok? && r.value.None? ==> forall k :: 0 <= k < |order| ==> sub(order[k]).Ok? && sub(order[k]).value.None?
    ensures r.Ok? && r.value.Some? ==> BestAmong(sub, order, |order|, r.value.value)
  {
    var best: Option<Choice> := None;
    var k := 0;
    while k < |order|
      invariant 0 <= k <= |order|
      invariant forall j :: 0 <= j < k ==> sub(order[j]).Ok?
      invariant best.None? ==> forall j :: 0 <= j < k ==> sub(order[j]).value.None?
      invariant best.Some? ==> BestAmong(sub, order, k, best.value)
    {
      var res := sub(order[k]);
      if res.Err? {
        return Err(res.error);
      }
      if res.value.Some? && (best.None? || res.value.value.value > best.value.solved.value) {
        best := Some(Choice(k, order[k], res.value.value));
      }
      k := k + 1;
    }
    return Ok(best);
  }

  /** The first best candidate of the whole order beats every APA split
      of at most t APAs whose LP succeeds. */
  lemma BestOverSplits(sub: Apa -> Result<Option<Solved>>, t: nat, c: Choice)
    requires BestAmong(sub, ApaOrder(t), |ApaOrder(t)|, c)
    ensures c.apa.unfueled + c.apa.fueled <= t
    ensures forall a: Apa :: (a.unfueled + a.fueled <= t && Succeeded(sub(a))) ==> sub(a).value.value.value <= c.solved.value
  {
    var order := ApaOrder(t);
    assert c.apa in order;
    forall a: Apa | a.unfueled + a.fueled <= t && Succeeded(sub(a))
      ensures sub(a).value.value.value <= c.solved.value
    {
      var j :| 0 <= j < |order| && order[j] == a;
    }
  }

  /** solve_sub of the somersloop script at an APA split, without penalty
      or build limit. */
  function SomerSub(cfg: Config, cat: Catalog, target: string, resources: seq<Item>, solve: Oracle)
    : Apa -> Result<Option<Solved>>
    requires Ready(cat) && ListsResources(cat, resources)
  {
    (a: Apa) => SolveSub(cfg, cat, Request(Somer, target, a, 0.0, None, resources), solve)
  }

  /** solve of optimizerSomer.py: solve_sub for every APA split of at most
      TotalSomersloops // 10 APAs, the best kept. */
  method Solve(cfg: Config, cat: Catalog, target: string, resources: seq<Item>, solve: Oracle)
    returns (r: Result<Option<Choice>>)
    requires Ready(cat) && ListsResources(cat, resources)
    ensures r.Ok? && r.value.Some? ==>
              var c := r.value.value;
              var sub := SomerSub(cfg, cat, target, resources, solve);
              && c.apa.unfueled + c.apa.fueled <= cfg.totalSloops / 10
              && Succeeded(sub(c.apa)) && sub(c.apa).value.value == c.solved
              && forall a: Apa :: (a.unfueled + a.fueled <= cfg.totalSloops / 10 && Succeeded(sub(a))) ==>
                   sub(a).value.value.value <= c.solved.value
    ensures r.Ok? && r.value.None? ==>
              forall a: Apa :: a.unfueled + a.fueled <= cfg.totalSloops / 10 ==>
                !Succeeded(SomerSub(cfg, cat, target, resources, solve)(a))
  {
    var sub := SomerSub(cfg, cat, target, resources, solve);
    var order := ApaOrder(cfg.totalSloops / 10);
    r := BestApa(sub, order);
    if r.Ok? && r.value.Some? {
      BestOverSplits(sub, cfg.totalSloops / 10, r.value.value);
    }
    if r.Ok? && r.value.None? {
      forall a: Apa | a.unfueled + a.fueled <= cfg.totalSloops / 10
        ensures !Succeeded(sub(a))
      {
        var j :| 0 <= j < |order| && order[j] == a;
      }
    }
  }
}
