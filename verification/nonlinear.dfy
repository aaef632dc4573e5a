/** nlextract of optimizer3.py: the exact, nonlinear allocation of an
    extraction quota over every deposit tier of a resource. The tiers become
    methods (extractor, tier value, count, base rate, base power, clock
    limit); the cheapest split of the sorted methods into saturated, middle
    and idle ones is searched; and one extraction recipe per method, at its
    chosen clock, is registered and reported with its building count. */
module NonlinearExtract {
  import opened Basics
  import opened Settings
  import opened Rates
  import opened Catalog
  import opened Allocator
  import Extraction

  // ----- the methods of a resource -----

  /** The building name ExtractRecipe is constructed with. */
  function ExtractorName(e: Extractor): (r: string)
    ensures ParseExtractor(r) == Ok(e)
  {
    match e
    case Miner => "Miner"
    case OilExtractor => "Oil Extractor"
    case WellPressurizer => "Resource Well Pressurizer"
  }

  /** The deposits an extractor works on: wells for a pressurizer, nodes
      for a miner or an oil extractor. */
  function DepositsOf(cat: Catalog, e: Extractor): map<Item, Tiers>
  {
    if e == WellPressurizer then cat.wells else cat.nodes
  }

  /** The resource has a deposit tier of value v for extractor e. */
  predicate Serves(cat: Catalog, resource: Item, e: Extractor, v: pos)
  {
    resource in DepositsOf(cat, e) && v in DepositsOf(cat, e)[resource]
  }

  /** The extractors nlextract consults for a resource: a pressurizer or a
      miner when registered for it, an oil extractor for crude oil whatever
      is registered. */
  predicate Applies(cat: Catalog, resource: Item, e: Extractor)
  {
    && resource in cat.extractBuildings
    && match e
       case WellPressurizer => WellPressurizer in cat.extractBuildings[resource]
       case OilExtractor => resource == Extraction.CrudeOil
       case Miner => Miner in cat.extractBuildings[resource]
  }

  /** m is the method of its extractor on one tier of the resource: the
      tier's count, the extractor's base rate and power on it, and its
      clock limit. */
  predicate Describes(cfg: Config, cat: Catalog, resource: Item, m: Method)
  {
    && Serves(cat, resource, m.extractor, m.val)
    && m.num == DepositsOf(cat, m.extractor)[resource][m.val]
    && m.rate == ExtractBaseRate(cfg, m.extractor, m.val)
    && m.power == ExtractBasePower(cfg, m.extractor)
    && MaxExtractClock(cfg, cat.extractBuildings, resource, m.extractor, m.val) == Ok(m.limit)
  }

  /** The methods of extractor e on the listed tiers, in list order. */
  function TierMethods(cfg: Config, cat: Catalog, resource: Item, e: Extractor, vals: seq<pos>): (r: Result<seq<Method>>)
    requires forall k :: 0 <= k < |vals| ==> Serves(cat, resource, e, vals[k])
    ensures r.Ok? <==> |vals| == 0 || (resource in cat.extractBuildings && e in cat.extractBuildings[resource])
    ensures r.Err? ==> r.error == UnknownKey
    ensures r.Ok? ==> |r.value| == |vals|
    ensures r.Ok? ==> forall k :: 0 <= k < |vals| ==>
              r.value[k].extractor == e && r.value[k].val == vals[k] && Describes(cfg, cat, resource, r.value[k])
  {
    if |vals| == 0 then Ok([])
    else
      match MaxExtractClock(cfg, cat.extractBuildings, resource, e, vals[0])
      case Err(x) => Err(x)
      case Ok(limit) =>
        assert Serves(cat, resource, e, vals[0]);
        var m := Method(e, vals[0], DepositsOf(cat, e)[resource][vals[0]],
                        ExtractBaseRate(cfg, e, vals[0]), ExtractBasePower(cfg, e), limit);
        match TierMethods(cfg, cat, resource, e, vals[1..])
        case Err(x) => Err(x)
        case Ok(rest) =>
          assert forall k :: 1 <= k < |vals| ==> ([m] + rest)[k] == rest[k - 1];
          Ok([m] + rest)
  }

  /** Every method of the list is of an extractor that applies to the
      resource and describes one of its tiers. */
  predicate AllDescribe(cfg: Config, cat: Catalog, resource: Item, ms: seq<Method>)
  {
    forall k :: 0 <= k < |ms| ==> Applies(cat, resource, ms[k].extractor) && Describes(cfg, cat, resource, ms[k])
  }

  /** Every tier the resource has for extractor e has a method in the list. */
  ghost predicate Covers(cat: Catalog, resource: Item, e: Extractor, ms: seq<Method>)
  {
    forall v :: Serves(cat, resource, e, v) ==> exists k :: 0 <= k < |ms| && ms[k].extractor == e && ms[k].val == v
  }

  predicate OfExtractor(ms: seq<Method>, e: Extractor)
  {
    forall k :: 0 <= k < |ms| ==> ms[k].extractor == e
  }

  /** Two methods of a list never work the same tier with the same extractor. */
  predicate DistinctTiers(ms: seq<Method>)
  {
    forall k, l :: 0 <= k < l < |ms| ==> ms[k].extractor != ms[l].extractor || ms[k].val != ms[l].val
  }

  /** If extractor e applies to the resource, the resource has a deposit
      table for it, and e is registered for the resource when the table
      has a tier to work. */
  predicate Defined(cat: Catalog, resource: Item, e: Extractor)
  {
    Applies(cat, resource, e) ==>
      resource in DepositsOf(cat, e) && (|DepositsOf(cat, e)[resource]| == 0 || e in cat.extractBuildings[resource])
  }

  /** The method list exists: the resource has registered extraction
      buildings, and every extractor is defined for it. */
  predicate MethodsDefined(cat: Catalog, resource: Item)
  {
    && resource in cat.extractBuildings
    && Defined(cat, resource, WellPressurizer)
    && Defined(cat, resource, OilExtractor)
    && Defined(cat, resource, Miner)
  }

  /** The block of one extractor: empty when it does not apply, its
      methods over the tiers in ascending order otherwise; a missing
      deposit table is a KeyError. */
  function Block(cfg: Config, cat: Catalog, resource: Item, e: Extractor): (r: Result<seq<Method>>)
    ensures r.Ok? <==> Defined(cat, resource, e)
    ensures r.Err? ==> r.error == UnknownKey
    ensures r.Ok? ==> OfExtractor(r.value, e) && AllDescribe(cfg, cat, resource, r.value) && DistinctTiers(r.value)
    ensures r.Ok? && Applies(cat, resource, e) ==> Covers(cat, resource, e, r.value)
  {
    if !Applies(cat, resource, e) then Ok([])
    else if resource !in DepositsOf(cat, e) then Err(UnknownKey)
    else Tiered(cfg, cat, resource, e)
  }

  /** The methods of extractor e over every tier of its deposit table. */
  function Tiered(cfg: Config, cat: Catalog, resource: Item, e: Extractor): (r: Result<seq<Method>>)
    requires Applies(cat, resource, e) && resource in DepositsOf(cat, e)
    ensures r.Ok? <==> |DepositsOf(cat, e)[resource]| == 0 || e in cat.extractBuildings[resource]
    ensures r.Err? ==> r.error == UnknownKey
    ensures r.Ok? ==> OfExtractor(r.value, e) && DistinctTiers(r.value)
    ensures r.Ok? ==> (forall k :: 0 <= k < |r.value| ==> Describes(cfg, cat, resource, r.value[k]))
    ensures r.Ok? ==> Covers(cat, resource, e, r.value)
  {
    var vals := TierList(DepositsOf(cat, e)[resource]);
    ListedServe(cat, resource, e, vals);
    var r := TierMethods(cfg, cat, resource, e, vals);
    if r.Err? then r
    else
      TierFacts(cat, resource, e, vals, r.value);
      r
  }

  /** Every tier of the list is a tier of the deposit table. */
  lemma ListedServe(cat: Catalog, resource: Item, e: Extractor, vals: seq<pos>)
    requires resource in DepositsOf(cat, e) && Elements(vals) == DepositsOf(cat, e)[resource].Keys
    ensures forall k :: 0 <= k < |vals| ==> Serves(cat, resource, e, vals[k])
  {
    assert forall k :: 0 <= k < |vals| ==> vals[k] in Elements(vals);
  }

  /** Methods that follow the ascending tier list one to one are of their
      extractor, work distinct tiers and cover every tier. */
  lemma TierFacts(cat: Catalog, resource: Item, e: Extractor, vals: seq<pos>, ms: seq<Method>)
    requires resource in DepositsOf(cat, e) && Elements(vals) == DepositsOf(cat, e)[resource].Keys
    requires forall i, j :: 0 <= i < j < |vals| ==> vals[i] < vals[j]
    requires |ms| == |vals| && forall k :: 0 <= k < |vals| ==> ms[k].extractor == e && ms[k].val == vals[k]
    ensures OfExtractor(ms, e) && DistinctTiers(ms) && Covers(cat, resource, e, ms)
  {
    forall v | Serves(cat, resource, e, v)
      ensures exists k :: 0 <= k < |ms| && ms[k].extractor == e && ms[k].val == v
    {
      assert v in Elements(vals);
      var k :| 0 <= k < |vals| && vals[k] == v;
      assert ms[k].val == v;
    }
  }


  /** The method list of nlextract: the well tiers, then the crude oil
      nodes, then the miner nodes. */
  function Methods(cfg: Config, cat: Catalog, resource: Item): (r: Result<seq<Method>>)
    ensures r.Ok? <==> MethodsDefined(cat, resource)
    ensures r.Err? ==> r.error == UnknownKey
    ensures r.Ok? ==> AllDescribe(cfg, cat, resource, r.value) && DistinctTiers(r.value)
    ensures r.Ok? ==> forall e: Extractor :: Applies(cat, resource, e) ==> Covers(cat, resource, e, r.value)
  {
    if resource !in cat.extractBuildings then Err(UnknownKey)
    else
      // each block raises the same KeyError, so their order does not show
      var ws := Block(cfg, cat, resource, WellPressurizer);
      var os := Block(cfg, cat, resource, OilExtractor);
      var ns := Block(cfg, cat, resource, Miner);
      if ws.Err? || os.Err? || ns.Err? then Err(UnknownKey)
      else
        JoinBlocks(cfg, cat, resource, ws.value, os.value, ns.value);
        Ok(ws.value + os.value + ns.value)
  }

  lemma JoinBlocks(cfg: Config, cat: Catalog, resource: Item, ws: seq<Method>, os: seq<Method>, ns: seq<Method>)
    requires OfExtractor(ws, WellPressurizer) && AllDescribe(cfg, cat, resource, ws) && DistinctTiers(ws)
    requires OfExtractor(os, OilExtractor) && AllDescribe(cfg, cat, resource, os) && DistinctTiers(os)
    requires OfExtractor(ns, Miner) && AllDescribe(cfg, cat, resource, ns) && DistinctTiers(ns)
    requires Applies(cat, resource, WellPressurizer) ==> Covers(cat, resource, WellPressurizer, ws)
    requires Applies(cat, resource, OilExtractor) ==> Covers(cat, resource, OilExtractor, os)
    requires Applies(cat, resource, Miner) ==> Covers(cat, resource, Miner, ns)
    ensures AllDescribe(cfg, cat, resource, ws + os + ns) && DistinctTiers(ws + os + ns)
    ensures forall e: Extractor :: Applies(cat, resource, e) ==> Covers(cat, resource, e, ws + os + ns)
  {
    AppendDescribe(cfg, cat, resource, ws, os);
    AppendDescribe(cfg, cat, resource, ws + os, ns);
    AppendDistinct(ws, os, OilExtractor);
    AppendDistinct(ws + os, ns, Miner);
    forall e: Extractor | Applies(cat, resource, e)
      ensures Covers(cat, resource, e, ws + os + ns)
    {
      match e
      case WellPressurizer =>
        CoversLeft(cat, resource, e, ws, os);
        CoversLeft(cat, resource, e, ws + os, ns);
      case OilExtractor =>
        CoversRight(cat, resource, e, ws, os);
        CoversLeft(cat, resource, e, ws + os, ns);
      case Miner =>
        CoversRight(cat, resource, e, ws + os, ns);
    }
  }

  lemma AppendDescribe(cfg: Config, cat: Catalog, resource: Item, a: seq<Method>, b: seq<Method>)
    requires AllDescribe(cfg, cat, resource, a) && AllDescribe(cfg, cat, resource, b)
    ensures AllDescribe(cfg, cat, resource, a + b)
  {
    assert forall k :: |a| <= k < |a + b| ==> (a + b)[k] == b[k - |a|];
  }

  lemma AppendDistinct(a: seq<Method>, b: seq<Method>, e: Extractor)
    requires DistinctTiers(a) && DistinctTiers(b) && OfExtractor(b, e)
    requires forall k :: 0 <= k < |a| ==> a[k].extractor != e
    ensures DistinctTiers(a + b)
  {
    assert forall k :: |a| <= k < |a + b| ==> (a + b)[k] == b[k - |a|];
  }

  lemma CoversLeft(cat: Catalog, resource: Item, e: Extractor, a: seq<Method>, b: seq<Method>)
    requires Covers(cat, resource, e, a)
    ensures Covers(cat, resource, e, a + b)
  {
    forall v | Serves(cat, resource, e, v)
      ensures exists k :: 0 <= k < |a + b| && (a + b)[k].extractor == e && (a + b)[k].val == v
    {
      var k :| 0 <= k < |a| && a[k].extractor == e && a[k].val == v;
      assert (a + b)[k] == a[k];
    }
  }

  lemma CoversRight(cat: Catalog, resource: Item, e: Extractor, a: seq<Method>, b: seq<Method>)
    requires Covers(cat, resource, e, b)
    ensures Covers(cat, resource, e, a + b)
  {
    forall v | Serves(cat, resource, e, v)
      ensures exists k :: 0 <= k < |a + b| && (a + b)[k].extractor == e && (a + b)[k].val == v
    {
      var k :| 0 <= k < |b| && b[k].extractor == e && b[k].val == v;
      assert (a + b)[|a| + k] == b[k];
    }
  }

  /** Every listed method has positive figures. */
  lemma MethodsWf(cfg: Config, cat: Catalog, resource: Item)
    requires Methods(cfg, cat, resource).Ok?
    ensures AllMethodsWf(Methods(cfg, cat, resource).value)
  {
  }

  // ----- sorting keeps the tiers distinct -----

  lemma {:induction false} AtMostOnce<T>(s: seq<T>, x: T)
    requires NoDuplicates(s)
    ensures multiset(s)[x] <= 1
  {
    if |s| > 0 {
      assert s == [s[0]] + s[1..];
      assert NoDuplicates(s[1..]) by {
        forall i, j | 0 <= i < j < |s[1..]|
          ensures s[1..][i] != s[1..][j]
        {
          assert s[1..][i] == s[i + 1] && s[1..][j] == s[j + 1];
        }
      }
      AtMostOnce(s[1..], x);
      if x == s[0] {
        forall i | 0 <= i < |s[1..]|
          ensures s[1..][i] != x
        {
          assert s[1..][i] == s[i + 1];
        }
        assert x !in s[1..];
      }
    }
  }

  lemma Twice<T>(s: seq<T>, k: nat, l: nat)
    requires k < l < |s| && s[k] == s[l]
    ensures multiset(s)[s[k]] >= 2
  {
    assert s == s[..l] + s[l..];
    assert s[k] == s[..l][k];
    assert s[l] == s[l..][0];
  }

  /** A reordering of a list without repetitions has none either. */
  lemma PermutationKeepsDistinct<T>(a: seq<T>, b: seq<T>)
    requires multiset(a) == multiset(b) && NoDuplicates(a)
    ensures NoDuplicates(b)
  {
    forall k, l | 0 <= k < l < |b|
      ensures b[k] != b[l]
    {
      if b[k] == b[l] {
        Twice(b, k, l);
        AtMostOnce(a, b[k]);
      }
    }
  }

  /** Methods of one resource that work the same tier are the same method.
      This follows from Describes, which fixes every field by the tier. */
  lemma DescribedTiers(cfg: Config, cat: Catalog, resource: Item, ms: seq<Method>)
    requires forall k :: 0 <= k < |ms| ==> Describes(cfg, cat, resource, ms[k])
    ensures DistinctTiers(ms) <==> NoDuplicates(ms)
  {
  }

  /** The sorted methods still describe distinct tiers of the resource. */
  lemma SortedMethods(cfg: Config, cat: Catalog, resource: Item, ms: seq<Method>)
    requires AllDescribe(cfg, cat, resource, ms) && DistinctTiers(ms)
    ensures AllDescribe(cfg, cat, resource, SortByCost(ms)) && DistinctTiers(SortByCost(ms))
  {
    var r := SortByCost(ms);
    forall k | 0 <= k < |r|
      ensures Applies(cat, resource, r[k].extractor) && Describes(cfg, cat, resource, r[k])
    {
      assert r[k] in multiset(r);
      var l :| 0 <= l < |ms| && ms[l] == r[k];
    }
    DescribedTiers(cfg, cat, resource, ms);
    PermutationKeepsDistinct(ms, r);
    DescribedTiers(cfg, cat, resource, r);
  }

  // ----- registering the chosen clocks -----

  /** The name nlextract builds for a method at a clock; it coincides with
      the name of the extraction recipe at that clock. */
  function PlanName(resource: Item, m: Method, clock: real): (r: RecipeName)
    ensures r == NameOf(Extract(m.extractor, resource, m.val, clock))
  {
    ExtractAt(m.extractor, resource, m.val, clock)
  }

  /** A node rarity must be impure, normal or pure; well values are free. */
  predicate RarityOk(m: Method)
  {
    m.extractor == WellPressurizer || m.val in {1, 2, 4}
  }

  /** The registries and the reported plan, recipe name to building count. */
  datatype Registration = Registration(cat: Catalog, plan: map<RecipeName, nat>)

  /** The catalog grows only by recipes: every other registry stays. */
  predicate Grows(cat: Catalog, c: Catalog)
  {
    && c.items == cat.items && c.nodes == cat.nodes && c.wells == cat.wells
    && c.extractBuildings == cat.extractBuildings && c.buildings == cat.buildings
    && (forall nm :: nm in cat.byName ==> nm in c.byName && c.byName[nm] == cat.byName[nm])
  }

  /** One method of the output loop: a node tier must have a rarity, and a
      recipe at the clock is created and registered unless its name is
      known already. */
  function RegisterOne(cfg: Config, cat: Catalog, resource: Item, m: Method, clock: real): (r: Result<Catalog>)
    ensures r.Ok? <==> (RarityOk(m) && (PlanName(resource, m, clock) in cat.byName ||
              MakeExtract(cfg, cat.nodes, cat.wells, ExtractorName(m.extractor), resource, m.val, clock).Ok?))
    ensures r.Err? ==> r.error in {InvalidRarity, InvalidClock, UnknownResource, UnknownTier}
    ensures r.Ok? ==> Grows(cat, r.value) && PlanName(resource, m, clock) in r.value.byName
    ensures r.Ok? ==> r.value.byName.Keys == cat.byName.Keys + {PlanName(resource, m, clock)}
    ensures r.Ok? && PlanName(resource, m, clock) !in cat.byName ==>
              r.value == AddRecipe(cat, Extract(m.extractor, resource, m.val, clock))
    ensures r.Ok? && PlanName(resource, m, clock) in cat.byName ==> r.value == cat
  {
    if !RarityOk(m) then Err(InvalidRarity)
    else if PlanName(resource, m, clock) in cat.byName then Ok(cat)
    else
      match MakeExtract(cfg, cat.nodes, cat.wells, ExtractorName(m.extractor), resource, m.val, clock)
      case Err(x) => Err(x)
      case Ok(rc) => Ok(AddRecipe(cat, rc))
  }

  /** The names the output loop gives methods k and later. */
  predicate LastName(resource: Item, ms: seq<Method>, clocks: seq<real>, k: nat)
    requires |ms| == |clocks| && k < |ms|
  {
    forall l :: k < l < |ms| ==> PlanName(resource, ms[l], clocks[l]) != PlanName(resource, ms[k], clocks[k])
  }

  /** The output loop of nlextract over the methods and their clocks, left
      to right; a raise leaves the registries of the earlier steps behind,
      which the result does not carry. */
  function Register(cfg: Config, cat: Catalog, resource: Item, ms: seq<Method>, clocks: seq<real>,
                    plan: map<RecipeName, nat>): (r: Result<Registration>)
    requires |ms| == |clocks|
    ensures r.Err? ==> r.error in {InvalidRarity, InvalidClock, UnknownResource, UnknownTier}
    ensures r.Ok? ==> Grows(cat, r.value.cat)
    decreases |ms|
  {
    if |ms| == 0 then Ok(Registration(cat, plan))
    else
      match RegisterOne(cfg, cat, resource, ms[0], clocks[0])
      case Err(x) => Err(x)
      case Ok(c) => Register(cfg, c, resource, ms[1..], clocks[1..], plan[PlanName(resource, ms[0], clocks[0]) := ms[0].num])
  }

  /** The loop raises only on a node tier without rarity or a new recipe
      whose clock is out of range; it goes through when every method has a
      rarity, a deposit and an admissible clock. */
  lemma {:induction false} RegisterSucceeds(cfg: Config, cat: Catalog, resource: Item, ms: seq<Method>, clocks: seq<real>,
                                           plan: map<RecipeName, nat>)
    requires |ms| == |clocks|
    ensures (forall k :: 0 <= k < |ms| ==> RarityOk(ms[k]) && Serves(cat, resource, ms[k].extractor, ms[k].val)
                                           && cfg.minClock <= clocks[k] <= MaxClock) ==>
              Register(cfg, cat, resource, ms, clocks, plan).Ok?
    decreases |ms|
  {
    if |ms| > 0 {
      var ms', cs' := ms[1..], clocks[1..];
      assert forall k :: 1 <= k < |ms| ==> ms[k] == ms'[k - 1] && clocks[k] == cs'[k - 1];
      var n0 := PlanName(resource, ms[0], clocks[0]);
      var one := RegisterOne(cfg, cat, resource, ms[0], clocks[0]);
      if one.Ok? {
        RegisterSucceeds(cfg, one.value, resource, ms', cs', plan[n0 := ms[0].num]);
      }
    }
  }

  /** A loop that goes through met a rarity for every node tier and an
      admissible clock for every recipe it had to create. */
  lemma {:induction false} RegisterRaises(cfg: Config, cat: Catalog, resource: Item, ms: seq<Method>, clocks: seq<real>,
                                         plan: map<RecipeName, nat>)
    requires |ms| == |clocks|
    ensures Register(cfg, cat, resource, ms, clocks, plan).Ok? ==> forall k :: 0 <= k < |ms| ==>
              RarityOk(ms[k]) && (PlanName(resource, ms[k], clocks[k]) in cat.byName || cfg.minClock <= clocks[k] <= MaxClock)
    decreases |ms|
  {
    if |ms| > 0 {
      var ms', cs' := ms[1..], clocks[1..];
      assert forall k :: 1 <= k < |ms| ==> ms[k] == ms'[k - 1] && clocks[k] == cs'[k - 1];
      var n0 := PlanName(resource, ms[0], clocks[0]);
      var one := RegisterOne(cfg, cat, resource, ms[0], clocks[0]);
      if one.Ok? {
        RegisterRaises(cfg, one.value, resource, ms', cs', plan[n0 := ms[0].num]);
      }
    }
  }

  /** After the loop the by-name index holds the earlier names and one
      name per method. */
  lemma {:induction false} RegisterNames(cfg: Config, cat: Catalog, resource: Item, ms: seq<Method>, clocks: seq<real>,
                                        plan: map<RecipeName, nat>)
    requires |ms| == |clocks|
    requires Register(cfg, cat, resource, ms, clocks, plan).Ok?
    ensures forall nm :: nm in Register(cfg, cat, resource, ms, clocks, plan).value.cat.byName <==>
              nm in cat.byName || exists k :: 0 <= k < |ms| && nm == PlanName(resource, ms[k], clocks[k])
    decreases |ms|
  {
    if |ms| > 0 {
      var ms', cs' := ms[1..], clocks[1..];
      var n0 := PlanName(resource, ms[0], clocks[0]);
      var c := RegisterOne(cfg, cat, resource, ms[0], clocks[0]).value;
      var plan' := plan[n0 := ms[0].num];
      RegisterNames(cfg, c, resource, ms', cs', plan');
      var r := Register(cfg, c, resource, ms', cs', plan').value;
      assert Register(cfg, cat, resource, ms, clocks, plan).value == r;
      forall nm | nm in r.cat.byName
        ensures nm in cat.byName || exists k :: 0 <= k < |ms| && nm == PlanName(resource, ms[k], clocks[k])
      {
        if nm !in c.byName {
          var k :| 0 <= k < |ms'| && nm == PlanName(resource, ms'[k], cs'[k]);
          assert ms'[k] == ms[k + 1] && cs'[k] == clocks[k + 1];
        }
      }
      forall nm | nm in cat.byName || exists k :: 0 <= k < |ms| && nm == PlanName(resource, ms[k], clocks[k])
        ensures nm in r.cat.byName
      {
        if nm !in cat.byName && nm != n0 {
          var k :| 0 <= k < |ms| && nm == PlanName(resource, ms[k], clocks[k]);
          assert ms'[k - 1] == ms[k] && cs'[k - 1] == clocks[k];
        }
      }
    }
  }

  /** Every name the loop adds to the by-name index is the extraction
      recipe it spells. */
  lemma {:induction false} RegisterRecipes(cfg: Config, cat: Catalog, resource: Item, ms: seq<Method>, clocks: seq<real>,
                                          plan: map<RecipeName, nat>)
    requires |ms| == |clocks|
    requires Register(cfg, cat, resource, ms, clocks, plan).Ok?
    ensures forall k :: 0 <= k < |ms| && PlanName(resource, ms[k], clocks[k]) !in cat.byName ==>
              PlanName(resource, ms[k], clocks[k]) in Register(cfg, cat, resource, ms, clocks, plan).value.cat.byName &&
              Register(cfg, cat, resource, ms, clocks, plan).value.cat.byName[PlanName(resource, ms[k], clocks[k])]
                == Extract(ms[k].extractor, resource, ms[k].val, clocks[k])
    decreases |ms|
  {
    if |ms| > 0 {
      var ms', cs' := ms[1..], clocks[1..];
      var n0 := PlanName(resource, ms[0], clocks[0]);
      var c := RegisterOne(cfg, cat, resource, ms[0], clocks[0]).value;
      var plan' := plan[n0 := ms[0].num];
      RegisterRecipes(cfg, c, resource, ms', cs', plan');
      var r := Register(cfg, c, resource, ms', cs', plan').value;
      assert Register(cfg, cat, resource, ms, clocks, plan).value == r;
      forall k | 0 <= k < |ms| && PlanName(resource, ms[k], clocks[k]) !in cat.byName
        ensures PlanName(resource, ms[k], clocks[k]) in r.cat.byName
        ensures r.cat.byName[PlanName(resource, ms[k], clocks[k])] == Extract(ms[k].extractor, resource, ms[k].val, clocks[k])
      {
        if k > 0 {
          assert ms'[k - 1] == ms[k] && cs'[k - 1] == clocks[k];
          if PlanName(resource, ms[k], clocks[k]) in c.byName {
            assert PlanName(resource, ms[k], clocks[k]) == n0;
          }
        }
      }
    }
  }

  /** The plan keeps what it held and gains one name per method. */
  lemma {:induction false} RegisterPlanKeys(cfg: Config, cat: Catalog, resource: Item, ms: seq<Method>, clocks: seq<real>,
                                           plan: map<RecipeName, nat>)
    requires |ms| == |clocks|
    requires Register(cfg, cat, resource, ms, clocks, plan).Ok?
    ensures forall nm :: nm in Register(cfg, cat, resource, ms, clocks, plan).value.plan <==>
              nm in plan || exists k :: 0 <= k < |ms| && nm == PlanName(resource, ms[k], clocks[k])
    decreases |ms|
  {
    if |ms| > 0 {
      var ms', cs' := ms[1..], clocks[1..];
      var n0 := PlanName(resource, ms[0], clocks[0]);
      var c := RegisterOne(cfg, cat, resource, ms[0], clocks[0]).value;
      var plan' := plan[n0 := ms[0].num];
      RegisterPlanKeys(cfg, c, resource, ms', cs', plan');
      var r := Register(cfg, c, resource, ms', cs', plan').value;
      assert Register(cfg, cat, resource, ms, clocks, plan).value == r;
      forall nm | nm in r.plan
        ensures nm in plan || exists k :: 0 <= k < |ms| && nm == PlanName(resource, ms[k], clocks[k])
      {
        if nm != n0 && nm !in plan {
          var k :| 0 <= k < |ms'| && nm == PlanName(resource, ms'[k], cs'[k]);
          assert ms'[k] == ms[k + 1] && cs'[k] == clocks[k + 1];
        }
      }
      forall nm | nm in plan || exists k :: 0 <= k < |ms| && nm == PlanName(resource, ms[k], clocks[k])
        ensures nm in r.plan
      {
        if nm !in plan && nm != n0 {
          var k :| 0 <= k < |ms| && nm == PlanName(resource, ms[k], clocks[k]);
          assert ms'[k - 1] == ms[k] && cs'[k - 1] == clocks[k];
        }
      }
    }
  }

  /** A name no method takes keeps its count in the plan. */
  lemma {:induction false} RegisterPlanKeeps(cfg: Config, cat: Catalog, resource: Item, ms: seq<Method>, clocks: seq<real>,
                                            plan: map<RecipeName, nat>, nm: RecipeName)
    requires |ms| == |clocks|
    requires Register(cfg, cat, resource, ms, clocks, plan).Ok?
    requires nm in plan && forall k :: 0 <= k < |ms| ==> nm != PlanName(resource, ms[k], clocks[k])
    ensures nm in Register(cfg, cat, resource, ms, clocks, plan).value.plan
    ensures Register(cfg, cat, resource, ms, clocks, plan).value.plan[nm] == plan[nm]
    decreases |ms|
  {
    if |ms| > 0 {
      var ms', cs' := ms[1..], clocks[1..];
      var n0 := PlanName(resource, ms[0], clocks[0]);
      var c := RegisterOne(cfg, cat, resource, ms[0], clocks[0]).value;
      var plan' := plan[n0 := ms[0].num];
      forall k | 0 <= k < |ms'|
        ensures nm != PlanName(resource, ms'[k], cs'[k])
      {
        assert ms'[k] == ms[k + 1] && cs'[k] == clocks[k + 1];
      }
      RegisterPlanKeeps(cfg, c, resource, ms', cs', plan', nm);
    }
  }

  /** The last method of each name sets that name's building count. */
  lemma {:induction false} RegisterPlanCounts(cfg: Config, cat: Catalog, resource: Item, ms: seq<Method>, clocks: seq<real>,
                                             plan: map<RecipeName, nat>, k: nat)
    requires |ms| == |clocks| && k < |ms|
    requires Register(cfg, cat, resource, ms, clocks, plan).Ok?
    requires LastName(resource, ms, clocks, k)
    ensures PlanName(resource, ms[k], clocks[k]) in Register(cfg, cat, resource, ms, clocks, plan).value.plan
    ensures Register(cfg, cat, resource, ms, clocks, plan).value.plan[PlanName(resource, ms[k], clocks[k])] == ms[k].num
    decreases |ms|
  {
    var ms', cs' := ms[1..], clocks[1..];
    var n0 := PlanName(resource, ms[0], clocks[0]);
    var c := RegisterOne(cfg, cat, resource, ms[0], clocks[0]).value;
    var plan' := plan[n0 := ms[0].num];
    if k > 0 {
      assert ms'[k - 1] == ms[k] && cs'[k - 1] == clocks[k];
      assert LastName(resource, ms', cs', k - 1) by {
        forall l | k - 1 < l < |ms'|
          ensures PlanName(resource, ms'[l], cs'[l]) != PlanName(resource, ms'[k - 1], cs'[k - 1])
        {
          assert ms'[l] == ms[l + 1] && cs'[l] == clocks[l + 1];
        }
      }
      RegisterPlanCounts(cfg, c, resource, ms', cs', plan', k - 1);
    } else {
      forall l | 0 <= l < |ms'|
        ensures n0 != PlanName(resource, ms'[l], cs'[l])
      {
        assert ms'[l] == ms[l + 1] && cs'[l] == clocks[l + 1];
      }
      RegisterPlanKeeps(cfg, c, resource, ms', cs', plan', n0);
    }
  }

  /** Registering keeps the catalog well formed once the resource is
      under mass balance. */
  lemma {:induction false} RegisterKeepsWf(cfg: Config, cat: Catalog, resource: Item, ms: seq<Method>, clocks: seq<real>,
                                          plan: map<RecipeName, nat>)
    requires |ms| == |clocks|
    requires Wf(cat) && resource in cat.items
    requires Register(cfg, cat, resource, ms, clocks, plan).Ok?
    ensures Wf(Register(cfg, cat, resource, ms, clocks, plan).value.cat)
    decreases |ms|
  {
    if |ms| > 0 {
      var c := RegisterOne(cfg, cat, resource, ms[0], clocks[0]).value;
      if PlanName(resource, ms[0], clocks[0]) !in cat.byName {
        AddRecipeKeepsWf(cat, Extract(ms[0].extractor, resource, ms[0].val, clocks[0]));
      }
      RegisterKeepsWf(cfg, c, resource, ms[1..], clocks[1..], plan[PlanName(resource, ms[0], clocks[0]) := ms[0].num]);
    }
  }

  // ----- nlextract -----

  /** The outcome of nlextract: the registries afterwards, the plan it
      returns, the sorted methods with their chosen clocks, and the power
      of the chosen candidate. */
  datatype Extracted = Extracted(cat: Catalog, plan: map<RecipeName, nat>, methods: seq<Method>,
                                 clocks: seq<real>, power: real)

  /** What the methods deliver with every one at the minimum clock. */
  function Floor(ms: seq<Method>, minclock: real): real
  {
    minclock * Base(ms)
  }

  /** The split search over the sorted methods and min() over the stored
      candidates by power. */
  function Choose(pow: PowFn, e: real, ms: seq<Method>, quota: real, minclock: real): (r: Result<Candidate>)
    requires AllMethodsWf(ms)
    ensures r.Err? ==> r.error in {DivisionByZero, NoCandidate}
    ensures (r.Err? && r.error == NoCandidate) <==>
              Grid(pow, e, ms, quota, minclock, 0).Ok? && |Grid(pow, e, ms, quota, minclock, 0).value| == 0
    ensures r.Ok? ==> Grid(pow, e, ms, quota, minclock, 0).Ok? && r.value in Grid(pow, e, ms, quota, minclock, 0).value
    ensures r.Ok? ==> forall c :: c in Grid(pow, e, ms, quota, minclock, 0).value ==> r.value.power <= c.power
    ensures r.Ok? ==> |r.value.clocks| == |ms| && r.value.power == Draw(pow, e, ms, r.value.clocks)
  {
    match Grid(pow, e, ms, quota, minclock, 0)
    case Err(x) => Err(x)
    case Ok(cs) =>
      match Cheapest(cs)
      case Err(x) => Err(x)
      case Ok(best) =>
        CandidateLength(pow, e, ms, quota, minclock, best);
        Ok(best)
  }

  /** A candidate of the search sets one clock per method, and its power
      is what the methods draw at those clocks. */
  lemma CandidateLength(pow: PowFn, e: real, ms: seq<Method>, quota: real, minclock: real, c: Candidate)
    requires AllMethodsWf(ms)
    requires Grid(pow, e, ms, quota, minclock, 0).Ok? && c in Grid(pow, e, ms, quota, minclock, 0).value
    ensures |c.clocks| == |ms| && c.power == Draw(pow, e, ms, c.clocks)
  {
    var i, j :| 0 <= i <= j <= |ms| && Split(pow, e, ms, quota, minclock, i, j).Ok?
                && Split(pow, e, ms, quota, minclock, i, j).value == Some(c);
  }

  /** nlextract(resource, quota, minclock): a KeyError for an unknown
      resource or a missing deposit table, a ValueError when the quota
      exceeds what all tiers deliver at their limits or falls short of
      what they deliver at the minimum clock; otherwise the cheapest
      candidate of the split search over the methods sorted by power per
      item, whose recipes are then registered. */
  function NlExtract(cfg: Config, cat: Catalog, resource: Item, quota: real, minclock: real): (r: Result<Extracted>)
    ensures Methods(cfg, cat, resource).Err? ==> r == Err(UnknownKey)
    ensures r.Ok? ==> Grows(cat, r.value.cat)
    ensures Methods(cfg, cat, resource).Ok? ==>
              ((r.Err? && r.error == QuotaTooHigh) <==> quota > Capacity(Methods(cfg, cat, resource).value))
    ensures Methods(cfg, cat, resource).Ok? ==>
              ((r.Err? && r.error == QuotaTooLow) <==>
                 quota <= Capacity(Methods(cfg, cat, resource).value)
                 && quota < Floor(Methods(cfg, cat, resource).value, minclock))
    ensures r.Err? ==> r.error in {UnknownKey, QuotaTooHigh, QuotaTooLow, DivisionByZero, NoCandidate,
                                   InvalidRarity, InvalidClock, UnknownResource, UnknownTier}
  {
    match Methods(cfg, cat, resource)
    case Err(x) => Err(x)
    case Ok(ms) =>
      MethodsWf(cfg, cat, resource);
      Guarded(cfg, cat, resource, ms, quota, minclock)
  }

  /** The quota guards, then the search and the output loop over the
      methods sorted by power per item. */
  function Guarded(cfg: Config, cat: Catalog, resource: Item, ms: seq<Method>, quota: real, minclock: real): (r: Result<Extracted>)
    requires AllMethodsWf(ms)
    ensures r.Ok? ==> Grows(cat, r.value.cat)
    ensures (r.Err? && r.error == QuotaTooHigh) <==> quota > Capacity(ms)
    ensures (r.Err? && r.error == QuotaTooLow) <==> quota <= Capacity(ms) && quota < Floor(ms, minclock)
    ensures r.Err? ==> r.error in {QuotaTooHigh, QuotaTooLow, DivisionByZero, NoCandidate,
                                   InvalidRarity, InvalidClock, UnknownResource, UnknownTier}
  {
    if quota > Capacity(ms) then Err(QuotaTooHigh)
    else if quota < Floor(ms, minclock) then Err(QuotaTooLow)
    else
      SortedMethodsWf(ms);
      Finish(cfg, cat, resource, SortByCost(ms), quota, minclock)
  }

  /** The search over the sorted methods and the output loop. */
  function Finish(cfg: Config, cat: Catalog, resource: Item, sorted: seq<Method>, quota: real, minclock: real): (r: Result<Extracted>)
    requires AllMethodsWf(sorted)
    ensures r.Err? ==> r.error in {DivisionByZero, NoCandidate, InvalidRarity, InvalidClock, UnknownResource, UnknownTier}
    ensures r.Ok? ==> Grows(cat, r.value.cat) && r.value.methods == sorted
  {
    match Choose(cfg.pow, cfg.procExponent, sorted, quota, minclock)
    case Err(x) => Err(x)
    case Ok(best) =>
      match Register(cfg, cat, resource, sorted, best.clocks, map[])
      case Err(x) => Err(x)
      case Ok(reg) => Ok(Extracted(reg.cat, reg.plan, sorted, best.clocks, best.power))
  }

  /** A successful call passed both guards and finished the sorted methods. */
  lemma NlExtractParts(cfg: Config, cat: Catalog, resource: Item, quota: real, minclock: real)
    requires NlExtract(cfg, cat, resource, quota, minclock).Ok?
    ensures Methods(cfg, cat, resource).Ok?
    ensures Floor(Methods(cfg, cat, resource).value, minclock) <= quota <= Capacity(Methods(cfg, cat, resource).value)
    ensures AllMethodsWf(Methods(cfg, cat, resource).value)
    ensures AllMethodsWf(SortByCost(Methods(cfg, cat, resource).value))
    ensures NlExtract(cfg, cat, resource, quota, minclock)
              == Finish(cfg, cat, resource, SortByCost(Methods(cfg, cat, resource).value), quota, minclock)
  {
    MethodsWf(cfg, cat, resource);
    SortedMethodsWf(Methods(cfg, cat, resource).value);
  }

  /** A finished search chose a candidate and the output loop went through. */
  lemma FinishParts(cfg: Config, cat: Catalog, resource: Item, sorted: seq<Method>, quota: real, minclock: real)
    requires AllMethodsWf(sorted)
    requires Finish(cfg, cat, resource, sorted, quota, minclock).Ok?
    ensures var x := Finish(cfg, cat, resource, sorted, quota, minclock).value;
            && x.methods == sorted && |x.clocks| == |sorted|
            && Choose(cfg.pow, cfg.procExponent, sorted, quota, minclock) == Ok(Candidate(x.clocks, x.power))
            && Register(cfg, cat, resource, sorted, x.clocks, map[]) == Ok(Registration(x.cat, x.plan))
  {
  }

  /** A successful call lists every tier of every applicable extractor
      exactly once, sorted by power per item, and reports the cheapest of
      all candidates of the split search with its power. */
  lemma NlExtractCheapest(cfg: Config, cat: Catalog, resource: Item, quota: real, minclock: real)
    requires NlExtract(cfg, cat, resource, quota, minclock).Ok?
    ensures Methods(cfg, cat, resource).Ok?
    ensures Floor(Methods(cfg, cat, resource).value, minclock) <= quota <= Capacity(Methods(cfg, cat, resource).value)
    ensures var x := NlExtract(cfg, cat, resource, quota, minclock).value;
            && multiset(x.methods) == multiset(Methods(cfg, cat, resource).value)
            && SortedByCost(x.methods) && AllMethodsWf(x.methods)
            && AllDescribe(cfg, cat, resource, x.methods) && DistinctTiers(x.methods)
            && (forall e: Extractor :: Applies(cat, resource, e) ==> Covers(cat, resource, e, x.methods))
            && |x.clocks| == |x.methods|
            && Grid(cfg.pow, cfg.procExponent, x.methods, quota, minclock, 0).Ok?
            && Candidate(x.clocks, x.power) in Grid(cfg.pow, cfg.procExponent, x.methods, quota, minclock, 0).value
            && (forall c :: c in Grid(cfg.pow, cfg.procExponent, x.methods, quota, minclock, 0).value ==> x.power <= c.power)
  {
    NlExtractParts(cfg, cat, resource, quota, minclock);
    var ms := Methods(cfg, cat, resource).value;
    FinishParts(cfg, cat, resource, SortByCost(ms), quota, minclock);
    var x := NlExtract(cfg, cat, resource, quota, minclock).value;
    SortedMethods(cfg, cat, resource, ms);
    forall e: Extractor | Applies(cat, resource, e)
      ensures Covers(cat, resource, e, x.methods)
    {
      CoversPermutation(cat, resource, e, ms, x.methods);
    }
  }

  /** Reordering keeps every tier covered. */
  lemma CoversPermutation(cat: Catalog, resource: Item, e: Extractor, a: seq<Method>, b: seq<Method>)
    requires multiset(a) == multiset(b) && Covers(cat, resource, e, a)
    ensures Covers(cat, resource, e, b)
  {
    forall v | Serves(cat, resource, e, v)
      ensures exists l :: 0 <= l < |b| && b[l].extractor == e && b[l].val == v
    {
      var k :| 0 <= k < |a| && a[k].extractor == e && a[k].val == v;
      assert a[k] in multiset(b);
      var l :| 0 <= l < |b| && b[l] == a[k];
    }
  }

  /** The plan of a successful call names one recipe per method, at the
      method's chosen clock, with the method's building count; each of
      these names is registered, and a name new to the registries is the
      extraction recipe it spells. */
  lemma NlExtractPlan(cfg: Config, cat: Catalog, resource: Item, quota: real, minclock: real)
    requires NlExtract(cfg, cat, resource, quota, minclock).Ok?
    ensures var x := NlExtract(cfg, cat, resource, quota, minclock).value;
            && |x.clocks| == |x.methods|
            && (forall nm :: nm in x.plan <==>
                  exists k :: 0 <= k < |x.methods| && nm == PlanName(resource, x.methods[k], x.clocks[k]))
            && (forall k :: 0 <= k < |x.methods| ==> x.plan[PlanName(resource, x.methods[k], x.clocks[k])] == x.methods[k].num)
            && (forall nm :: nm in x.cat.byName <==>
                  nm in cat.byName || exists k :: 0 <= k < |x.methods| && nm == PlanName(resource, x.methods[k], x.clocks[k]))
            && (forall k :: 0 <= k < |x.methods| && PlanName(resource, x.methods[k], x.clocks[k]) !in cat.byName ==>
                  x.cat.byName[PlanName(resource, x.methods[k], x.clocks[k])]
                    == Extract(x.methods[k].extractor, resource, x.methods[k].val, x.clocks[k]))
  {
    NlExtractParts(cfg, cat, resource, quota, minclock);
    NlExtractCheapest(cfg, cat, resource, quota, minclock);
    FinishPlan(cfg, cat, resource, SortByCost(Methods(cfg, cat, resource).value), quota, minclock);
  }

  lemma FinishPlan(cfg: Config, cat: Catalog, resource: Item, sorted: seq<Method>, quota: real, minclock: real)
    requires AllMethodsWf(sorted) && DistinctTiers(sorted)
    requires Finish(cfg, cat, resource, sorted, quota, minclock).Ok?
    ensures var x := Finish(cfg, cat, resource, sorted, quota, minclock).value;
            && |x.clocks| == |x.methods|
            && (forall nm :: nm in x.plan <==>
                  exists k :: 0 <= k < |x.methods| && nm == PlanName(resource, x.methods[k], x.clocks[k]))
            && (forall k :: 0 <= k < |x.methods| ==> x.plan[PlanName(resource, x.methods[k], x.clocks[k])] == x.methods[k].num)
            && (forall nm :: nm in x.cat.byName <==>
                  nm in cat.byName || exists k :: 0 <= k < |x.methods| && nm == PlanName(resource, x.methods[k], x.clocks[k]))
            && (forall k :: 0 <= k < |x.methods| && PlanName(resource, x.methods[k], x.clocks[k]) !in cat.byName ==>
                  x.cat.byName[PlanName(resource, x.methods[k], x.clocks[k])]
                    == Extract(x.methods[k].extractor, resource, x.methods[k].val, x.clocks[k]))
  {
    FinishParts(cfg, cat, resource, sorted, quota, minclock);
    var x := Finish(cfg, cat, resource, sorted, quota, minclock).value;
    RegisterPlanKeys(cfg, cat, resource, sorted, x.clocks, map[]);
    RegisterNames(cfg, cat, resource, sorted, x.clocks, map[]);
    RegisterRecipes(cfg, cat, resource, sorted, x.clocks, map[]);
    DistinctNames(resource, sorted, x.clocks);
    forall k | 0 <= k < |sorted|
      ensures x.plan[PlanName(resource, sorted[k], x.clocks[k])] == sorted[k].num
    {
      RegisterPlanCounts(cfg, cat, resource, sorted, x.clocks, map[], k);
    }
  }

  /** Methods on distinct tiers get distinct names whatever their clocks.
      This follows from the recipe name carrying the tier. */
  lemma DistinctNames(resource: Item, ms: seq<Method>, clocks: seq<real>)
    requires |ms| == |clocks| && DistinctTiers(ms)
    ensures forall k :: 0 <= k < |ms| ==> LastName(resource, ms, clocks, k)
  {
  }

  /** A successful call keeps a well-formed catalog well formed when the
      resource is under mass balance. */
  lemma NlExtractKeepsWf(cfg: Config, cat: Catalog, resource: Item, quota: real, minclock: real)
    requires Wf(cat) && resource in cat.items
    requires NlExtract(cfg, cat, resource, quota, minclock).Ok?
    ensures Wf(NlExtract(cfg, cat, resource, quota, minclock).value.cat)
  {
    NlExtractParts(cfg, cat, resource, quota, minclock);
    FinishParts(cfg, cat, resource, SortByCost(Methods(cfg, cat, resource).value), quota, minclock);
    var x := NlExtract(cfg, cat, resource, quota, minclock).value;
    RegisterKeepsWf(cfg, cat, resource, x.methods, x.clocks, map[]);
  }

  // ----- what the plan extracts and draws -----

  /** Items per minute one method's recipe extracts at a clock, over all
      of the method's buildings. */
  function MethodYield(cfg: Config, resource: Item, m: Method, clock: real): real
  {
    m.num as real * -ExtractRate(cfg, m.extractor, resource, m.val, clock, resource)
  }

  /** Items per minute the plan's recipes extract, each run by its
      method's building count. */
  function PlanOutput(cfg: Config, resource: Item, ms: seq<Method>, clocks: seq<real>): real
    requires |ms| == |clocks|
  {
    if |ms| == 0 then 0.0
    else MethodYield(cfg, resource, ms[0], clocks[0]) + PlanOutput(cfg, resource, ms[1..], clocks[1..])
  }

  /** The power one method's recipe draws at a clock, over all of the
      method's buildings. */
  function MethodDraw(cfg: Config, resource: Item, m: Method, clock: real): real
  {
    m.num as real * PowerOf(cfg, Extract(m.extractor, resource, m.val, clock), NoApa)
  }

  /** The power the plan's recipes draw, each run by its method's building
      count. */
  function PlanPower(cfg: Config, resource: Item, ms: seq<Method>, clocks: seq<real>): real
    requires |ms| == |clocks|
  {
    if |ms| == 0 then 0.0
    else MethodDraw(cfg, resource, ms[0], clocks[0]) + PlanPower(cfg, resource, ms[1..], clocks[1..])
  }

  /** Below the clock limits no belt or pipe caps an extractor, so the
      recipes extract what the methods deliver. */
  lemma PlanOutputIsDelivered(cfg: Config, cat: Catalog, resource: Item, ms: seq<Method>, clocks: seq<real>)
    requires |ms| == |clocks| && AllDescribe(cfg, cat, resource, ms)
    requires forall k :: 0 <= k < |ms| ==> 0.0 <= clocks[k] <= ms[k].limit
    ensures PlanOutput(cfg, resource, ms, clocks) == Delivered(ms, clocks)
  {
    MethodYields(cfg, cat, resource, ms, clocks);
    SumYields(cfg, resource, ms, clocks);
  }

  /** The recipe of method m at a clock extracts what the method delivers. */
  predicate YieldMatches(cfg: Config, resource: Item, m: Method, clock: real)
  {
    MethodYield(cfg, resource, m, clock) == m.num as real * m.rate * clock
  }

  lemma MethodYields(cfg: Config, cat: Catalog, resource: Item, ms: seq<Method>, clocks: seq<real>)
    requires |ms| == |clocks| && AllDescribe(cfg, cat, resource, ms)
    requires forall k :: 0 <= k < |ms| ==> 0.0 <= clocks[k] <= ms[k].limit
    ensures forall k :: 0 <= k < |ms| ==> YieldMatches(cfg, resource, ms[k], clocks[k])
  {
    forall k | 0 <= k < |ms|
      ensures YieldMatches(cfg, resource, ms[k], clocks[k])
    {
      MethodOutput(cfg, cat, resource, ms[k], clocks[k]);
    }
  }

  lemma {:induction false} SumYields(cfg: Config, resource: Item, ms: seq<Method>, clocks: seq<real>)
    requires |ms| == |clocks|
    requires forall k :: 0 <= k < |ms| ==> YieldMatches(cfg, resource, ms[k], clocks[k])
    ensures PlanOutput(cfg, resource, ms, clocks) == Delivered(ms, clocks)
  {
    if |ms| > 0 {
      assert forall k :: 0 <= k < |ms[1..]| ==> ms[1..][k] == ms[k + 1] && clocks[1..][k] == clocks[k + 1];
      SumYields(cfg, resource, ms[1..], clocks[1..]);
    }
  }

  /** One method's recipe below its clock limit extracts what the method
      delivers. */
  lemma MethodOutput(cfg: Config, cat: Catalog, resource: Item, m: Method, clock: real)
    requires Describes(cfg, cat, resource, m) && 0.0 <= clock <= m.limit
    ensures MethodYield(cfg, resource, m, clock) == m.num as real * m.rate * clock
  {
    TierOutput(cfg, cat.extractBuildings, resource, m.extractor, m.val, clock, m.num as real, m.rate);
  }

  lemma TierOutput(cfg: Config, eb: map<Item, seq<Extractor>>, resource: Item, e: Extractor, v: pos,
                   clock: real, n: real, rate: real)
    requires MaxExtractClock(cfg, eb, resource, e, v).Ok? && 0.0 <= clock <= MaxExtractClock(cfg, eb, resource, e, v).value
    requires rate == ExtractBaseRate(cfg, e, v)
    ensures n * -ExtractRate(cfg, e, resource, v, clock, resource) == n * rate * clock
  {
    BelowMaxClock(cfg, eb, resource, e, v, clock);
    OutputTerm(n, ExtractBaseRate(cfg, e, v), rate, clock, ExtractRate(cfg, e, resource, v, clock, resource));
  }

  lemma OutputTerm(n: real, base: real, rate: real, clock: real, y: real)
    requires rate == base && y == -base * clock
    ensures n * -y == n * rate * clock
  {
  }

  /** The recipe power formula, summed over the plan, is the power the
      search charges the methods. */
  lemma PlanPowerIsDraw(cfg: Config, cat: Catalog, resource: Item, ms: seq<Method>, clocks: seq<real>)
    requires |ms| == |clocks| && AllDescribe(cfg, cat, resource, ms)
    ensures PlanPower(cfg, resource, ms, clocks) == Draw(cfg.pow, cfg.procExponent, ms, clocks)
  {
    forall k | 0 <= k < |ms|
      ensures DrawMatches(cfg, resource, ms[k], clocks[k])
    {
      MethodPower(cfg, cat, resource, ms[k], clocks[k]);
    }
    SumDraws(cfg, resource, ms, clocks);
  }

  /** The recipe of method m at a clock draws what the search charges. */
  predicate DrawMatches(cfg: Config, resource: Item, m: Method, clock: real)
  {
    MethodDraw(cfg, resource, m, clock) == m.num as real * m.power * cfg.pow(clock, cfg.procExponent)
  }

  lemma {:induction false} SumDraws(cfg: Config, resource: Item, ms: seq<Method>, clocks: seq<real>)
    requires |ms| == |clocks|
    requires forall k :: 0 <= k < |ms| ==> DrawMatches(cfg, resource, ms[k], clocks[k])
    ensures PlanPower(cfg, resource, ms, clocks) == Draw(cfg.pow, cfg.procExponent, ms, clocks)
  {
    if |ms| > 0 {
      assert forall k :: 0 <= k < |ms[1..]| ==> ms[1..][k] == ms[k + 1] && clocks[1..][k] == clocks[k + 1];
      SumDraws(cfg, resource, ms[1..], clocks[1..]);
    }
  }

  /** One method's recipe draws what the search charges the method. */
  lemma MethodPower(cfg: Config, cat: Catalog, resource: Item, m: Method, clock: real)
    requires Describes(cfg, cat, resource, m)
    ensures MethodDraw(cfg, resource, m, clock) == m.num as real * m.power * cfg.pow(clock, cfg.procExponent)
  {
    Associate(m.num as real, ExtractBasePower(cfg, m.extractor), cfg.pow(clock, cfg.procExponent),
              PowerOf(cfg, Extract(m.extractor, resource, m.val, clock), NoApa));
  }

  lemma Associate(a: real, b: real, c: real, x: real)
    requires x == b * c
    ensures a * x == a * b * c
  {
  }

  /** With a power law obeying the exponent rule, the chosen recipes
      extract exactly the quota whenever the minimum clock is non-negative
      and below every limit, and the reported power is what they draw. */
  lemma NlExtractMeetsQuota(cfg: Config, cat: Catalog, resource: Item, quota: real, minclock: real)
    requires ExponentLaw(cfg.pow)
    requires NlExtract(cfg, cat, resource, quota, minclock).Ok?
    ensures var x := NlExtract(cfg, cat, resource, quota, minclock).value;
            && |x.clocks| == |x.methods|
            && Delivered(x.methods, x.clocks) == quota
            && x.power == PlanPower(cfg, resource, x.methods, x.clocks)
            && ((0.0 <= minclock && forall k :: 0 <= k < |x.methods| ==> minclock <= x.methods[k].limit) ==>
                  Admissible(x.methods, x.clocks, minclock) && PlanOutput(cfg, resource, x.methods, x.clocks) == quota)
  {
    NlExtractParts(cfg, cat, resource, quota, minclock);
    NlExtractCheapest(cfg, cat, resource, quota, minclock);
    FinishMeetsQuota(cfg, cat, resource, SortByCost(Methods(cfg, cat, resource).value), quota, minclock);
  }

  lemma FinishMeetsQuota(cfg: Config, cat: Catalog, resource: Item, sorted: seq<Method>, quota: real, minclock: real)
    requires ExponentLaw(cfg.pow) && AllMethodsWf(sorted) && AllDescribe(cfg, cat, resource, sorted)
    requires Finish(cfg, cat, resource, sorted, quota, minclock).Ok?
    ensures var x := Finish(cfg, cat, resource, sorted, quota, minclock).value;
            && |x.clocks| == |x.methods|
            && Delivered(x.methods, x.clocks) == quota
            && x.power == PlanPower(cfg, resource, x.methods, x.clocks)
            && ((0.0 <= minclock && forall k :: 0 <= k < |x.methods| ==> minclock <= x.methods[k].limit) ==>
                  Admissible(x.methods, x.clocks, minclock) && PlanOutput(cfg, resource, x.methods, x.clocks) == quota)
  {
    FinishParts(cfg, cat, resource, sorted, quota, minclock);
    var x := Finish(cfg, cat, resource, sorted, quota, minclock).value;
    var c := Candidate(x.clocks, x.power);
    GridCandidates(cfg.pow, cfg.procExponent, sorted, quota, minclock, c);
    PlanPowerIsDraw(cfg, cat, resource, sorted, x.clocks);
    if 0.0 <= minclock && forall k :: 0 <= k < |sorted| ==> minclock <= sorted[k].limit {
      PlanOutputIsDelivered(cfg, cat, resource, sorted, x.clocks);
    }
  }
}
