/** The registries the scripts fill at load time: resource nodes and wells
    by tier, the item list, and the recipe list with its by-name index. */
module Catalog {
  import opened Basics
  import opened Settings
  import opened Rates

  /** Deposit counts by tier value: node rarity 1/2/4, or well value. */
  type Tiers = map<pos, nat>

  /** A (impure, normal, pure) count triple as written in the scripts. */
  type Counts = s: seq<nat> | |s| == 3 witness [0, 0, 0]

  function Count(t: Tiers, v: pos): nat
  {
    if v in t then t[v] else 0
  }

  function TiersOf(m: map<Item, Tiers>, resource: Item): Tiers
  {
    if resource in m then m[resource] else map[]
  }

  /** Tier value of purity index i: 2^i. */
  function TierValue(i: nat): pos
    requires i < 3
  {
    if i == 0 then 1 else if i == 1 then 2 else 4
  }

  /** Count at tier v of a triple: n_i at tier 2^i. */
  function TripleAt(counts: Counts, v: pos): nat
  {
    if v == 1 then counts[0] else if v == 2 then counts[1] else if v == 4 then counts[2] else 0
  }

  /** What regN adds to tier v for one count triple. */
  function NodeContribution(counts: Counts, v: pos): nat
  {
    if counts[0] + counts[1] + counts[2] == 0 then 0 else TripleAt(counts, v)
  }

  /** The tiers a triple has deposits on. */
  function OccupiedTiers(counts: Counts): set<pos>
  {
    (if counts[0] > 0 then {1} else {}) + (if counts[1] > 0 then {2} else {})
      + (if counts[2] > 0 then {4} else {})
  }

  function AddCount(t: Tiers, v: pos, n: nat): (r: Tiers)
    ensures forall w: pos {:trigger Count(r, w)} :: Count(r, w) == Count(t, w) + (if w == v then n else 0)
    ensures r.Keys == t.Keys + (if n > 0 then {v} else {})
  {
    if n > 0 then t[v := Count(t, v) + n] else t
  }

  /** Adds a triple's counts to a tier map. */
  function AddTriple(t: Tiers, counts: Counts): (r: Tiers)
    ensures forall w: pos {:trigger Count(r, w)} :: Count(r, w) == Count(t, w) + TripleAt(counts, w)
    ensures r.Keys == t.Keys + OccupiedTiers(counts)
  {
    AddCount(AddCount(AddCount(t, 1, counts[0]), 2, counts[1]), 4, counts[2])
  }

  /** regN: an all-zero triple changes nothing; otherwise the resource gets
      an entry and every positive count is added to its tier 2^i. */
  function RegN(nodes: map<Item, Tiers>, resource: Item, counts: Counts): (r: map<Item, Tiers>)
    ensures forall v: pos {:trigger Count(TiersOf(r, resource), v)} ::
              Count(TiersOf(r, resource), v) == Count(TiersOf(nodes, resource), v) + NodeContribution(counts, v)
    ensures counts[0] + counts[1] + counts[2] == 0 ==> r == nodes
    ensures counts[0] + counts[1] + counts[2] != 0 ==>
              resource in r && r[resource].Keys == TiersOf(nodes, resource).Keys + OccupiedTiers(counts)
    ensures forall res :: res != resource ==> TiersOf(r, res) == TiersOf(nodes, res)
    ensures r.Keys <= nodes.Keys + {resource}
  {
    if counts[0] + counts[1] + counts[2] == 0 then nodes
    else nodes[resource := AddTriple(TiersOf(nodes, resource), counts)]
  }

  /** regW: a well of counts (n0, n1, n2) has value n0 + 2 n1 + 4 n2; one
      more well of that value is recorded, and an all-zero triple is ignored. */
  function RegW(wells: map<Item, Tiers>, resource: Item, counts: Counts): (r: map<Item, Tiers>)
    ensures counts[0] + counts[1] + counts[2] == 0 ==> r == wells
    ensures counts[0] + counts[1] + counts[2] != 0 ==>
              var v := counts[0] + 2 * counts[1] + 4 * counts[2];
              && resource in r
              && r[resource].Keys == TiersOf(wells, resource).Keys + {v}
              && (forall w: pos {:trigger Count(r[resource], w)} ::
                    Count(r[resource], w) == Count(TiersOf(wells, resource), w) + (if w == v then 1 else 0))
    ensures forall res :: res != resource ==> TiersOf(r, res) == TiersOf(wells, res)
    ensures r.Keys <= wells.Keys + {resource}
  {
    if counts[0] + counts[1] + counts[2] == 0 then wells
    else
      var v: pos := counts[0] + 2 * counts[1] + 4 * counts[2];
      wells[resource := AddCount(TiersOf(wells, resource), v, 1)]
  }

  /** Every recorded tier holds at least one deposit. */
  predicate TiersPositive(m: map<Item, Tiers>)
  {
    forall res, v :: res in m && v in m[res] ==> m[res][v] > 0
  }

  lemma RegNKeepsPositive(nodes: map<Item, Tiers>, resource: Item, counts: Counts)
    requires TiersPositive(nodes)
    ensures TiersPositive(RegN(nodes, resource, counts))
  {
    var r := RegN(nodes, resource, counts);
    forall res, v | res in r && v in r[res]
      ensures r[res][v] > 0
    {
      if res == resource && counts[0] + counts[1] + counts[2] != 0 {
        assert Count(TiersOf(r, resource), v) == Count(TiersOf(nodes, resource), v) + NodeContribution(counts, v);
        assert v in TiersOf(nodes, resource) || NodeContribution(counts, v) > 0;
      } else {
        assert TiersOf(r, res) == TiersOf(nodes, res);
      }
    }
  }

  lemma RegWKeepsPositive(wells: map<Item, Tiers>, resource: Item, counts: Counts)
    requires TiersPositive(wells)
    ensures TiersPositive(RegW(wells, resource, counts))
  {
    var r := RegW(wells, resource, counts);
    forall res, v | res in r && v in r[res]
      ensures r[res][v] > 0
    {
      if res == resource && counts[0] + counts[1] + counts[2] != 0 {
        assert Count(r[resource], v) == Count(TiersOf(wells, resource), v)
          + (if v == counts[0] + 2 * counts[1] + 4 * counts[2] then 1 else 0);
      } else {
        assert TiersOf(r, res) == TiersOf(wells, res);
      }
    }
  }

  /** Registering the same resource twice adds both triples' counts, in
      either order. */
  lemma {:induction false} RegNAccumulates(nodes: map<Item, Tiers>, resource: Item, a: Counts, b: Counts, v: pos)
    ensures Count(TiersOf(RegN(RegN(nodes, resource, a), resource, b), resource), v)
         == Count(TiersOf(nodes, resource), v) + NodeContribution(a, v) + NodeContribution(b, v)
    ensures Count(TiersOf(RegN(RegN(nodes, resource, a), resource, b), resource), v)
         == Count(TiersOf(RegN(RegN(nodes, resource, b), resource, a), resource), v)
  {
    var ab := RegN(RegN(nodes, resource, a), resource, b);
    var ba := RegN(RegN(nodes, resource, b), resource, a);
    assert Count(TiersOf(ab, resource), v) == Count(TiersOf(RegN(nodes, resource, a), resource), v) + NodeContribution(b, v);
    assert Count(TiersOf(RegN(nodes, resource, a), resource), v) == Count(TiersOf(nodes, resource), v) + NodeContribution(a, v);
    assert Count(TiersOf(ba, resource), v) == Count(TiersOf(RegN(nodes, resource, b), resource), v) + NodeContribution(a, v);
    assert Count(TiersOf(RegN(nodes, resource, b), resource), v) == Count(TiersOf(nodes, resource), v) + NodeContribution(b, v);
  }

  /** The least key of a non-empty tier map. */
  function MinTier(t: Tiers): (k: pos)
    requires |t| > 0
    ensures k in t && forall k' :: k' in t ==> k <= k'
  {
    MinExists(t.Keys);
    var k :| Least(k, t.Keys);
    k
  }

  predicate Least(k: pos, s: set<pos>)
  {
    k in s && forall k' :: k' in s ==> k <= k'
  }

  lemma {:induction false} MinExists(s: set<pos>)
    requires |s| > 0
    ensures exists k :: Least(k, s)
  {
    var x :| x in s;
    if s == {x} {
      assert Least(x, s);
    } else {
      var rest := s - {x};
      MinExists(rest);
      var y :| Least(y, rest);
      var m := if x < y then x else y;
      forall k' | k' in s
        ensures m <= k'
      {
        if k' != x {
          assert k' in rest;
        }
      }
      assert Least(m, s);
    }
  }

  /** The tier values of a map, ascending. */
  function TierList(t: Tiers): (r: seq<pos>)
    ensures Elements(r) == t.Keys
    ensures |r| == |t|
    ensures forall i, j :: 0 <= i < j < |r| ==> r[i] < r[j]
    decreases |t|
  {
    if |t| == 0 then []
    else
      var k := MinTier(t);
      assert |(t - {k}).Keys| == |t.Keys - {k}| == |t.Keys| - 1;
      var rest := TierList(t - {k});
      TierListStep(t, k, rest);
      [k] + rest
  }

  lemma TierListStep(t: Tiers, k: pos, rest: seq<pos>)
    requires k in t && forall k' :: k' in t ==> k <= k'
    requires Elements(rest) == (t - {k}).Keys && |rest| == |t| - 1
    requires forall i, j :: 0 <= i < j < |rest| ==> rest[i] < rest[j]
    ensures Elements([k] + rest) == t.Keys
    ensures forall i, j :: 0 <= i < j < |[k] + rest| ==> ([k] + rest)[i] < ([k] + rest)[j]
  {
    var r := [k] + rest;
    assert forall x :: x in r <==> x == k || x in rest;
    assert Elements(r) == {k} + Elements(rest);
    assert (t - {k}).Keys == t.Keys - {k};
    forall i | 0 <= i < |rest|
      ensures k < rest[i]
    {
      var x := rest[i];
      assert x in Elements(rest);
      assert x in t && x != k;
    }
    ConsIncreasing(k, rest);
  }

  lemma ConsIncreasing(k: pos, rest: seq<pos>)
    requires forall i, j :: 0 <= i < j < |rest| ==> rest[i] < rest[j]
    requires forall i :: 0 <= i < |rest| ==> k < rest[i]
    ensures forall i, j :: 0 <= i < j < |[k] + rest| ==> ([k] + rest)[i] < ([k] + rest)[j]
  {
  }

  /** The registries of one script. */
  datatype Catalog = Catalog(
    items: seq<Item>,                        // items under mass balance, in registration order
    recipes: seq<Recipe>,                    // LP columns, in registration order
    byName: map<RecipeName, Recipe>,
    buildings: map<string, Building>,
    nodes: map<Item, Tiers>,
    wells: map<Item, Tiers>,
    extractBuildings: map<Item, seq<Extractor>>)

  /** The outcome of a registration call: the registries afterwards and the
      exception raised, if any. Registries changed before a raise stay changed. */
  datatype Registered = Registered(cat: Catalog, error: Option<Error>)

  /** The catalog invariant: items and recipe names are unique, the by-name
      index holds exactly the listed recipes, every somersloop copy respects
      its building's slots, and every item a recipe mentions (besides the
      points) is under mass balance. */
  ghost predicate Wf(cat: Catalog)
  {
    && NoDuplicates(cat.items)
    && (forall i, j :: 0 <= i < j < |cat.recipes| ==> NameOf(cat.recipes[i]) != NameOf(cat.recipes[j]))
    && cat.byName.Keys == (set i | 0 <= i < |cat.recipes| :: NameOf(cat.recipes[i]))
    && (forall i :: 0 <= i < |cat.recipes| ==> cat.byName[NameOf(cat.recipes[i])] == cat.recipes[i])
    && AllWf(cat.recipes)
    && ItemsBalanced(cat)
  }

  predicate AllWf(rs: seq<Recipe>)
  {
    forall i :: 0 <= i < |rs| ==> WfRecipe(rs[i])
  }

  /** Every item a listed recipe mentions, except the points, is balanced. */
  predicate ItemsBalanced(cat: Catalog)
  {
    forall i, x :: 0 <= i < |cat.recipes| && x in Keys(cat.recipes[i]) && x != AwesomePoints ==> x in cat.items
  }

  /** Appending a recipe under its name: the shared tail of regR, regMR and
      regS once the name is known to be new. */
  function AddRecipe(cat: Catalog, r: Recipe): (c: Catalog)
    ensures c.recipes == cat.recipes + [r]
    ensures c.byName == cat.byName[NameOf(r) := r]
    ensures c.items == cat.items && c.nodes == cat.nodes && c.wells == cat.wells
  {
    cat.(recipes := cat.recipes + [r], byName := cat.byName[NameOf(r) := r])
  }

  /** Registration of a new recipe whose items are already under balance
      keeps the catalog well formed. */
  lemma {:induction false} AddRecipeKeepsWf(cat: Catalog, r: Recipe)
    requires Wf(cat) && WfRecipe(r) && NameOf(r) !in cat.byName
    requires forall x :: x in Keys(r) && x != AwesomePoints ==> x in cat.items
    ensures Wf(AddRecipe(cat, r))
  {
    var c := AddRecipe(cat, r);
    var n := |cat.recipes|;
    assert c.recipes[n] == r;
    forall i | 0 <= i < n
      ensures NameOf(cat.recipes[i]) != NameOf(r)
    {
      assert NameOf(cat.recipes[i]) in cat.byName;
    }
    assert forall i :: 0 <= i < n ==> c.recipes[i] == cat.recipes[i];
    assert c.byName.Keys == (set i | 0 <= i < |c.recipes| :: NameOf(c.recipes[i])) by {
      forall nm | nm in c.byName.Keys
        ensures nm in (set i | 0 <= i < |c.recipes| :: NameOf(c.recipes[i]))
      {
        if nm != NameOf(r) {
          var i :| 0 <= i < n && NameOf(cat.recipes[i]) == nm;
          assert NameOf(c.recipes[i]) == nm;
        } else {
          assert NameOf(c.recipes[n]) == nm;
        }
      }
    }
  }

  /** Replacing the item list by a superset keeps the catalog well formed. */
  lemma WfMoreItems(cat: Catalog, items: seq<Item>)
    requires Wf(cat) && NoDuplicates(items) && Elements(cat.items) <= Elements(items)
    ensures Wf(cat.(items := items))
  {
    var c := cat.(items := items);
    forall i, x | 0 <= i < |c.recipes| && x in Keys(c.recipes[i]) && x != AwesomePoints
      ensures x in c.items
    {
      assert x in cat.items;
      assert x in Elements(cat.items);
    }
  }

  /** regR: the building must be registered (checked first, nothing changes
      otherwise); then the recipe's items join the item list, and only then
      is a duplicate name rejected, so a rejected duplicate still leaves its
      items behind. */
  ghost function RegR(cat: Catalog, name: string, inputs: map<Item, real>, outputs: map<Item, real>,
                      building: string): (r: Registered)
    ensures building !in cat.buildings <==> r.error == Some(UnknownBuilding)
    ensures building !in cat.buildings ==> r.cat == cat
    ensures building in cat.buildings ==>
              && cat.items <= r.cat.items
              && Elements(r.cat.items) == Elements(cat.items) + (inputs.Keys + outputs.Keys)
    ensures building in cat.buildings && Named(name) in cat.byName <==> r.error == Some(DuplicateName)
    ensures r.error.Some? ==> r.cat.recipes == cat.recipes && r.cat.byName == cat.byName
    ensures r.error.None? ==>
              var p := Plain(Process(name, inputs, outputs, cat.buildings[building]));
              r.cat.recipes == cat.recipes + [p] && r.cat.byName == cat.byName[Named(name) := p]
  {
    if building !in cat.buildings then Registered(cat, Some(UnknownBuilding))
    else
      var c := cat.(items := AddItems(cat.items, inputs.Keys + outputs.Keys));
      if Named(name) in cat.byName then Registered(c, Some(DuplicateName))
      else Registered(AddRecipe(c, Plain(Process(name, inputs, outputs, cat.buildings[building]))), None)
  }

  /** regMR: a milestone's requirements join the item list before the
      duplicate-name check. */
  ghost function RegMR(cat: Catalog, name: string, requirements: map<Item, real>): (r: Registered)
    ensures cat.items <= r.cat.items
    ensures Elements(r.cat.items) == Elements(cat.items) + requirements.Keys
    ensures Named(name) in cat.byName <==> r.error == Some(DuplicateName)
    ensures r.error.Some? ==> r.cat.recipes == cat.recipes && r.cat.byName == cat.byName
    ensures r.error.None? ==>
              r.cat.recipes == cat.recipes + [Milestone(name, requirements)]
              && r.cat.byName == cat.byName[Named(name) := Milestone(name, requirements)]
  {
    var c := cat.(items := AddItems(cat.items, requirements.Keys));
    if Named(name) in cat.byName then Registered(c, Some(DuplicateName))
    else Registered(AddRecipe(c, Milestone(name, requirements)), None)
  }

  /** regS: the sunk item joins the item list (the points do not), then a
      second sink of the same item is rejected. */
  function RegS(cat: Catalog, item: Item, points: real): (r: Registered)
    ensures r.cat.items == if item in cat.items then cat.items else cat.items + [item]
    ensures SinkOf(item) in cat.byName <==> r.error == Some(DuplicateName)
    ensures r.error.Some? ==> r.cat.recipes == cat.recipes && r.cat.byName == cat.byName
    ensures r.error.None? ==>
              r.cat.recipes == cat.recipes + [Sink(item, points)]
              && r.cat.byName == cat.byName[SinkOf(item) := Sink(item, points)]
  {
    var c := cat.(items := if item in cat.items then cat.items else cat.items + [item]);
    if SinkOf(item) in cat.byName then Registered(c, Some(DuplicateName))
    else Registered(AddRecipe(c, Sink(item, points)), None)
  }

  /** Each registration keeps the catalog well formed, whether it succeeds
      or raises. */
  lemma {:induction false} RegRKeepsWf(cat: Catalog, name: string, inputs: map<Item, real>,
                                      outputs: map<Item, real>, building: string)
    requires Wf(cat)
    ensures Wf(RegR(cat, name, inputs, outputs, building).cat)
  {
    if building in cat.buildings {
      var items := AddItems(cat.items, inputs.Keys + outputs.Keys);
      var c := cat.(items := items);
      WfMoreItems(cat, items);
      if Named(name) !in cat.byName {
        var p := Plain(Process(name, inputs, outputs, cat.buildings[building]));
        forall x | x in Keys(p) && x != AwesomePoints
          ensures x in c.items
        {
          assert x in Elements(items);
        }
        AddRecipeKeepsWf(c, p);
      }
    }
  }

  lemma {:induction false} RegMRKeepsWf(cat: Catalog, name: string, requirements: map<Item, real>)
    requires Wf(cat)
    ensures Wf(RegMR(cat, name, requirements).cat)
  {
    var items := AddItems(cat.items, requirements.Keys);
    var c := cat.(items := items);
    WfMoreItems(cat, items);
    if Named(name) !in cat.byName {
      var m := Milestone(name, requirements);
      forall x | x in Keys(m) && x != AwesomePoints
        ensures x in c.items
      {
        assert x in Elements(items);
      }
      AddRecipeKeepsWf(c, m);
    }
  }

  lemma {:induction false} RegSKeepsWf(cat: Catalog, item: Item, points: real)
    requires Wf(cat)
    ensures Wf(RegS(cat, item, points).cat)
  {
    var items := if item in cat.items then cat.items else cat.items + [item];
    assert Elements(items) == Elements(cat.items) + {item};
    var c := cat.(items := items);
    WfMoreItems(cat, items);
    if SinkOf(item) !in cat.byName {
      assert item in c.items;
      AddRecipeKeepsWf(c, Sink(item, points));
    }
  }

  /** A recipe the somersloop loop derives copies from: a plain recipe in a
      non-generator building with at least one slot. */
  predicate Sloopable(r: Recipe)
  {
    r.Plain? && r.process.building.kind != Generator && r.process.building.slots > 0
  }

  /** Copies of p for somersloop counts lo..hi, each at every clock. */
  function SloopLevels(p: Process, lo: nat, hi: nat, clocks: seq<real>): (vs: seq<Recipe>)
    ensures forall v :: v in vs ==> v.Sloop? && v.base == p && lo <= v.sloops <= hi && v.clock in clocks
    ensures forall s, c :: lo <= s <= hi && c in clocks ==> Sloop(p, s, c) in vs
    decreases hi + 1 - lo
  {
    if lo > hi then []
    else
      var here := seq(|clocks|, k requires 0 <= k < |clocks| => Sloop(p, lo, clocks[k]));
      assert forall c :: c in clocks ==> Sloop(p, lo, c) in here by {
        forall c | c in clocks
          ensures Sloop(p, lo, c) in here
        {
          var k :| 0 <= k < |clocks| && clocks[k] == c;
          assert here[k] == Sloop(p, lo, c);
        }
      }
      here + SloopLevels(p, lo + 1, hi, clocks)
  }

  /** The somersloop generation loop: for every eligible recipe, a copy for
      every somersloop count 1..slots at every clock of the grid. */
  function SloopVariants(rs: seq<Recipe>, clocks: seq<real>): (vs: seq<Recipe>)
    ensures forall v :: v in vs ==>
              && v.Sloop? && WfRecipe(v) && 1 <= v.sloops && v.clock in clocks
              && Plain(v.base) in rs && Sloopable(Plain(v.base))
    ensures forall r, s, c :: r in rs && Sloopable(r) && 1 <= s <= r.process.building.slots && c in clocks ==>
              Sloop(r.process, s, c) in vs
  {
    if |rs| == 0 then []
    else
      var mine := if Sloopable(rs[0]) then SloopLevels(rs[0].process, 1, rs[0].process.building.slots, clocks)
                  else [];
      var rest := SloopVariants(rs[1..], clocks);
      assert forall r :: r in rs ==> r == rs[0] || r in rs[1..];
      mine + rest
  }

  /** No copy after the k-th shares its name. */
  predicate LastOfName(vs: seq<Recipe>, k: nat)
    requires k < |vs|
  {
    forall l :: k < l < |vs| ==> NameOf(vs[l]) != NameOf(vs[k])
  }

  /** Registers every copy under its name, later ones overwriting earlier
      ones: the generation loop performs no duplicate check, so the last
      copy of a name is the one stored. */
  function IndexAll(byName: map<RecipeName, Recipe>, vs: seq<Recipe>): (m: map<RecipeName, Recipe>)
    ensures m.Keys == byName.Keys + (set v | v in vs :: NameOf(v))
    ensures forall n :: n in byName && (forall v :: v in vs ==> NameOf(v) != n) ==> m[n] == byName[n]
    ensures forall k :: 0 <= k < |vs| && LastOfName(vs, k) ==> m[NameOf(vs[k])] == vs[k]
    decreases |vs|
  {
    if |vs| == 0 then byName
    else
      var m := IndexAll(byName[NameOf(vs[0]) := vs[0]], vs[1..]);
      IndexAllKeys(byName, vs, m);
      IndexAllUntouched(byName, vs, m);
      IndexAllStep(vs, m);
      m
  }

  /** One registration step adds the first copy's name to the keys. */
  lemma IndexAllKeys(byName: map<RecipeName, Recipe>, vs: seq<Recipe>, m: map<RecipeName, Recipe>)
    requires |vs| > 0
    requires m.Keys == byName[NameOf(vs[0]) := vs[0]].Keys + (set v | v in vs[1..] :: NameOf(v))
    ensures m.Keys == byName.Keys + (set v | v in vs :: NameOf(v))
    ensures forall k :: 0 <= k < |vs| ==> NameOf(vs[k]) in m
  {
    assert forall v :: v in vs ==> v == vs[0] || v in vs[1..];
    assert forall k :: 0 < k < |vs| ==> vs[k] == vs[1..][k - 1];
  }

  /** A name no copy carries keeps its entry through one more step. */
  lemma IndexAllUntouched(byName: map<RecipeName, Recipe>, vs: seq<Recipe>, m: map<RecipeName, Recipe>)
    requires |vs| > 0 && byName[NameOf(vs[0]) := vs[0]].Keys <= m.Keys
    requires forall n :: n in byName[NameOf(vs[0]) := vs[0]] && (forall v :: v in vs[1..] ==> NameOf(v) != n) ==>
               m[n] == byName[NameOf(vs[0]) := vs[0]][n]
    ensures forall n :: n in byName && (forall v :: v in vs ==> NameOf(v) != n) ==> m[n] == byName[n]
  {
    forall n | n in byName && (forall v :: v in vs ==> NameOf(v) != n)
      ensures m[n] == byName[n]
    {
      assert vs[0] in vs;
      assert forall v :: v in vs[1..] ==> v in vs;
    }
  }

  /** The last copy of a name is the one left stored after one more step. */
  lemma IndexAllStep(vs: seq<Recipe>, m: map<RecipeName, Recipe>)
    requires |vs| > 0 && forall k :: 0 <= k < |vs| ==> NameOf(vs[k]) in m
    requires forall n :: n in m && (forall v :: v in vs[1..] ==> NameOf(v) != n) && n == NameOf(vs[0]) ==> m[n] == vs[0]
    requires forall k :: 0 <= k < |vs| - 1 && LastOfName(vs[1..], k) ==> m[NameOf(vs[1..][k])] == vs[1..][k]
    ensures forall k :: 0 <= k < |vs| && LastOfName(vs, k) ==> m[NameOf(vs[k])] == vs[k]
  {
    if LastOfName(vs, 0) {
      forall v | v in vs[1..]
        ensures NameOf(v) != NameOf(vs[0])
      {
        var l :| 0 <= l < |vs[1..]| && vs[1..][l] == v;
        assert vs[l + 1] == v;
      }
    }
    forall k | 0 < k < |vs| && LastOfName(vs, k)
      ensures m[NameOf(vs[k])] == vs[k]
    {
      assert vs[1..][k - 1] == vs[k];
      assert LastOfName(vs[1..], k - 1) by {
        forall l | k - 1 < l < |vs| - 1
          ensures NameOf(vs[1..][l]) != NameOf(vs[1..][k - 1])
        {
          assert vs[1..][l] == vs[l + 1];
        }
      }
    }
  }

  /** The catalog after somersloop generation over a clock grid: the copies
      are appended and indexed, the last copy of a name winning, and the
      recipes no copy shares a name with keep their entries. */
  function GenerateSloops(cat: Catalog, clocks: seq<real>): (c: Catalog)
    ensures c.recipes == cat.recipes + SloopVariants(cat.recipes, clocks)
    ensures c.items == cat.items
    ensures c.byName.Keys == cat.byName.Keys + (set v | v in SloopVariants(cat.recipes, clocks) :: NameOf(v))
    ensures forall k :: 0 <= k < |SloopVariants(cat.recipes, clocks)| && LastOfName(SloopVariants(cat.recipes, clocks), k) ==>
              c.byName[NameOf(SloopVariants(cat.recipes, clocks)[k])] == SloopVariants(cat.recipes, clocks)[k]
    ensures forall n :: n in cat.byName && (forall v :: v in SloopVariants(cat.recipes, clocks) ==> NameOf(v) != n) ==>
              c.byName[n] == cat.byName[n]
  {
    var vs := SloopVariants(cat.recipes, clocks);
    cat.(recipes := cat.recipes + vs, byName := IndexAll(cat.byName, vs))
  }

  /** A listed recipe of a balanced catalog mentions only balanced items. */
  lemma ListedItemsBalanced(cat: Catalog, r: Recipe, x: Item)
    requires ItemsBalanced(cat) && r in cat.recipes && x in Keys(r) && x != AwesomePoints
    ensures x in cat.items
  {
    var j :| 0 <= j < |cat.recipes| && cat.recipes[j] == r;
  }

  /** Generation keeps every recipe well formed and every mentioned item
      under balance: a copy mentions exactly its base recipe's items. */
  lemma {:induction false} GenerateSloopsKeepsRecipes(cat: Catalog, clocks: seq<real>)
    requires AllWf(cat.recipes) && ItemsBalanced(cat)
    ensures AllWf(GenerateSloops(cat, clocks).recipes)
    ensures ItemsBalanced(GenerateSloops(cat, clocks))
  {
    var vs := SloopVariants(cat.recipes, clocks);
    AllWfAppend(cat.recipes, vs);
    BalancedAppendCopies(cat, vs);
  }

  lemma AllWfAppend(a: seq<Recipe>, b: seq<Recipe>)
    requires AllWf(a) && forall v :: v in b ==> WfRecipe(v)
    ensures AllWf(a + b)
  {
    forall i | 0 <= i < |a + b|
      ensures WfRecipe((a + b)[i])
    {
      if i >= |a| {
        assert (a + b)[i] == b[i - |a|];
      }
    }
  }

  lemma BalancedAppendCopies(cat: Catalog, vs: seq<Recipe>)
    requires ItemsBalanced(cat)
    requires forall v :: v in vs ==> v.Sloop? && Plain(v.base) in cat.recipes
    ensures ItemsBalanced(cat.(recipes := cat.recipes + vs))
  {
    var c := cat.(recipes := cat.recipes + vs);
    var n := |cat.recipes|;
    forall i, x | 0 <= i < |c.recipes| && x in Keys(c.recipes[i]) && x != AwesomePoints
      ensures x in c.items
    {
      if i < n {
        assert c.recipes[i] == cat.recipes[i];
      } else {
        var v := vs[i - n];
        assert c.recipes[i] == v && v in vs;
        ListedItemsBalanced(cat, Plain(v.base), x);
      }
    }
  }

  /** The grid of overclocked somersloop clocks: 100% to 250%. */
  function SloopClocks(cfg: Config): seq<real>
  {
    Linspace(1.0, MaxClock, cfg.sloopClockSteps)
  }

  lemma SomerSloopClocks(pow: PowFn, e: real)
    ensures SloopClocks(SomerConfig(pow, e)) == [1.0, 2.5]
  {
    var g := SloopClocks(SomerConfig(pow, e));
    assert |g| == 2 && g[0] == 1.0 && g[1] == 2.5;
  }
}
