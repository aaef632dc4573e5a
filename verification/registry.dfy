/** The progression registry of optimizer4.py: milestones with their
    prerequisite chains, buildings unlocked by milestones, and recipes that
    refer to both. Every constructor checks its references and raises
    KeyError on an unknown name. */
module Registry {
  import opened Basics

  /** A milestone holds the prerequisite object it was registered with, so
      prerequisite chains are finite by construction. */
  datatype Milestone = Milestone(name: string, prerequisite: Option<Milestone>, cost: map<Item, int>)

  datatype Building = Building(name: string, base: real, requirement: Option<Milestone>, clock: real, exponent: real)

  datatype Recipe = Recipe(name: string, alt: bool, inputs: map<Item, int>, outputs: map<Item, int>,
                           building: Building, duration: int, requirements: seq<Milestone>)

  datatype Registry = Registry(
    milestones: map<string, Milestone>,
    buildings: map<string, Building>,
    items: seq<Item>,
    recipes: map<string, Recipe>)

  /** The outcome of a constructor call: the registry afterwards and the
      exception raised, if any. */
  datatype Registered = Registered(reg: Registry, error: Option<Error>)

  /** Names of all milestones on a prerequisite chain. */
  function Ancestors(m: Milestone): set<string>
  {
    match m.prerequisite
    case None => {}
    case Some(p) => {p.name} + Ancestors(p)
  }

  /** Milestone.__init__: a prerequisite that is not None must already be
      registered, otherwise KeyError and nothing is registered; then the
      milestone is stored under its name, replacing an earlier one. */
  function AddMilestone(reg: Registry, name: string, prerequisite: Option<string>, cost: map<Item, int>): (r: Registered)
    ensures r.error.Some? <==> prerequisite.Some? && prerequisite.value !in reg.milestones
    ensures r.error.Some? ==> r.error == Some(UnknownKey) && r.reg == reg
    ensures r.error.None? ==>
              && r.reg.milestones.Keys == reg.milestones.Keys + {name}
              && r.reg.milestones[name].name == name
              && r.reg.milestones[name].cost == cost
              && r.reg.milestones[name].prerequisite
                 == (if prerequisite.None? then None else Some(reg.milestones[prerequisite.value]))
              && (forall n :: n in reg.milestones && n != name ==> r.reg.milestones[n] == reg.milestones[n])
              && r.reg.buildings == reg.buildings && r.reg.recipes == reg.recipes && r.reg.items == reg.items
  {
    if prerequisite.Some? && prerequisite.value !in reg.milestones then Registered(reg, Some(UnknownKey))
    else
      var pre := if prerequisite.None? then None else Some(reg.milestones[prerequisite.value]);
      Registered(reg.(milestones := reg.milestones[name := Milestone(name, pre, cost)]), None)
  }

  /** Milestones are stored under their own names and every milestone on a
      stored prerequisite chain is registered. */
  predicate MilestonesClosed(ms: map<string, Milestone>)
  {
    forall n :: n in ms ==> ms[n].name == n && Ancestors(ms[n]) <= ms.Keys
  }

  /** Registering a milestone, successfully or not, keeps every chain closed:
      a new milestone's chain is its prerequisite plus that one's chain. */
  lemma {:induction false} AddMilestoneKeepsClosed(reg: Registry, name: string, prerequisite: Option<string>,
                                                  cost: map<Item, int>)
    requires MilestonesClosed(reg.milestones)
    ensures MilestonesClosed(AddMilestone(reg, name, prerequisite, cost).reg.milestones)
  {
    var r := AddMilestone(reg, name, prerequisite, cost);
    if r.error.None? {
      var ms := r.reg.milestones;
      forall n | n in ms
        ensures ms[n].name == n && Ancestors(ms[n]) <= ms.Keys
      {
        if n == name {
          if prerequisite.Some? {
            var p := reg.milestones[prerequisite.value];
            assert Ancestors(ms[n]) == {p.name} + Ancestors(p);
            assert p.name == prerequisite.value;
          }
        } else {
          assert ms[n] == reg.milestones[n];
        }
      }
    }
  }

  /** Building.__init__: an unknown requirement raises before the building
      is stored; otherwise it is stored under its name. */
  function AddBuilding(reg: Registry, name: string, base: real, requirement: Option<string>,
                       clock: real, exponent: real): (r: Registered)
    ensures r.error.Some? <==> requirement.Some? && requirement.value !in reg.milestones
    ensures r.error.Some? ==> r.error == Some(UnknownKey) && r.reg == reg
    ensures r.error.None? ==>
              && name in r.reg.buildings
              && r.reg.buildings == reg.buildings[name := r.reg.buildings[name]]
              && r.reg.buildings[name].name == name
              && r.reg.buildings[name].base == base
              && r.reg.buildings[name].clock == clock
              && r.reg.buildings[name].exponent == exponent
              && r.reg.buildings[name].requirement
                 == (if requirement.None? then None else Some(reg.milestones[requirement.value]))
              && r.reg.milestones == reg.milestones && r.reg.recipes == reg.recipes && r.reg.items == reg.items
  {
    if requirement.Some? && requirement.value !in reg.milestones then Registered(reg, Some(UnknownKey))
    else
      var req := if requirement.None? then None else Some(reg.milestones[requirement.value]);
      Registered(reg.(buildings := reg.buildings[name := Building(name, base, req, clock, exponent)]), None)
  }

  /** `list(Milestones[x] for x in requirements)`: the first unknown name raises. */
  function LookupAll(ms: map<string, Milestone>, names: seq<string>): (r: Result<seq<Milestone>>)
    ensures r.Ok? <==> forall i :: 0 <= i < |names| ==> names[i] in ms
    ensures r.Err? ==> r.error == UnknownKey
    ensures r.Ok? ==> |r.value| == |names| && forall i :: 0 <= i < |names| ==> r.value[i] == ms[names[i]]
  {
    if |names| == 0 then Ok([])
    else if names[0] !in ms then Err(UnknownKey)
    else match LookupAll(ms, names[1..])
      case Err(e) => Err(e)
      case Ok(rest) => Ok([ms[names[0]]] + rest)
  }

  /** Recipe.__init__: the items are appended first, so a recipe rejected
      for an unknown building or requirement still leaves its items behind;
      then the building and the requirements are looked up; then the recipe
      is stored under its name, replacing an earlier one. */
  ghost function AddRecipe(reg: Registry, name: string, alt: bool, inputs: map<Item, int>, building: string,
                           duration: int, outputs: map<Item, int>, requirements: seq<string>): (r: Registered)
    ensures reg.items <= r.reg.items
    ensures Elements(r.reg.items) == Elements(reg.items) + (inputs.Keys + outputs.Keys)
    ensures r.error.None? <==>
              building in reg.buildings && forall i :: 0 <= i < |requirements| ==> requirements[i] in reg.milestones
    ensures r.error.Some? ==> r.error == Some(UnknownKey) && r.reg.recipes == reg.recipes
    ensures r.error.None? ==>
              && r.reg.recipes.Keys == reg.recipes.Keys + {name}
              && r.reg.recipes[name].name == name
              && r.reg.recipes[name].alt == alt
              && r.reg.recipes[name].inputs == inputs
              && r.reg.recipes[name].outputs == outputs
              && r.reg.recipes[name].building == reg.buildings[building]
              && r.reg.recipes[name].duration == duration
              && |r.reg.recipes[name].requirements| == |requirements|
              && (forall i :: 0 <= i < |requirements| ==>
                    r.reg.recipes[name].requirements[i] == reg.milestones[requirements[i]])
              && (forall n :: n in reg.recipes && n != name ==> r.reg.recipes[n] == reg.recipes[n])
    ensures r.reg.milestones == reg.milestones && r.reg.buildings == reg.buildings
  {
    var reg' := reg.(items := AddItems(reg.items, inputs.Keys + outputs.Keys));
    if building !in reg.buildings then Registered(reg', Some(UnknownKey))
    else match LookupAll(reg.milestones, requirements)
      case Err(e) => Registered(reg', Some(e))
      case Ok(reqs) =>
        var rec := Recipe(name, alt, inputs, outputs, reg.buildings[building], duration, reqs);
        Registered(reg'.(recipes := reg.recipes[name := rec]), None)
  }

  /** Every stored building's requirement is a registered milestone. */
  predicate BuildingsResolved(reg: Registry)
  {
    forall b :: b in reg.buildings ==>
      reg.buildings[b].requirement.Some? ==> reg.buildings[b].requirement.value.name in reg.milestones
  }

  /** Every stored recipe's building and requirements are registered. */
  predicate RecipesResolved(reg: Registry)
  {
    && (forall n :: n in reg.recipes ==> reg.recipes[n].building.name in reg.buildings)
    && (forall n, i :: n in reg.recipes && 0 <= i < |reg.recipes[n].requirements| ==>
          reg.recipes[n].requirements[i].name in reg.milestones)
  }

  /** The item list has no duplicates and holds every item a recipe mentions. */
  predicate ItemsCovered(reg: Registry)
  {
    && NoDuplicates(reg.items)
    && (forall n, x :: n in reg.recipes && x in reg.recipes[n].inputs.Keys + reg.recipes[n].outputs.Keys ==>
          x in reg.items)
  }

  /** The registry invariant: milestone chains are closed, stored buildings
      and recipes refer only to registered names, and the item list covers
      the recipes. */
  predicate Wf(reg: Registry)
  {
    MilestonesClosed(reg.milestones) && BuildingsResolved(reg) && RecipesResolved(reg) && ItemsCovered(reg)
  }

  predicate BuildingsNamed(bs: map<string, Building>)
  {
    forall b :: b in bs ==> bs[b].name == b
  }

  lemma {:induction false} AddMilestoneKeepsWf(reg: Registry, name: string, prerequisite: Option<string>,
                                              cost: map<Item, int>)
    requires Wf(reg)
    ensures Wf(AddMilestone(reg, name, prerequisite, cost).reg)
  {
    AddMilestoneKeepsClosed(reg, name, prerequisite, cost);
  }

  lemma {:induction false} AddBuildingKeepsWf(reg: Registry, name: string, base: real, requirement: Option<string>,
                                             clock: real, exponent: real)
    requires Wf(reg) && BuildingsNamed(reg.buildings)
    ensures Wf(AddBuilding(reg, name, base, requirement, clock, exponent).reg)
    ensures BuildingsNamed(AddBuilding(reg, name, base, requirement, clock, exponent).reg.buildings)
  {
    var r := AddBuilding(reg, name, base, requirement, clock, exponent);
    if r.error.None? && requirement.Some? {
      assert reg.milestones[requirement.value].name == requirement.value;
    }
  }

  lemma {:induction false} AddRecipeKeepsWf(reg: Registry, name: string, alt: bool, inputs: map<Item, int>,
                                           building: string, duration: int, outputs: map<Item, int>,
                                           requirements: seq<string>)
    requires Wf(reg) && BuildingsNamed(reg.buildings)
    ensures Wf(AddRecipe(reg, name, alt, inputs, building, duration, outputs, requirements).reg)
  {
    var r := AddRecipe(reg, name, alt, inputs, building, duration, outputs, requirements);
    if r.error.None? {
      var reqs := LookupAll(reg.milestones, requirements).value;
      var rec := Recipe(name, alt, inputs, outputs, reg.buildings[building], duration, reqs);
      assert r.reg.recipes == reg.recipes[name := rec];
      StoreRecipeResolved(reg, r.reg, rec);
      StoreRecipeCovered(reg, r.reg, rec);
    } else {
      AppendItemsCovered(reg, r.reg);
    }
  }

  /** Storing a recipe whose building and requirements are registered keeps
      every recipe resolved. */
  lemma StoreRecipeResolved(reg: Registry, reg': Registry, rec: Recipe)
    requires RecipesResolved(reg)
    requires reg'.recipes == reg.recipes[rec.name := rec]
    requires reg'.buildings == reg.buildings && reg'.milestones == reg.milestones
    requires rec.building.name in reg.buildings
    requires forall i :: 0 <= i < |rec.requirements| ==> rec.requirements[i].name in reg.milestones
    ensures RecipesResolved(reg')
  {
  }

  /** Storing a recipe whose items are all listed keeps the items covered. */
  lemma StoreRecipeCovered(reg: Registry, reg': Registry, rec: Recipe)
    requires ItemsCovered(reg)
    requires reg'.recipes == reg.recipes[rec.name := rec]
    requires reg.items <= reg'.items && NoDuplicates(reg'.items)
    requires Elements(reg'.items) == Elements(reg.items) + (rec.inputs.Keys + rec.outputs.Keys)
    ensures ItemsCovered(reg')
  {
    forall n, x | n in reg'.recipes && x in reg'.recipes[n].inputs.Keys + reg'.recipes[n].outputs.Keys
      ensures x in reg'.items
    {
      assert x in Elements(reg'.items);
    }
  }

  /** Appending items without storing a recipe keeps the items covered. */
  lemma AppendItemsCovered(reg: Registry, reg': Registry)
    requires ItemsCovered(reg)
    requires reg'.recipes == reg.recipes
    requires reg.items <= reg'.items && NoDuplicates(reg'.items)
    ensures ItemsCovered(reg')
  {
    forall n, x | n in reg'.recipes && x in reg'.recipes[n].inputs.Keys + reg'.recipes[n].outputs.Keys
      ensures x in reg'.items
    {
      assert x in reg.items;
      var k :| 0 <= k < |reg.items| && reg.items[k] == x;
      assert reg'.items[k] == x;
    }
  }

  /** A value Python may compare a milestone or building with. */
  datatype Value = Str(s: string) | Ms(m: Milestone) | Bd(b: Building)

  /** Python's `a == b` for these values: Milestone.__eq__ and
      Building.__eq__ accept their own class or a string with the same
      name and answer False (not NotImplemented) otherwise; a string
      compared with either falls back to the reflected __eq__. */
  function PyEq(a: Value, b: Value): bool
  {
    match (a, b)
    case (Str(x), Str(y)) => x == y
    case (Str(x), Ms(m)) => m.name == x
    case (Str(x), Bd(d)) => d.name == x
    case (Ms(m), Str(x)) => m.name == x
    case (Ms(m), Ms(m')) => m.name == m'.name
    case (Ms(_), Bd(_)) => false
    case (Bd(d), Str(x)) => d.name == x
    case (Bd(_), Ms(_)) => false
    case (Bd(d), Bd(d')) => d.name == d'.name
  }

  /** __hash__ hashes the name; a string hashes itself. */
  function PyHash(h: string -> int, a: Value): int
  {
    match a
    case Str(x) => h(x)
    case Ms(m) => h(m.name)
    case Bd(d) => h(d.name)
  }

  /** Equality is reflexive and symmetric, and equal values hash equally
      whatever the string hash, so milestones and buildings work as
      dictionary keys interchangeably with their names. */
  lemma PyEqLaws(h: string -> int, a: Value, b: Value)
    ensures PyEq(a, a)
    ensures PyEq(a, b) == PyEq(b, a)
    ensures PyEq(a, b) ==> PyHash(h, a) == PyHash(h, b)
  {
  }

  /** Equality is not transitive: a milestone and a building of the same
      name both equal the name but not each other. */
  lemma PyEqNotTransitive()
    ensures var m := Ms(Milestone("Platform", None, map[]));
            var b := Bd(Building("Platform", 4.0, None, 1.0, 1.6));
            PyEq(m, Str("Platform")) && PyEq(Str("Platform"), b) && !PyEq(m, b)
  {
  }
}
