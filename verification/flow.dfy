/** flow of optimizer3.py: how one item moves through a solved plan. The
    plan maps recipe names to activities; every recipe of the plan with a
    negative rate for the item is a source of it, every recipe with a
    positive rate a sink, and the report carries the total on each side. */
module Flow {
  import opened Basics
  import opened Settings
  import opened Rates
  import opened Catalog

  /** One entry of a plan: a recipe name and how many buildings run it. */
  datatype Use = Use(name: RecipeName, activity: real)

  /** The four results of flow: the inflow, the amount each source
      supplies, the outflow and the amount each sink takes. */
  datatype Report = Report(inflow: real, sources: map<RecipeName, real>, outflow: real, sinks: map<RecipeName, real>)

  /** The names of a plan, in order; a plan is a dictionary, so they are
      distinct. */
  function Names(rd: seq<Use>): (r: seq<RecipeName>)
    ensures |r| == |rd| && forall k :: 0 <= k < |rd| ==> r[k] == rd[k].name
  {
    seq(|rd|, k requires 0 <= k < |rd| => rd[k].name)
  }

  /** The amount of the item a recipe of rate ra moves at an activity. */
  function Moved(ra: real, activity: real): real
  {
    ra * activity
  }

  /** The entry's recipe is registered and its rate for the item exists. */
  predicate Resolves(cfg: Config, cat: Catalog, item: Item, u: Use)
  {
    u.name in cat.byName && Rate(cfg, cat.byName[u.name], item).Ok?
  }

  /** The error flow raises on an entry that does not resolve: a KeyError
      for an unknown name, else the error of the rate. */
  function Failure(cfg: Config, cat: Catalog, item: Item, u: Use): Error
    requires !Resolves(cfg, cat, item, u)
  {
    if u.name !in cat.byName then UnknownKey else Rate(cfg, cat.byName[u.name], item).error
  }

  /** The rate of the item for each entry, looked up left to right; the
      first entry that does not resolve raises. */
  function ItemRates(cfg: Config, cat: Catalog, item: Item, rd: seq<Use>): (r: Result<seq<real>>)
    ensures r.Ok? <==> forall k :: 0 <= k < |rd| ==> Resolves(cfg, cat, item, rd[k])
    ensures r.Ok? ==> |r.value| == |rd| && forall k :: 0 <= k < |rd| ==>
              r.value[k] == Rate(cfg, cat.byName[rd[k].name], item).value
    ensures r.Err? ==> exists k :: 0 <= k < |rd| && !Resolves(cfg, cat, item, rd[k])
                                   && (forall j :: 0 <= j < k ==> Resolves(cfg, cat, item, rd[j]))
                                   && r.error == Failure(cfg, cat, item, rd[k])
  {
    if |rd| == 0 then Ok([])
    else if !Resolves(cfg, cat, item, rd[0]) then Err(Failure(cfg, cat, item, rd[0]))
    else
      match ItemRates(cfg, cat, item, rd[1..])
      case Err(x) =>
        ghost var k :| 0 <= k < |rd[1..]| && !Resolves(cfg, cat, item, rd[1..][k])
                       && (forall j :: 0 <= j < k ==> Resolves(cfg, cat, item, rd[1..][j]))
                       && x == Failure(cfg, cat, item, rd[1..][k]);
        assert rd[1..][k] == rd[k + 1] && forall j :: 0 <= j < k ==> rd[1..][j] == rd[j + 1];
        Err(x)
      case Ok(rest) =>
        assert forall k :: 1 <= k < |rd| ==> rd[k] == rd[1..][k - 1];
        Ok([Rate(cfg, cat.byName[rd[0].name], item).value] + rest)
  }

  /** The loop of flow over entries with known rates: a negative rate
      makes the entry a source of -rate times its activity, a positive one
      a sink of rate times its activity, and a zero rate neither. */
  function Split(rs: seq<real>, rd: seq<Use>): Report
    requires |rs| == |rd|
  {
    if |rd| == 0 then Report(0.0, map[], 0.0, map[])
    else
      var f := Split(rs[1..], rd[1..]);
      var n, a := rd[0].name, rd[0].activity;
      if rs[0] < 0.0 then f.(inflow := Moved(-rs[0], a) + f.inflow, sources := f.sources[n := Moved(-rs[0], a)])
      else if rs[0] > 0.0 then f.(outflow := Moved(rs[0], a) + f.outflow, sinks := f.sinks[n := Moved(rs[0], a)])
      else f
  }

  /** Where the report puts a recipe n of rate ra run at an activity: among
      the sources with -ra times the activity iff ra is negative, among the
      sinks with ra times the activity iff ra is positive. */
  predicate Placed(f: Report, n: RecipeName, ra: real, activity: real)
  {
    && (n in f.sources <==> ra < 0.0)
    && (n in f.sinks <==> ra > 0.0)
    && (ra < 0.0 ==> f.sources[n] == Moved(-ra, activity))
    && (ra > 0.0 ==> f.sinks[n] == Moved(ra, activity))
  }

  /** The plan without its first entry: its names stay distinct and miss
      the first name. */
  lemma Tail(rd: seq<Use>)
    requires |rd| > 0 && NoDuplicates(Names(rd))
    ensures NoDuplicates(Names(rd[1..]))
    ensures forall k :: 1 <= k < |rd| ==> rd[k] == rd[1..][k - 1] && rd[k].name != rd[0].name
    ensures Elements(Names(rd)) == {rd[0].name} + Elements(Names(rd[1..]))
  {
    assert forall k :: 0 <= k < |rd[1..]| ==> Names(rd[1..])[k] == Names(rd)[k + 1];
    forall k | 1 <= k < |rd|
      ensures rd[k].name != rd[0].name
    {
      assert Names(rd)[0] != Names(rd)[k];
    }
    assert Names(rd) == [rd[0].name] + Names(rd[1..]);
  }

  /** Every entry is placed by its rate, and the sides hold only names of
      the plan. */
  lemma {:induction false} SplitPlaces(rs: seq<real>, rd: seq<Use>)
    requires |rs| == |rd| && NoDuplicates(Names(rd))
    ensures forall k :: 0 <= k < |rd| ==> Placed(Split(rs, rd), rd[k].name, rs[k], rd[k].activity)
    ensures Split(rs, rd).sources.Keys <= Elements(Names(rd)) && Split(rs, rd).sinks.Keys <= Elements(Names(rd))
  {
    if |rd| > 0 {
      Tail(rd);
      SplitPlaces(rs[1..], rd[1..]);
      var f := Split(rs[1..], rd[1..]);
      var r := Split(rs, rd);
      forall k | 1 <= k < |rd|
        ensures Placed(r, rd[k].name, rs[k], rd[k].activity)
      {
        assert Placed(f, rd[1..][k - 1].name, rs[1..][k - 1], rd[1..][k - 1].activity);
      }
    }
  }

  /** flow(item, rd): sources, sinks and the totals of each side; an
      unknown recipe name or a failing rate raises. */
  function Flow(cfg: Config, cat: Catalog, item: Item, rd: seq<Use>): (r: Result<Report>)
    requires NoDuplicates(Names(rd))
    ensures r.Ok? <==> forall k :: 0 <= k < |rd| ==> Resolves(cfg, cat, item, rd[k])
    ensures r.Err? ==> exists k :: 0 <= k < |rd| && !Resolves(cfg, cat, item, rd[k])
                                   && (forall j :: 0 <= j < k ==> Resolves(cfg, cat, item, rd[j]))
                                   && r.error == Failure(cfg, cat, item, rd[k])
  {
    match ItemRates(cfg, cat, item, rd)
    case Err(x) => Err(x)
    case Ok(rs) => Ok(Split(rs, rd))
  }

  /** A recipe of the plan is a source iff its rate for the item is
      negative, supplying -rate times its activity, and a sink iff its rate
      is positive, taking rate times its activity. */
  lemma FlowSides(cfg: Config, cat: Catalog, item: Item, rd: seq<Use>)
    requires NoDuplicates(Names(rd))
    requires Flow(cfg, cat, item, rd).Ok?
    ensures forall k :: 0 <= k < |rd| ==>
              Placed(Flow(cfg, cat, item, rd).value, rd[k].name, Rate(cfg, cat.byName[rd[k].name], item).value, rd[k].activity)
    ensures Flow(cfg, cat, item, rd).value.sources.Keys <= Elements(Names(rd))
    ensures Flow(cfg, cat, item, rd).value.sinks.Keys <= Elements(Names(rd))
  {
    SplitPlaces(ItemRates(cfg, cat, item, rd).value, rd);
  }

  // ----- the sides are disjoint and balance the plan's net use -----

  /** No recipe is both a source and a sink of the item. */
  lemma FlowDisjoint(cfg: Config, cat: Catalog, item: Item, rd: seq<Use>)
    requires NoDuplicates(Names(rd))
    requires Flow(cfg, cat, item, rd).Ok?
    ensures Flow(cfg, cat, item, rd).value.sources.Keys !! Flow(cfg, cat, item, rd).value.sinks.Keys
  {
    FlowSides(cfg, cat, item, rd);
    var f := Flow(cfg, cat, item, rd).value;
    forall n | n in f.sources
      ensures n !in f.sinks
    {
      assert n in Elements(Names(rd));
      var k :| 0 <= k < |rd| && Names(rd)[k] == n;
      assert Placed(f, rd[k].name, Rate(cfg, cat.byName[rd[k].name], item).value, rd[k].activity);
    }
  }

  /** What the plan consumes of the item on balance: each entry's rate
      times its activity, summed. */
  function NetUse(rs: seq<real>, rd: seq<Use>): real
    requires |rs| == |rd|
  {
    if |rd| == 0 then 0.0 else Moved(rs[0], rd[0].activity) + NetUse(rs[1..], rd[1..])
  }

  /** The outflow exceeds the inflow by exactly the plan's net use of the
      item; a balanced plan has equal inflow and outflow. */
  lemma {:induction false} SplitBalance(rs: seq<real>, rd: seq<Use>)
    requires |rs| == |rd|
    ensures Split(rs, rd).outflow - Split(rs, rd).inflow == NetUse(rs, rd)
  {
    if |rd| > 0 {
      SplitBalance(rs[1..], rd[1..]);
      MovedNegate(rs[0], rd[0].activity);
    }
  }

  lemma MovedNegate(ra: real, activity: real)
    ensures Moved(-ra, activity) == -Moved(ra, activity)
  {
  }

  /** With non-negative activities both totals are non-negative, since
      every source and sink moves a non-negative amount. */
  lemma {:induction false} SplitNonNegative(rs: seq<real>, rd: seq<Use>)
    requires |rs| == |rd|
    requires forall k :: 0 <= k < |rd| ==> rd[k].activity >= 0.0
    ensures Split(rs, rd).inflow >= 0.0 && Split(rs, rd).outflow >= 0.0
  {
    if |rd| > 0 {
      assert forall k :: 0 <= k < |rd[1..]| ==> rd[1..][k] == rd[k + 1];
      SplitNonNegative(rs[1..], rd[1..]);
      MovedNonNegative(rs[0], rd[0].activity);
      MovedNonNegative(-rs[0], rd[0].activity);
    }
  }

  lemma MovedNonNegative(ra: real, activity: real)
    requires activity >= 0.0
    ensures ra >= 0.0 ==> Moved(ra, activity) >= 0.0
  {
  }

  /** The report of a plan whose rates exist balances its net use and,
      for non-negative activities, has non-negative totals. */
  lemma FlowBalance(cfg: Config, cat: Catalog, item: Item, rd: seq<Use>)
    requires NoDuplicates(Names(rd))
    requires Flow(cfg, cat, item, rd).Ok?
    ensures ItemRates(cfg, cat, item, rd).Ok?
    ensures Flow(cfg, cat, item, rd).value.outflow - Flow(cfg, cat, item, rd).value.inflow
              == NetUse(ItemRates(cfg, cat, item, rd).value, rd)
    ensures (forall k :: 0 <= k < |rd| ==> rd[k].activity >= 0.0) ==>
              Flow(cfg, cat, item, rd).value.inflow >= 0.0 && Flow(cfg, cat, item, rd).value.outflow >= 0.0
  {
    var rs := ItemRates(cfg, cat, item, rd).value;
    SplitBalance(rs, rd);
    if forall k :: 0 <= k < |rd| ==> rd[k].activity >= 0.0 {
      SplitNonNegative(rs, rd);
    }
  }

  // ----- each total is the sum of its side -----

  /** The amounts a side holds for the plan's names, summed in plan order
      (names not on the side contribute nothing). */
  function SideTotal(side: map<RecipeName, real>, ns: seq<RecipeName>): real
  {
    if |ns| == 0 then 0.0 else (if ns[0] in side then side[ns[0]] else 0.0) + SideTotal(side, ns[1..])
  }

  lemma {:induction false} SideTotalSkips(side: map<RecipeName, real>, ns: seq<RecipeName>, n: RecipeName, x: real)
    requires n !in ns
    ensures SideTotal(side[n := x], ns) == SideTotal(side, ns)
  {
    if |ns| > 0 {
      SideTotalSkips(side, ns[1..], n, x);
    }
  }

  /** The inflow is the total of the source amounts and the outflow the
      total of the sink amounts. */
  lemma {:induction false} SplitTotals(rs: seq<real>, rd: seq<Use>)
    requires |rs| == |rd| && NoDuplicates(Names(rd))
    ensures Split(rs, rd).inflow == SideTotal(Split(rs, rd).sources, Names(rd))
    ensures Split(rs, rd).outflow == SideTotal(Split(rs, rd).sinks, Names(rd))
  {
    if |rd| > 0 {
      var ns := Names(rd);
      assert ns[1..] == Names(rd[1..]);
      Tail(rd);
      assert ns[0] !in ns[1..] by {
        forall k | 0 <= k < |ns[1..]| ensures ns[1..][k] != ns[0] {
          assert ns[1..][k] == rd[k + 1].name;
        }
      }
      var f := Split(rs[1..], rd[1..]);
      SplitTotals(rs[1..], rd[1..]);
      SplitPlaces(rs[1..], rd[1..]);
      assert ns[0] !in Elements(ns[1..]);
      var a := rd[0].activity;
      SideTotalSkips(f.sources, ns[1..], ns[0], Moved(-rs[0], a));
      SideTotalSkips(f.sinks, ns[1..], ns[0], Moved(rs[0], a));
    }
  }

  /** flow's totals are the sums of its two sides. */
  lemma FlowTotals(cfg: Config, cat: Catalog, item: Item, rd: seq<Use>)
    requires NoDuplicates(Names(rd))
    requires Flow(cfg, cat, item, rd).Ok?
    ensures Flow(cfg, cat, item, rd).value.inflow == SideTotal(Flow(cfg, cat, item, rd).value.sources, Names(rd))
    ensures Flow(cfg, cat, item, rd).value.outflow == SideTotal(Flow(cfg, cat, item, rd).value.sinks, Names(rd))
  {
    SplitTotals(ItemRates(cfg, cat, item, rd).value, rd);
  }
}
