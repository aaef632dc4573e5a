/** The successive-linearisation loops of optimizer.py and optimizer2.py.
    Each round builds the LP's power constraint from the current tangents
    of the extraction curves, solves, and re-linearises where the solution
    moved. Only the power row and the power bound change between rounds,
    so the solver is a parameter taking those two and returning the
    activities of all recipes, or nothing when it fails. */
module Refine {
  import opened Basics
  import opened Settings
  import opened Catalog
  import opened Extraction
  import opened Linearizer
  import opened Budget

  type Solver = (seq<real>, real) -> Option<seq<real>>

  /** Whether a quota (or offset) moved by more than the tolerance. */
  predicate Moved(a: real, b: real, tol: real)
  {
    Abs(a - b) > tol
  }

  // ----- optimizer.py -----

  /** The convergence tolerance of optimizer.py. */
  const OreTolerance: real := 0.001

  /** How an ore's tangent is taken at a quota (ExtractRecipe.linearize). */
  type OreLinearizer = (Counts, real) -> Result<Tangent>

  function Slopes(ts: seq<Tangent>): (r: seq<real>)
    ensures |r| == |ts| && forall j :: 0 <= j < |ts| ==> r[j] == ts[j].slope
  {
    seq(|ts|, j requires 0 <= j < |ts| => ts[j].slope)
  }

  function Offsets(ts: seq<Tangent>): (r: seq<real>)
    ensures |r| == |ts| && forall j :: 0 <= j < |ts| ==> r[j] == ts[j].offset
  {
    seq(|ts|, j requires 0 <= j < |ts| => ts[j].offset)
  }

  /** The power row: Water's cost at index 0, extraction recipe j's slope
      at index 1 + j, every other recipe's fixed power after them. */
  function PowerRow(base: seq<real>, ts: seq<Tangent>): (r: seq<real>)
    requires 1 + |ts| <= |base|
    ensures |r| == |base| && r[0] == base[0]
    ensures forall j :: 0 <= j < |ts| ==> r[1 + j] == ts[j].slope
    ensures forall i :: 1 + |ts| <= i < |base| ==> r[i] == base[i]
  {
    [base[0]] + Slopes(ts) + base[1 + |ts|..]
  }

  /** The offsets of the columns: the tangents' intercepts at the
      extraction recipes, nothing elsewhere. */
  function OreOffsets(ts: seq<Tangent>, n: nat): (r: seq<real>)
    requires 1 + |ts| <= n
    ensures |r| == n && r[0] == 0.0
    ensures forall j :: 0 <= j < |ts| ==> r[1 + j] == ts[j].offset
    ensures forall i :: 1 + |ts| <= i < n ==> r[i] == 0.0
    ensures Sum(r) == Sum(Offsets(ts))
  {
    var r := [0.0] + Offsets(ts) + Zeros(n - 1 - |ts|);
    SumAppend([0.0] + Offsets(ts), Zeros(n - 1 - |ts|));
    SumAppend([0.0], Offsets(ts));
    SumZeros(n - 1 - |ts|);
    r
  }

  /** The power constraint of optimizer.py for the current tangents. */
  function OreLP(base: seq<real>, ts: seq<Tangent>): (lp: Linearised)
    requires 1 + |ts| <= |base|
    ensures |lp.row| == |lp.offs| == |base|
  {
    Linearised(PowerRow(base, ts), OreOffsets(ts, |base|))
  }

  /** The plan the solver returns for a power constraint, with its bound
      built by the rule. */
  function SolveLP(solve: Solver, rule: BoundRule, free: real, lp: Linearised): Option<seq<real>>
  {
    solve(lp.row, RowBound(rule, free, lp.offs))
  }

  /** The extraction recipes' entries 1 .. num of a solution. */
  function Extracted(x: seq<real>, num: nat): (r: seq<real>)
    requires 1 + num <= |x|
    ensures |r| == num && forall j :: 0 <= j < num ==> r[j] == x[1 + j]
  {
    x[1..1 + num]
  }

  /** Re-linearise exactly the recipes whose quota moved from ref to next;
      the first failing linearisation raises. */
  function Relinearize(lin: OreLinearizer, nodes: seq<Counts>, ts: seq<Tangent>, ref: seq<real>, next: seq<real>)
    : (r: Result<seq<Tangent>>)
    requires |nodes| == |ts| == |ref| == |next|
    ensures r.Ok? <==> forall j :: 0 <= j < |ts| && Moved(ref[j], next[j], OreTolerance) ==> lin(nodes[j], next[j]).Ok?
    ensures r.Ok? ==> |r.value| == |ts|
    ensures r.Ok? ==> forall j :: 0 <= j < |ts| ==>
              if Moved(ref[j], next[j], OreTolerance) then r.value[j] == lin(nodes[j], next[j]).value
              else r.value[j] == ts[j]
    decreases |ts|
  {
    if |ts| == 0 then Ok([])
    else
      var head := if Moved(ref[0], next[0], OreTolerance) then lin(nodes[0], next[0]) else Ok(ts[0]);
      match head
      case Err(e) => Err(e)
      case Ok(t) =>
        match Relinearize(lin, nodes[1..], ts[1..], ref[1..], next[1..])
        case Err(e) => Err(e)
        case Ok(rest) =>
          RelinearizeStep(lin, nodes, ts, ref, next, t, rest);
          Ok([t] + rest)
  }

  lemma RelinearizeStep(lin: OreLinearizer, nodes: seq<Counts>, ts: seq<Tangent>, ref: seq<real>, next: seq<real>,
                        t: Tangent, rest: seq<Tangent>)
    requires |nodes| == |ts| == |ref| == |next| > 0
    requires Moved(ref[0], next[0], OreTolerance) ==> lin(nodes[0], next[0]).Ok? && t == lin(nodes[0], next[0]).value
    requires !Moved(ref[0], next[0], OreTolerance) ==> t == ts[0]
    requires |rest| == |ts| - 1
    requires forall j :: 0 <= j < |ts| - 1 ==>
               if Moved(ref[1 + j], next[1 + j], OreTolerance)
               then lin(nodes[1 + j], next[1 + j]).Ok? && rest[j] == lin(nodes[1 + j], next[1 + j]).value
               else rest[j] == ts[1 + j]
    ensures forall j :: 0 <= j < |ts| ==>
              if Moved(ref[j], next[j], OreTolerance) then lin(nodes[j], next[j]).Ok? && ([t] + rest)[j] == lin(nodes[j], next[j]).value
              else ([t] + rest)[j] == ts[j]
  {
    forall j | 0 <= j < |ts|
      ensures if Moved(ref[j], next[j], OreTolerance) then lin(nodes[j], next[j]).Ok? && ([t] + rest)[j] == lin(nodes[j], next[j]).value
              else ([t] + rest)[j] == ts[j]
    {
      if j > 0 {
        assert ([t] + rest)[j] == rest[j - 1];
      }
    }
  }

  /** Where nothing moved, re-linearising keeps every tangent. */
  lemma RelinearizeStill(lin: OreLinearizer, nodes: seq<Counts>, ts: seq<Tangent>, ref: seq<real>, next: seq<real>)
    requires |nodes| == |ts| == |ref| == |next|
    requires forall j :: 0 <= j < |ts| ==> !Moved(ref[j], next[j], OreTolerance)
    ensures Relinearize(lin, nodes, ts, ref, next).Ok?
    ensures Relinearize(lin, nodes, ts, ref, next).value == ts
  {
    var r := Relinearize(lin, nodes, ts, ref, next).value;
    assert |r| == |ts|;
    assert forall j :: 0 <= j < |ts| ==> r[j] == ts[j];
  }

  /** The reference quota of every tangent after re-linearisation. */
  function NewPoints(points: seq<real>, ref: seq<real>, next: seq<real>): (r: seq<real>)
    requires |points| == |ref| == |next|
    ensures |r| == |points|
    ensures forall j :: 0 <= j < |points| ==> r[j] == if Moved(ref[j], next[j], OreTolerance) then next[j] else points[j]
  {
    seq(|points|, j requires 0 <= j < |points| => if Moved(ref[j], next[j], OreTolerance) then next[j] else points[j])
  }

  /** Each tangent is the linearisation of its ore at its point. */
  predicate TangentsAt(lin: OreLinearizer, nodes: seq<Counts>, ts: seq<Tangent>, points: seq<real>)
    requires |nodes| == |ts| == |points|
  {
    forall j :: 0 <= j < |ts| ==> lin(nodes[j], points[j]).Ok? && lin(nodes[j], points[j]).value == ts[j]
  }

  /** Re-linearising keeps each tangent the linearisation at its point:
      moved ores get a fresh tangent at the new point, the others keep
      theirs. It follows from the definitions of Relinearize and NewPoints
      and is stated for the loop's invariant. */
  lemma RelinearizeKeepsTangents(lin: OreLinearizer, nodes: seq<Counts>, ts: seq<Tangent>, points: seq<real>,
                                 ref: seq<real>, next: seq<real>)
    requires |nodes| == |ts| == |points| == |ref| == |next|
    requires TangentsAt(lin, nodes, ts, points)
    requires Relinearize(lin, nodes, ts, ref, next).Ok?
    ensures TangentsAt(lin, nodes, Relinearize(lin, nodes, ts, ref, next).value, NewPoints(points, ref, next))
  {
  }

  /** The state in which the loop of optimizer.py stops: the tangents and
      their points, the extraction quotas the final solution was compared
      with (the maxima when the first solution is final) and the final
      solution. */
  datatype OreRound = OreRound(tangents: seq<Tangent>, points: seq<real>, previous: seq<real>, x: seq<real>)

  /** The final solution is the solver's plan under the final tangents,
      each tangent is the linearisation at its point, and no extraction
      quota moved in the last comparison. */
  predicate OreConverged(solve: Solver, rule: BoundRule, base: seq<real>, free: real, nodes: seq<Counts>, lin: OreLinearizer, r: OreRound)
  {
    && |r.tangents| == |r.points| == |r.previous| == |nodes|
    && 1 + |nodes| <= |base| && 1 + |nodes| <= |r.x|
    && TangentsAt(lin, nodes, r.tangents, r.points)
    && SolveLP(solve, rule, free, OreLP(base, r.tangents)).Some?
    && SolveLP(solve, rule, free, OreLP(base, r.tangents)).value == r.x
    && forall j :: 0 <= j < |nodes| ==> !Moved(r.previous[j], r.x[1 + j], OreTolerance)
  }

  /** The while loop: re-linearise what moved between ref and x; stop if
      nothing did, else solve again and compare the new plan with x. */
  function OreLoop(solve: Solver, rule: BoundRule, base: seq<real>, free: real, nodes: seq<Counts>, lin: OreLinearizer,
                   ts: seq<Tangent>, points: seq<real>, ref: seq<real>, x: seq<real>, fuel: nat): (r: Result<OreRound>)
    requires |ts| == |points| == |ref| == |nodes| && 1 + |nodes| <= |base| && 1 + |nodes| <= |x|
    requires TangentsAt(lin, nodes, ts, points)
    requires SolveLP(solve, rule, free, OreLP(base, ts)).Some? && SolveLP(solve, rule, free, OreLP(base, ts)).value == x
    ensures r.Ok? ==> OreConverged(solve, rule, base, free, nodes, lin, r.value)
    ensures (forall j :: 0 <= j < |nodes| ==> !Moved(ref[j], x[1 + j], OreTolerance)) ==>
              r.Ok? && r.value.x == x && r.value.tangents == ts && r.value.previous == ref
    decreases fuel
  {
    var next := Extracted(x, |nodes|);
    match Relinearize(lin, nodes, ts, ref, next)
    case Err(e) => Err(e)
    case Ok(ts') =>
      var points' := NewPoints(points, ref, next);
      RelinearizeKeepsTangents(lin, nodes, ts, points, ref, next);
      if forall j :: 0 <= j < |nodes| ==> !Moved(ref[j], next[j], OreTolerance) then
        RelinearizeStill(lin, nodes, ts, ref, next);
        Ok(OreRound(ts', points', ref, x))
      else if fuel == 0 then Err(NotConverged)
      else
        match SolveLP(solve, rule, free, OreLP(base, ts'))
        case None => Err(Infeasible)
        case Some(y) =>
          if |y| < 1 + |nodes| then Err(Infeasible)
          else OreLoop(solve, rule, base, free, nodes, lin, ts', points', next, y, fuel - 1)
  }

  /** Linearise every ore at its point; the first failure raises. */
  function LinearizeAll(lin: OreLinearizer, nodes: seq<Counts>, points: seq<real>): (r: Result<seq<Tangent>>)
    requires |nodes| == |points|
    ensures r.Ok? <==> forall j :: 0 <= j < |nodes| ==> lin(nodes[j], points[j]).Ok?
    ensures r.Ok? ==> |r.value| == |nodes| && TangentsAt(lin, nodes, r.value, points)
    decreases |nodes|
  {
    if |nodes| == 0 then Ok([])
    else
      match lin(nodes[0], points[0])
      case Err(e) => Err(e)
      case Ok(t) =>
        match LinearizeAll(lin, nodes[1..], points[1..])
        case Err(e) => Err(e)
        case Ok(rest) =>
          assert forall j :: 1 <= j < |nodes| ==> ([t] + rest)[j] == rest[j - 1];
          Ok([t] + rest)
  }

  /** The script of optimizer.py: tangents at MaxExtractOre, one solve,
      comparison with the maxima, then the loop. The LP has Water at
      column 0 and the ores at columns 1 .. |nodes|; base holds the fixed
      powers of the other columns. */
  function OptimizeOre(cfg: Config, rule: BoundRule, solve: Solver, base: seq<real>, nodes: seq<Counts>, fuel: nat): (r: Result<OreRound>)
    requires 1 + |nodes| <= |base|
    ensures r.Ok? ==> OreConverged(solve, rule, base, FreePower(cfg), nodes, (n: Counts, q: real) => Linearize(cfg, n, q), r.value)
  {
    var lin: OreLinearizer := (n: Counts, q: real) => Linearize(cfg, n, q);
    var caps := seq(|nodes|, j requires 0 <= j < |nodes| => OreCapacity(cfg, nodes[j]));
    match LinearizeAll(lin, nodes, caps)
    case Err(e) => Err(e)
    case Ok(ts) =>
      match SolveLP(solve, rule, FreePower(cfg), OreLP(base, ts))
      case None => Err(Infeasible)
      case Some(x) =>
        if |x| < 1 + |nodes| then Err(Infeasible)
        else OreLoop(solve, rule, base, FreePower(cfg), nodes, lin, ts, caps, caps, x, fuel)
  }

  /** Every ore with nodes has its first tangent: with PowLaws, the initial
      linearisation at the maxima never fails. */
  lemma FirstTangentsDefined(cfg: Config, nodes: seq<Counts>)
    requires PowLaws(cfg.pow)
    requires forall j :: 0 <= j < |nodes| ==> !AllZero(nodes[j])
    ensures LinearizeAll((n: Counts, q: real) => Linearize(cfg, n, q), nodes,
                         seq(|nodes|, j requires 0 <= j < |nodes| => OreCapacity(cfg, nodes[j]))).Ok?
  {
    var caps := seq(|nodes|, j requires 0 <= j < |nodes| => OreCapacity(cfg, nodes[j]));
    forall j | 0 <= j < |nodes|
      ensures Linearize(cfg, nodes[j], caps[j]).Ok?
    {
      LinearizeDefined(cfg, nodes[j], caps[j]);
    }
  }

  // ----- optimizer2.py -----

  /** The convergence tolerance of optimizer2.py. */
  const Tolerance: real := 0.01

  /** The guessed quota of Water before the first solve. */
  const WaterGuess: real := 13426.0

  /** An LP column: a recipe of fixed power, or an extraction recipe whose
      power and offset depend on the guessed quota. */
  datatype Column = Fixed(power: real) | Extracting(recipe: LinearExtract)

  /** ExtractRecipe.power and ExtractRecipe.offset at a guessed quota. */
  type GuessFn = (LinearExtract, real) -> Result<real>

  /** The coefficient and offset of every column at the guesses x, in
      column order, power before offset. */
  function Pass(pw: GuessFn, off: GuessFn, cols: seq<Column>, x: seq<real>): (r: Result<Linearised>)
    requires |cols| == |x|
    ensures r.Ok? <==> forall i :: 0 <= i < |cols| && cols[i].Extracting? ==>
                         pw(cols[i].recipe, x[i]).Ok? && off(cols[i].recipe, x[i]).Ok?
    ensures r.Ok? ==> |r.value.row| == |r.value.offs| == |cols|
    ensures r.Ok? ==> forall i :: 0 <= i < |cols| ==>
              match cols[i]
              case Fixed(p) => r.value.row[i] == p && r.value.offs[i] == 0.0
              case Extracting(e) => r.value.row[i] == pw(e, x[i]).value && r.value.offs[i] == off(e, x[i]).value
    decreases |cols|
  {
    if |cols| == 0 then Ok(Linearised([], []))
    else
      var head := match cols[0]
        case Fixed(p) => Ok((p, 0.0))
        case Extracting(e) =>
          (match pw(e, x[0])
           case Err(err) => Err(err)
           case Ok(p) =>
             match off(e, x[0])
             case Err(err) => Err(err)
             case Ok(o) => Ok((p, o)));
      match head
      case Err(err) => Err(err)
      case Ok(po) =>
        match Pass(pw, off, cols[1..], x[1..])
        case Err(err) => Err(err)
        case Ok(rest) =>
          PassStep(pw, off, cols, x, po.0, po.1, rest);
          Ok(Linearised([po.0] + rest.row, [po.1] + rest.offs))
  }

  lemma PassStep(pw: GuessFn, off: GuessFn, cols: seq<Column>, x: seq<real>, p: real, o: real, rest: Linearised)
    requires |cols| == |x| > 0 && |rest.row| == |rest.offs| == |cols| - 1
    requires match cols[0]
             case Fixed(q) => p == q && o == 0.0
             case Extracting(e) => pw(e, x[0]).Ok? && p == pw(e, x[0]).value && off(e, x[0]).Ok? && o == off(e, x[0]).value
    requires forall i :: 0 <= i < |cols| - 1 ==>
               match cols[1 + i]
               case Fixed(q) => rest.row[i] == q && rest.offs[i] == 0.0
               case Extracting(e) =>
                 pw(e, x[1 + i]).Ok? && off(e, x[1 + i]).Ok? &&
                 rest.row[i] == pw(e, x[1 + i]).value && rest.offs[i] == off(e, x[1 + i]).value
    ensures forall i :: 0 <= i < |cols| ==>
              match cols[i]
              case Fixed(q) => ([p] + rest.row)[i] == q && ([o] + rest.offs)[i] == 0.0
              case Extracting(e) =>
                pw(e, x[i]).Ok? && off(e, x[i]).Ok? &&
                ([p] + rest.row)[i] == pw(e, x[i]).value && ([o] + rest.offs)[i] == off(e, x[i]).value
  {
    forall i | 0 <= i < |cols|
      ensures match cols[i]
              case Fixed(q) => ([p] + rest.row)[i] == q && ([o] + rest.offs)[i] == 0.0
              case Extracting(e) =>
                pw(e, x[i]).Ok? && off(e, x[i]).Ok? &&
                ([p] + rest.row)[i] == pw(e, x[i]).value && ([o] + rest.offs)[i] == off(e, x[i]).value
    {
      if i > 0 {
        assert ([p] + rest.row)[i] == rest.row[i - 1] && ([o] + rest.offs)[i] == rest.offs[i - 1];
      }
    }
  }

  /** The guesses before the first solve: nothing for fixed recipes,
      WaterGuess for Water, the resource's limit for every other one. */
  function Guess(cfg: Config, d: Deposits, c: Column): (g: Result<real>)
    ensures c.Fixed? ==> g.Ok? && g.value == 0.0
    ensures c.Extracting? && c.recipe.resource == Water ==> g.Ok? && g.value == WaterGuess
    ensures c.Extracting? && c.recipe.resource != Water ==> g == LimitExtract(cfg, d, c.recipe.resource)
  {
    match c
    case Fixed(_) => Ok(0.0)
    case Extracting(e) => if e.resource == Water then Ok(WaterGuess) else LimitExtract(cfg, d, e.resource)
  }

  function InitialGuess(cfg: Config, d: Deposits, cols: seq<Column>): (r: Result<seq<real>>)
    ensures r.Ok? <==> forall i :: 0 <= i < |cols| ==> Guess(cfg, d, cols[i]).Ok?
    ensures r.Ok? ==> |r.value| == |cols| && forall i :: 0 <= i < |cols| ==> r.value[i] == Guess(cfg, d, cols[i]).value
    decreases |cols|
  {
    if |cols| == 0 then Ok([])
    else
      match Guess(cfg, d, cols[0])
      case Err(e) => Err(e)
      case Ok(g) =>
        match InitialGuess(cfg, d, cols[1..])
        case Err(e) => Err(e)
        case Ok(rest) =>
          assert forall i :: 1 <= i < |cols| ==> ([g] + rest)[i] == rest[i - 1];
          Ok([g] + rest)
  }

  /** The solver's plan with every negative activity raised to 0. */
  function Clamp(y: seq<real>): (r: seq<real>)
    ensures |r| == |y|
    ensures forall i :: 0 <= i < |y| ==> r[i] == Max(y[i], 0.0)
  {
    seq(|y|, i requires 0 <= i < |y| => Max(y[i], 0.0))
  }

  /** Whether a column's linearisation moved between the guess a and the
      new activity b. The first comparison looks at quotas for every
      resource but Water; the later ones, and Water always, at offsets. */
  function ColumnMoved(off: GuessFn, c: Column, a: real, b: real, byQuota: bool): (r: Result<bool>)
    ensures c.Fixed? ==> r.Ok? && !r.value
    ensures c.Extracting? && byQuota && c.recipe.resource != Water ==> r.Ok? && (r.value <==> Moved(a, b, Tolerance))
    ensures c.Extracting? && !(byQuota && c.recipe.resource != Water) ==>
              (r.Ok? <==> off(c.recipe, a).Ok? && off(c.recipe, b).Ok?)
    ensures c.Extracting? && !(byQuota && c.recipe.resource != Water) && r.Ok? ==>
              (r.value <==> Moved(off(c.recipe, a).value, off(c.recipe, b).value, Tolerance))
  {
    match c
    case Fixed(_) => Ok(false)
    case Extracting(e) =>
      if byQuota && e.resource != Water then Ok(Moved(a, b, Tolerance))
      else
        match off(e, a)
        case Err(err) => Err(err)
        case Ok(oa) =>
          match off(e, b)
          case Err(err) => Err(err)
          case Ok(ob) => Ok(Moved(oa, ob, Tolerance))
  }

  /** The recompute flag: every column is compared (the scan does not stop
      at the first move), so any failing offset raises. */
  function AnyMoved(off: GuessFn, cols: seq<Column>, x: seq<real>, y: seq<real>, byQuota: bool): (r: Result<bool>)
    requires |cols| == |x| == |y|
    ensures r.Ok? <==> forall i :: 0 <= i < |cols| ==> ColumnMoved(off, cols[i], x[i], y[i], byQuota).Ok?
    ensures r.Ok? ==> (r.value <==> exists i :: 0 <= i < |cols| && ColumnMoved(off, cols[i], x[i], y[i], byQuota).value)
    decreases |cols|
  {
    if |cols| == 0 then Ok(false)
    else
      match ColumnMoved(off, cols[0], x[0], y[0], byQuota)
      case Err(e) => Err(e)
      case Ok(h) =>
        match AnyMoved(off, cols[1..], x[1..], y[1..], byQuota)
        case Err(e) => Err(e)
        case Ok(t) =>
          AnyMovedStep(off, cols, x, y, byQuota, h, t);
          Ok(h || t)
  }

  lemma AnyMovedStep(off: GuessFn, cols: seq<Column>, x: seq<real>, y: seq<real>, byQuota: bool, h: bool, t: bool)
    requires |cols| == |x| == |y| > 0
    requires ColumnMoved(off, cols[0], x[0], y[0], byQuota) == Ok(h)
    requires forall i :: 1 <= i < |cols| ==> ColumnMoved(off, cols[i], x[i], y[i], byQuota).Ok?
    requires t <==> exists i :: 0 <= i < |cols| - 1 && ColumnMoved(off, cols[1..][i], x[1..][i], y[1..][i], byQuota).value
    ensures h || t <==> exists i :: 0 <= i < |cols| && ColumnMoved(off, cols[i], x[i], y[i], byQuota).value
  {
    if t {
      var i :| 0 <= i < |cols| - 1 && ColumnMoved(off, cols[1..][i], x[1..][i], y[1..][i], byQuota).value;
      assert cols[1..][i] == cols[1 + i] && x[1..][i] == x[1 + i] && y[1..][i] == y[1 + i];
    }
    if exists i :: 0 <= i < |cols| && ColumnMoved(off, cols[i], x[i], y[i], byQuota).value {
      var i :| 0 <= i < |cols| && ColumnMoved(off, cols[i], x[i], y[i], byQuota).value;
      if i > 0 {
        assert cols[1..][i - 1] == cols[i] && x[1..][i - 1] == x[i] && y[1..][i - 1] == y[i];
      }
    }
  }

  /** Where solve() of optimizer2.py stops: the power constraint of the
      last solve, the guesses it was built from, the clamped plan, and the
      number of re-solves after the first. */
  datatype Round = Round(lp: Linearised, guess: seq<real>, x: seq<real>, rounds: nat)

  /** The last power constraint is the one of the guesses, the plan is
      the solver's answer to it with negatives clamped, and the last
      comparison found nothing moved. */
  predicate Converged(solve: Solver, rule: BoundRule, pw: GuessFn, off: GuessFn, free: real, cols: seq<Column>, r: Round)
  {
    && |r.guess| == |r.x| == |cols|
    && Pass(pw, off, cols, r.guess).Ok? && Pass(pw, off, cols, r.guess).value == r.lp
    && SolveLP(solve, rule, free, r.lp).Some? && Clamp(SolveLP(solve, rule, free, r.lp).value) == r.x
    && (forall i :: 0 <= i < |cols| ==> r.x[i] >= 0.0)
    && AnyMoved(off, cols, r.guess, r.x, r.rounds == 0).Ok?
    && !AnyMoved(off, cols, r.guess, r.x, r.rounds == 0).value
  }

  /** One solve at the guesses x: the power constraint and the clamped
      plan. */
  function Step(solve: Solver, rule: BoundRule, pw: GuessFn, off: GuessFn, free: real, cols: seq<Column>, x: seq<real>)
    : (r: Result<(Linearised, seq<real>)>)
    requires |cols| == |x|
    ensures r.Ok? ==> Pass(pw, off, cols, x).Ok? && Pass(pw, off, cols, x).value == r.value.0
    ensures r.Ok? ==> SolveLP(solve, rule, free, r.value.0).Some? && Clamp(SolveLP(solve, rule, free, r.value.0).value) == r.value.1
    ensures r.Ok? ==> |r.value.1| == |cols| && forall i :: 0 <= i < |cols| ==> r.value.1[i] >= 0.0
    ensures Pass(pw, off, cols, x).Err? ==> r.Err?
  {
    match Pass(pw, off, cols, x)
    case Err(e) => Err(e)
    case Ok(lp) =>
      match SolveLP(solve, rule, free, lp)
      case None => Err(Infeasible)
      case Some(y) => if |y| != |cols| then Err(Infeasible) else Ok((lp, Clamp(y)))
  }

  /** The while loop of solve(): rebuild the power constraint at the last
      plan, solve, compare offsets. */
  function Loop(solve: Solver, rule: BoundRule, pw: GuessFn, off: GuessFn, free: real, cols: seq<Column>, x: seq<real>,
                rounds: nat, fuel: nat): (r: Result<Round>)
    requires |cols| == |x|
    ensures r.Ok? ==> Converged(solve, rule, pw, off, free, cols, r.value) && r.value.rounds > rounds
    decreases fuel
  {
    match Step(solve, rule, pw, off, free, cols, x)
    case Err(e) => Err(e)
    case Ok(s) =>
      match AnyMoved(off, cols, x, s.1, false)
      case Err(e) => Err(e)
      case Ok(moved) =>
        if !moved then Ok(Round(s.0, x, s.1, rounds + 1))
        else if fuel == 0 then Err(NotConverged)
        else Loop(solve, rule, pw, off, free, cols, s.1, rounds + 1, fuel - 1)
  }

  /** solve() up to the objective: the first LP at the initial guesses, the
      quota comparison, then the loop. */
  function Optimize(solve: Solver, rule: BoundRule, pw: GuessFn, off: GuessFn, free: real, cols: seq<Column>, x0: seq<real>, fuel: nat)
    : (r: Result<Round>)
    requires |cols| == |x0|
    ensures r.Ok? ==> Converged(solve, rule, pw, off, free, cols, r.value)
    ensures r.Ok? && r.value.rounds == 0 ==> r.value.guess == x0
  {
    match Step(solve, rule, pw, off, free, cols, x0)
    case Err(e) => Err(e)
    case Ok(s) =>
      match AnyMoved(off, cols, x0, s.1, true)
      case Err(e) => Err(e)
      case Ok(moved) =>
        if !moved then Ok(Round(s.0, x0, s.1, 0))
        else if fuel == 0 then Err(NotConverged)
        else Loop(solve, rule, pw, off, free, cols, s.1, 0, fuel - 1)
  }

  /** optimizer2.py's solve() with the recipes' own power and offset. */
  function OptimizeRecipes(cfg: Config, rule: BoundRule, d: Deposits, solve: Solver, cols: seq<Column>, fuel: nat): (r: Result<Round>)
    ensures r.Ok? ==> Converged(solve, rule, (e, g) => ExtractPower(cfg, d, e, g), (e, g) => ExtractOffset(cfg, d, e, g),
                                FreePower(cfg), cols, r.value)
    ensures r.Ok? && r.value.rounds == 0 ==> r.value.guess == InitialGuess(cfg, d, cols).value
    ensures InitialGuess(cfg, d, cols).Err? ==> r.Err?
  {
    match InitialGuess(cfg, d, cols)
    case Err(e) => Err(e)
    case Ok(x0) =>
      Optimize(solve, rule, (e, g) => ExtractPower(cfg, d, e, g), (e, g) => ExtractOffset(cfg, d, e, g), FreePower(cfg), cols, x0, fuel)
  }

  /** The converged plan, when it satisfies its own power row, fits the
      free power under the corrected bound; under the scripts' bound only
      its draw less twice the intercepts does. */
  lemma ConvergedWithinBudget(solve: Solver, rule: BoundRule, pw: GuessFn, off: GuessFn, free: real,
                              cols: seq<Column>, r: Round, y: seq<real>)
    requires Converged(solve, rule, pw, off, free, cols, r)
    requires y == SolveLP(solve, rule, free, r.lp).value && |y| == |cols|
    requires Dot(r.lp.row, y) <= RowBound(rule, free, r.lp.offs)
    ensures rule == Corrected ==> LinearPower(r.lp.row, r.lp.offs, y) <= free
    ensures rule == AsWritten ==> LinearPower(r.lp.row, r.lp.offs, y) - 2.0 * Sum(r.lp.offs) <= free
  {
    RowBoundMeaning(rule, r.lp.row, r.lp.offs, y, free);
  }

  /** Under the scripts' rule, the last LP of optimizer.py bounds the
      power row by the free power plus the tangents' intercepts. This
      unfolds OreConverged at AsWritten, stating the bound in the scripts'
      own terms for the finding on the intercept's sign. */
  lemma OreScriptBound(solve: Solver, base: seq<real>, free: real, nodes: seq<Counts>, lin: OreLinearizer, r: OreRound)
    requires OreConverged(solve, AsWritten, base, free, nodes, lin, r)
    ensures solve(PowerRow(base, r.tangents), free + Sum(Offsets(r.tangents))) == Some(r.x)
  {
  }

  /** Under the scripts' rule, the last LP of optimizer2.py bounds the
      power row by the free power plus the offsets. This unfolds Converged
      at AsWritten, stating the bound in the scripts' own terms. */
  lemma ScriptBound(solve: Solver, pw: GuessFn, off: GuessFn, free: real, cols: seq<Column>, r: Round)
    requires Converged(solve, AsWritten, pw, off, free, cols, r)
    ensures solve(r.lp.row, free + Sum(r.lp.offs)).Some?
    ensures Clamp(solve(r.lp.row, free + Sum(r.lp.offs)).value) == r.x
  {
  }

  /** The same for optimizer.py's final plan. */
  lemma OreConvergedWithinBudget(solve: Solver, rule: BoundRule, base: seq<real>, free: real, nodes: seq<Counts>,
                                 lin: OreLinearizer, r: OreRound)
    requires OreConverged(solve, rule, base, free, nodes, lin, r) && |r.x| == |base|
    requires Dot(PowerRow(base, r.tangents), r.x) <= RowBound(rule, free, OreOffsets(r.tangents, |base|))
    ensures rule == Corrected ==> LinearPower(PowerRow(base, r.tangents), OreOffsets(r.tangents, |base|), r.x) <= free
    ensures rule == AsWritten ==>
              LinearPower(PowerRow(base, r.tangents), OreOffsets(r.tangents, |base|), r.x) - 2.0 * Sum(Offsets(r.tangents)) <= free
  {
    RowBoundMeaning(rule, PowerRow(base, r.tangents), OreOffsets(r.tangents, |base|), r.x, free);
  }
}
