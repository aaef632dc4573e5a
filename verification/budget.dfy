/** The linearised power constraint shared by optimizer.py and
    optimizer2.py. Each column of the LP has a power coefficient row[i]
    and an offset offs[i] (zero for recipes with a fixed power, the
    tangent's intercept for extraction recipes), so the plan x draws
    row[i] * x[i] + offs[i] in column i. The plan fits the budget when the
    sum of these draws stays within the free power. */
module Budget {
  import opened Basics

  /** The power constraint of one LP: a coefficient and an offset per
      column. */
  datatype Linearised = Linearised(row: seq<real>, offs: seq<real>)

  /** The total linearised draw of a plan. */
  function LinearPower(row: seq<real>, offs: seq<real>, x: seq<real>): real
    requires |row| == |offs| == |x|
  {
    if |row| == 0 then 0.0 else row[0] * x[0] + offs[0] + LinearPower(row[1..], offs[1..], x[1..])
  }

  /** The right-hand side the offsets belong on: the intercepts are moved
      across the inequality, so they are subtracted from the free power. */
  function PowerBound(free: real, offs: seq<real>): real
  {
    free - Sum(offs)
  }

  /** The right-hand side as both scripts build it: each intercept is
      added to the free power. */
  function WrittenPowerBound(free: real, offs: seq<real>): real
  {
    free + Sum(offs)
  }

  /** Which right-hand side an LP's power row is given: the scripts'
      (AsWritten) or the one the intercepts belong on (Corrected). */
  datatype BoundRule = AsWritten | Corrected

  function RowBound(rule: BoundRule, free: real, offs: seq<real>): real
  {
    match rule
    case AsWritten => WrittenPowerBound(free, offs)
    case Corrected => PowerBound(free, offs)
  }

  function Zeros(n: nat): (r: seq<real>)
    ensures |r| == n && forall i :: 0 <= i < n ==> r[i] == 0.0
  {
    seq(n, i => 0.0)
  }

  lemma {:induction false} SumZeros(n: nat)
    ensures Sum(Zeros(n)) == 0.0
  {
    if n > 0 {
      assert Zeros(n)[1..] == Zeros(n - 1);
      SumZeros(n - 1);
    }
  }

  lemma {:induction false} DotPlusOffsets(row: seq<real>, offs: seq<real>, x: seq<real>)
    requires |row| == |offs| == |x|
    ensures Dot(row, x) + Sum(offs) == LinearPower(row, offs, x)
  {
    if |row| > 0 {
      DotPlusOffsets(row[1..], offs[1..], x[1..]);
    }
  }

  /** The LP row with the corrected bound admits exactly the plans whose
      linearised draw fits the free power. */
  lemma {:induction false} BudgetMeaning(row: seq<real>, offs: seq<real>, x: seq<real>, free: real)
    requires |row| == |offs| == |x|
    ensures Dot(row, x) <= PowerBound(free, offs) <==> LinearPower(row, offs, x) <= free
  {
    DotPlusOffsets(row, offs, x);
  }

  /** With the bound as written, the LP admits a plan exactly when its
      draw minus twice the intercepts fits: the intercepts count with the
      wrong sign. */
  lemma {:induction false} WrittenBudgetMeaning(row: seq<real>, offs: seq<real>, x: seq<real>, free: real)
    requires |row| == |offs| == |x|
    ensures Dot(row, x) <= WrittenPowerBound(free, offs) <==> LinearPower(row, offs, x) - 2.0 * Sum(offs) <= free
  {
    DotPlusOffsets(row, offs, x);
  }

  /** Under either rule the row admits exactly the plans whose draw, less
      twice the intercepts under the scripts' rule, fits the free power. */
  lemma RowBoundMeaning(rule: BoundRule, row: seq<real>, offs: seq<real>, x: seq<real>, free: real)
    requires |row| == |offs| == |x|
    ensures rule == AsWritten ==>
              (Dot(row, x) <= RowBound(rule, free, offs) <==> LinearPower(row, offs, x) - 2.0 * Sum(offs) <= free)
    ensures rule == Corrected ==>
              (Dot(row, x) <= RowBound(rule, free, offs) <==> LinearPower(row, offs, x) <= free)
  {
    match rule
    case AsWritten => WrittenBudgetMeaning(row, offs, x, free);
    case Corrected => BudgetMeaning(row, offs, x, free);
  }

  /** One extraction column with tangent slope 1 and intercept -2 (the
      tangent of a convex power curve through the origin lies below it, so
      its intercept is negative) and 10 units of free power: the plan
      extracting 10 draws 8 on the tangent, within budget, yet the bound as
      written rejects it. */
  lemma WrittenBoundRejectsAffordablePlan()
    ensures LinearPower([1.0], [-2.0], [10.0]) <= 10.0
    ensures !(Dot([1.0], [10.0]) <= WrittenPowerBound(10.0, [-2.0]))
    ensures Dot([1.0], [10.0]) <= PowerBound(10.0, [-2.0])
  {
    assert [1.0][1..] == [] && [-2.0][1..] == [] && [10.0][1..] == [];
  }
}
