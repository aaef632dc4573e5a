/** Shared vocabulary of the factory-planning model: outcomes and errors,
    real-valued sums, and the opaque power law used for every non-integer
    exponent (clock^exponent, 2^(8/3), ...). */
module Basics {

  /** Item names are plain strings. */
  type Item = string

  /** The scoring currency produced by sink recipes; it is exempt from mass balance. */
  const AwesomePoints: Item := "AWESOME points"

  /** The one item every script balances from the start. */
  const Water: Item := "Water"

  type pos = n: int | n >= 1 witness 1

  datatype Option<+T> = None | Some(value: T)

  /** The exceptions the scripts raise, one constructor per distinct cause. */
  datatype Error =
    | InvalidPurity        // purity string not impure/normal/pure
    | InvalidClock         // clock outside the permitted range
    | InvalidBuilding      // extraction building name not recognised
    | InvalidRarity        // node tier not 1, 2 or 4
    | InvalidQuota         // guessed quota outside the extraction domain
    | UnknownResource      // no nodes / wells / extraction buildings for a resource
    | UnknownTier          // no node or well of the requested tier
    | UnknownBuilding      // building name not registered
    | UnknownKey           // lookup of an unregistered name (a dict key or list.index)
    | UnknownTarget        // solve target neither an item nor a recipe
    | NotLimited           // limit requested for a resource that is not limited
    | InvalidRecipeType    // somersloop variant of a non-plain recipe
    | TooManySloops        // more somersloops than the building has slots
    | DuplicateName        // recipe name registered twice
    | MalformedNodes       // node tuple not of length three
    | QuotaTooHigh
    | QuotaTooLow
    | DivisionByZero
    | NoCandidate          // min() over an empty candidate collection
    | Infeasible           // the LP primitive reported failure
    | NotConverged         // the refinement loop ran out of iterations

  datatype Result<+T> = Ok(value: T) | Err(error: Error)

  /** The power law x^e, left uninterpreted. */
  type PowFn = (real, real) -> real

  /** Facts every real exponentiation satisfies, stated for the power law:
      positivity on positive bases, the neutral base and exponent, and the
      identities between the constants 2^(5/3), 2^(8/3), 2^(10/3), 4^(5/3)
      and 4^(8/3) that the closed-form ore allocation depends on. */
  ghost predicate PowLaws(pow: PowFn) {
    && (forall x, e :: 0.0 < x ==> 0.0 < pow(x, e))
    && (forall e :: pow(1.0, e) == 1.0)
    && pow(2.0, 0.0) == 1.0
    && 1.0 < pow(2.0, 5.0 / 3.0)
    && pow(2.0, 8.0 / 3.0) == 2.0 * pow(2.0, 5.0 / 3.0)
    && pow(4.0, 5.0 / 3.0) == pow(2.0, 5.0 / 3.0) * pow(2.0, 5.0 / 3.0)
    && pow(4.0, 8.0 / 3.0) == 4.0 * pow(4.0, 5.0 / 3.0)
    && pow(2.0, 10.0 / 3.0) == pow(4.0, 5.0 / 3.0)
  }

  function Min(a: real, b: real): real { if a <= b then a else b }

  function Max(a: real, b: real): real { if a >= b then a else b }

  function Abs(a: real): real { if a >= 0.0 then a else -a }

  /** Python's sum() over a list of reals. */
  function Sum(s: seq<real>): real
  {
    if |s| == 0 then 0.0 else s[0] + Sum(s[1..])
  }

  lemma {:induction false} SumAppend(a: seq<real>, b: seq<real>)
    ensures Sum(a + b) == Sum(a) + Sum(b)
  {
    if |a| == 0 {
      assert a + b == b;
    } else {
      assert (a + b)[1..] == a[1..] + b;
      SumAppend(a[1..], b);
    }
  }

  lemma {:induction false} SumNonNegative(s: seq<real>)
    requires forall i :: 0 <= i < |s| ==> 0.0 <= s[i]
    ensures 0.0 <= Sum(s)
  {
    if |s| > 0 {
      SumNonNegative(s[1..]);
    }
  }

  /** Scalar product of two equally long vectors. */
  function Dot(a: seq<real>, b: seq<real>): real
    requires |a| == |b|
  {
    if |a| == 0 then 0.0 else a[0] * b[0] + Dot(a[1..], b[1..])
  }

  predicate NoDuplicates<T(==)>(s: seq<T>) {
    forall i, j :: 0 <= i < j < |s| ==> s[i] != s[j]
  }

  function Elements<T>(s: seq<T>): set<T> {
    set x | x in s
  }

  /** numpy.linspace: n evenly spaced points from lo to hi, both included. */
  function Linspace(lo: real, hi: real, n: nat): (r: seq<real>)
    ensures |r| == n
    ensures n >= 1 ==> r[0] == lo
    ensures n >= 2 ==> r[n - 1] == hi
    ensures lo <= hi ==> forall k :: 0 <= k < n ==> lo <= r[k] <= hi
    ensures lo < hi ==> forall k, l :: 0 <= k < l < n ==> r[k] < r[l]
  {
    if n <= 1 then seq(n, k => lo)
    else
      var step := (hi - lo) / (n - 1) as real;
      assert step * (n - 1) as real == hi - lo;
      var r := seq(n, k requires 0 <= k < n => lo + k as real * step);
      LinspaceRange(lo, hi, n, step, r);
      r
  }

  lemma LinspaceRange(lo: real, hi: real, n: nat, step: real, r: seq<real>)
    requires n >= 2 && step * (n - 1) as real == hi - lo && |r| == n
    requires forall k :: 0 <= k < n ==> r[k] == lo + k as real * step
    ensures lo <= hi ==> forall k :: 0 <= k < n ==> lo <= r[k] <= hi
    ensures lo < hi ==> forall k, l :: 0 <= k < l < n ==> r[k] < r[l]
  {
    if lo <= hi {
      assert step >= 0.0;
      forall k | 0 <= k < n
        ensures lo <= r[k] <= hi
      {
        StepOrder(k as real, (n - 1) as real, step);
      }
    }
    if lo < hi {
      assert step > 0.0;
      forall k, l | 0 <= k < l < n
        ensures r[k] < r[l]
      {
        StepOrder(k as real, l as real, step);
        assert r[k] == lo + k as real * step && r[l] == lo + l as real * step;
      }
    }
  }

  lemma StepOrder(a: real, b: real, step: real)
    requires a <= b && step >= 0.0
    ensures a * step <= b * step
    ensures a < b && step > 0.0 ==> a * step < b * step
  {
    assert b * step - a * step == (b - a) * step;
  }

  /** Appends the members of s not already listed, in an unspecified
      order (Python iterates sets in hash order): the old list is a prefix,
      nothing is lost or duplicated, and every appended item is new. */
  ghost function AddItems(items: seq<Item>, s: set<Item>): (r: seq<Item>)
    ensures items <= r
    ensures Elements(r) == Elements(items) + s
    ensures forall k :: |items| <= k < |r| ==> r[k] in s && r[k] !in items
    ensures NoDuplicates(items) ==> NoDuplicates(r)
    decreases |s|
  {
    if s == {} then items
    else
      var x :| x in s;
      var items' := if x in items then items else items + [x];
      var r := AddItems(items', s - {x});
      AddItemsStep(items, s, x, items', r);
      r
  }

  lemma AddItemsStep(items: seq<Item>, s: set<Item>, x: Item, items': seq<Item>, r: seq<Item>)
    requires x in s && items' == if x in items then items else items + [x]
    requires items' <= r
    requires Elements(r) == Elements(items') + (s - {x})
    requires forall k :: |items'| <= k < |r| ==> r[k] in s - {x} && r[k] !in items'
    requires NoDuplicates(items') ==> NoDuplicates(r)
    ensures items <= r
    ensures Elements(r) == Elements(items) + s
    ensures forall k :: |items| <= k < |r| ==> r[k] in s && r[k] !in items
    ensures NoDuplicates(items) ==> NoDuplicates(r)
  {
    assert Elements(items') == Elements(items) + {x} by {
      assert forall y :: y in items' <==> y in items || y == x;
    }
    if x !in items {
      assert r[|items|] == x;
      if NoDuplicates(items) {
        assert NoDuplicates(items');
      }
    }
  }
}
