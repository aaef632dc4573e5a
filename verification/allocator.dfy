/** The partition search of nlextract (optimizer3.py, optimizerSomer.py):
    given the ways a resource can be extracted, find clocks that deliver a
    quota at least power. Power grows with clock^e (e > 1), so in the
    optimum the methods cheapest per item run at their limit, the dearest
    idle at the minimum clock, and the ones between share the rest of the
    quota in proportion to (rate/power)^(1/(e-1)). The search tries every
    split (i, j) of the methods sorted by cost into such a prefix, middle
    and suffix, keeps the splits whose clocks are admissible, and returns
    the cheapest. */
module Allocator {
  import opened Basics
  import opened Rates

  /** One extraction method: a building on the deposits of one value, how
      many such deposits there are, items per minute and power at clock 1,
      and the highest useful clock. */
  datatype Method = Method(extractor: Extractor, val: pos, num: nat, rate: real, power: real, limit: real)

  /** What the figures of a registered building always satisfy. */
  predicate MethodWf(m: Method)
  {
    m.rate > 0.0 && m.power > 0.0 && 0.0 < m.limit
  }

  predicate AllMethodsWf(ms: seq<Method>)
  {
    forall k :: 0 <= k < |ms| ==> MethodWf(ms[k])
  }

  /** The fact of real exponentiation the middle allocation relies on:
      x * (x/y)^a == x^(1+a) * y^(-a) for positive x and y. */
  ghost predicate ExponentLaw(pow: PowFn)
  {
    forall x: real, y: real, a: real :: x > 0.0 && y > 0.0 ==> x * Share(pow, a, x, y) == Weight(pow, a, x, y)
  }

  /** (rate/power)^a: how a middle method's clock scales with the
      multiplier. */
  function Share(pow: PowFn, a: real, rate: real, power: real): real
    requires power > 0.0
  {
    pow(rate / power, a)
  }

  /** rate^(1+a) * power^(-a): a middle method's weight per deposit. */
  function Weight(pow: PowFn, a: real, rate: real, power: real): real
  {
    pow(rate, 1.0 + a) * pow(power, -a)
  }

  // ----- sums over methods -----

  /** Items per minute the methods deliver at the given clocks. */
  function Delivered(ms: seq<Method>, clocks: seq<real>): real
    requires |ms| == |clocks|
  {
    if |ms| == 0 then 0.0 else ms[0].num as real * ms[0].rate * clocks[0] + Delivered(ms[1..], clocks[1..])
  }

  /** Items per minute at clock 1. */
  function Base(ms: seq<Method>): real
  {
    if |ms| == 0 then 0.0 else ms[0].num as real * ms[0].rate + Base(ms[1..])
  }

  /** The power the methods draw at the given clocks. */
  function Draw(pow: PowFn, e: real, ms: seq<Method>, clocks: seq<real>): real
    requires |ms| == |clocks|
  {
    if |ms| == 0 then 0.0 else ms[0].num as real * ms[0].power * pow(clocks[0], e) + Draw(pow, e, ms[1..], clocks[1..])
  }

  function Limits(ms: seq<Method>): (r: seq<real>)
    ensures |r| == |ms| && forall k :: 0 <= k < |ms| ==> r[k] == ms[k].limit
  {
    seq(|ms|, k requires 0 <= k < |ms| => ms[k].limit)
  }

  function Fill(c: real, n: nat): (r: seq<real>)
    ensures |r| == n && forall k :: 0 <= k < n ==> r[k] == c
  {
    seq(n, k => c)
  }

  /** The most the methods can deliver: every one at its limit. */
  function Capacity(ms: seq<Method>): real
  {
    Delivered(ms, Limits(ms))
  }

  lemma {:induction false} DeliveredSplit(ms: seq<Method>, clocks: seq<real>, i: nat)
    requires |ms| == |clocks| && i <= |ms|
    ensures Delivered(ms, clocks) == Delivered(ms[..i], clocks[..i]) + Delivered(ms[i..], clocks[i..])
  {
    if i > 0 {
      DeliveredSplit(ms[1..], clocks[1..], i - 1);
      assert ms[1..][..i - 1] == ms[..i][1..] && clocks[1..][..i - 1] == clocks[..i][1..];
      assert ms[1..][i - 1..] == ms[i..] && clocks[1..][i - 1..] == clocks[i..];
    }
  }

  /** Delivery is additive over a prefix, a middle and a suffix. */
  lemma DeliveredPieces(ms: seq<Method>, clocks: seq<real>, i: nat, j: nat, pre: seq<real>, mid: seq<real>, suf: seq<real>)
    requires |ms| == |clocks| && i <= j <= |ms|
    requires clocks[..i] == pre && clocks[i..j] == mid && clocks[j..] == suf
    ensures Delivered(ms, clocks) == Delivered(ms[..i], pre) + Delivered(ms[i..j], mid) + Delivered(ms[j..], suf)
  {
    DeliveredSplit(ms, clocks, i);
    DeliveredSplit(ms[i..], clocks[i..], j - i);
    assert ms[i..][..j - i] == ms[i..j] && clocks[i..][..j - i] == clocks[i..j];
    assert ms[i..][j - i..] == ms[j..] && clocks[i..][j - i..] == clocks[j..];
  }

  /** At one common clock the methods deliver that multiple of their base. */
  lemma {:induction false} DeliveredFill(ms: seq<Method>, c: real, n: nat)
    requires n == |ms|
    ensures Delivered(ms, Fill(c, n)) == c * Base(ms)
  {
    if n > 0 {
      assert Fill(c, n)[1..] == Fill(c, n - 1);
      DeliveredFill(ms[1..], c, n - 1);
    }
  }

  // ----- the middle allocation -----

  /** The weight of a method in the middle: num * rate^(1+a) * power^(-a). */
  function Weights(pow: PowFn, a: real, ms: seq<Method>): real
  {
    if |ms| == 0 then 0.0
    else ms[0].num as real * Weight(pow, a, ms[0].rate, ms[0].power) + Weights(pow, a, ms[1..])
  }

  /** The clocks of the middle methods for multiplier lam. */
  function Middle(pow: PowFn, a: real, ms: seq<Method>, lam: real): (r: seq<real>)
    requires AllMethodsWf(ms)
    ensures |r| == |ms| && forall k :: 0 <= k < |ms| ==> r[k] == lam * Share(pow, a, ms[k].rate, ms[k].power)
  {
    seq(|ms|, k requires 0 <= k < |ms| => lam * Share(pow, a, ms[k].rate, ms[k].power))
  }

  /** The middle delivers lam times the total weight. */
  lemma {:induction false} DeliveredMiddle(pow: PowFn, a: real, ms: seq<Method>, lam: real)
    requires ExponentLaw(pow) && AllMethodsWf(ms)
    ensures Delivered(ms, Middle(pow, a, ms, lam)) == lam * Weights(pow, a, ms)
  {
    if |ms| > 0 {
      forall k | 0 <= k < |ms| - 1
        ensures Middle(pow, a, ms, lam)[1..][k] == Middle(pow, a, ms[1..], lam)[k]
      {
        assert ms[1..][k] == ms[k + 1];
      }
      assert Middle(pow, a, ms, lam)[1..] == Middle(pow, a, ms[1..], lam);
      DeliveredMiddle(pow, a, ms[1..], lam);
      assert MethodWf(ms[0]);
      MiddleTerm(ms[0].num as real, ms[0].rate, lam, Share(pow, a, ms[0].rate, ms[0].power), Middle(pow, a, ms, lam)[0],
                 Weight(pow, a, ms[0].rate, ms[0].power), Weights(pow, a, ms[1..]), Weights(pow, a, ms));
    }
  }

  lemma MiddleTerm(n: real, rate: real, lam: real, sh: real, c: real, w: real, rest: real, total: real)
    requires c == lam * sh && rate * sh == w && total == n * w + rest
    ensures n * rate * c + lam * rest == lam * total
  {
  }

  // ----- one split -----

  /** A stored candidate: the clocks of all methods and their power. */
  datatype Candidate = Candidate(clocks: seq<real>, power: real)

  /** The quota left for the middle once the prefix runs at its limits and
      the suffix from j on at the minimum clock. */
  function Remaining(ms: seq<Method>, quota: real, minclock: real, i: nat, j: nat): real
    requires i <= j <= |ms|
  {
    quota - Capacity(ms[..i]) - minclock * Base(ms[j..])
  }

  /** Whether every clock lies between the minimum clock and its method's
      limit. */
  predicate Admissible(ms: seq<Method>, clocks: seq<real>, minclock: real)
    requires |ms| == |clocks|
  {
    forall k :: 0 <= k < |ms| ==> minclock <= clocks[k] <= ms[k].limit
  }

  /** The clocks of a split whose middle [i, j) runs at the given clocks. */
  function SplitClocks(ms: seq<Method>, minclock: real, i: nat, j: nat, mid: seq<real>): (r: seq<real>)
    requires i <= j <= |ms| && |mid| == j - i
    ensures |r| == |ms|
    ensures forall k :: 0 <= k < i ==> r[k] == ms[k].limit
    ensures forall k :: i <= k < j ==> r[k] == mid[k - i]
    ensures forall k :: j <= k < |ms| ==> r[k] == minclock
  {
    Limits(ms[..i]) + mid + Fill(minclock, |ms| - j)
  }

  /** The candidate split (i, j) stores, if any. An empty middle is stored
      exactly when the quota is met without it, and is not checked for
      admissibility; a non-empty middle needs a non-negative remaining
      quota and admissible clocks. A zero total weight, or the exponent 1,
      divides by zero. */
  function Split(pow: PowFn, e: real, ms: seq<Method>, quota: real, minclock: real, i: nat, j: nat): (r: Result<Option<Candidate>>)
    requires AllMethodsWf(ms)
    requires i <= j <= |ms|
    ensures r.Err? ==> r.error == DivisionByZero
    ensures i == j ==> (r.Ok? && (r.value.Some? <==> Remaining(ms, quota, minclock, i, j) == 0.0))
    ensures r.Ok? && r.value.Some? ==> |r.value.value.clocks| == |ms| && r.value.value.power == Draw(pow, e, ms, r.value.value.clocks)
    ensures i < j && r.Ok? && r.value.Some? ==> Admissible(ms, r.value.value.clocks, minclock)
  {
    var q := Remaining(ms, quota, minclock, i, j);
    if i == j then
      if q == 0.0 then
        var clocks := SplitClocks(ms, minclock, i, j, []);
        Ok(Some(Candidate(clocks, Draw(pow, e, ms, clocks))))
      else Ok(None)
    else if q < 0.0 then Ok(None)
    else if e == 1.0 then Err(DivisionByZero)
    else
      var a := 1.0 / (e - 1.0);
      var d := Weights(pow, a, ms[i..j]);
      if d == 0.0 then Err(DivisionByZero)
      else
        var clocks := SplitClocks(ms, minclock, i, j, Middle(pow, a, ms[i..j], q / d));
        if Admissible(ms, clocks, minclock) then Ok(Some(Candidate(clocks, Draw(pow, e, ms, clocks))))
        else Ok(None)
  }

  /** Every stored candidate delivers exactly the quota. */
  lemma {:induction false} SplitConserves(pow: PowFn, e: real, ms: seq<Method>, quota: real, minclock: real, i: nat, j: nat)
    requires ExponentLaw(pow) && AllMethodsWf(ms)
    requires i <= j <= |ms|
    requires Split(pow, e, ms, quota, minclock, i, j).Ok? && Split(pow, e, ms, quota, minclock, i, j).value.Some?
    ensures Delivered(ms, Split(pow, e, ms, quota, minclock, i, j).value.value.clocks) == quota
  {
    var q := Remaining(ms, quota, minclock, i, j);
    var c := Split(pow, e, ms, quota, minclock, i, j).value.value;
    if i == j {
      assert c.clocks == SplitClocks(ms, minclock, i, j, []);
      SplitClocksDeliver(ms, quota, minclock, i, j, []);
    } else {
      var a := 1.0 / (e - 1.0);
      var mid := Middle(pow, a, ms[i..j], q / Weights(pow, a, ms[i..j]));
      assert c.clocks == SplitClocks(ms, minclock, i, j, mid);
      MiddleDelivers(pow, a, ms[i..j], q);
      SplitClocksDeliver(ms, quota, minclock, i, j, mid);
    }
  }

  /** Clocks whose middle delivers the remaining quota deliver the quota. */
  lemma {:induction false} SplitClocksDeliver(ms: seq<Method>, quota: real, minclock: real, i: nat, j: nat, mid: seq<real>)
    requires i <= j <= |ms| && |mid| == j - i
    requires Delivered(ms[i..j], mid) == Remaining(ms, quota, minclock, i, j)
    ensures Delivered(ms, SplitClocks(ms, minclock, i, j, mid)) == quota
  {
    PiecesMeetQuota(ms, quota, minclock, i, j, mid);
    SplitClocksPieces(ms, minclock, i, j, mid);
  }

  lemma PiecesMeetQuota(ms: seq<Method>, quota: real, minclock: real, i: nat, j: nat, mid: seq<real>)
    requires i <= j <= |ms| && |mid| == j - i
    requires Delivered(ms[i..j], mid) == Remaining(ms, quota, minclock, i, j)
    ensures Delivered(ms[..i], Limits(ms[..i])) + Delivered(ms[i..j], mid) + Delivered(ms[j..], Fill(minclock, |ms| - j)) == quota
  {
    DeliveredFill(ms[j..], minclock, |ms| - j);
  }

  /** What a split delivers: the prefix at its limits, the middle and the
      suffix at the minimum clock. */
  lemma {:induction false} SplitClocksPieces(ms: seq<Method>, minclock: real, i: nat, j: nat, mid: seq<real>)
    requires i <= j <= |ms| && |mid| == j - i
    ensures Delivered(ms, SplitClocks(ms, minclock, i, j, mid))
         == Delivered(ms[..i], Limits(ms[..i])) + Delivered(ms[i..j], mid) + Delivered(ms[j..], Fill(minclock, |ms| - j))
  {
    var clocks := SplitClocks(ms, minclock, i, j, mid);
    assert clocks[..i] == Limits(ms[..i]);
    assert clocks[i..j] == mid;
    assert clocks[j..] == Fill(minclock, |ms| - j);
    DeliveredPieces(ms, clocks, i, j, Limits(ms[..i]), mid, Fill(minclock, |ms| - j));
  }

  /** A middle at multiplier q / d delivers q. */
  lemma MiddleDelivers(pow: PowFn, a: real, ms: seq<Method>, q: real)
    requires ExponentLaw(pow) && AllMethodsWf(ms)
    requires Weights(pow, a, ms) != 0.0
    ensures Delivered(ms, Middle(pow, a, ms, q / Weights(pow, a, ms))) == q
  {
    DeliveredMiddle(pow, a, ms, q / Weights(pow, a, ms));
  }

  /** A candidate with a non-empty middle is admissible by its check; one
      without is admissible when the minimum clock is below every limit,
      which its missing check silently assumes. */
  lemma SplitBounds(pow: PowFn, e: real, ms: seq<Method>, quota: real, minclock: real, i: nat, j: nat)
    requires AllMethodsWf(ms)
    requires i <= j <= |ms|
    requires Split(pow, e, ms, quota, minclock, i, j).Ok? && Split(pow, e, ms, quota, minclock, i, j).value.Some?
    requires forall k :: 0 <= k < |ms| ==> minclock <= ms[k].limit
    ensures Admissible(ms, Split(pow, e, ms, quota, minclock, i, j).value.value.clocks, minclock)
  {
    if i == j {
      assert Split(pow, e, ms, quota, minclock, i, j).value.value.clocks == SplitClocks(ms, minclock, i, j, []);
    }
  }

  // ----- all splits -----

  function Stored(o: Option<Candidate>): seq<Candidate>
  {
    if o.Some? then [o.value] else []
  }

  /** Split (i, l) ran without a division by zero. */
  predicate SplitOk(pow: PowFn, e: real, ms: seq<Method>, quota: real, minclock: real, i: nat, l: nat)
    requires AllMethodsWf(ms)
  {
    i <= l <= |ms| && Split(pow, e, ms, quota, minclock, i, l).Ok?
  }

  /** Split (i, l) ran and stored c. */
  predicate StoredBy(pow: PowFn, e: real, ms: seq<Method>, quota: real, minclock: real, i: nat, l: nat, c: Candidate)
    requires AllMethodsWf(ms)
  {
    SplitOk(pow, e, ms, quota, minclock, i, l) && Split(pow, e, ms, quota, minclock, i, l).value == Some(c)
  }

  /** The candidates of the splits (i, j), (i, j+1), ..., (i, |ms|). */
  function Row(pow: PowFn, e: real, ms: seq<Method>, quota: real, minclock: real, i: nat, j: nat): (r: Result<seq<Candidate>>)
    requires AllMethodsWf(ms)
    requires i <= j <= |ms| + 1
    ensures r.Ok? <==> forall l :: j <= l <= |ms| ==> SplitOk(pow, e, ms, quota, minclock, i, l)
    ensures r.Err? ==> r.error == DivisionByZero
    ensures r.Ok? ==> forall c :: c in r.value <==> exists l :: j <= l && StoredBy(pow, e, ms, quota, minclock, i, l, c)
    decreases |ms| + 1 - j
  {
    if j == |ms| + 1 then Ok([])
    else
      match Split(pow, e, ms, quota, minclock, i, j)
      case Err(x) =>
        assert !SplitOk(pow, e, ms, quota, minclock, i, j);
        Err(x)
      case Ok(o) =>
        match Row(pow, e, ms, quota, minclock, i, j + 1)
        case Err(x) => Err(x)
        case Ok(rest) =>
          assert SplitOk(pow, e, ms, quota, minclock, i, j);
          RowStored(pow, e, ms, quota, minclock, i, j, o, rest);
          Ok(Stored(o) + rest)
  }

  /** Prepending what split (i, j) stored to the candidates of the later
      splits gives the candidates from j on. */
  lemma RowStored(pow: PowFn, e: real, ms: seq<Method>, quota: real, minclock: real, i: nat, j: nat,
                  o: Option<Candidate>, rest: seq<Candidate>)
    requires AllMethodsWf(ms) && i <= j <= |ms|
    requires Split(pow, e, ms, quota, minclock, i, j) == Ok(o)
    requires forall c :: c in rest <==> exists l :: j + 1 <= l && StoredBy(pow, e, ms, quota, minclock, i, l, c)
    ensures forall c :: c in Stored(o) + rest <==> exists l :: j <= l && StoredBy(pow, e, ms, quota, minclock, i, l, c)
  {
    forall c
      ensures c in Stored(o) + rest <==> exists l :: j <= l && StoredBy(pow, e, ms, quota, minclock, i, l, c)
    {
      if c in Stored(o) {
        assert StoredBy(pow, e, ms, quota, minclock, i, j, c);
      }
      if exists l :: j <= l && StoredBy(pow, e, ms, quota, minclock, i, l, c) {
        var l :| j <= l && StoredBy(pow, e, ms, quota, minclock, i, l, c);
        if l == j {
          assert c in Stored(o);
        } else {
          assert c in rest;
        }
      }
    }
  }

  /** The candidates of all splits (i', j) with i <= i' <= j <= |ms|, in
      the order the search visits them. */
  function Grid(pow: PowFn, e: real, ms: seq<Method>, quota: real, minclock: real, i: nat): (r: Result<seq<Candidate>>)
    requires AllMethodsWf(ms)
    requires i <= |ms| + 1
    ensures r.Ok? <==> forall i', j :: i <= i' <= j <= |ms| ==> SplitOk(pow, e, ms, quota, minclock, i', j)
    ensures r.Err? ==> r.error == DivisionByZero
    ensures r.Ok? ==> forall c :: c in r.value <==>
              exists i', j :: i <= i' <= j && StoredBy(pow, e, ms, quota, minclock, i', j, c)
    decreases |ms| + 1 - i
  {
    if i == |ms| + 1 then Ok([])
    else
      match Row(pow, e, ms, quota, minclock, i, i)
      case Err(x) => Err(x)
      case Ok(row) =>
        match Grid(pow, e, ms, quota, minclock, i + 1)
        case Err(x) => Err(x)
        case Ok(rest) => Ok(row + rest)
  }

  /** Every candidate of the search delivers the quota, and is admissible
      when the minimum clock is below every limit. */
  lemma GridCandidates(pow: PowFn, e: real, ms: seq<Method>, quota: real, minclock: real, c: Candidate)
    requires ExponentLaw(pow) && AllMethodsWf(ms)
    requires Grid(pow, e, ms, quota, minclock, 0).Ok? && c in Grid(pow, e, ms, quota, minclock, 0).value
    ensures |c.clocks| == |ms| && Delivered(ms, c.clocks) == quota
    ensures (forall k :: 0 <= k < |ms| ==> minclock <= ms[k].limit) ==> Admissible(ms, c.clocks, minclock)
  {
    var i, j :| 0 <= i <= j && StoredBy(pow, e, ms, quota, minclock, i, j, c);
    SplitConserves(pow, e, ms, quota, minclock, i, j);
    if forall k :: 0 <= k < |ms| ==> minclock <= ms[k].limit {
      SplitBounds(pow, e, ms, quota, minclock, i, j);
    }
  }

  // ----- the cheapest candidate -----

  /** min() over the stored candidates by power: the first of the cheapest. */
  function Cheapest(cs: seq<Candidate>): (r: Result<Candidate>)
    ensures r.Ok? <==> |cs| > 0
    ensures r.Err? ==> r.error == NoCandidate
    ensures r.Ok? ==> forall l :: 0 <= l < |cs| ==> r.value.power <= cs[l].power
    ensures r.Ok? ==> exists k :: 0 <= k < |cs| && cs[k] == r.value && forall l :: 0 <= l < k ==> r.value.power < cs[l].power
  {
    if |cs| == 0 then Err(NoCandidate)
    else if |cs| == 1 then Ok(cs[0])
    else
      var rest := Cheapest(cs[1..]).value;
      if cs[0].power <= rest.power then Ok(cs[0])
      else
        CheapestLater(cs, rest);
        Ok(rest)
  }

  lemma CheapestLater(cs: seq<Candidate>, rest: Candidate)
    requires |cs| > 1 && rest.power < cs[0].power
    requires exists k :: 0 <= k < |cs| - 1 && cs[1..][k] == rest && forall l :: 0 <= l < k ==> rest.power < cs[1..][l].power
    ensures exists k :: 0 <= k < |cs| && cs[k] == rest && forall l :: 0 <= l < k ==> rest.power < cs[l].power
  {
    var k :| 0 <= k < |cs| - 1 && cs[1..][k] == rest && forall l :: 0 <= l < k ==> rest.power < cs[1..][l].power;
    assert cs[k + 1] == rest;
    forall l | 0 <= l < k + 1
      ensures rest.power < cs[l].power
    {
      if l > 0 {
        assert cs[l] == cs[1..][l - 1];
      }
    }
  }

  // ----- sorting by cost -----

  /** Power per item at clock 1, the sort key. */
  function Cost(m: Method): real
  {
    if m.rate == 0.0 then 0.0 else m.power / m.rate
  }

  predicate SortedByCost(ms: seq<Method>)
  {
    forall k, l :: 0 <= k < l < |ms| ==> Cost(ms[k]) <= Cost(ms[l])
  }

  /** Inserts before the first dearer-or-equal method, which keeps a
      method ahead of later ones of the same cost. */
  function Insert(m: Method, s: seq<Method>): (r: seq<Method>)
    requires SortedByCost(s)
    ensures SortedByCost(r)
    ensures multiset(r) == multiset(s) + multiset{m}
    ensures forall k :: 0 <= k < |r| ==> r[k] == m || r[k] in s
  {
    if |s| == 0 || Cost(m) <= Cost(s[0]) then [m] + s
    else
      var rest := Insert(m, s[1..]);
      assert s == [s[0]] + s[1..];
      HeadCheapest(m, s, rest);
      ConsSorted(s[0], rest);
      [s[0]] + rest
  }

  /** Prefixing a method no dearer than any element keeps the order. */
  lemma ConsSorted(x: Method, t: seq<Method>)
    requires SortedByCost(t) && forall k :: 0 <= k < |t| ==> Cost(x) <= Cost(t[k])
    ensures SortedByCost([x] + t)
  {
    var r := [x] + t;
    forall k, l | 0 <= k < l < |r|
      ensures Cost(r[k]) <= Cost(r[l])
    {
      assert r[l] == t[l - 1];
      if k > 0 {
        assert r[k] == t[k - 1];
      }
    }
  }

  /** The head of a sorted s costs no more than anything drawn from m and
      the rest of s, when m itself costs more. */
  lemma HeadCheapest(m: Method, s: seq<Method>, rest: seq<Method>)
    requires |s| > 0 && SortedByCost(s) && Cost(s[0]) < Cost(m)
    requires forall k :: 0 <= k < |rest| ==> rest[k] == m || rest[k] in s[1..]
    ensures forall k :: 0 <= k < |rest| ==> Cost(s[0]) <= Cost(rest[k])
  {
    forall k | 0 <= k < |rest|
      ensures Cost(s[0]) <= Cost(rest[k])
    {
      if rest[k] != m {
        var l :| 0 <= l < |s[1..]| && s[1..][l] == rest[k];
        assert s[l + 1] == rest[k];
      }
    }
  }

  /** methods.sort(key = power/rate): a stable sort, here an insertion sort. */
  function SortByCost(ms: seq<Method>): (r: seq<Method>)
    ensures SortedByCost(r)
    ensures multiset(r) == multiset(ms)
  {
    if |ms| == 0 then []
    else
      assert ms == [ms[0]] + ms[1..];
      Insert(ms[0], SortByCost(ms[1..]))
  }

  /** The methods of cost c, in their order in s. */
  function OfCost(s: seq<Method>, c: real): (r: seq<Method>)
    ensures forall k :: 0 <= k < |r| ==> r[k] in s && Cost(r[k]) == c
  {
    if |s| == 0 then [] else (if Cost(s[0]) == c then [s[0]] else []) + OfCost(s[1..], c)
  }

  /** Insertion puts m ahead of every method of its cost and keeps the
      order of the others. */
  lemma {:induction false} InsertStable(m: Method, s: seq<Method>, c: real)
    requires SortedByCost(s)
    ensures OfCost(Insert(m, s), c) == (if Cost(m) == c then [m] else []) + OfCost(s, c)
  {
    if |s| == 0 || Cost(m) <= Cost(s[0]) {
      OfCostCons(m, s, c);
    } else {
      var t := s[1..];
      assert SortedByCost(t);
      var rest := Insert(m, t);
      assert Insert(m, s) == [s[0]] + rest;
      InsertStable(m, t, c);
      OfCostCons(s[0], rest, c);
      OfCostCons(s[0], t, c);
      assert s == [s[0]] + t;
      SwapHeads(if Cost(s[0]) == c then [s[0]] else [], if Cost(m) == c then [m] else [], OfCost(t, c));
    }
  }

  lemma SwapHeads(hs: seq<Method>, hm: seq<Method>, t: seq<Method>)
    requires hs == [] || hm == []
    ensures hs + (hm + t) == hm + (hs + t)
  {
  }

  lemma OfCostCons(x: Method, t: seq<Method>, c: real)
    ensures OfCost([x] + t, c) == (if Cost(x) == c then [x] else []) + OfCost(t, c)
  {
    assert ([x] + t)[1..] == t;
  }

  /** The sort is stable: methods of equal cost keep their relative order. */
  lemma {:induction false} SortStable(ms: seq<Method>, c: real)
    ensures OfCost(SortByCost(ms), c) == OfCost(ms, c)
  {
    if |ms| > 0 {
      SortStable(ms[1..], c);
      InsertStable(ms[0], SortByCost(ms[1..]), c);
    }
  }

  /** Sorting keeps the methods, so it keeps their figures. */
  lemma SortedMethodsWf(ms: seq<Method>)
    requires AllMethodsWf(ms)
    ensures AllMethodsWf(SortByCost(ms))
  {
    var r := SortByCost(ms);
    forall k | 0 <= k < |r|
      ensures MethodWf(r[k])
    {
      assert r[k] in multiset(r);
      assert r[k] in multiset(ms);
      var l :| 0 <= l < |ms| && ms[l] == r[k];
    }
  }
}
