/** The contributors' refund: an exact pro-rata split with the remainder to the largest leg, narrowed
    until every leg still firing can pay its own outbound fee. */
module RefundSplit {
  import Bigint
  import opened Fees

  /** A leg's fraction of the whole pot, and its place in the list the refund was built with. */
  datatype Slot = Slot(index: nat, numerator: int, denominator: int)

  class Leg {
    const numerator: int
    const denominator: int
    var amount: int

    constructor (numerator: int, denominator: int, amount: int)
      ensures this.numerator == numerator && this.denominator == denominator && this.amount == amount
    {
      this.numerator, this.denominator, this.amount := numerator, denominator, amount;
    }
  }

  // ----- the split as functions --------------------------------------------------------------------

  function Rescaled(numerator: int, denominator: int, pool: int): int {
    if denominator > 0 then Bigint.Div(numerator * pool, denominator) else 0
  }

  function Share(s: Slot, pool: int): int {
    Rescaled(s.numerator, s.denominator, pool)
  }

  function Shares(slots: seq<Slot>, pool: int): (r: seq<int>)
    ensures |r| == |slots|
    ensures forall i :: 0 <= i < |r| ==> r[i] == Share(slots[i], pool)
  {
    if slots == [] then [] else [Share(slots[0], pool)] + Shares(slots[1..], pool)
  }

  function Sum(xs: seq<int>): int {
    if xs == [] then 0 else xs[0] + Sum(xs[1..])
  }

  /** The first index of the maximum of the first n elements. */
  function FirstMax(xs: seq<int>, n: nat): (k: nat)
    requires 0 < n <= |xs|
    ensures k < n
    ensures forall i :: 0 <= i < n ==> xs[i] <= xs[k]
    ensures forall i :: 0 <= i < k ==> xs[i] < xs[k]
  {
    if n == 1 then 0
    else
      var k := FirstMax(xs, n - 1);
      if xs[n - 1] > xs[k] then n - 1 else k
  }

  function Top(slots: seq<Slot>, pool: int): (k: nat)
    requires slots != []
    ensures k < |slots|
  {
    FirstMax(Shares(slots, pool), |slots|)
  }

  function Remainder(slots: seq<Slot>, pool: int): int {
    pool - Sum(Shares(slots, pool))
  }

  /** What distributeExactly leaves in the legs' amounts. */
  function Distributed(slots: seq<Slot>, pool: int): (r: seq<int>)
    requires slots != []
    ensures |r| == |slots|
  {
    var shares := Shares(slots, pool);
    var k := Top(slots, pool);
    shares[k := shares[k] + Remainder(slots, pool)]
  }

  /** Each firing leg's amount once its own fee has come out of it. */
  function Nets(slots: seq<Slot>, balance: int): (r: seq<int>)
    requires slots != []
    ensures |r| == |slots|
    ensures forall i :: 0 <= i < |r| ==> r[i] == Distributed(slots, balance)[i] - OUTBOUND_FEE
  {
    seq(|slots|, i requires 0 <= i < |slots| => Distributed(slots, balance)[i] - OUTBOUND_FEE)
  }

  function KeepPositive(slots: seq<Slot>, nets: seq<int>): (r: seq<Slot>)
    requires |slots| == |nets|
    ensures |r| <= |slots|
    ensures |r| == |slots| ==> r == slots && forall i :: 0 <= i < |nets| ==> nets[i] > 0
  {
    if slots == [] then []
    else
      var rest := KeepPositive(slots[1..], nets[1..]);
      if nets[0] > 0 then [slots[0]] + rest else rest
  }

  /** The legs still firing once narrowing has settled. */
  function Survivors(slots: seq<Slot>, balance: int): seq<Slot>
    decreases |slots|
  {
    if slots == [] then []
    else
      var kept := KeepPositive(slots, Nets(slots, balance));
      if |kept| == |slots| then slots else Survivors(kept, balance)
  }

  // ----- distributeExactly ---------------------------------------------------------------------------

  ghost predicate Describes(slots: seq<Slot>, legs: seq<Leg>) {
    && |slots| == |legs|
    && forall i :: 0 <= i < |legs| ==>
         slots[i].numerator == legs[i].numerator && slots[i].denominator == legs[i].denominator
  }

  ghost predicate Distinct(legs: seq<Leg>) {
    forall i, j :: 0 <= i < j < |legs| ==> legs[i] != legs[j]
  }

  lemma {:induction false} SumAppend(xs: seq<int>, ys: seq<int>)
    ensures Sum(xs + ys) == Sum(xs) + Sum(ys)
  {
    if xs == [] {
      assert xs + ys == ys;
    } else {
      assert (xs + ys)[1..] == xs[1..] + ys;
      SumAppend(xs[1..], ys);
    }
  }

  lemma SumUpdate(xs: seq<int>, k: nat, d: int)
    requires k < |xs|
    ensures Sum(xs[k := xs[k] + d]) == Sum(xs) + d
  {
    var ys := xs[k := xs[k] + d];
    assert xs == xs[..k] + ([xs[k]] + xs[k + 1..]);
    assert ys == xs[..k] + ([xs[k] + d] + xs[k + 1..]);
    SumAppend(xs[..k], [xs[k]] + xs[k + 1..]);
    SumAppend(xs[..k], [xs[k] + d] + xs[k + 1..]);
  }

  /** What a list of legs holds, in order. */
  ghost predicate Holds(legs: seq<Leg>, amounts: seq<int>)
    reads legs
  {
    |legs| == |amounts| && forall k :: 0 <= k < |legs| ==> legs[k].amount == amounts[k]
  }

  /** Rewrites every leg's amount in place. */
  method DistributeExactly(legs: seq<Leg>, pool: int, ghost slots: seq<Slot>)
    requires |legs| >= 1 && Distinct(legs) && Describes(slots, legs)
    modifies legs
    ensures Holds(legs, Distributed(slots, pool))
  {
    ghost var shares := Shares(slots, pool);
    var sumSoFar, largestIndex := TruncateShares(legs, pool, slots);
    var remainder := pool - sumSoFar;
    legs[largestIndex].amount := legs[largestIndex].amount + remainder;
  }

  /** The loop: truncated shares into the legs, their sum, and the first of the largest. */
  method TruncateShares(legs: seq<Leg>, pool: int, ghost slots: seq<Slot>) returns (sumSoFar: int, largestIndex: nat)
    requires |legs| >= 1 && Distinct(legs) && Describes(slots, legs)
    modifies legs
    ensures Holds(legs, Shares(slots, pool))
    ensures sumSoFar == Sum(Shares(slots, pool)) && largestIndex == Top(slots, pool)
  {
    hide Rescaled, FirstMax, Sum, Shares;
    ghost var shares := Shares(slots, pool);
    assert shares[..0] == [];
    EmptySum();
    sumSoFar, largestIndex := 0, 0;
    var i := 0;
    while i < |legs|
      invariant 0 <= i <= |legs|
      invariant forall j :: 0 <= j < i ==> legs[j].amount == shares[j]
      invariant sumSoFar == Sum(shares[..i])
      invariant largestIndex == if i == 0 then 0 else FirstMax(shares, i)
    {
      legs[i].amount := Rescaled(legs[i].numerator, legs[i].denominator, pool);
      assert legs[i].amount == Share(slots[i], pool) == shares[i];
      SumTake(shares, i);
      FirstMaxStep(shares, i);
      sumSoFar := sumSoFar + legs[i].amount;
      if legs[i].amount > legs[largestIndex].amount {
        largestIndex := i;
      }
      i := i + 1;
    }
    assert shares[..|legs|] == shares;
  }

  lemma EmptySum()
    ensures Sum([]) == 0
  {}

  lemma FirstMaxStep(xs: seq<int>, i: nat)
    requires i < |xs|
    ensures FirstMax(xs, i + 1)
            == if i == 0 then 0 else var k := FirstMax(xs, i); if xs[i] > xs[k] then i else k
  {}

  lemma SumTake(xs: seq<int>, i: nat)
    requires i < |xs|
    ensures Sum(xs[..i + 1]) == Sum(xs[..i]) + xs[i]
  {
    assert xs[..i + 1] == xs[..i] + [xs[i]];
    SumAppend(xs[..i], [xs[i]]);
  }

  /** The legs always take exactly the pool, whatever their fractions; every leg but the first largest
      gets its truncated share. */
  lemma DistributesExactly(slots: seq<Slot>, pool: int)
    requires slots != []
    ensures Sum(Distributed(slots, pool)) == pool
    ensures forall i :: 0 <= i < |slots| && i != Top(slots, pool) ==>
              Distributed(slots, pool)[i] == Share(slots[i], pool)
    ensures forall i :: 0 <= i < |slots| ==> Share(slots[i], pool) <= Share(slots[Top(slots, pool)], pool)
  {
    SumUpdate(Shares(slots, pool), Top(slots, pool), Remainder(slots, pool));
  }

  // ----- how large the remainder can be ----------------------------------------------------------------

  predicate Proper(s: Slot) {
    s.numerator >= 0 && s.denominator > 0
  }

  /** A leg's fraction of the pot, exactly. */
  function Value(s: Slot): real
    requires Proper(s)
  {
    s.numerator as real / s.denominator as real
  }

  function ValueSum(slots: seq<Slot>): real
    requires forall s <- slots :: Proper(s)
  {
    if slots == [] then 0.0 else Value(slots[0]) + ValueSum(slots[1..])
  }

  lemma QuotientBounds(n: nat, d: nat)
    requires d > 0
    ensures (n / d) as real <= n as real / d as real < (n / d) as real + 1.0
  {
    var q := n / d;
    assert q * d <= n < q * d + d;
    var rn, rd, rq := n as real, d as real, q as real;
    assert rq * rd == (q * d) as real;
    assert rq * rd <= rn < (rq + 1.0) * rd;
    RealQuotient(rn, rd, rq);
  }

  lemma RealQuotient(n: real, d: real, q: real)
    requires d > 0.0 && q * d <= n < (q + 1.0) * d
    ensures q <= n / d < q + 1.0
  {
    var x := n / d;
    assert x * d == n;
    if x < q {
      RealMulMono(x, q, d);
    }
    if x >= q + 1.0 {
      RealMulMonoWeak(q + 1.0, x, d);
    }
  }

  lemma RealMulMono(x: real, y: real, d: real)
    requires x < y && d > 0.0
    ensures x * d < y * d
  {}

  lemma RealMulMonoWeak(x: real, y: real, d: real)
    requires x <= y && d >= 0.0
    ensures x * d <= y * d
  {}

  function Times(v: real, pool: nat): real {
    v * pool as real
  }

  /** A share is the fraction of the pool rounded toward zero, and nothing for a fraction without a denominator. */
  lemma ShareTruncates(s: Slot, pool: int)
    ensures s.denominator <= 0 ==> Share(s, pool) == 0
    ensures var (n, q, d) := (s.numerator * pool, Share(s, pool), s.denominator);
            d > 0 ==> if n >= 0 then 0 <= q && q * d <= n < q * d + d else q <= 0 && q * d - d < n <= q * d
  {
    if s.denominator > 0 {
      var n := s.numerator * pool;
      var m := if n >= 0 then n else -n;
      DivRest(m, s.denominator);
      assert (-(m / s.denominator)) * s.denominator == -(m / s.denominator * s.denominator);
    }
  }

  lemma DivRest(m: nat, d: nat)
    requires d > 0
    ensures 0 <= m / d && m / d * d <= m < m / d * d + d
  {
    assert m == m / d * d + m % d;
  }

  lemma ShareBounds(s: Slot, pool: nat)
    requires Proper(s)
    ensures 0 <= Share(s, pool)
    ensures Share(s, pool) as real <= Times(Value(s), pool) < Share(s, pool) as real + 1.0
  {
    NatTimes(s.numerator, pool);
    QuotientBounds(s.numerator * pool, s.denominator);
    var rn, rp, rd := s.numerator as real, pool as real, s.denominator as real;
    assert (s.numerator * pool) as real == rn * rp;
    assert (rn / rd) * rp == (rn * rp) / rd;
  }

  lemma NatTimes(a: int, b: int)
    requires a >= 0 && b >= 0
    ensures a * b >= 0
  {}

  lemma BoundsAdd(share: int, rest: int, v: real, w: real, n: nat, pool: nat)
    requires share as real <= Times(v, pool) < share as real + 1.0
    requires rest as real <= Times(w, pool)
    requires n > 0 ==> Times(w, pool) < rest as real + n as real
    requires n == 0 ==> w == 0.0 && rest == 0
    ensures (share + rest) as real <= Times(v + w, pool) < (share + rest) as real + (n + 1) as real
  {
    assert (v + w) * pool as real == v * pool as real + w * pool as real;
  }

  lemma {:induction false} SharesBounds(slots: seq<Slot>, pool: nat)
    requires forall s <- slots :: Proper(s)
    ensures Sum(Shares(slots, pool)) as real <= Times(ValueSum(slots), pool)
    ensures slots != [] ==> Times(ValueSum(slots), pool) < Sum(Shares(slots, pool)) as real + |slots| as real
  {
    if slots != [] {
      ShareBounds(slots[0], pool);
      SharesBounds(slots[1..], pool);
      assert Shares(slots, pool)[1..] == Shares(slots[1..], pool);
      hide Share, Value, Times;
      BoundsAdd(Share(slots[0], pool), Sum(Shares(slots[1..], pool)), Value(slots[0]), ValueSum(slots[1..]),
                |slots| - 1, pool);
    }
  }

  lemma WholeBounds(total: int, n: nat, v: real, pool: nat)
    requires total as real <= Times(v, pool) < total as real + n as real
    ensures v <= 1.0 ==> total <= pool
    ensures v == 1.0 ==> pool < total + n
  {
    if v <= 1.0 {
      RealMulMonoWeak(v, 1.0, pool as real);
    }
  }

  /** With fractions summing to at most the whole, the remainder is never negative; summing to exactly
      the whole, it is smaller than the number of legs. */
  lemma RemainderBounds(slots: seq<Slot>, pool: nat)
    requires slots != [] && forall s <- slots :: Proper(s)
    ensures ValueSum(slots) <= 1.0 ==> Remainder(slots, pool) >= 0
    ensures ValueSum(slots) == 1.0 ==> 0 <= Remainder(slots, pool) < |slots|
  {
    SharesBounds(slots, pool);
    hide Value, Share, ValueSum, Times;
    WholeBounds(Sum(Shares(slots, pool)), |slots|, ValueSum(slots), pool);
  }

  // ----- narrowing -------------------------------------------------------------------------------------

  lemma {:induction false} SumMinus(xs: seq<int>, ys: seq<int>, d: int)
    requires |xs| == |ys| && forall i :: 0 <= i < |xs| ==> ys[i] == xs[i] - d
    ensures Sum(ys) == Sum(xs) - |xs| * d
  {
    if xs != [] {
      SumMinus(xs[1..], ys[1..], d);
    }
  }

  lemma NetsSum(slots: seq<Slot>, balance: int)
    requires slots != []
    ensures Sum(Nets(slots, balance)) == balance - |slots| * OUTBOUND_FEE
  {
    DistributesExactly(slots, balance);
    SumMinus(Distributed(slots, balance), Nets(slots, balance), OUTBOUND_FEE);
  }

  lemma {:induction false} SomePositive(slots: seq<Slot>, nets: seq<int>)
    requires |slots| == |nets| && Sum(nets) > 0
    ensures KeepPositive(slots, nets) != []
  {
    if nets[0] <= 0 {
      SomePositive(slots[1..], nets[1..]);
    }
  }

  lemma {:induction false} PositiveSum(nets: seq<int>)
    requires nets != [] && forall i :: 0 <= i < |nets| ==> nets[i] > 0
    ensures Sum(nets) > 0
  {
    if |nets| > 1 {
      PositiveSum(nets[1..]);
    }
  }

  /** Whatever the fractions: the survivors are all positive and, with one fee each, take exactly the
      balance; some leg survives whenever the balance exceeds every leg's fee together, and none does
      when it does not exceed a single fee. */
  lemma {:induction false} SurvivorsSettle(slots: seq<Slot>, balance: int)
    ensures var fit := Survivors(slots, balance);
            && |fit| <= |slots|
            && (fit != [] ==>
                  && (forall i :: 0 <= i < |fit| ==> Nets(fit, balance)[i] > 0)
                  && Sum(Nets(fit, balance)) + |fit| * OUTBOUND_FEE == balance)
            && (slots != [] && balance > |slots| * OUTBOUND_FEE ==> fit != [])
            && (balance <= OUTBOUND_FEE ==> fit == [])
    decreases |slots|
  {
    hide Distributed, Nets;
    if slots != [] {
      var nets := Nets(slots, balance);
      NetsSum(slots, balance);
      var kept := KeepPositive(slots, nets);
      if |kept| == |slots| {
        PositiveSum(nets);
      } else {
        SurvivorsSettle(kept, balance);
        if balance > |slots| * OUTBOUND_FEE {
          SomePositive(slots, nets);
        }
      }
    }
  }

  /** A slot list whose indices ascend, as every list narrowing passes through does. */
  ghost predicate Ascending(slots: seq<Slot>) {
    forall i, j :: 0 <= i < j < |slots| ==> slots[i].index < slots[j].index
  }

  lemma {:induction false} KeepPositiveMembers(slots: seq<Slot>, nets: seq<int>)
    requires |slots| == |nets|
    ensures forall s :: s in KeepPositive(slots, nets) <==> exists i :: 0 <= i < |slots| && slots[i] == s && nets[i] > 0
  {
    if slots != [] {
      KeepPositiveMembers(slots[1..], nets[1..]);
      var rest := KeepPositive(slots[1..], nets[1..]);
      var r := KeepPositive(slots, nets);
      forall s ensures s in r <==> exists i :: 0 <= i < |slots| && slots[i] == s && nets[i] > 0 {
        if s in rest {
          var i :| 0 <= i < |slots[1..]| && slots[1..][i] == s && nets[1..][i] > 0;
          assert slots[i + 1] == s && nets[i + 1] > 0;
        }
        if i :| 0 <= i < |slots| && slots[i] == s && nets[i] > 0 {
          if i > 0 {
            assert slots[1..][i - 1] == s && nets[1..][i - 1] > 0;
          }
        }
      }
    }
  }

  lemma {:induction false} KeepPositiveAscends(slots: seq<Slot>, nets: seq<int>)
    requires |slots| == |nets| && Ascending(slots)
    ensures Ascending(KeepPositive(slots, nets))
    ensures forall s <- KeepPositive(slots, nets) :: s in slots
  {
    if slots != [] {
      KeepPositiveAscends(slots[1..], nets[1..]);
      var rest := KeepPositive(slots[1..], nets[1..]);
      forall s | s in rest ensures slots[0].index < s.index {
        assert s in slots[1..];
      }
    }
  }

  method SubtractFees(firing: seq<Leg>, ghost fit: seq<Slot>, balance: int)
    requires firing != [] && |fit| == |firing| && Distinct(firing) && Holds(firing, Distributed(fit, balance))
    modifies firing
    ensures Holds(firing, Nets(fit, balance))
  {
    hide Distributed, Nets;
    ghost var before, nets := Distributed(fit, balance), Nets(fit, balance);
    var i := 0;
    while i < |firing|
      invariant 0 <= i <= |firing|
      invariant forall k :: 0 <= k < |firing| ==> firing[k].amount == if k < i then nets[k] else before[k]
    {
      firing[i].amount := firing[i].amount - OUTBOUND_FEE;
      i := i + 1;
    }
  }

  method ZeroDropped(firing: seq<Leg>, ghost nets: seq<int>)
    requires Distinct(firing) && Holds(firing, nets)
    modifies firing
    ensures forall k :: 0 <= k < |firing| ==> firing[k].amount == if nets[k] <= 0 then 0 else nets[k]
  {
    var i := 0;
    while i < |firing|
      invariant 0 <= i <= |firing|
      invariant forall k :: 0 <= k < |firing| ==> firing[k].amount == if k < i && nets[k] <= 0 then 0 else nets[k]
    {
      if firing[i].amount <= 0 {
        firing[i].amount := 0;
      }
      i := i + 1;
    }
  }

  /** The legs kept from position i on, with the firing position each came from. */
  ghost predicate KeptFrom(firing: seq<Leg>, fit: seq<Slot>, nets: seq<int>, i: nat, next: seq<Leg>, from: seq<nat>)
    requires |fit| == |nets| == |firing| && i <= |firing|
  {
    var kept := KeepPositive(fit[i..], nets[i..]);
    && |next| == |from| == |kept|
    && (forall m :: 0 <= m < |from| ==>
          i <= from[m] < |firing| && next[m] == firing[from[m]] && kept[m] == fit[from[m]])
    && (forall m, n :: 0 <= m < n < |from| ==> from[m] < from[n])
    && (forall k :: i <= k < |firing| && nets[k] > 0 ==> k in from)
  }

  lemma KeptOne(firing: seq<Leg>, fit: seq<Slot>, nets: seq<int>, i: nat, next: seq<Leg>, from: seq<nat>)
    requires |fit| == |nets| == |firing| && 0 < i <= |firing| && KeptFrom(firing, fit, nets, i, next, from)
    requires nets[i - 1] > 0
    ensures KeptFrom(firing, fit, nets, i - 1, [firing[i - 1]] + next, [i - 1] + from)
  {
    assert fit[i - 1..][1..] == fit[i..] && nets[i - 1..][1..] == nets[i..];
    var kept, wider := KeepPositive(fit[i..], nets[i..]), KeepPositive(fit[i - 1..], nets[i - 1..]);
    assert wider == [fit[i - 1]] + kept;
    hide KeepPositive;
    var more, legs := [i - 1] + from, [firing[i - 1]] + next;
    forall m | 0 <= m < |more|
      ensures i - 1 <= more[m] < |firing| && legs[m] == firing[more[m]] && wider[m] == fit[more[m]]
    {
      if m > 0 {
        assert more[m] == from[m - 1] && legs[m] == next[m - 1] && wider[m] == kept[m - 1];
      }
    }
    forall m, n | 0 <= m < n < |more| ensures more[m] < more[n] {
      assert more[n] == from[n - 1];
      if m > 0 {
        assert more[m] == from[m - 1];
      }
    }
    forall k | i - 1 <= k < |firing| && nets[k] > 0 ensures k in more {
      if k > i - 1 {
        var m :| 0 <= m < |from| && from[m] == k;
        assert more[m + 1] == k;
      } else {
        assert more[0] == k;
      }
    }
  }

  lemma KeptNone(firing: seq<Leg>, fit: seq<Slot>, nets: seq<int>, i: nat, next: seq<Leg>, from: seq<nat>)
    requires |fit| == |nets| == |firing| && 0 < i <= |firing| && KeptFrom(firing, fit, nets, i, next, from)
    requires nets[i - 1] <= 0
    ensures KeptFrom(firing, fit, nets, i - 1, next, from)
  {
    assert fit[i - 1..][1..] == fit[i..] && nets[i - 1..][1..] == nets[i..];
    assert KeepPositive(fit[i - 1..], nets[i - 1..]) == KeepPositive(fit[i..], nets[i..]);
    hide KeepPositive;
  }

  /** Keeps the legs with something left, with the firing position each came from. */
  method FilterPositive(firing: seq<Leg>, ghost fit: seq<Slot>, ghost nets: seq<int>)
    returns (next: seq<Leg>, ghost from: seq<nat>)
    requires Describes(fit, firing) && Holds(firing, nets)
    ensures KeptFrom(firing, fit, nets, 0, next, from)
  {
    next, from := [], [];
    var i := |firing|;
    while i > 0
      invariant 0 <= i <= |firing|
      invariant KeptFrom(firing, fit, nets, i, next, from)
    {
      hide KeptFrom;
      i := i - 1;
      if firing[i].amount > 0 {
        KeptOne(firing, fit, nets, i + 1, next, from);
        next, from := [firing[i]] + next, [i] + from;
      } else {
        KeptNone(firing, fit, nets, i + 1, next, from);
      }
    }
  }

  /** All the legs kept: fewer than there were exactly when some could not pay their fee. */
  lemma KeptAll(legs: seq<Leg>, firing: seq<Leg>, fit: seq<Slot>, nets: seq<int>, next: seq<Leg>, from: seq<nat>)
    requires |fit| == |nets| == |firing| && KeptFrom(firing, fit, nets, 0, next, from)
    requires Placed(fit, firing, legs) && Distinct(firing)
    ensures |next| == |from| && Placed(KeepPositive(fit, nets), next, legs) && Distinct(next)
    ensures |next| == |KeepPositive(fit, nets)|
    ensures forall m :: 0 <= m < |next| ==> from[m] < |firing| && next[m] == firing[from[m]]
    ensures forall k :: 0 <= k < |firing| && nets[k] > 0 ==> k in from
    ensures |next| == |firing| ==> next == firing
  {
    assert fit[0..] == fit && nets[0..] == nets;
    var kept := KeepPositive(fit, nets);
    hide KeepPositive;
    NextPlaced(legs, firing, fit, next, kept, from);
    if |next| == |firing| {
      assert kept == fit;
    }
  }

  /** Where each firing leg stands in the full list. */
  ghost predicate Placed(fit: seq<Slot>, firing: seq<Leg>, legs: seq<Leg>) {
    && Describes(fit, firing)
    && forall k :: 0 <= k < |firing| ==> fit[k].index < |legs| && firing[k] == legs[fit[k].index]
  }

  lemma DroppedAreZero(legs: seq<Leg>, firing: seq<Leg>, next: seq<Leg>, from: seq<nat>, nets: seq<int>)
    requires |nets| == |firing| && |next| == |from|
    requires forall k :: 0 <= k < |firing| ==> firing[k].amount == if nets[k] <= 0 then 0 else nets[k]
    requires forall leg <- legs :: leg !in firing ==> leg.amount == 0
    requires forall m :: 0 <= m < |next| ==> from[m] < |firing| && next[m] == firing[from[m]]
    requires forall k :: 0 <= k < |firing| && nets[k] > 0 ==> k in from
    ensures forall leg <- legs :: leg !in next ==> leg.amount == 0
  {
    forall leg | leg in legs && leg !in next ensures leg.amount == 0 {
      if leg in firing {
        var k :| 0 <= k < |firing| && firing[k] == leg;
      }
    }
  }

  lemma NextPlaced(legs: seq<Leg>, firing: seq<Leg>, fit: seq<Slot>, next: seq<Leg>, kept: seq<Slot>, from: seq<nat>)
    requires Placed(fit, firing, legs) && Distinct(firing)
    requires |next| == |kept| == |from|
    requires forall m :: 0 <= m < |next| ==> from[m] < |firing| && next[m] == firing[from[m]] && kept[m] == fit[from[m]]
    requires forall m, n :: 0 <= m < n < |from| ==> from[m] < from[n]
    ensures Placed(kept, next, legs) && Distinct(next)
  {}

  /** One pass of the loop: distribute, take the fees, drop what cannot pay its own. */
  method NarrowOnce(legs: seq<Leg>, firing: seq<Leg>, balance: int, ghost fit: seq<Slot>)
    returns (next: seq<Leg>, ghost kept: seq<Slot>)
    requires firing != [] && Placed(fit, firing, legs) && Distinct(firing)
    requires forall leg <- legs :: leg !in firing ==> leg.amount == 0
    modifies firing
    ensures kept == KeepPositive(fit, Nets(fit, balance)) && Placed(kept, next, legs) && Distinct(next)
    ensures |next| == |firing| ==> Holds(firing, Nets(fit, balance))
    ensures |next| != |firing| ==> forall leg <- legs :: leg !in next ==> leg.amount == 0
    ensures forall leg <- legs :: leg !in firing ==> leg.amount == 0
  {
    hide Distributed, Nets, KeepPositive, KeptFrom;
    PlacedDescribes(fit, firing, legs);
    DistributeExactly(firing, balance, fit);
    SubtractFees(firing, fit, balance);
    ghost var nets := Nets(fit, balance);
    ghost var from;
    next, from := FilterPositive(firing, fit, nets);
    kept := KeepPositive(fit, nets);
    KeptAll(legs, firing, fit, nets, next, from);
    hide Placed, Distinct;
    if |next| != |firing| {
      ZeroDropped(firing, nets);
      DroppedAreZero(legs, firing, next, from, nets);
    }
  }

  lemma PlacedDescribes(fit: seq<Slot>, firing: seq<Leg>, legs: seq<Leg>)
    requires Placed(fit, firing, legs)
    ensures Describes(fit, firing) && |fit| == |firing|
  {}

  /** The narrowing loop. On return the firing legs carry their net amounts and every other leg carries
      exactly zero. */
  method NarrowToFeeCoveredLegs(legs: seq<Leg>, balance: int, ghost slots: seq<Slot>)
    returns (firing: seq<Leg>, ghost fit: seq<Slot>)
    requires Distinct(legs) && Describes(slots, legs)
    requires forall i :: 0 <= i < |slots| ==> slots[i].index == i
    modifies legs
    ensures fit == Survivors(slots, balance) && Placed(fit, firing, legs)
    ensures firing != [] ==> Holds(firing, Nets(fit, balance))
    ensures forall leg <- legs :: leg !in firing ==> leg.amount == 0
  {
    hide Distributed, Nets, KeepPositive;
    firing, fit := legs, slots;
    while |firing| > 0
      invariant Placed(fit, firing, legs) && Distinct(firing)
      invariant Survivors(fit, balance) == Survivors(slots, balance)
      invariant forall leg <- legs :: leg !in firing ==> leg.amount == 0
      decreases |firing|
    {
      var nextFiring, kept := NarrowOnce(legs, firing, balance, fit);
      if |nextFiring| == |firing| {
        return;
      }
      firing, fit := nextFiring, kept;
    }
  }

  // ----- the closed form ----------------------------------------------------------------------------------

  /** The legs that can pay the fee out of their own truncated share, and the top leg. */
  function AboveFee(slots: seq<Slot>, balance: int, top: nat): (r: seq<Slot>)
  {
    if slots == [] then []
    else
      var rest := AboveFee(slots[1..], balance, top);
      if slots[0].index == top || Share(slots[0], balance) > OUTBOUND_FEE then [slots[0]] + rest else rest
  }

  /** How many times narrowing distributes the balance. */
  function Rounds(slots: seq<Slot>, balance: int): nat
    decreases |slots|
  {
    if slots == [] then 0
    else
      var kept := KeepPositive(slots, Nets(slots, balance));
      if |kept| == |slots| then 1 else 1 + Rounds(kept, balance)
  }

  lemma {:induction false} NothingKept(slots: seq<Slot>, nets: seq<int>)
    requires |slots| == |nets| && forall i :: 0 <= i < |nets| ==> nets[i] <= 0
    ensures KeepPositive(slots, nets) == []
  {
    if slots != [] {
      NothingKept(slots[1..], nets[1..]);
    }
  }

  lemma {:induction false} KeptIsAboveFee(slots: seq<Slot>, nets: seq<int>, balance: int, top: nat)
    requires |slots| == |nets|
    requires forall i :: 0 <= i < |slots| ==>
               (nets[i] > 0 <==> slots[i].index == top || Share(slots[i], balance) > OUTBOUND_FEE)
    ensures KeepPositive(slots, nets) == AboveFee(slots, balance, top)
  {
    if slots != [] {
      KeptIsAboveFee(slots[1..], nets[1..], balance, top);
    }
  }

  lemma {:induction false} AboveFeeAll(slots: seq<Slot>, balance: int, top: nat)
    ensures (forall s <- slots :: s.index == top || Share(s, balance) > OUTBOUND_FEE) ==>
              AboveFee(slots, balance, top) == slots
  {
    hide Share;
    if slots != [] {
      AboveFeeAll(slots[1..], balance, top);
      assert slots[0] in slots && slots == [slots[0]] + slots[1..];
    }
  }

  lemma {:induction false} AboveFeeFacts(slots: seq<Slot>, balance: int, top: nat)
    requires Ascending(slots)
    ensures var r := AboveFee(slots, balance, top);
            && Ascending(r)
            && (forall s <- r :: s in slots && (s.index == top || Share(s, balance) > OUTBOUND_FEE))
            && (forall s <- slots :: s.index == top ==> s in r)
            && ((forall s <- slots :: s.index == top || Share(s, balance) > OUTBOUND_FEE) ==> r == slots)
  {
    hide Share;
    AboveFeeAll(slots, balance, top);
    if slots != [] {
      AboveFeeFacts(slots[1..], balance, top);
      var rest := AboveFee(slots[1..], balance, top);
      forall s | s in rest ensures slots[0].index < s.index {
        assert s in slots[1..];
      }
    }
  }

  /** Dropping legs with non-negative shares can only enlarge the remainder. */
  lemma {:induction false} AboveFeeSum(slots: seq<Slot>, balance: int, top: nat)
    requires forall s <- slots :: Share(s, balance) >= 0
    ensures Sum(Shares(AboveFee(slots, balance, top), balance)) <= Sum(Shares(slots, balance))
  {
    if slots != [] {
      hide Share;
      AboveFeeSum(slots[1..], balance, top);
      var r := AboveFee(slots, balance, top);
      assert Shares(slots, balance)[1..] == Shares(slots[1..], balance);
      if r != AboveFee(slots[1..], balance, top) {
        assert r[1..] == AboveFee(slots[1..], balance, top);
        assert Shares(r, balance)[1..] == Shares(r[1..], balance);
      }
    }
  }

  lemma TopIsFirstLargest(slots: seq<Slot>, balance: int, i: nat)
    requires i < |slots|
    ensures var k := Top(slots, balance);
            && Share(slots[i], balance) <= Share(slots[k], balance)
            && (i < k ==> Share(slots[i], balance) < Share(slots[k], balance))
  {
    var xs := Shares(slots, balance);
    assert xs[i] == Share(slots[i], balance);
  }

  /** The leg with the first largest share is the same before and after legs are dropped below it. */
  lemma TopStays(slots: seq<Slot>, kept: seq<Slot>, balance: int)
    requires slots != [] && kept != [] && Ascending(slots) && Ascending(kept)
    requires forall s <- kept :: s in slots
    requires slots[Top(slots, balance)] in kept
    ensures kept[Top(kept, balance)] == slots[Top(slots, balance)]
  {
    hide Share, Top;
    var k, m := Top(slots, balance), Top(kept, balance);
    assert kept[m] in slots;
    var i :| 0 <= i < |slots| && slots[i] == kept[m];
    var j :| 0 <= j < |kept| && kept[j] == slots[k];
    TopIsFirstLargest(slots, balance, i);
    TopIsFirstLargest(kept, balance, j);
    assert i >= k && j >= m;
  }

  /** The net amount of the top leg when every leg fires. */
  function TopNet(slots: seq<Slot>, balance: int): int
    requires slots != []
  {
    Share(slots[Top(slots, balance)], balance) + Remainder(slots, balance) - OUTBOUND_FEE
  }

  lemma NetsAre(slots: seq<Slot>, balance: int, i: nat)
    requires i < |slots|
    ensures Nets(slots, balance)[i]
            == if i == Top(slots, balance) then TopNet(slots, balance) else Share(slots[i], balance) - OUTBOUND_FEE
  {}

  lemma FirstRoundKeeps(slots: seq<Slot>, balance: int)
    requires slots != [] && Ascending(slots)
    requires (forall s <- slots :: Share(s, balance) >= 0) && Remainder(slots, balance) >= 0
    ensures KeepPositive(slots, Nets(slots, balance))
            == if TopNet(slots, balance) <= 0 then []
               else AboveFee(slots, balance, slots[Top(slots, balance)].index)
  {
    hide Distributed;
    var k := Top(slots, balance);
    var nets := Nets(slots, balance);
    var shares := Shares(slots, balance);
    forall i | 0 <= i < |slots|
      ensures nets[i] == if i == k then TopNet(slots, balance) else Share(slots[i], balance) - OUTBOUND_FEE
      ensures Share(slots[i], balance) <= Share(slots[k], balance)
    {
      NetsAre(slots, balance, i);
      assert shares[i] <= shares[k];
    }
    hide Nets, Share, Top;
    if TopNet(slots, balance) <= 0 {
      NothingKept(slots, nets);
    } else {
      KeptIsAboveFee(slots, nets, balance, slots[k].index);
    }
  }

  /** The whole loop in closed form. When the fractions do not exceed the pot, narrowing distributes at
      most twice: nobody is paid exactly when even the top leg, remainder included, cannot cover one
      fee; otherwise exactly the top leg and the legs whose own share exceeds the fee are paid. */
  lemma NarrowingClosedForm(slots: seq<Slot>, balance: int)
    requires slots != [] && Ascending(slots)
    requires (forall s <- slots :: Share(s, balance) >= 0) && Remainder(slots, balance) >= 0
    ensures Survivors(slots, balance)
            == if TopNet(slots, balance) <= 0 then []
               else AboveFee(slots, balance, slots[Top(slots, balance)].index)
    ensures Rounds(slots, balance) <= 2
  {
    FirstRoundKeeps(slots, balance);
    var t := slots[Top(slots, balance)];
    var kept := KeepPositive(slots, Nets(slots, balance));
    if TopNet(slots, balance) > 0 {
      AboveFeeFacts(slots, balance, t.index);
      AboveFeeSum(slots, balance, t.index);
      assert t in kept;
      TopStays(slots, kept, balance);
      FirstRoundKeeps(kept, balance);
      AboveFeeFacts(kept, balance, t.index);
    }
  }

  /** Fractions of a pot: a numerator over a positive denominator each, together at most the whole. */
  ghost predicate Fractions(slots: seq<Slot>) {
    && Ascending(slots)
    && (forall s <- slots :: Proper(s))
    && ValueSum(slots) <= 1.0
  }

  /** For every list of fractions: some leg is paid if and only if the top leg's share, with the
      remainder, exceeds one fee. */
  lemma PaysSomebodyIff(slots: seq<Slot>, balance: nat)
    requires slots != [] && Fractions(slots)
    ensures Survivors(slots, balance) != [] <==> TopNet(slots, balance) > 0
    ensures Rounds(slots, balance) <= 2
  {
    forall s | s in slots ensures Share(s, balance) >= 0 {
      ShareBounds(s, balance);
    }
    RemainderBounds(slots, balance);
    NarrowingClosedForm(slots, balance);
    var t := slots[Top(slots, balance)];
    assert t in slots;
    hide Share;
    AboveFeeFacts(slots, balance, t.index);
  }

  /** A leg left on its own takes the whole balance, so alone it is paid whenever the balance exceeds
      one fee. */
  lemma AloneIsPaidIff(s: Slot, balance: int)
    ensures Survivors([s], balance) != [] <==> balance > OUTBOUND_FEE
  {
    SurvivorsSettle([s], balance);
  }

  /** What the comment on narrowToFeeCoveredLegs says of an empty result: no leg could pay its fee alone. */
  ghost predicate EmptyMeansNoneCouldPay(slots: seq<Slot>, balance: int) {
    Survivors(slots, balance) == [] ==> forall s <- slots :: Survivors([s], balance) == []
  }

  /** The comment is right about a list of fractions if and only if the top leg clears its fee in the split, or
      the whole balance is no more than one fee. */
  lemma CommentHoldsIff(slots: seq<Slot>, balance: nat)
    requires slots != [] && Fractions(slots)
    ensures EmptyMeansNoneCouldPay(slots, balance) <==> TopNet(slots, balance) > 0 || balance <= OUTBOUND_FEE
  {
    PaysSomebodyIff(slots, balance);
    hide Survivors, TopNet, Fractions;
    forall s | s in slots ensures Survivors([s], balance) == [] <==> balance <= OUTBOUND_FEE {
      AloneIsPaidIff(s, balance);
    }
    assert slots[0] in slots;
  }

  /** So an empty result does not mean that no leg could pay its fee alone: two equal halves of 9000
      kobo drop each other. */
  lemma BothHalvesDropThoughEachCouldPay()
    ensures var halves := [Slot(0, 1, 2), Slot(1, 1, 2)];
            && Fractions(halves)
            && Survivors(halves, 9000) == []
            && forall s <- halves :: Survivors([s], 9000) != []
  {
    var halves := [Slot(0, 1, 2), Slot(1, 1, 2)];
    assert halves[1..][1..] == [];
    assert ValueSum(halves[1..]) == 0.5;
    assert Shares(halves[1..], 9000) == [4500];
    assert Shares(halves, 9000) == [4500, 4500];
    assert Sum([4500, 4500][1..]) == 4500;
    assert TopNet(halves, 9000) == 4500 + 0 - OUTBOUND_FEE;
    PaysSomebodyIff(halves, 9000);
    forall s | s in halves ensures Survivors([s], 9000) != [] {
      AloneIsPaidIff(s, 9000);
    }
  }
}
