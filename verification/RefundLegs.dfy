/** Who a contributors' refund goes to: what legs each contributor's group gets, and what they are worth. */
module RefundLegs {
  import opened Wrappers
  import opened RefundSplit
  import opened ContributorsRefund
  import Bigint

  // ----- what a group is due -------------------------------------------------------------------------------

  function Fraction(a: int, b: int): real
    requires b > 0
  {
    a as real / b as real
  }

  /** A part of a fraction. */
  function PartOf(q: real, whole: real): real {
    q * whole
  }

  /** A group's share of the balance in whole kobo. */
  function ShareOf(g: Group, total: nat, balance: nat): int
    requires total > 0
  {
    Contributed(g.rows) * balance / total
  }

  /** The payment's part of the share is at least one kobo. */
  predicate WorthSending(p: int, share: int, paid: int) {
    p * share >= paid
  }

  function Sendable(payments: seq<int>, share: int, paid: int): seq<int> {
    if payments == [] then []
    else (if WorthSending(payments[0], share, paid) then [payments[0]] else []) + Sendable(payments[1..], share, paid)
  }

  /** One leg for each of these payments, in order, worth the payment's part of the group's fraction of the pot. */
  ghost predicate OneEach(part: seq<Slot>, sent: seq<int>, paid: int, whole: real)
    requires paid > 0
  {
    && |part| == |sent|
    && forall m :: 0 <= m < |part| ==> Proper(part[m]) && Value(part[m]) == PartOf(Fraction(sent[m], paid), whole)
  }

  /** What a group gets: nothing if its share is nothing, one leg to the account on file, or a leg for each payment
      worth sending back where it came from. */
  ghost predicate GroupServed(part: seq<Slot>, g: Group, total: nat, balance: nat)
    requires g.rows != [] && total > 0
  {
    var whole := Fraction(Contributed(g.rows), total);
    var share := ShareOf(g, total, balance);
    var payments := PaymentsOf(g.rows);
    if share <= 0 then part == []
    else if g.rows[0].hasRefundAccount then |part| == 1 && Proper(part[0]) && Value(part[0]) == whole
    else Sum(payments) > 0 && OneEach(part, Sendable(payments, share, Sum(payments)), Sum(payments), whole)
  }

  /** A group with a share, no account on file and nothing paid in cannot be refunded. */
  predicate Unrefundable(g: Group, total: nat, balance: nat)
    requires g.rows != [] && total > 0
  {
    ShareOf(g, total, balance) > 0 && !g.rows[0].hasRefundAccount && Sum(PaymentsOf(g.rows)) == 0
  }

  function RefusalOf(g: Group): RefundError {
    if forall row <- g.rows :: row.payments == [] then NoRecordedPayments(g.key) else DivisionByZero
  }

  function Concat(parts: seq<seq<Slot>>): seq<Slot> {
    if parts == [] then [] else parts[0] + Concat(parts[1..])
  }

  /** The legs are these parts one after the other, one part for each group, and each group is served by its own. */
  ghost predicate ServedBy(parts: seq<seq<Slot>>, legs: seq<Slot>, groups: seq<Group>, total: nat, balance: nat)
    requires total > 0 && forall g <- groups :: g.rows != []
  {
    && legs == Concat(parts) && |parts| == |groups|
    && forall k :: 0 <= k < |groups| ==> GroupServed(parts[k], groups[k], total, balance)
  }

  ghost predicate Served(legs: seq<Slot>, groups: seq<Group>, total: nat, balance: nat)
    requires total > 0 && forall g <- groups :: g.rows != []
  {
    exists parts :: ServedBy(parts, legs, groups, total, balance)
  }

  // ----- the legs of one group -----------------------------------------------------------------------------

  lemma TruncatedIff(a: nat, b: nat)
    requires b > 0
    ensures Bigint.Div(a, b) <= 0 <==> a < b
  {}

  /** The payments of a group are those of its rows, one row after the other. */
  lemma {:induction false} PaymentsOfEach(rows: seq<FundedRow>, i: nat)
    requires i < |rows|
    ensures PaymentsOf(rows) == PaymentsOf(rows[..i]) + rows[i].payments + PaymentsOf(rows[i + 1..])
    ensures PaymentsOf([]) == []
  {
    if i == 0 {
      assert rows[..0] == [];
    } else {
      PaymentsOfEach(rows[1..], i - 1);
      assert rows[1..][..i - 1] == rows[..i][1..] && rows[1..][i..] == rows[i + 1..];
      assert PaymentsOf(rows[..i]) == rows[0].payments + PaymentsOf(rows[..i][1..]);
    }
  }

  lemma {:induction false} NoPaymentsIff(rows: seq<FundedRow>)
    ensures PaymentsOf(rows) == [] <==> forall row <- rows :: row.payments == []
  {
    if rows != [] {
      NoPaymentsIff(rows[1..]);
      assert forall row :: row in rows <==> row == rows[0] || row in rows[1..];
    }
  }

  lemma ProductOfFractions(p: nat, contributed: nat, paid: nat, total: nat)
    requires paid > 0 && total > 0
    ensures p * contributed >= 0 && paid * total > 0
    ensures Value(Slot(0, p * contributed, paid * total)) == PartOf(Fraction(p, paid), Fraction(contributed, total))
  {
    PaymentValue(p, contributed, paid, total);
    var rp, rc, rn, rt := p as real, contributed as real, paid as real, total as real;
    assert rn * rt > 0.0;
    QuotientsTimes(rp, rc, rn, rt);
  }

  lemma QuotientsTimes(a: real, b: real, c: real, d: real)
    requires c > 0.0 && d > 0.0 && c * d > 0.0
    ensures a * (b / (c * d)) == (a / c) * (b / d)
  {
    var x, y := a / c, b / d;
    assert a == x * c && b == y * d;
    assert a * b == (x * y) * (c * d);
  }

  /** One payment's leg, if it is worth sending. */
  lemma PaymentGets(legs: seq<Slot>, p: nat, share: nat, contributed: nat, paid: nat, total: nat)
    requires paid > 0 && total > 0
    ensures var next := AddPayment(legs, p, share, contributed, paid, total);
            if WorthSending(p, share, paid) then
              && |next| == |legs| + 1 && next[..|legs|] == legs && Proper(next[|legs|])
              && Value(next[|legs|]) == PartOf(Fraction(p, paid), Fraction(contributed, total))
            else next == legs
  {
    hide Fraction, Value, PartOf;
    NatTimes(p, share);
    TruncatedIff(p * share, paid);
    ProductOfFractions(p, contributed, paid, total);
    SameValue(Slot(0, p * contributed, paid * total), |legs|);
  }

  lemma OneMore(one: Slot, rest: seq<Slot>, p: int, sent: seq<int>, paid: int, whole: real)
    requires paid > 0 && Proper(one) && Value(one) == PartOf(Fraction(p, paid), whole)
    requires OneEach(rest, sent, paid, whole)
    ensures OneEach([one] + rest, [p] + sent, paid, whole)
  {
    hide Fraction, Value, PartOf;
  }

  lemma {:induction false} PaymentsGet(legs: seq<Slot>, payments: seq<int>, share: nat, contributed: nat,
                                       paid: nat, total: nat)
    requires paid > 0 && total > 0 && forall p <- payments :: p >= 0
    ensures var more := AddPayments(legs, payments, share, contributed, paid, total);
            && |legs| <= |more| && more[..|legs|] == legs
            && OneEach(more[|legs|..], Sendable(payments, share, paid), paid, Fraction(contributed, total))
    decreases |payments|
  {
    hide Fraction, Value, AddPayment, WorthSending, PartOf;
    if payments != [] {
      var p := payments[0];
      assert p in payments && forall x <- payments[1..] :: x in payments;
      PaymentGets(legs, p, share, contributed, paid, total);
      var next := AddPayment(legs, p, share, contributed, paid, total);
      PaymentsGet(next, payments[1..], share, contributed, paid, total);
      var more := AddPayments(legs, payments, share, contributed, paid, total);
      var rest := Sendable(payments[1..], share, paid);
      hide OneEach, AddPayments;
      assert more[..|legs|] == more[..|next|][..|legs|];
      if WorthSending(p, share, paid) {
        assert more[|legs|] == more[..|next|][|legs|] == next[|legs|];
        OneMore(next[|legs|], more[|next|..], p, rest, paid, Fraction(contributed, total));
        assert more[|legs|..] == [next[|legs|]] + more[|next|..];
      } else {
        assert Sendable(payments, share, paid) == [] + rest == rest;
      }
    }
  }

  lemma SameValue(s: Slot, index: nat)
    requires Proper(s)
    ensures Value(s.(index := index)) == Value(s)
  {}

  lemma GroupGets(legs: seq<Slot>, g: Group, total: nat, balance: nat)
    requires g.rows != [] && total > 0 && PaidIn(g.rows)
    ensures var r := AddGroup(legs, g, total, balance);
            && (r.Failure? <==> Unrefundable(g, total, balance))
            && (r.Failure? ==> r.error == RefusalOf(g))
            && (r.Success? ==>
                  && |legs| <= |r.value| && r.value[..|legs|] == legs
                  && GroupServed(r.value[|legs|..], g, total, balance))
  {
    PaymentsOfNonNegative(g.rows);
    NoPaymentsIff(g.rows);
    var contributed, payments := Contributed(g.rows), PaymentsOf(g.rows);
    SumNonNegative(payments);
    hide PaidIn, PaymentsOf, AddPayments, Sendable, OneEach, Contributed;
    assert contributed * balance >= 0;
    assert Bigint.Div(contributed * balance, total) == ShareOf(g, total, balance);
    if Sum(payments) > 0 {
      PaymentsGet(legs, payments, ShareOf(g, total, balance), contributed, Sum(payments), total);
    }
    assert payments == [] ==> Sum(payments) == 0;
  }

  // ----- all groups ----------------------------------------------------------------------------------------

  lemma {:induction false} GroupsGet(legs: seq<Slot>, groups: seq<Group>, total: nat, balance: nat)
      returns (parts: seq<seq<Slot>>)
    requires total > 0 && forall g <- groups :: g.rows != [] && PaidIn(g.rows)
    requires AddGroups(legs, groups, total, balance).Success?
    ensures |parts| == |groups| && AddGroups(legs, groups, total, balance).value == legs + Concat(parts)
    ensures forall k :: 0 <= k < |groups| ==> GroupServed(parts[k], groups[k], total, balance)
    decreases |groups|
  {
    hide AddGroup, GroupServed, PaidIn;
    if groups == [] {
      parts := [];
      assert legs + Concat(parts) == legs;
    } else {
      assert groups[0] in groups && forall g <- groups[1..] :: g in groups;
      GroupGets(legs, groups[0], total, balance);
      var added := AddGroup(legs, groups[0], total, balance).value;
      var rest := GroupsGet(added, groups[1..], total, balance);
      var part := added[|legs|..];
      assert added == legs + part;
      parts := [part] + rest;
      assert parts[1..] == rest;
      assert legs + (part + Concat(rest)) == legs + part + Concat(rest);
    }
  }

  lemma {:induction false} GroupsRefusedIff(legs: seq<Slot>, groups: seq<Group>, total: nat, balance: nat)
    requires total > 0 && forall g <- groups :: g.rows != [] && PaidIn(g.rows)
    ensures AddGroups(legs, groups, total, balance).Failure? <==>
              exists k :: 0 <= k < |groups| && Unrefundable(groups[k], total, balance)
    ensures forall k :: 0 <= k < |groups| && Unrefundable(groups[k], total, balance)
                        && (forall j :: 0 <= j < k ==> !Unrefundable(groups[j], total, balance)) ==>
              AddGroups(legs, groups, total, balance) == Failure(RefusalOf(groups[k]))
    decreases |groups|
  {
    hide AddGroup, GroupServed, PaidIn, Unrefundable, RefusalOf;
    if groups != [] {
      assert groups[0] in groups && forall g <- groups[1..] :: g in groups;
      GroupGets(legs, groups[0], total, balance);
      if !Unrefundable(groups[0], total, balance) {
        var added := AddGroup(legs, groups[0], total, balance).value;
        GroupsRefusedIff(added, groups[1..], total, balance);
        assert forall k :: 0 < k < |groups| ==> groups[k] == groups[1..][k - 1];
      }
    }
  }

  /** Every contributor is served as the refund promises, or it is refused because of the first who cannot be. */
  lemma EveryContributorServed(rows: seq<FundedRow>, groups: seq<Group>, balance: nat)
    requires rows != [] && PaidIn(rows) && Grouped(rows, groups)
    ensures Contributed(rows) > 0 && forall g <- groups :: g.rows != []
    ensures var total := Contributed(rows);
            var built := AddGroups([], groups, total, balance);
            && (built.Success? ==> Served(built.value, groups, total, balance))
            && (built.Failure? <==> exists k :: 0 <= k < |groups| && Unrefundable(groups[k], total, balance))
            && (forall k :: 0 <= k < |groups| && Unrefundable(groups[k], total, balance)
                            && (forall j :: 0 <= j < k ==> !Unrefundable(groups[j], total, balance)) ==>
                  built == Failure(RefusalOf(groups[k])))
  {
    PaymentsOfNonNegative(rows);
    GroupsPaidIn(rows, groups);
    var total := Contributed(rows);
    hide AddGroups, PaidIn, Grouped, Contributed, GroupServed, Unrefundable, RefusalOf;
    GroupsRefusedIff([], groups, total, balance);
    var built := AddGroups([], groups, total, balance);
    if built.Success? {
      var parts := GroupsGet([], groups, total, balance);
      assert [] + Concat(parts) == Concat(parts);
      assert ServedBy(parts, built.value, groups, total, balance);
    }
  }

  // ----- what the legs are worth ---------------------------------------------------------------------------

  /** Nothing of the group's fraction truncates away. */
  predicate GroupWhole(g: Group, total: nat, balance: nat)
    requires g.rows != [] && total > 0
  {
    var share, payments := ShareOf(g, total, balance), PaymentsOf(g.rows);
    && share > 0
    && (g.rows[0].hasRefundAccount || forall p <- payments :: p == 0 || WorthSending(p, share, Sum(payments)))
  }

  lemma SumOf(x: int, xs: seq<int>)
    ensures Sum([x] + xs) == x + Sum(xs)
  {
    assert ([x] + xs)[1..] == xs;
  }

  lemma {:induction false} SendableSum(payments: seq<int>, share: int, paid: int)
    requires forall p <- payments :: p >= 0
    ensures 0 <= Sum(Sendable(payments, share, paid)) <= Sum(payments)
    ensures Sum(Sendable(payments, share, paid)) == Sum(payments)
            <==> forall p <- payments :: p == 0 || WorthSending(p, share, paid)
  {
    if payments != [] {
      var p, rest := payments[0], payments[1..];
      assert p in payments && forall x <- rest :: x in payments;
      assert forall x :: x in payments <==> x == p || x in rest;
      SendableSum(rest, share, paid);
      SumOf(p, Sendable(rest, share, paid));
      assert [] + Sendable(rest, share, paid) == Sendable(rest, share, paid);
    }
  }

  lemma {:induction false} OneEachValue(part: seq<Slot>, sent: seq<int>, paid: nat, whole: real)
    requires paid > 0 && OneEach(part, sent, paid, whole)
    ensures forall s <- part :: Proper(s)
    ensures ValueSum(part) == PartOf(Fraction(Sum(sent), paid), whole)
  {
    hide Value, Fraction, Proper, PartOf;
    if part == [] {
      NoFraction(paid, whole);
    } else {
      assert OneEach(part[1..], sent[1..], paid, whole);
      OneEachValue(part[1..], sent[1..], paid, whole);
      FractionsAdd(sent[0], Sum(sent[1..]), paid, whole);
      assert forall s :: s in part <==> s == part[0] || s in part[1..];
    }
  }

  lemma NoFraction(d: nat, w: real)
    requires d > 0
    ensures PartOf(Fraction(0, d), w) == 0.0
  {}

  lemma FractionsAdd(a: int, b: int, d: nat, w: real)
    requires d > 0
    ensures PartOf(Fraction(a, d), w) + PartOf(Fraction(b, d), w) == PartOf(Fraction(a + b, d), w)
  {
    var x, y := Fraction(a, d), Fraction(b, d);
    AddQuotients(a as real, b as real, d as real);
    assert x + y == Fraction(a + b, d);
    assert x * w + y * w == (x + y) * w;
  }

  lemma PartOfWhole(n: nat, d: nat, w: real)
    requires 0 < d && n <= d && w > 0.0
    ensures PartOf(Fraction(n, d), w) <= w && (PartOf(Fraction(n, d), w) == w <==> n == d)
  {
    var q := Fraction(n, d);
    AtMostOne(n as real, d as real);
    hide Fraction;
    assert w - q * w == (1.0 - q) * w;
  }

  lemma FanOutValueIff(part: seq<Slot>, payments: seq<int>, share: int, whole: real)
    requires (forall p <- payments :: p >= 0) && Sum(payments) > 0 && whole > 0.0
    requires OneEach(part, Sendable(payments, share, Sum(payments)), Sum(payments), whole)
    ensures forall s <- part :: Proper(s)
    ensures ValueSum(part) <= whole
    ensures ValueSum(part) == whole <==> forall p <- payments :: p == 0 || WorthSending(p, share, Sum(payments))
  {
    hide OneEach, Fraction, Value, Proper, WorthSending, PartOf;
    var sent := Sendable(payments, share, Sum(payments));
    SendableSum(payments, share, Sum(payments));
    OneEachValue(part, sent, Sum(payments), whole);
    PartOfWhole(Sum(sent), Sum(payments), whole);
  }

  lemma AtMostOne(n: real, d: real)
    requires 0.0 < d && n <= d
    ensures n / d <= 1.0 && (n / d == 1.0 <==> n == d)
  {
    var q := n / d;
    assert q * d == n;
    assert (1.0 - q) * d == d - n;
    SignOfProduct(1.0 - q, d);
  }

  lemma SignOfProduct(x: real, d: real)
    requires d > 0.0
    ensures x * d >= 0.0 <==> x >= 0.0
    ensures x * d == 0.0 <==> x == 0.0
  {}

  lemma GroupValueIff(part: seq<Slot>, g: Group, total: nat, balance: nat)
    requires g.rows != [] && total > 0 && PaidIn(g.rows) && GroupServed(part, g, total, balance)
    ensures forall s <- part :: Proper(s)
    ensures var whole := Fraction(Contributed(g.rows), total);
            && ValueSum(part) <= whole
            && (ValueSum(part) == whole <==> GroupWhole(g, total, balance))
  {
    hide PaymentsOf, Contributed, Value, OneEach, Sendable, Sum, Fraction, PaidIn, PartOf;
    PaymentsOfNonNegative(g.rows);
    var payments, share := PaymentsOf(g.rows), ShareOf(g, total, balance);
    var whole := Fraction(Contributed(g.rows), total);
    PositiveFraction(Contributed(g.rows), total);
    if share > 0 && g.rows[0].hasRefundAccount {
      assert part == [part[0]];
      ValueSumOne(part[0]);
    } else if share > 0 {
      FanOutValueIff(part, payments, share, whole);
    }
  }

  lemma PositiveFraction(n: nat, d: nat)
    requires n > 0 && d > 0
    ensures Fraction(n, d) > 0.0
  {}

  lemma FractionOfSum(a: int, b: int, d: nat)
    requires d > 0
    ensures Fraction(a, d) + Fraction(b, d) == Fraction(a + b, d) && Fraction(0, d) == 0.0
  {
    AddQuotients(a as real, b as real, d as real);
  }

  lemma {:induction false} ServedValueIff(parts: seq<seq<Slot>>, groups: seq<Group>, total: nat, balance: nat)
    requires total > 0 && (forall g <- groups :: g.rows != [] && PaidIn(g.rows)) && |parts| == |groups|
    requires forall k :: 0 <= k < |groups| ==> GroupServed(parts[k], groups[k], total, balance)
    ensures forall s <- Concat(parts) :: Proper(s)
    ensures ValueSum(Concat(parts)) <= Fraction(GroupsTotal(groups), total)
    ensures ValueSum(Concat(parts)) == Fraction(GroupsTotal(groups), total)
            <==> forall g <- groups :: GroupWhole(g, total, balance)
    decreases |groups|
  {
    hide PaidIn, GroupServed, GroupWhole, Contributed, Value, Fraction, Proper;
    if groups == [] {
      FractionOfSum(0, 0, total);
    } else {
      assert groups[0] in groups && forall g <- groups[1..] :: g in groups;
      GroupValueIff(parts[0], groups[0], total, balance);
      ServedValueIff(parts[1..], groups[1..], total, balance);
      ValueSumAppend(parts[0], Concat(parts[1..]));
      FractionOfSum(Contributed(groups[0].rows), GroupsTotal(groups[1..]), total);
      assert forall g :: g in groups <==> g == groups[0] || g in groups[1..];
      assert Concat(parts) == parts[0] + Concat(parts[1..]);
      assert GroupsTotal(groups) == Contributed(groups[0].rows) + GroupsTotal(groups[1..]);
      hide Concat, ValueSum, GroupsTotal;
    }
  }

  /** The legs are worth the whole pot if and only if no contributor's share, and no payment's part of one, truncates
      away; otherwise less. */
  lemma WorthTheWholeIff(rows: seq<FundedRow>, groups: seq<Group>, balance: nat)
    requires rows != [] && PaidIn(rows) && Grouped(rows, groups)
    requires Contributed(rows) > 0
    requires AddGroups([], groups, Contributed(rows), balance).Success?
    ensures var total := Contributed(rows);
            var legs := AddGroups([], groups, total, balance).value;
            && (forall s <- legs :: Proper(s))
            && ValueSum(legs) <= 1.0
            && (ValueSum(legs) == 1.0 <==> forall g <- groups :: GroupWhole(g, total, balance))
  {
    hide AddGroups, PaidIn, Contributed, GroupWhole, GroupServed, Value, Fraction, Proper, RowsOf;
    var total: nat := Contributed(rows);
    GroupsPaidIn(rows, groups);
    assert GroupsTotal(groups) == total;
    EveryContributorServed(rows, groups, balance);
    var legs := AddGroups([], groups, total, balance).value;
    var parts :| ServedBy(parts, legs, groups, total, balance);
    ServedValueIff(parts, groups, total, balance);
    WholeFraction(total);
  }

  lemma WholeFraction(n: nat)
    requires n > 0
    ensures Fraction(n, n) == 1.0
  {}
}
