/** How a contributors' refund builds its legs, and what each leg ends up with. */
module ContributorsRefund {
  import opened Wrappers
  import opened Fees
  import opened RefundSplit
  import Bigint

  // ----- the amounts narrowing leaves, leg by leg -----------------------------------------------------

  function NetAt(fit: seq<Slot>, nets: seq<int>, index: nat): int
    requires |fit| == |nets|
  {
    if fit == [] then 0
    else if fit[0].index == index then nets[0]
    else NetAt(fit[1..], nets[1..], index)
  }

  /** The nets put back in the place of the legs they belong to, zero everywhere else. */
  function Scatter(n: nat, fit: seq<Slot>, nets: seq<int>): (r: seq<int>)
    requires |fit| == |nets|
    ensures |r| == n
    ensures forall i :: 0 <= i < n ==> r[i] == NetAt(fit, nets, i)
  {
    seq(n, i requires 0 <= i < n => NetAt(fit, nets, i))
  }

  /** Every leg's final amount, in the order of the legs. */
  function FinalAmounts(slots: seq<Slot>, balance: int): (r: seq<int>)
    ensures |r| == |slots|
  {
    var fit := Survivors(slots, balance);
    Scatter(|slots|, fit, if fit == [] then [] else Nets(fit, balance))
  }

  /** What paying a list of legs draws from the pot: a leg left at zero is never sent. */
  function Demand(amounts: seq<int>): int {
    if amounts == [] then 0
    else (if amounts[0] > 0 then amounts[0] + OUTBOUND_FEE else 0) + Demand(amounts[1..])
  }

  lemma {:induction false} DemandUpdate(xs: seq<int>, k: nat, v: int)
    requires k < |xs| && xs[k] == 0 && v > 0
    ensures Demand(xs[k := v]) == Demand(xs) + v + OUTBOUND_FEE
  {
    var ys := xs[k := v];
    if k == 0 {
      assert ys[1..] == xs[1..];
    } else {
      assert ys[1..] == xs[1..][k - 1 := v];
      DemandUpdate(xs[1..], k - 1, v);
    }
  }

  lemma {:induction false} DemandOfZeros(xs: seq<int>)
    requires forall i :: 0 <= i < |xs| ==> xs[i] == 0
    ensures Demand(xs) == 0
  {
    if xs != [] {
      DemandOfZeros(xs[1..]);
    }
  }

  lemma {:induction false} NetAtAbsent(fit: seq<Slot>, nets: seq<int>, index: nat)
    requires |fit| == |nets| && forall s <- fit :: s.index != index
    ensures NetAt(fit, nets, index) == 0
  {
    if fit != [] {
      assert fit[0] in fit;
      NetAtAbsent(fit[1..], nets[1..], index);
    }
  }

  lemma {:induction false} NetAtPresent(fit: seq<Slot>, nets: seq<int>, k: nat)
    requires |fit| == |nets| && k < |fit| && Ascending(fit)
    ensures NetAt(fit, nets, fit[k].index) == nets[k]
  {
    if k > 0 {
      NetAtPresent(fit[1..], nets[1..], k - 1);
    }
  }

  lemma {:induction false} ScatterDemand(n: nat, fit: seq<Slot>, nets: seq<int>)
    requires |fit| == |nets| && Ascending(fit) && forall s <- fit :: s.index < n
    requires forall i :: 0 <= i < |nets| ==> nets[i] > 0
    ensures Demand(Scatter(n, fit, nets)) == Sum(nets) + |nets| * OUTBOUND_FEE
  {
    var r := Scatter(n, fit, nets);
    if fit == [] {
      DemandOfZeros(r);
    } else {
      var rest := Scatter(n, fit[1..], nets[1..]);
      ScatterDemand(n, fit[1..], nets[1..]);
      NetAtAbsent(fit[1..], nets[1..], fit[0].index);
      assert fit[0] in fit;
      assert r == rest[fit[0].index := nets[0]];
      DemandUpdate(rest, fit[0].index, nets[0]);
    }
  }

  lemma {:induction false} SurvivorsAreSlots(slots: seq<Slot>, balance: int)
    requires Ascending(slots)
    ensures Ascending(Survivors(slots, balance))
    ensures forall s <- Survivors(slots, balance) :: s in slots
    decreases |slots|
  {
    if slots != [] {
      hide Nets;
      var kept := KeepPositive(slots, Nets(slots, balance));
      KeepPositiveAscends(slots, Nets(slots, balance));
      if |kept| < |slots| {
        SurvivorsAreSlots(kept, balance);
      }
    }
  }

  /** The slots of a leg list: each leg's fraction and its own position. */
  ghost predicate InPlace(slots: seq<Slot>) {
    forall i :: 0 <= i < |slots| ==> slots[i].index == i
  }

  lemma NetAtNonNegative(fit: seq<Slot>, nets: seq<int>, index: nat)
    requires |fit| == |nets| && forall i :: 0 <= i < |nets| ==> nets[i] > 0
    ensures NetAt(fit, nets, index) >= 0
  {
    if fit != [] && fit[0].index != index {
      NetAtNonNegative(fit[1..], nets[1..], index);
    }
  }

  lemma SurvivorsInRange(slots: seq<Slot>, balance: int)
    requires InPlace(slots)
    ensures Ascending(Survivors(slots, balance))
    ensures forall s <- Survivors(slots, balance) :: s.index < |slots|
  {
    SurvivorsAreSlots(slots, balance);
    forall s | s in Survivors(slots, balance) ensures s.index < |slots| {
      var i :| 0 <= i < |slots| && slots[i] == s;
    }
  }

  /** No leg ends below zero, and the legs paid draw exactly the whole balance, or nothing at all. */
  lemma RefundDrainsOrNothing(slots: seq<Slot>, balance: int)
    requires InPlace(slots)
    ensures forall i :: 0 <= i < |slots| ==> FinalAmounts(slots, balance)[i] >= 0
    ensures Demand(FinalAmounts(slots, balance)) == if Survivors(slots, balance) == [] then 0 else balance
    ensures Survivors(slots, balance) != [] ==> exists i :: 0 <= i < |slots| && FinalAmounts(slots, balance)[i] > 0
  {
    SurvivorsSettle(slots, balance);
    SurvivorsInRange(slots, balance);
    hide Nets, Survivors, InPlace;
    var fit := Survivors(slots, balance);
    var nets := if fit == [] then [] else Nets(fit, balance);
    ScatterDemand(|slots|, fit, nets);
    forall i | 0 <= i < |slots| ensures FinalAmounts(slots, balance)[i] >= 0 {
      NetAtNonNegative(fit, nets, i);
    }
    if fit != [] {
      assert fit[0] in fit;
      NetAtPresent(fit, nets, 0);
      assert FinalAmounts(slots, balance)[fit[0].index] > 0;
    }
  }

  lemma KeptAmount(slots: seq<Slot>, balance: int, j: nat)
    requires InPlace(slots) && j < |Survivors(slots, balance)|
    ensures var fit := Survivors(slots, balance);
            && fit[j].index < |slots|
            && FinalAmounts(slots, balance)[fit[j].index] == Nets(fit, balance)[j]
            && Nets(fit, balance)[j] > 0 && Ascending(fit)
  {
    SurvivorsInRange(slots, balance);
    SurvivorsSettle(slots, balance);
    hide Survivors, Nets, InPlace;
    var fit := Survivors(slots, balance);
    assert fit[j] in fit;
    NetAtPresent(fit, Nets(fit, balance), j);
    hide Ascending;
  }

  lemma DroppedAmount(slots: seq<Slot>, balance: int, k: nat)
    requires InPlace(slots) && k < |slots| && slots[k] !in Survivors(slots, balance)
    ensures FinalAmounts(slots, balance)[k] == 0
  {
    SurvivorsAreSlots(slots, balance);
    hide Survivors, Nets, Ascending;
    var fit := Survivors(slots, balance);
    forall s | s in fit ensures s.index != k {
      var i :| 0 <= i < |slots| && slots[i] == s;
    }
    NetAtAbsent(fit, if fit == [] then [] else Nets(fit, balance), k);
  }

  /** What each leg ends up with: nothing if it was narrowed away, and otherwise its own share of the balance less one
      fee, the one with the largest share taking what rounding left over as well. */
  lemma EachLegsAmount(slots: seq<Slot>, balance: int, k: nat)
    requires InPlace(slots) && k < |slots|
    ensures var (fit, amount) := (Survivors(slots, balance), FinalAmounts(slots, balance)[k]);
            if slots[k] !in fit then amount == 0
            else
              && amount > 0
              && amount == Share(slots[k], balance) - OUTBOUND_FEE
                           + if fit[Top(fit, balance)].index == k then Remainder(fit, balance) else 0
  {
    hide Survivors, Share, Top, Remainder, Nets, FinalAmounts;
    var fit := Survivors(slots, balance);
    if slots[k] in fit {
      var j :| 0 <= j < |fit| && fit[j] == slots[k];
      KeptAmount(slots, balance, j);
      NetsAre(fit, balance, j);
      OwnIndex(fit, j, Top(fit, balance));
      hide Ascending;
    } else {
      DroppedAmount(slots, balance, k);
    }
  }

  lemma OwnIndex(fit: seq<Slot>, i: nat, j: nat)
    requires Ascending(fit) && i < |fit| && j < |fit|
    ensures fit[i].index == fit[j].index <==> i == j
  {}

  /** narrowToFeeCoveredLegs as its caller uses it: every leg of the list carries its final amount. */
  method Narrow(legs: seq<Leg>, balance: int, ghost slots: seq<Slot>) returns (firing: seq<Leg>)
    requires Distinct(legs) && Describes(slots, legs) && InPlace(slots)
    modifies legs
    ensures Holds(legs, FinalAmounts(slots, balance))
    ensures firing == [] <==> Survivors(slots, balance) == []
  {
    hide Nets, Survivors;
    ghost var fit;
    firing, fit := NarrowToFeeCoveredLegs(legs, balance, slots);
    SurvivorsAreSlots(slots, balance);
    ghost var nets := if fit == [] then [] else Nets(fit, balance);
    forall i | 0 <= i < |legs| ensures legs[i].amount == NetAt(fit, nets, i) {
      if k :| 0 <= k < |fit| && fit[k].index == i {
        NetAtPresent(fit, nets, k);
      } else {
        NetAtAbsent(fit, nets, i);
        assert legs[i] in legs;
        assert legs[i] !in firing;
      }
    }
  }

  // ----- grouping funded contributions ------------------------------------------------------------------

  /** A funded contribution, with whether a refund account is on file and what was paid toward it. */
  datatype FundedRow = FundedRow(
    contributionId: nat,
    contributorUserId: Option<nat>,
    expectedAmount: int,
    hasRefundAccount: bool,
    payments: seq<int>)

  datatype GroupKey = User(userId: nat) | Anonymous(contributionId: nat)

  datatype Group = Group(key: GroupKey, rows: seq<FundedRow>)

  datatype RefundError =
    | NothingFunded
    | NoBalance
    | NoRecordedPayments(key: GroupKey)
    | DivisionByZero
    | TooSmallToDistribute

  function KeyOf(row: FundedRow): GroupKey {
    if row.contributorUserId.Some? then User(row.contributorUserId.value) else Anonymous(row.contributionId)
  }

  function RowsOf(rows: seq<FundedRow>, key: GroupKey): seq<FundedRow> {
    if rows == [] then []
    else (if KeyOf(rows[0]) == key then [rows[0]] else []) + RowsOf(rows[1..], key)
  }

  function Contributed(rows: seq<FundedRow>): int {
    if rows == [] then 0 else rows[0].expectedAmount + Contributed(rows[1..])
  }

  function GroupsTotal(groups: seq<Group>): int {
    if groups == [] then 0 else Contributed(groups[0].rows) + GroupsTotal(groups[1..])
  }

  ghost predicate Grouped(rows: seq<FundedRow>, groups: seq<Group>) {
    && (forall i, j :: 0 <= i < j < |groups| ==> groups[i].key != groups[j].key)
    && (forall i :: 0 <= i < |groups| ==> groups[i].rows == RowsOf(rows, groups[i].key) && groups[i].rows != [])
    && GroupsTotal(groups) == Contributed(rows)
  }

  lemma {:induction false} RowsOfAppend(rows: seq<FundedRow>, row: FundedRow, key: GroupKey)
    ensures RowsOf(rows + [row], key) == RowsOf(rows, key) + if KeyOf(row) == key then [row] else []
  {
    if rows == [] {
      assert rows + [row] == [row];
    } else {
      assert (rows + [row])[1..] == rows[1..] + [row];
      RowsOfAppend(rows[1..], row, key);
    }
  }

  lemma {:induction false} ContributedAppend(rows: seq<FundedRow>, row: FundedRow)
    ensures Contributed(rows + [row]) == Contributed(rows) + row.expectedAmount
  {
    if rows == [] {
      assert rows + [row] == [row];
    } else {
      assert (rows + [row])[1..] == rows[1..] + [row];
      ContributedAppend(rows[1..], row);
    }
  }

  lemma {:induction false} GroupsTotalUpdate(groups: seq<Group>, i: nat, g: Group)
    requires i < |groups|
    ensures GroupsTotal(groups[i := g]) == GroupsTotal(groups) - Contributed(groups[i].rows) + Contributed(g.rows)
  {
    var r := groups[i := g];
    if i == 0 {
      assert r[1..] == groups[1..];
    } else {
      assert r[1..] == groups[1..][i - 1 := g];
      GroupsTotalUpdate(groups[1..], i - 1, g);
    }
  }

  lemma {:induction false} GroupsTotalAppend(groups: seq<Group>, g: Group)
    ensures GroupsTotal(groups + [g]) == GroupsTotal(groups) + Contributed(g.rows)
  {
    if groups == [] {
      assert groups + [g] == [g];
    } else {
      assert (groups + [g])[1..] == groups[1..] + [g];
      GroupsTotalAppend(groups[1..], g);
    }
  }

  lemma JoinsGroup(rows: seq<FundedRow>, groups: seq<Group>, row: FundedRow, at: nat)
    requires Grouped(rows, groups) && at < |groups| && groups[at].key == KeyOf(row)
    ensures Grouped(rows + [row], groups[at := Group(KeyOf(row), groups[at].rows + [row])])
  {
    hide RowsOf, Contributed;
    var next := groups[at := Group(KeyOf(row), groups[at].rows + [row])];
    ContributedAppend(rows, row);
    ContributedAppend(groups[at].rows, row);
    GroupsTotalUpdate(groups, at, next[at]);
    forall i | 0 <= i < |next| ensures next[i].rows == RowsOf(rows + [row], next[i].key) && next[i].rows != [] {
      RowsOfAppend(rows, row, next[i].key);
    }
  }

  lemma StartsGroup(rows: seq<FundedRow>, groups: seq<Group>, row: FundedRow)
    requires Grouped(rows, groups) && forall i :: 0 <= i < |groups| ==> groups[i].key != KeyOf(row)
    requires RowsOf(rows, KeyOf(row)) == []
    ensures Grouped(rows + [row], groups + [Group(KeyOf(row), [row])])
  {
    var next := groups + [Group(KeyOf(row), [row])];
    ContributedAppend(rows, row);
    GroupsTotalAppend(groups, Group(KeyOf(row), [row]));
    assert Contributed([row]) == row.expectedAmount;
    hide RowsOf, Contributed;
    forall i | 0 <= i < |next| ensures next[i].rows == RowsOf(rows + [row], next[i].key) && next[i].rows != [] {
      RowsOfAppend(rows, row, next[i].key);
    }
  }

  /** Every row seen so far has a group. */
  ghost predicate Housed(rows: seq<FundedRow>, groups: seq<Group>) {
    forall k :: RowsOf(rows, k) != [] ==> exists i :: 0 <= i < |groups| && groups[i].key == k
  }

  lemma StaysHoused(rows: seq<FundedRow>, groups: seq<Group>, row: FundedRow, next: seq<Group>, at: nat)
    requires Housed(rows, groups) && |groups| <= |next| && at < |next| && next[at].key == KeyOf(row)
    requires forall i :: 0 <= i < |groups| ==> next[i].key == groups[i].key
    ensures Housed(rows + [row], next)
  {
    forall k | RowsOf(rows + [row], k) != [] ensures exists i :: 0 <= i < |next| && next[i].key == k {
      RowsOfAppend(rows, row, k);
      if k != KeyOf(row) {
        var i :| 0 <= i < |groups| && groups[i].key == k;
        assert next[i].key == k;
      }
    }
  }

  /** Where a contributor first appears among the rows, or their number if nowhere. */
  function FirstAt(rows: seq<FundedRow>, key: GroupKey): (n: nat)
    ensures n <= |rows|
  {
    if rows == [] || KeyOf(rows[0]) == key then 0 else 1 + FirstAt(rows[1..], key)
  }

  /** Groups come in the order in which their contributors first appear. */
  ghost predicate InOrder(rows: seq<FundedRow>, groups: seq<Group>) {
    && (forall i :: 0 <= i < |groups| ==> FirstAt(rows, groups[i].key) < |rows|)
    && (forall i, j :: 0 <= i < j < |groups| ==> FirstAt(rows, groups[i].key) < FirstAt(rows, groups[j].key))
  }

  lemma {:induction false} FirstAtIsFirst(rows: seq<FundedRow>, key: GroupKey, i: nat)
    requires i < |rows|
    ensures KeyOf(rows[i]) == key ==> FirstAt(rows, key) <= i
    ensures FirstAt(rows, key) == i ==> KeyOf(rows[i]) == key
  {
    hide KeyOf;
    if i > 0 {
      FirstAtIsFirst(rows[1..], key, i - 1);
    }
  }

  lemma {:induction false} FirstAtAppend(rows: seq<FundedRow>, row: FundedRow, key: GroupKey)
    ensures FirstAt(rows, key) < |rows| ==> FirstAt(rows + [row], key) == FirstAt(rows, key)
    ensures FirstAt(rows, key) == |rows| && KeyOf(row) == key ==> FirstAt(rows + [row], key) == |rows|
  {
    hide KeyOf;
    if rows != [] {
      assert (rows + [row])[1..] == rows[1..] + [row];
      FirstAtAppend(rows[1..], row, key);
    }
  }

  lemma {:induction false} NoneOfFirstAt(rows: seq<FundedRow>, key: GroupKey)
    ensures RowsOf(rows, key) == [] <==> FirstAt(rows, key) == |rows|
  {
    if rows != [] {
      NoneOfFirstAt(rows[1..], key);
    }
  }

  /** The groups after a row is placed: as before, but for one more at the end if its contributor is new. */
  ghost predicate Extends(rows: seq<FundedRow>, groups: seq<Group>, row: FundedRow, next: seq<Group>) {
    && |groups| <= |next| <= |groups| + 1
    && (forall i :: 0 <= i < |groups| ==> next[i].key == groups[i].key)
    && (|next| > |groups| ==> next[|groups|].key == KeyOf(row) && FirstAt(rows, KeyOf(row)) == |rows|)
  }

  lemma FirstStays(rows: seq<FundedRow>, groups: seq<Group>, row: FundedRow, next: seq<Group>, i: nat)
    requires InOrder(rows, groups) && Extends(rows, groups, row, next) && i < |next|
    ensures FirstAt(rows + [row], next[i].key) == if i < |groups| then FirstAt(rows, groups[i].key) else |rows|
    ensures i < |groups| ==> FirstAt(rows, groups[i].key) < |rows|
  {
    hide KeyOf, FirstAt;
    FirstAtAppend(rows, row, next[i].key);
  }

  lemma StaysInOrder(rows: seq<FundedRow>, groups: seq<Group>, row: FundedRow, next: seq<Group>)
    requires InOrder(rows, groups) && Extends(rows, groups, row, next) && |next| <= |groups| + 1
    ensures InOrder(rows + [row], next)
  {
    hide KeyOf, FirstAt, Extends;
    forall i | 0 <= i < |next| ensures FirstAt(rows + [row], next[i].key) <= |rows| {
      FirstStays(rows, groups, row, next, i);
    }
    forall i, j | 0 <= i < j < |next|
      ensures FirstAt(rows + [row], next[i].key) < FirstAt(rows + [row], next[j].key)
    {
      FirstStays(rows, groups, row, next, i);
      FirstStays(rows, groups, row, next, j);
    }
  }

  /** Puts one row into the group of its contributor, in place. */
  method PlaceRow(groups: seq<Group>, row: FundedRow, ghost rows: seq<FundedRow>) returns (next: seq<Group>)
    requires Grouped(rows, groups) && Housed(rows, groups) && InOrder(rows, groups)
    ensures Grouped(rows + [row], next) && Housed(rows + [row], next) && InOrder(rows + [row], next)
  {
    hide Grouped, RowsOf, InOrder, FirstAt;
    NoneOfFirstAt(rows, KeyOf(row));
    var at := 0;
    while at < |groups| && groups[at].key != KeyOf(row)
      invariant 0 <= at <= |groups|
      invariant forall j :: 0 <= j < at ==> groups[j].key != KeyOf(row)
    {
      at := at + 1;
    }
    if at < |groups| {
      next := groups[at := Group(KeyOf(row), groups[at].rows + [row])];
      JoinsGroup(rows, groups, row, at);
    } else {
      next := groups + [Group(KeyOf(row), [row])];
      StartsGroup(rows, groups, row);
    }
    StaysHoused(rows, groups, row, next, at);
    StaysInOrder(rows, groups, row, next);
  }

  /** Groups rows by contributor in order of first appearance; an anonymous row is its own group. */
  method GroupRows(rows: seq<FundedRow>) returns (groups: seq<Group>, totalContributed: int)
    ensures Grouped(rows, groups) && Housed(rows, groups) && InOrder(rows, groups)
    ensures totalContributed == Contributed(rows)
  {
    groups, totalContributed := [], 0;
    var i := 0;
    while i < |rows|
      invariant 0 <= i <= |rows|
      invariant Grouped(rows[..i], groups) && Housed(rows[..i], groups) && InOrder(rows[..i], groups)
      invariant totalContributed == Contributed(rows[..i])
    {
      groups := PlaceRow(groups, rows[i], rows[..i]);
      assert rows[..i + 1] == rows[..i] + [rows[i]];
      ContributedAppend(rows[..i], rows[i]);
      totalContributed := totalContributed + rows[i].expectedAmount;
      i := i + 1;
    }
    assert rows[..|rows|] == rows;
  }

  predicate SameContributor(a: FundedRow, b: FundedRow) {
    && a.contributorUserId == b.contributorUserId
    && (a.contributorUserId.Some? || a.contributionId == b.contributionId)
  }

  lemma {:induction false} RowsOfMembers(rows: seq<FundedRow>, key: GroupKey, row: FundedRow)
    ensures row in RowsOf(rows, key) <==> row in rows && KeyOf(row) == key
  {
    if rows != [] {
      RowsOfMembers(rows[1..], key, row);
      assert row in rows <==> row == rows[0] || row in rows[1..];
    }
  }

  /** Two rows are refunded together if and only if they are the same user's, or one anonymous contribution. */
  lemma GroupedTogetherIff(rows: seq<FundedRow>, groups: seq<Group>, a: FundedRow, b: FundedRow)
    requires Grouped(rows, groups) && Housed(rows, groups) && a in rows && b in rows
    ensures (exists g <- groups :: a in g.rows && b in g.rows) <==> SameContributor(a, b)
    ensures exists g <- groups :: a in g.rows
  {
    RowsOfMembers(rows, KeyOf(a), a);
    RowsOfMembers(rows, KeyOf(a), b);
    var i :| 0 <= i < |groups| && groups[i].key == KeyOf(a);
    assert groups[i] in groups && groups[i].rows == RowsOf(rows, KeyOf(a));
    hide RowsOf, Contributed;
    if g :| g in groups && a in g.rows && b in g.rows {
      var k :| 0 <= k < |groups| && groups[k] == g;
      RowsOfMembers(rows, g.key, a);
      RowsOfMembers(rows, g.key, b);
    }
  }

  // ----- the legs of each group ----------------------------------------------------------------------------

  function PaymentsOf(rows: seq<FundedRow>): seq<int> {
    if rows == [] then [] else rows[0].payments + PaymentsOf(rows[1..])
  }

  /** A payment's leg, unless its share of the group's share truncates to nothing. */
  function AddPayment(legs: seq<Slot>, payment: int, share: int, contributed: int, paid: int, total: int): seq<Slot>
    requires paid != 0
  {
    if Bigint.Div(payment * share, paid) <= 0 then legs
    else legs + [Slot(|legs|, payment * contributed, paid * total)]
  }

  /** One leg per payment, weighted by what that payment brought in. */
  function AddPayments(legs: seq<Slot>, payments: seq<int>, share: int, contributed: int, paid: int, total: int)
    : seq<Slot>
    requires paid != 0
    decreases |payments|
  {
    if payments == [] then legs
    else AddPayments(AddPayment(legs, payments[0], share, contributed, paid, total),
                     payments[1..], share, contributed, paid, total)
  }

  /** A group with a refund account gets one leg; one without gets a leg per payment; one whose share
      truncates to nothing gets none. */
  function AddGroup(legs: seq<Slot>, g: Group, total: int, balance: int): Result<seq<Slot>, RefundError>
    requires g.rows != [] && total != 0
  {
    var contributed := Contributed(g.rows);
    var share := Bigint.Div(contributed * balance, total);
    if share <= 0 then Success(legs)
    else if g.rows[0].hasRefundAccount then Success(legs + [Slot(|legs|, contributed, total)])
    else
      var payments := PaymentsOf(g.rows);
      if payments == [] then Failure(NoRecordedPayments(g.key))
      else if Sum(payments) == 0 then Failure(DivisionByZero)
      else Success(AddPayments(legs, payments, share, contributed, Sum(payments), total))
  }

  function AddGroups(legs: seq<Slot>, groups: seq<Group>, total: int, balance: int): Result<seq<Slot>, RefundError>
    requires total != 0 && forall g <- groups :: g.rows != []
    decreases |groups|
  {
    if groups == [] then Success(legs)
    else
      match AddGroup(legs, groups[0], total, balance)
      case Failure(error) => Failure(error)
      case Success(more) => AddGroups(more, groups[1..], total, balance)
  }

  ghost predicate PaidIn(rows: seq<FundedRow>) {
    forall row <- rows :: row.expectedAmount > 0 && forall p <- row.payments :: p >= 0
  }

  lemma {:induction false} ValueSumAppend(xs: seq<Slot>, ys: seq<Slot>)
    requires (forall s <- xs :: Proper(s)) && (forall s <- ys :: Proper(s))
    ensures forall s <- xs + ys :: Proper(s)
    ensures ValueSum(xs + ys) == ValueSum(xs) + ValueSum(ys)
  {
    if xs == [] {
      assert xs + ys == ys;
    } else {
      assert (xs + ys)[1..] == xs[1..] + ys;
      ValueSumAppend(xs[1..], ys);
    }
  }

  lemma ValueSumOne(s: Slot)
    requires Proper(s)
    ensures ValueSum([s]) == Value(s)
  {}

  function Weigh(n: int, u: real): real {
    n as real * u
  }

  /** A payment leg's fraction of the pot is the payment's fraction of the group's fraction. */
  lemma PaymentValue(p: nat, contributed: nat, paid: nat, total: nat)
    requires paid > 0 && total > 0
    ensures p * contributed >= 0 && paid * total > 0
    ensures Value(Slot(0, p * contributed, paid * total)) == Weigh(p, Unit(contributed, paid, total))
  {
    NatTimes(p, contributed);
    assert paid * total > 0;
    var rp, rc, rn, rt := p as real, contributed as real, paid as real, total as real;
    assert (p * contributed) as real == rp * rc && (paid * total) as real == rn * rt;
    FractionOfProduct(rp, rc, rn * rt);
  }

  lemma FractionOfProduct(x: real, y: real, d: real)
    requires d != 0.0
    ensures x * y / d == x * (y / d)
  {}

  function Unit(contributed: nat, paid: nat, total: nat): real
    requires paid > 0 && total > 0
  {
    assert (paid as real) * (total as real) > 0.0;
    contributed as real / (paid as real * total as real)
  }

  lemma UnitNonNegative(contributed: nat, paid: nat, total: nat)
    requires paid > 0 && total > 0
    ensures Unit(contributed, paid, total) >= 0.0
  {}

  /** Legs built so far are in place, proper, and worth at most `worth` of the pot. */
  ghost predicate Worth(legs: seq<Slot>, worth: real) {
    && InPlace(legs)
    && (forall s <- legs :: Proper(s))
    && ValueSum(legs) <= worth
  }

  lemma WorthAdd(legs: seq<Slot>, leg: Slot, worth: real, value: real)
    requires Worth(legs, worth) && Proper(leg) && leg.index == |legs| && Value(leg) == value
    ensures Worth(legs + [leg], worth + value)
  {
    ValueSumAppend(legs, [leg]);
    ValueSumOne(leg);
  }

  lemma PaymentWorth(legs: seq<Slot>, p: nat, share: int, contributed: nat, paid: nat, total: nat, worth: real)
    requires paid > 0 && total > 0 && Worth(legs, worth)
    ensures Worth(AddPayment(legs, p, share, contributed, paid, total),
                  worth + Weigh(p, Unit(contributed, paid, total)))
  {
    PaymentValue(p, contributed, paid, total);
    UnitNonNegative(contributed, paid, total);
    var u := Unit(contributed, paid, total);
    WeighNonNegative(p, u);
    hide Worth, Unit, Weigh;
    WorthMore(legs, worth, Weigh(p, u));
    if AddPayment(legs, p, share, contributed, paid, total) != legs {
      WorthAdd(legs, Slot(|legs|, p * contributed, paid * total), worth, Weigh(p, u));
    }
  }

  lemma WeighNonNegative(n: nat, u: real)
    requires u >= 0.0
    ensures Weigh(n, u) >= 0.0
  {}

  lemma WeighAdds(worth: real, p: int, rest: int, u: real)
    ensures worth + Weigh(p, u) + Weigh(rest, u) == worth + Weigh(p + rest, u)
    ensures Weigh(0, u) == 0.0
  {}

  lemma {:induction false} PaymentsWorth(legs: seq<Slot>, payments: seq<int>, share: int, contributed: nat,
                                         paid: nat, total: nat, worth: real)
    requires paid > 0 && total > 0 && (forall p <- payments :: p >= 0) && Worth(legs, worth)
    ensures Worth(AddPayments(legs, payments, share, contributed, paid, total),
                  worth + Weigh(Sum(payments), Unit(contributed, paid, total)))
    decreases |payments|
  {
    hide Unit, Worth, AddPayment, Weigh;
    var u := Unit(contributed, paid, total);
    if payments == [] {
      WeighAdds(worth, 0, 0, u);
    } else {
      var p := payments[0];
      assert p in payments && forall x <- payments[1..] :: x in payments;
      PaymentWorth(legs, p, share, contributed, paid, total, worth);
      PaymentsWorth(AddPayment(legs, p, share, contributed, paid, total), payments[1..],
                    share, contributed, paid, total, worth + Weigh(p, u));
      WeighAdds(worth, p, Sum(payments[1..]), u);
    }
  }

  lemma WorthMore(legs: seq<Slot>, worth: real, v: real)
    requires Worth(legs, worth) && v >= 0.0
    ensures Worth(legs, worth + v)
  {}

  lemma {:induction false} PaymentsOfNonNegative(rows: seq<FundedRow>)
    requires PaidIn(rows)
    ensures forall p <- PaymentsOf(rows) :: p >= 0
    ensures Contributed(rows) >= |rows|
  {
    if rows != [] {
      assert rows[0] in rows;
      PaymentsOfNonNegative(rows[1..]);
    }
  }

  lemma {:induction false} SumNonNegative(xs: seq<int>)
    requires forall x <- xs :: x >= 0
    ensures Sum(xs) >= 0
  {
    if xs != [] {
      assert xs[0] in xs && forall x <- xs[1..] :: x in xs;
      SumNonNegative(xs[1..]);
    }
  }

  lemma WholeGroup(contributed: nat, paid: nat, total: nat)
    requires paid > 0 && total > 0
    ensures Weigh(paid, Unit(contributed, paid, total)) == contributed as real / total as real
  {
    var rc, rn, rt := contributed as real, paid as real, total as real;
    assert rn * rt > 0.0;
    CancelFactor(rc, rn, rt);
  }

  lemma CancelFactor(c: real, n: real, t: real)
    requires n > 0.0 && t > 0.0 && n * t > 0.0
    ensures n * (c / (n * t)) == c / t
  {
    var q := c / (n * t);
    assert q * (n * t) == c;
    assert (n * q) * t == c;
  }

  /** The group's part of the pot. */
  function Portion(contributed: int, total: nat): real
    requires total > 0
  {
    contributed as real / total as real
  }

  lemma FanOutWorth(legs: seq<Slot>, payments: seq<int>, share: int, contributed: nat, total: nat, worth: real)
    requires total > 0 && (forall p <- payments :: p >= 0) && Sum(payments) != 0 && Worth(legs, worth)
    ensures Worth(AddPayments(legs, payments, share, contributed, Sum(payments), total),
                  worth + Portion(contributed, total))
  {
    SumNonNegative(payments);
    hide Worth, Unit, Weigh, AddPayments;
    PaymentsWorth(legs, payments, share, contributed, Sum(payments), total, worth);
    WholeGroup(contributed, Sum(payments), total);
  }

  lemma OneLegWorth(legs: seq<Slot>, contributed: nat, total: nat, worth: real)
    requires total > 0 && Worth(legs, worth)
    ensures Worth(legs + [Slot(|legs|, contributed, total)], worth + Portion(contributed, total))
    ensures Worth(legs, worth + Portion(contributed, total))
  {
    QuotientBounds(contributed, total);
    WorthMore(legs, worth, Portion(contributed, total));
    WorthAdd(legs, Slot(|legs|, contributed, total), worth, Portion(contributed, total));
  }

  lemma GroupWorth(legs: seq<Slot>, g: Group, total: nat, balance: int, worth: real)
    requires g.rows != [] && total > 0 && PaidIn(g.rows) && Worth(legs, worth)
    ensures AddGroup(legs, g, total, balance).Success? ==>
              Worth(AddGroup(legs, g, total, balance).value, worth + Portion(Contributed(g.rows), total))
  {
    PaymentsOfNonNegative(g.rows);
    hide Worth, Portion, PaidIn, AddPayments, PaymentsOf, Contributed, Sum;
    var contributed: nat := Contributed(g.rows);
    OneLegWorth(legs, contributed, total, worth);
    var payments := PaymentsOf(g.rows);
    if Sum(payments) != 0 {
      FanOutWorth(legs, payments, Bigint.Div(contributed * balance, total), contributed, total, worth);
    }
  }

  lemma PortionsAdd(worth: real, a: int, b: int, total: nat)
    requires total > 0
    ensures worth + Portion(a, total) + Portion(b, total) == worth + Portion(a + b, total)
    ensures Portion(0, total) == 0.0
  {
    var ra, rb, rt := a as real, b as real, total as real;
    AddQuotients(ra, rb, rt);
  }

  lemma {:induction false} GroupsWorth(legs: seq<Slot>, groups: seq<Group>, total: nat, balance: int, worth: real)
    requires total > 0 && (forall g <- groups :: g.rows != [] && PaidIn(g.rows)) && Worth(legs, worth)
    ensures AddGroups(legs, groups, total, balance).Success? ==>
              Worth(AddGroups(legs, groups, total, balance).value, worth + Portion(GroupsTotal(groups), total))
    decreases |groups|
  {
    hide AddGroup, Worth, Portion, PaidIn, Contributed;
    if groups == [] {
      PortionsAdd(worth, 0, 0, total);
    } else {
      assert groups[0] in groups;
      GroupWorth(legs, groups[0], total, balance, worth);
      var added := AddGroup(legs, groups[0], total, balance);
      if added.Success? {
        GroupsWorth(added.value, groups[1..], total, balance, worth + Portion(Contributed(groups[0].rows), total));
        PortionsAdd(worth, Contributed(groups[0].rows), GroupsTotal(groups[1..]), total);
      }
    }
  }

  lemma AddQuotients(a: real, b: real, d: real)
    requires d > 0.0
    ensures a / d + b / d == (a + b) / d
  {}

  lemma {:induction false} RowsOfPaidIn(rows: seq<FundedRow>, key: GroupKey)
    requires PaidIn(rows)
    ensures PaidIn(RowsOf(rows, key))
  {
    if rows != [] {
      assert rows[0] in rows;
      RowsOfPaidIn(rows[1..], key);
    }
  }

  lemma WholeIsOne(total: nat)
    requires total > 0
    ensures 0.0 + Portion(total, total) == 1.0
  {}

  lemma GroupsPaidIn(rows: seq<FundedRow>, groups: seq<Group>)
    requires PaidIn(rows) && Grouped(rows, groups)
    ensures forall g <- groups :: g.rows != [] && PaidIn(g.rows)
  {
    hide PaidIn, RowsOf;
    forall g | g in groups ensures g.rows != [] && PaidIn(g.rows) {
      var i :| 0 <= i < |groups| && groups[i] == g;
      RowsOfPaidIn(rows, g.key);
    }
  }

  lemma WorthOfWhole(legs: seq<Slot>)
    requires Worth(legs, 1.0)
    ensures InPlace(legs) && Fractions(legs)
  {}

  /** However the contributors split into groups and payments, the legs of a refund are fractions of the
      pot that together never exceed it. */
  lemma RefundLegsAreFractions(rows: seq<FundedRow>, groups: seq<Group>, balance: int)
    requires rows != [] && PaidIn(rows) && Grouped(rows, groups)
    ensures Contributed(rows) > 0
    ensures forall g <- groups :: g.rows != []
    ensures var legs := AddGroups([], groups, Contributed(rows), balance);
            legs.Success? ==> InPlace(legs.value) && Fractions(legs.value)
  {
    PaymentsOfNonNegative(rows);
    GroupsPaidIn(rows, groups);
    var total := Contributed(rows);
    assert GroupsTotal(groups) == total;
    assert Worth([], 0.0);
    hide AddGroups, Worth, PaidIn, Grouped, Contributed;
    GroupsWorth([], groups, total, balance, 0.0);
    WholeIsOne(total);
    var legs := AddGroups([], groups, total, balance);
    if legs.Success? {
      WorthOfWhole(legs.value);
    }
  }
}
