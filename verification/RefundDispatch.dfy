/** postContributorsRefund on the class: building the legs, claiming the lock for all of them, then reading
    the balance again, rescaling and dispatching. */
module RefundDispatch {
  import opened Wrappers
  import opened Ledger
  import opened Movements
  import opened Fees
  import opened RefundSplit
  import opened ContributorsRefund
  import opened RefundLegs
  import opened Desk
  import opened FanOut
  import opened Solvency
  import Bigint
  import P = Protocol

  // ----- building the legs ---------------------------------------------------------------------------------

  /** The fractions a list of legs carries, with their positions. */
  function SlotsOf(legs: seq<Leg>): (r: seq<Slot>)
    ensures |r| == |legs| && InPlace(r) && Describes(r, legs)
  {
    seq(|legs|, i requires 0 <= i < |legs| => Slot(i, legs[i].numerator, legs[i].denominator))
  }

  lemma SlotsOfPush(legs: seq<Leg>, leg: Leg)
    ensures SlotsOf(legs + [leg]) == SlotsOf(legs) + [Slot(|legs|, leg.numerator, leg.denominator)]
  {}

  /** Adds up what a group contributed. */
  method SumExpected(rows: seq<FundedRow>) returns (contributed: int)
    ensures contributed == Contributed(rows)
  {
    contributed := 0;
    var i := 0;
    while i < |rows|
      invariant 0 <= i <= |rows| && contributed == Contributed(rows[..i])
    {
      assert rows[..i + 1] == rows[..i] + [rows[i]];
      ContributedAppend(rows[..i], rows[i]);
      contributed := contributed + rows[i].expectedAmount;
      i := i + 1;
    }
    assert rows[..|rows|] == rows;
  }

  method SumPayments(payments: seq<int>) returns (paid: int)
    ensures paid == Sum(payments)
  {
    paid := 0;
    var i := 0;
    while i < |payments|
      invariant 0 <= i <= |payments| && paid == Sum(payments[..i])
    {
      assert payments[..i + 1] == payments[..i] + [payments[i]];
      SumAppend(payments[..i], [payments[i]]);
      paid := paid + payments[i];
      i := i + 1;
    }
    assert payments[..|payments|] == payments;
  }

  /** One leg per payment whose share is worth sending. */
  method PushPaymentLegs(legs: seq<Leg>, payments: seq<int>, share: int, contributed: int, paid: int, total: int)
    returns (more: seq<Leg>)
    requires Distinct(legs) && paid != 0
    ensures Distinct(more) && (forall leg <- more :: leg in legs || fresh(leg))
    ensures SlotsOf(more) == AddPayments(SlotsOf(legs), payments, share, contributed, paid, total)
  {
    more := legs;
    var i := 0;
    while i < |payments|
      invariant 0 <= i <= |payments|
      invariant Distinct(more) && (forall leg <- more :: leg in legs || fresh(leg))
      invariant AddPayments(SlotsOf(more), payments[i..], share, contributed, paid, total)
                == AddPayments(SlotsOf(legs), payments, share, contributed, paid, total)
    {
      var paymentShare := Bigint.Div(payments[i] * share, paid);
      assert payments[i..][1..] == payments[i + 1..];
      if paymentShare > 0 {
        var leg := new Leg(payments[i] * contributed, paid * total, paymentShare);
        SlotsOfPush(more, leg);
        more := more + [leg];
      }
      i := i + 1;
    }
  }

  method PushGroupLegs(legs: seq<Leg>, g: Group, total: int, balance: int) returns (r: Result<seq<Leg>, RefundError>)
    requires Distinct(legs) && g.rows != [] && total != 0
    ensures r.Success? ==> Distinct(r.value) && (forall leg <- r.value :: leg in legs || fresh(leg))
    ensures match r
            case Success(more) => AddGroup(SlotsOf(legs), g, total, balance) == Success(SlotsOf(more))
            case Failure(error) => AddGroup(SlotsOf(legs), g, total, balance) == Failure(error)
  {
    var contributed := SumExpected(g.rows);
    var share := Bigint.Div(contributed * balance, total);
    if share <= 0 {
      return Success(legs);
    }
    if g.rows[0].hasRefundAccount {
      var leg := new Leg(contributed, total, share);
      SlotsOfPush(legs, leg);
      return Success(legs + [leg]);
    }
    var payments := PaymentsOf(g.rows);
    if |payments| == 0 {
      return Failure(NoRecordedPayments(g.key));
    }
    var paid := SumPayments(payments);
    if paid == 0 {
      return Failure(DivisionByZero);
    }
    var more := PushPaymentLegs(legs, payments, share, contributed, paid, total);
    r := Success(more);
  }

  method BuildLegs(groups: seq<Group>, total: int, balance: int) returns (r: Result<seq<Leg>, RefundError>)
    requires total != 0 && forall g <- groups :: g.rows != []
    ensures r.Success? ==> Distinct(r.value) && (forall leg <- r.value :: fresh(leg))
    ensures match r
            case Success(legs) => AddGroups([], groups, total, balance) == Success(SlotsOf(legs))
            case Failure(error) => AddGroups([], groups, total, balance) == Failure(error)
  {
    var legs: seq<Leg> := [];
    assert SlotsOf(legs) == [];
    var i := 0;
    while i < |groups|
      invariant 0 <= i <= |groups|
      invariant Distinct(legs) && (forall leg <- legs :: fresh(leg))
      invariant AddGroups([], groups, total, balance) == AddGroups(SlotsOf(legs), groups[i..], total, balance)
    {
      assert groups[i..][1..] == groups[i + 1..];
      var more := PushGroupLegs(legs, groups[i], total, balance);
      if more.Failure? {
        return Failure(more.error);
      }
      legs := more.value;
      i := i + 1;
    }
    r := Success(legs);
  }

  // ----- claiming ------------------------------------------------------------------------------------------

  datatype RefundRefusal =
    | PotNotOpen
    | CannotSplit(error: RefundError)
    | FeeNotCovered
    | OperationInFlight

  /** A supply of references no transaction and no waiting leg has used. */
  ghost predicate FreshSupply(desk: Disbursements, supply: nat -> nat)
    reads desk, desk.ledger
  {
    && (forall i: nat, j: nat :: i != j ==> supply(i) != supply(j))
    && (forall i: nat :: Disbursement(supply(i)) !in desk.ledger.transactions)
  }

  function Drawn(supply: nat -> nat, n: nat): (r: seq<nat>)
    ensures |r| == n && forall i :: 0 <= i < n ==> r[i] == supply(i)
  {
    seq(n, i requires 0 <= i < n => supply(i))
  }

  lemma DrawnNoRepeats(supply: nat -> nat, n: nat)
    requires forall i: nat, j: nat :: i != j ==> supply(i) != supply(j)
    ensures NoRepeats(Drawn(supply, n))
    decreases n
  {
    if n > 0 {
      DrawnNoRepeats(supply, n - 1);
      var all, most: seq<nat> := Drawn(supply, n), Drawn(supply, n - 1);
      assert all == most + [supply(n - 1)];
      assert supply(n - 1) !in most;
      forall x ensures multiset(all)[x] <= 1 {
        assert multiset(most)[x] <= 1;
        assert x == supply(n - 1) ==> x !in multiset(most);
      }
    }
  }

  lemma SupplyGlue(s: Tables, potId: nat, supply: nat -> nat, slots: seq<Slot>, processing: seq<P.Job>)
    requires forall i: nat, j: nat :: i != j ==> supply(i) != supply(j)
    requires forall i: nat :: Disbursement(supply(i)) !in s.transactions
    requires exists waiting: seq<nat> :: Glued(s, potId, waiting, processing)
    ensures Glued(s, potId, Waiting(P.Unscaled(slots, Drawn(supply, |slots|)), []), processing)
  {
    var waiting: seq<nat> :| Glued(s, potId, waiting, processing);
    DrawnNoRepeats(supply, |slots|);
    assert Waiting(P.Unscaled(slots, Drawn(supply, |slots|)), []) == Drawn(supply, |slots|);
  }

  /** The update that claims the lock for every leg, guarded by its being free. */
  method ClaimLock(desk: Disbursements, legs: seq<Leg>, supply: nat -> nat, ghost seen: int) returns (claimed: bool)
    requires desk.Valid() && FreshSupply(desk, supply)
    requires legs != [] && seen > 0 && Survivors(SlotsOf(legs), seen) != []
    modifies desk
    ensures desk.Valid() && (claimed <==> old(desk.lock).Free?)
    ensures desk.Abs() == P.Next(old(desk.Abs()), P.ClaimRefund(SlotsOf(legs), Drawn(supply, |legs|), true, seen))
    ensures claimed ==> desk.plan == P.Unscaled(SlotsOf(legs), Drawn(supply, |legs|))
  {
    hide Books, Survivors, P.LockAccounts, Glued, Waiting, Drawn, BalanceIn;
    P.StepAccounts(desk.Abs(), P.ClaimRefund(SlotsOf(legs), Drawn(supply, |legs|), true, seen));
    P.NothingUnderWay(desk.Abs());
    if desk.lock.Held? {
      return false;
    }
    SupplyGlue(desk.ledger.State(), desk.potId, supply, SlotsOf(legs), desk.processing);
    desk.lock := P.Held(P.Refund, |legs|);
    desk.plan := P.Unscaled(SlotsOf(legs), Drawn(supply, |legs|));
    claimed := true;
  }

  /** Which answer a refund gets once its legs have been worked out. */
  ghost predicate Answers(r: Result<seq<Leg>, RefundRefusal>, built: Result<seq<Slot>, RefundError>,
                          balance: int, free: bool)
  {
    if balance <= 0 then r == Failure(CannotSplit(NoBalance))
    else if built.Failure? then r == Failure(CannotSplit(built.error))
    else if built.value == [] then r == Failure(CannotSplit(TooSmallToDistribute))
    else if Survivors(built.value, balance) == [] then r == Failure(FeeNotCovered)
    else if !free then r == Failure(OperationInFlight)
    else r.Success? && SlotsOf(r.value) == built.value
  }

  /** triggerRefund's status check, made on the pot as read on entry, and the first half of
      postContributorsRefund, up to the claim: nothing changes unless it succeeds, and then
      one lock unit is held for every leg and each leg carries its net share of the balance just read. */
  method ClaimContributorsRefund(desk: Disbursements, seenOpen: bool, rows: seq<FundedRow>, supply: nat -> nat)
    returns (r: Result<seq<Leg>, RefundRefusal>, ghost groups: seq<Group>)
    requires desk.Valid() && FreshSupply(desk, supply) && PaidIn(rows)
    modifies desk
    ensures desk.Valid()
    ensures r.Failure? ==> desk.Abs() == old(desk.Abs())
    ensures r.Success? ==>
              var legs, slots := r.value, SlotsOf(r.value);
              && Distinct(legs) && (forall leg <- legs :: fresh(leg)) && Fractions(slots)
              && Holds(legs, FinalAmounts(slots, old(desk.Abs()).balance))
              && seenOpen && old(desk.lock).Free? && old(desk.Abs()).balance > 0
              && Contributed(rows) > 0 && (forall g <- groups :: g.rows != [])
              && Served(slots, groups, Contributed(rows), old(desk.Abs()).balance)
              && Survivors(slots, old(desk.Abs()).balance) != []
              && desk.Abs() == old(desk.Abs()).(lock := P.Held(P.Refund, |legs|),
                                                plan := P.Unscaled(slots, Drawn(supply, |legs|)))
    ensures !seenOpen ==> r == Failure(PotNotOpen)
    ensures seenOpen && rows == [] ==> r == Failure(CannotSplit(NothingFunded))
    ensures seenOpen && rows != [] ==>
              && Grouped(rows, groups) && Housed(rows, groups)
              && Contributed(rows) > 0 && (forall g <- groups :: g.rows != [])
              && Answers(r, AddGroups([], groups, Contributed(rows), old(desk.Abs()).balance),
                         old(desk.Abs()).balance, old(desk.lock).Free?)
  {
    hide Books, Glued, Waiting, P.LockAccounts, Survivors, FinalAmounts, Fractions;
    hide PaidIn, Grouped, Housed, InOrder, FreshSupply, AddGroups, Served, Contributed;
    if !seenOpen {
      return Failure(PotNotOpen), [];
    }
    if |rows| == 0 {
      return Failure(CannotSplit(NothingFunded)), [];
    }
    var grouped, total := GroupRows(rows);
    groups := grouped;
    var balance := desk.ledger.GetBalance(Pot(desk.potId));
    RefundLegsAreFractions(rows, grouped, balance);
    if balance <= 0 {
      return Failure(CannotSplit(NoBalance)), groups;
    }
    EveryContributorServed(rows, grouped, balance);
    var built := BuildLegs(grouped, total, balance);
    if built.Failure? {
      return Failure(CannotSplit(built.error)), groups;
    }
    var legs := built.value;
    if |legs| == 0 {
      return Failure(CannotSplit(TooSmallToDistribute)), groups;
    }
    assert forall i :: 0 <= i < |legs| ==> fresh(legs[i]) by {
      forall i | 0 <= i < |legs| ensures fresh(legs[i]) {
        assert legs[i] in legs;
      }
    }
    var firing := Narrow(legs, balance, SlotsOf(legs));
    if |firing| == 0 {
      return Failure(FeeNotCovered), groups;
    }
    var claimed := ClaimLock(desk, legs, supply, balance);
    if !claimed {
      return Failure(OperationInFlight), groups;
    }
    r := Success(legs);
  }

  // ----- rescaling and dispatching -------------------------------------------------------------------------

  /** The jobs that have something to send. */
  function Payable(jobs: seq<P.Job>): seq<P.Job> {
    if jobs == [] then [] else (if jobs[0].amount > 0 then [jobs[0]] else []) + Payable(jobs[1..])
  }

  lemma {:induction false} PayablePush(jobs: seq<P.Job>, job: P.Job)
    ensures Payable(jobs + [job]) == Payable(jobs) + if job.amount > 0 then [job] else []
  {
    if jobs == [] {
      assert jobs + [job] == [job];
    } else {
      assert (jobs + [job])[1..] == jobs[1..] + [job];
      PayablePush(jobs[1..], job);
      var head := if jobs[0].amount > 0 then [jobs[0]] else [];
      var last := if job.amount > 0 then [job] else [];
      assert Payable(jobs) == head + Payable(jobs[1..]);
      assert Payable(jobs + [job]) == head + Payable(jobs[1..] + [job]);
      hide Payable;
      assert head + (Payable(jobs[1..]) + last) == head + Payable(jobs[1..]) + last;
    }
  }

  lemma {:induction false} PayableNeeds(jobs: seq<P.Job>)
    ensures P.NeedSum(Payable(jobs)) == P.NeedSum(jobs)
    ensures |Payable(jobs)| <= |jobs|
  {
    if jobs != [] {
      PayableNeeds(jobs[1..]);
      NeedSumAppend(if jobs[0].amount > 0 then [jobs[0]] else [], Payable(jobs[1..]));
    }
  }

  /** How a refund stands with its first i legs behind it: those with an amount are queued, the others have
      given their lock unit back. */
  ghost predicate RefundAt(was: P.Pot, jobs: seq<P.Job>, i: nat, now: P.Pot)
    requires i <= |jobs|
  {
    var sent := Payable(jobs[..i]);
    var left := |jobs| - i + |sent| + was.stranded;
    now == was.(lock := if left == 0 then P.Free else P.Held(P.Refund, left),
                plan := P.Dispatching(true, jobs[i..]),
                queued := sent)
  }

  lemma RefundStep(was: P.Pot, jobs: seq<P.Job>, i: nat, now: P.Pot, ok: bool)
    requires i < |jobs| && RefundAt(was, jobs, i, now)
    ensures now.plan.Dispatching? && now.plan.jobs != [] && now.plan.jobs[0] == jobs[i]
    ensures jobs[i].amount <= 0 || ok ==> RefundAt(was, jobs, i + 1, P.Next(now, P.Dispatch(ok)))
    ensures jobs[i].amount > 0 && !ok ==>
              P.Next(now, P.Dispatch(ok)) == now.(plan := P.Dispatching(true, []),
                                                  stranded := was.stranded + |jobs| - i)
  {
    assert jobs[..i + 1] == jobs[..i] + [jobs[i]];
    PayablePush(jobs[..i], jobs[i]);
    hide Payable;
    assert jobs[i..][1..] == jobs[i + 1..];
  }

  /** The jobs the scaled legs become. */
  function JobsOf(amounts: seq<int>, ids: seq<nat>): (r: seq<P.Job>)
    requires |amounts| == |ids|
    ensures |r| == |ids|
  {
    seq(|ids|, i requires 0 <= i < |ids| => P.Job(ids[i], amounts[i], true, P.NoEffect))
  }

  lemma JobsAreRefundJobs(slots: seq<Slot>, ids: seq<nat>, balance: int)
    requires |ids| == |slots|
    ensures JobsOf(FinalAmounts(slots, balance), ids) == P.RefundJobs(slots, ids, balance)
  {}

  lemma RescaleKeepsGlue(s: Tables, potId: nat, slots: seq<Slot>, ids: seq<nat>, balance: int, processing: seq<P.Job>)
    requires |ids| == |slots| && Glued(s, potId, Waiting(P.Unscaled(slots, ids), []), processing)
    ensures Glued(s, potId, Waiting(P.Dispatching(true, P.RefundJobs(slots, ids, balance)), []), processing)
  {
    hide FinalAmounts;
    assert Ids(P.RefundJobs(slots, ids, balance)) == ids;
    assert Waiting(P.Unscaled(slots, ids), []) == ids;
    assert Waiting(P.Dispatching(true, P.RefundJobs(slots, ids, balance)), []) == ids;
  }

  lemma UnscaledFacts(s: P.Pot)
    requires P.LockAccounts(s) && s.plan.Unscaled?
    ensures s.queued == [] && |s.plan.ids| == |s.plan.slots| > 0 && s.lock.Held?
    ensures s.lock.legCount == |s.plan.slots| + s.stranded
  {}

  /** Narrows again if the balance has moved, and reads the amounts off the legs. */
  method RescaledAmounts(legs: seq<Leg>, seen: int, balance: int) returns (amounts: seq<int>)
    requires Distinct(legs) && Holds(legs, FinalAmounts(SlotsOf(legs), seen))
    modifies legs
    ensures amounts == FinalAmounts(SlotsOf(legs), balance)
  {
    hide FinalAmounts, SlotsOf, Survivors;
    if balance != seen {
      var firing := Narrow(legs, balance, SlotsOf(legs));
    }
    amounts := seq(|legs|, i requires 0 <= i < |legs| reads legs => legs[i].amount);
    assert amounts == FinalAmounts(SlotsOf(legs), balance);
  }

  /** Reads the balance again under the lock and rescales every leg to it, if it has moved since the claim. */
  method Rescale(desk: Disbursements, legs: seq<Leg>, seen: int)
    requires desk.Valid() && desk.plan.Unscaled? && desk.plan.slots == SlotsOf(legs) && Distinct(legs)
    requires Holds(legs, FinalAmounts(SlotsOf(legs), seen))
    modifies desk, legs
    ensures desk.Valid() && desk.Abs() == P.Next(old(desk.Abs()), P.Rescale)
    ensures desk.queued == [] && desk.plan.Dispatching? && desk.plan.jobs
            == P.RefundJobs(SlotsOf(legs), old(desk.plan.ids), old(desk.Abs()).balance)
    ensures |desk.plan.jobs| == |legs| && desk.lock == P.Held(desk.lock.operation, |legs| + desk.stranded)
  {
    hide Books, Glued, P.LockAccounts, Waiting, FinalAmounts, SlotsOf;
    P.StepAccounts(desk.Abs(), P.Rescale);
    UnscaledFacts(desk.Abs());
    var balance := desk.ledger.GetBalance(Pot(desk.potId));
    var slots, ids := desk.plan.slots, desk.plan.ids;
    RescaleKeepsGlue(desk.ledger.State(), desk.potId, slots, ids, balance, desk.processing);
    JobsAreRefundJobs(slots, ids, balance);
    var amounts := RescaledAmounts(legs, seen, balance);
    hide P.RefundJobs, JobsOf;
    desk.plan := P.Dispatching(true, JobsOf(amounts, ids));
  }

  /** The first leg with something to send whose enqueue fails, or the number of legs. */
  function FirstFailure(jobs: seq<P.Job>, ok: seq<bool>, i: nat): (n: nat)
    requires i <= |jobs| <= |ok|
    ensures i <= n <= |jobs|
    ensures forall j :: i <= j < n ==> jobs[j].amount <= 0 || ok[j]
    ensures n < |jobs| ==> jobs[n].amount > 0 && !ok[n]
    decreases |jobs| - i
  {
    if i == |jobs| || (jobs[i].amount > 0 && !ok[i]) then i else FirstFailure(jobs, ok, i + 1)
  }

  /** The pot once the dispatch loop has stopped at leg n: the legs before it with an amount are queued, those
      without have given their unit back, and the legs from n on are stranded. */
  function AfterRefund(was: P.Pot, jobs: seq<P.Job>, n: nat): P.Pot
    requires n <= |jobs|
  {
    var left := |Payable(jobs[..n])| + |jobs| - n + was.stranded;
    was.(lock := if left == 0 then P.Free else P.Held(P.Refund, left),
         plan := P.Dispatching(true, []),
         queued := Payable(jobs[..n]),
         stranded := was.stranded + |jobs| - n)
  }

  /** The second half of postContributorsRefund. Funding may have moved the balance since the claim: the legs
      queued are scaled to the balance as it stands now, and if every enqueue goes through they draw exactly
      all of it, or nothing. A failing enqueue ends the loop and strands the legs from there on. */
  method RescaleAndDispatch(desk: Disbursements, legs: seq<Leg>, seen: int, ok: seq<bool>)
    requires desk.Valid() && desk.plan.Unscaled? && desk.plan.slots == SlotsOf(legs) && Distinct(legs)
    requires Holds(legs, FinalAmounts(SlotsOf(legs), seen)) && |ok| == |legs|
    requires desk.lock == P.Held(P.Refund, desk.lock.legCount)
    modifies desk, legs
    ensures desk.Valid() && |old(desk.plan.ids)| == |legs|
    ensures var jobs := P.RefundJobs(SlotsOf(legs), old(desk.plan.ids), old(desk.Abs()).balance);
            desk.Abs() == AfterRefund(old(desk.Abs()), jobs, FirstFailure(jobs, ok, 0))
    ensures (forall i :: 0 <= i < |ok| ==> ok[i]) ==>
              P.NeedSum(desk.queued)
              == if Survivors(SlotsOf(legs), old(desk.Abs()).balance) == [] then 0 else old(desk.Abs()).balance
  {
    hide Books, Glued, P.LockAccounts, Waiting, FinalAmounts, P.RefundJobs;
    hide Payable, Survivors, Holds, SlotsOf, P.NeedSum;
    ghost var was, slots := desk.Abs(), SlotsOf(legs);
    UnscaledFacts(was);
    Rescale(desk, legs, seen);
    ghost var jobs := desk.plan.jobs;
    NothingPayable();
    assert jobs[..0] == [] && jobs[0..] == jobs;
    assert RefundAt(was, jobs, 0, desk.Abs());
    DispatchLegs(desk, ok, was);
    assert jobs[..|jobs|] == jobs;
    RescaledNeeds(slots, was.plan.ids, was.balance);
    PayableNeeds(jobs);
  }

  /** The dispatch loop. */
  method DispatchLegs(desk: Disbursements, ok: seq<bool>, ghost was: P.Pot)
    requires desk.Valid() && desk.plan.Dispatching? && |ok| == |desk.plan.jobs|
    requires RefundAt(was, desk.plan.jobs, 0, desk.Abs())
    modifies desk
    ensures desk.Valid()
    ensures desk.Abs() == AfterRefund(was, old(desk.plan.jobs), FirstFailure(old(desk.plan.jobs), ok, 0))
  {
    hide Books, Glued, P.LockAccounts, Waiting, Payable;
    var jobs := desk.plan.jobs;
    var i := 0;
    while i < |jobs|
      invariant 0 <= i <= |jobs|
      invariant desk.Valid() && RefundAt(was, jobs, i, desk.Abs())
      invariant FirstFailure(jobs, ok, 0) == FirstFailure(jobs, ok, i)
    {
      RefundStep(was, jobs, i, desk.Abs(), ok[i]);
      hide P.Next;
      DispatchNext(desk, ok[i]);
      if jobs[i].amount > 0 && !ok[i] {
        return;
      }
      i := i + 1;
    }
    assert jobs[|jobs|..] == [];
  }

  lemma NothingPayable()
    ensures Payable([]) == []
  {}
}
