/** The sweeps that fire due payouts of one pot, and what their greedy admission guarantees. */
module PayoutScheduler {
  import opened Wrappers
  import opened Ledger
  import opened Movements
  import opened Fees
  import opened Desk
  import opened FanOut
  import opened Schedules
  import opened Solvency
  import P = Protocol

  // ----- greedy admission ----------------------------------------------------------------------------------

  /** The due legs passed over for want of funds. */
  function PassedOver(due: seq<P.Job>, balance: int): seq<P.Job> {
    if due == [] then []
    else if balance < due[0].amount + OUTBOUND_FEE then [due[0]] + PassedOver(due[1..], balance)
    else PassedOver(due[1..], balance - (due[0].amount + OUTBOUND_FEE))
  }

  lemma {:induction false} AdmissionSplits(due: seq<P.Job>, balance: int)
    ensures multiset(due) == multiset(P.Admitted(due, balance)) + multiset(PassedOver(due, balance))
  {
    if due != [] {
      var need := due[0].amount + OUTBOUND_FEE;
      assert due == [due[0]] + due[1..];
      if balance < need {
        AdmissionSplits(due[1..], balance);
      } else {
        AdmissionSplits(due[1..], balance - need);
      }
    }
  }

  /** Admission is greedy and maximal: what it reserves stays within the balance, and no leg it passed over
      would fit in what is left at the end. */
  lemma {:induction false} AdmissionMaximal(due: seq<P.Job>, balance: int)
    requires forall j <- due :: j.amount > 0
    ensures balance >= 0 ==> P.NeedSum(P.Admitted(due, balance)) <= balance
    ensures forall j <- PassedOver(due, balance) ::
              balance - P.NeedSum(P.Admitted(due, balance)) < j.amount + OUTBOUND_FEE
  {
    if due != [] {
      var need := due[0].amount + OUTBOUND_FEE;
      assert due[0] in due && forall j <- due[1..] :: j in due;
      if balance < need {
        AdmissionMaximal(due[1..], balance);
        NeedSumNonNegative(P.Admitted(due[1..], balance));
      } else {
        AdmissionMaximal(due[1..], balance - need);
      }
    }
  }

  /** Every leg is considered on its own: one that does not fit never blocks a later, smaller one. */
  lemma {:induction false} AdmittedIffFits(due: seq<P.Job>, balance: int, i: nat)
    requires i < |due| && forall j <- due :: j.amount > 0
    ensures P.Admitted(due[..i + 1], balance)
            == var before := P.Admitted(due[..i], balance);
               before + if due[i].amount + OUTBOUND_FEE <= balance - P.NeedSum(before) then [due[i]] else []
  {
    assert due[0] in due && forall j <- due[1..] :: j in due;
    assert due[..i + 1][1..] == due[1..][..i];
    if i > 0 {
      assert due[..i][1..] == due[1..][..i - 1];
      AdmittedIffFits(due[1..], balance, i - 1);
      AdmittedIffFits(due[1..], balance - (due[0].amount + OUTBOUND_FEE), i - 1);
    }
  }

  lemma {:induction false} AdmittedIds(due: seq<P.Job>, balance: int)
    ensures var all: seq<nat> := Ids(due);
            var some: seq<nat> := Ids(P.Admitted(due, balance));
            multiset(some) <= multiset(all)
  {
    if due != [] {
      var left := balance - (due[0].amount + OUTBOUND_FEE);
      assert due == [due[0]] + due[1..];
      IdsAppend([due[0]], due[1..]);
      if left < 0 {
        AdmittedIds(due[1..], balance);
      } else {
        AdmittedIds(due[1..], left);
        IdsAppend([due[0]], P.Admitted(due[1..], left));
      }
      hide Ids;
    }
  }

  /** Due legs with fresh references, of positive amounts, sent as fan-out legs. */
  ghost predicate FreshBatch(desk: Disbursements, due: seq<P.Job>)
    reads desk, desk.ledger
  {
    && NoRepeats(Ids(due))
    && (forall x <- Ids(due) :: Disbursement(x) !in desk.ledger.transactions)
    && (forall j <- due :: j.amount > 0 && j.fanOut)
  }

  lemma FreshGlue(s: Tables, potId: nat, due: seq<P.Job>, balance: int, processing: seq<P.Job>)
    requires NoRepeats(Ids(due)) && (forall x <- Ids(due) :: Disbursement(x) !in s.transactions)
    requires exists waiting: seq<nat> :: Glued(s, potId, waiting, processing)
    ensures Glued(s, potId, Waiting(P.Dispatching(false, P.Admitted(due, balance)), []), processing)
  {
    var admitted := P.Admitted(due, balance);
    var fewer: seq<nat> := Waiting(P.Dispatching(false, admitted), []);
    var waiting: seq<nat> :| Glued(s, potId, waiting, processing);
    assert fewer == Ids(admitted);
    assert Glued(s, potId, Ids(due), processing);
    AdmittedIds(due, balance);
    hide Glued;
    GluedFewer(s, potId, Ids(due), fewer, processing);
  }

  // ----- the sweep over unordered legs ---------------------------------------------------------------------

  /** The admission loop. */
  method Admit(due: seq<P.Job>, balance: int) returns (admitted: seq<P.Job>, reserved: int, skipped: nat)
    requires forall j <- due :: j.amount > 0
    ensures admitted == P.Admitted(due, balance) && reserved == P.NeedSum(admitted)
    ensures |admitted| + skipped == |due|
  {
    admitted, reserved, skipped := [], 0, 0;
    var i := 0;
    while i < |due|
      invariant 0 <= i <= |due|
      invariant admitted == P.Admitted(due[..i], balance) && reserved == P.NeedSum(admitted)
      invariant |admitted| + skipped == i
    {
      AdmittedIffFits(due, balance, i);
      NeedSumPush(admitted, due[i]);
      assert due[i] in due;
      if balance - reserved < due[i].amount + OUTBOUND_FEE {
        skipped := skipped + 1;
      } else {
        reserved := reserved + (due[i].amount + OUTBOUND_FEE);
        admitted := admitted + [due[i]];
      }
      i := i + 1;
    }
    assert due[..|due|] == due;
  }

  method ClaimBatch(desk: Disbursements, ghost due: seq<P.Job>, admitted: seq<P.Job>, balance: int)
    requires desk.Valid() && FreshBatch(desk, due)
    requires balance == desk.Abs().balance && admitted == P.Admitted(due, balance) && admitted != []
    requires desk.lock.Free?
    modifies desk
    ensures desk.Valid() && desk.Abs() == P.Next(old(desk.Abs()), P.ClaimBatch(due, true, balance))
    ensures desk.queued == [] && desk.Abs() == old(desk.Abs()).(lock := P.Held(P.Payout, |admitted|),
                                                                 plan := P.Dispatching(false, admitted))
  {
    hide Books, P.LockAccounts, Glued, Waiting, P.Admitted, BalanceIn;
    P.StepAccounts(desk.Abs(), P.ClaimBatch(due, true, balance));
    P.NothingUnderWay(desk.Abs());
    FreshGlue(desk.ledger.State(), desk.potId, due, balance, desk.processing);
    desk.lock := P.Held(P.Payout, |admitted|);
    desk.plan := P.Dispatching(false, admitted);
  }

  /** enqueueUnorderedLegs. `ok[i]` says whether the i-th admitted leg's enqueue goes through. The lock ends
      up counting the legs really queued, and is free if there are none. */
  method EnqueueUnorderedLegs(desk: Disbursements, due: seq<P.Job>, ok: seq<bool>) returns (fired: nat, skipped: nat)
    requires desk.Valid() && FreshBatch(desk, due) && |ok| == |due|
    modifies desk
    ensures desk.Valid() && fired + skipped == |due|
    ensures var balance := old(desk.Abs()).balance;
            var admitted := P.Admitted(due, balance);
            if admitted == [] || old(desk.lock).Held? then fired == 0 && desk.Abs() == old(desk.Abs())
            else
              && |admitted| <= |ok| && fired == |Enqueued(admitted, ok)|
              && desk.Abs() == old(desk.Abs()).(
                   lock := if fired == 0 then P.Free else P.Held(P.Payout, fired),
                   plan := P.Dispatching(false, []),
                   queued := Enqueued(admitted, ok))
  {
    hide Books, Glued, Waiting, P.LockAccounts, P.Admitted, Enqueued;
    var balance := desk.ledger.GetBalance(Pot(desk.potId));
    var admitted, reserved, passedOver := Admit(due, balance);
    skipped := passedOver;
    if |admitted| == 0 {
      return 0, skipped;
    }
    if desk.lock.Held? {
      return 0, skipped + |admitted|;
    }
    ghost var was := desk.Abs();
    ClaimBatch(desk, due, admitted, balance);
    fired := 0;
    var i := 0;
    assert admitted[..0] == [] && ok[..0] == [] && admitted[0..] == admitted;
    assert Enqueued([], []) == [] by { EnqueuedNil(); }
    while i < |admitted|
      invariant 0 <= i <= |admitted| <= |ok|
      invariant desk.Valid() && BatchAt(was, admitted, ok, i, desk.Abs())
      invariant fired == |Enqueued(admitted[..i], ok[..i])| && fired + skipped == passedOver + i
    {
      BatchStep(was, admitted, ok, i, desk.Abs());
      EnqueuedPush(admitted, ok, i);
      DispatchNext(desk, ok[i]);
      if ok[i] {
        fired := fired + 1;
      } else {
        skipped := skipped + 1;
      }
      i := i + 1;
    }
    EnqueuedWhole(admitted, ok);
    assert admitted[|admitted|..] == [];
  }

  lemma EnqueuedNil()
    ensures Enqueued([], []) == []
  {}

  lemma {:induction false} EnqueuedWhole(jobs: seq<P.Job>, ok: seq<bool>)
    requires |jobs| <= |ok|
    ensures Enqueued(jobs[..|jobs|], ok[..|jobs|]) == Enqueued(jobs, ok)
  {
    assert jobs[..|jobs|] == jobs;
    if jobs != [] {
      EnqueuedWhole(jobs[1..], ok[1..]);
      assert ok[..|jobs|][1..] == ok[1..][..|jobs| - 1];
      assert jobs[1..][..|jobs| - 1] == jobs[1..];
    }
  }

  // ----- the sweeps ----------------------------------------------------------------------------------------

  /** One leg of a schedule; a schedule lists its legs in sequence order. */
  datatype ScheduledLeg = ScheduledLeg(amount: int, scheduledDate: int)

  /** enqueueLeg, and the body of fireDueRecurringPayouts: fund check, claim, enqueue. */
  method EnqueueLeg(desk: Disbursements, amount: int, jobId: nat, effect: P.Effect, enqueueOk: bool)
    returns (fired: bool)
    requires desk.Valid() && amount > 0
    requires jobId !in Waiting(desk.plan, desk.queued) && Disbursement(jobId) !in desk.ledger.transactions
    modifies desk
    ensures desk.Valid()
    ensures fired <==> old(desk.lock).Free? && enqueueOk && old(desk.Abs()).balance >= amount + OUTBOUND_FEE
    ensures desk.Abs() == P.Next(old(desk.Abs()), P.ClaimSingle(P.Payout, P.Job(jobId, amount, false, effect), true,
                                                                old(desk.Abs()).balance, enqueueOk))
  {
    hide Books, Glued, Waiting, P.LockAccounts;
    var balance := desk.ledger.GetBalance(Pot(desk.potId));
    if balance < amount + OUTBOUND_FEE {
      return false;
    }
    var r := desk.PostFixedAmountDisbursement(P.Payout, amount, jobId, effect, enqueueOk);
    fired := r.Success?;
  }

  /** fireDueRecurringPayouts for one pot: a rule the sweep's query found due pays its fixed amount, or is left
      for the next sweep. `seenOpen` and `seenNextRunAt` are what the query read. */
  method FireDueRecurring(desk: Disbursements, seenOpen: bool, seenNextRunAt: int, amount: int, now: int, jobId: nat,
                          enqueueOk: bool)
    returns (fired: nat, skipped: nat)
    requires desk.Valid() && amount > 0
    requires jobId !in Waiting(desk.plan, desk.queued) && Disbursement(jobId) !in desk.ledger.transactions
    modifies desk
    ensures desk.Valid() && desk.config == old(desk.config)
    ensures if seenOpen && seenNextRunAt <= now then
              var job := P.Job(jobId, amount, false, P.AdvanceRecurring);
              && desk.Abs()
                 == P.Next(old(desk.Abs()), P.ClaimSingle(P.Payout, job, true, old(desk.Abs()).balance, enqueueOk))
              && fired + skipped == 1
              && (fired == 1 <==> old(desk.lock).Free? && enqueueOk && old(desk.Abs()).balance >= amount + OUTBOUND_FEE)
            else fired == 0 && skipped == 0 && desk.Abs() == old(desk.Abs())
  {
    hide Books, Glued, Waiting, P.LockAccounts;
    fired, skipped := 0, 0;
    if !seenOpen || seenNextRunAt > now {
      return;
    }
    var sent := EnqueueLeg(desk, amount, jobId, P.AdvanceRecurring, enqueueOk);
    if sent {
      fired := 1;
    } else {
      skipped := 1;
    }
  }

  /** The unfired legs from position i on that are due, as the jobs an unordered sweep would send. */
  function DueFrom(legs: seq<ScheduledLeg>, flags: seq<bool>, ids: seq<nat>, now: int, i: nat): seq<P.Job>
    requires i <= |legs| == |flags| == |ids|
    decreases |legs| - i
  {
    if i == |legs| then []
    else
      var rest := DueFrom(legs, flags, ids, now, i + 1);
      if flags[i] || legs[i].scheduledDate > now then rest
      else [P.Job(ids[i], legs[i].amount, true, P.FireLeg(i))] + rest
  }

  lemma {:induction false} DueFromFacts(legs: seq<ScheduledLeg>, flags: seq<bool>, ids: seq<nat>, now: int,
                                        i: nat, n: nat)
    requires i <= |legs| == |flags| == |ids|
    requires forall leg <- legs :: leg.amount > 0
    ensures Count(DueFrom(legs, flags, ids, now, i), n) <= 1
    ensures Count(DueFrom(legs, flags, ids, now, i), n) > 0 <==>
              i <= n < |legs| && !flags[n] && legs[n].scheduledDate <= now
    ensures forall j <- DueFrom(legs, flags, ids, now, i) :: j.amount > 0 && j.fanOut
    ensures forall x <- Ids(DueFrom(legs, flags, ids, now, i)) :: x in ids
    decreases |legs| - i
  {
    if i < |legs| {
      DueFromFacts(legs, flags, ids, now, i + 1, n);
      assert legs[i] in legs;
    }
  }

  lemma {:induction false} DueFromIds(legs: seq<ScheduledLeg>, flags: seq<bool>, ids: seq<nat>, now: int, i: nat)
    requires i <= |legs| == |flags| == |ids|
    ensures var due: seq<nat> := Ids(DueFrom(legs, flags, ids, now, i));
            multiset(due) <= multiset(ids[i..])
    decreases |legs| - i
  {
    if i < |legs| {
      DueFromIds(legs, flags, ids, now, i + 1);
      assert ids[i..] == [ids[i]] + ids[i + 1..];
      IdsAppend([P.Job(ids[i], legs[i].amount, true, P.FireLeg(i))], DueFrom(legs, flags, ids, now, i + 1));
      hide Ids;
    }
  }

  lemma {:induction false} CountEnqueued(jobs: seq<P.Job>, ok: seq<bool>, n: nat)
    requires |jobs| <= |ok|
    ensures Count(Enqueued(jobs, ok), n) <= Count(jobs, n)
  {
    if jobs != [] {
      CountEnqueued(jobs[1..], ok[1..], n);
      CountAppend([jobs[0]], Enqueued(jobs[1..], ok[1..]), n);
      CountAppend([], Enqueued(jobs[1..], ok[1..]), n);
      assert [jobs[0]][1..] == [];
    }
  }

  lemma {:induction false} CountAdmitted(due: seq<P.Job>, balance: int, n: nat)
    ensures Count(P.Admitted(due, balance), n) <= Count(due, n)
  {
    if due != [] {
      var left := balance - (due[0].amount + OUTBOUND_FEE);
      if left < 0 {
        CountAdmitted(due[1..], balance, n);
      } else {
        CountAdmitted(due[1..], left, n);
        var rest := P.Admitted(due[1..], left);
        assert ([due[0]] + rest)[1..] == rest;
      }
    }
  }

  lemma BatchGuarded(was: P.Pot, now: P.Pot, due: seq<P.Job>, balance: int, ok: seq<bool>)
    requires P.LockAccounts(was) && was.lock.Free? && was.config.Scheduled? && now.config == was.config
    requires |P.Admitted(due, balance)| <= |ok|
    requires now.queued == Enqueued(P.Admitted(due, balance), ok) && now.plan == P.Dispatching(false, [])
    requires now.processing == was.processing && now.others == was.others && AtMostOneEach(was.config, due)
    ensures LegsGuarded(now)
  {
    assert was.processing == [] && P.Pending(now) == [];
    forall i: nat ensures InFlight(now, i) <= 1 && (InFlight(now, i) > 0 ==> Payable(now.config, i)) {
      CountEnqueued(P.Admitted(due, balance), ok, i);
      CountAdmitted(due, balance, i);
    }
  }

  /** A schedule as its tables hold it: legs of positive amounts with their flags, and fresh references for
      the payouts this sweep may make. */
  ghost predicate ScheduleReady(desk: Disbursements, legs: seq<ScheduledLeg>, ids: seq<nat>)
    reads desk, desk.ledger
  {
    && desk.config.Scheduled? && |legs| == |desk.config.fired| == |ids|
    && (forall leg <- legs :: leg.amount > 0)
    && NoRepeats(ids)
    && (forall x <- ids :: x !in Waiting(desk.plan, desk.queued) && Disbursement(x) !in desk.ledger.transactions)
  }

  /** The lowest-sequence leg that has not fired, or the number of legs if all have. */
  function NextUnfired(flags: seq<bool>, i: nat): (n: nat)
    requires i <= |flags|
    ensures i <= n <= |flags|
    ensures forall j :: i <= j < n ==> flags[j]
    ensures n < |flags| ==> !flags[n]
    decreases |flags| - i
  {
    if i == |flags| || !flags[i] then i else NextUnfired(flags, i + 1)
  }

  /** The ordered branch: only the next leg in sequence may fire, and only once it is due. */
  method FireNextLeg(desk: Disbursements, legs: seq<ScheduledLeg>, now: int, ids: seq<nat>, ok: seq<bool>)
    returns (fired: nat, skipped: nat)
    requires desk.Valid() && ScheduleReady(desk, legs, ids) && |ok| == |legs|
    requires desk.config.ordered
    modifies desk
    ensures desk.Valid()
    ensures var n := NextUnfired(old(desk.config.fired), 0);
            if n < |legs| && legs[n].scheduledDate <= now then
              var claim := P.ClaimSingle(P.Payout, P.Job(ids[n], legs[n].amount, false, P.FireLeg(n)), true,
                                         old(desk.Abs()).balance, ok[n]);
              && fired + skipped == 1
              && (fired == 1 <==> && old(desk.lock).Free? && ok[n]
                                  && old(desk.Abs()).balance >= legs[n].amount + OUTBOUND_FEE)
              && desk.Abs() == P.Next(old(desk.Abs()), claim) && SweepsPayable(old(desk.Abs()), claim)
            else fired == 0 && skipped == 0 && desk.Abs() == old(desk.Abs())
  {
    hide Books, Glued, Waiting, P.LockAccounts;
    fired, skipped := 0, 0;
    var n := 0;
    while n < |legs| && desk.config.fired[n]
      invariant 0 <= n <= |legs|
      invariant NextUnfired(desk.config.fired, 0) == NextUnfired(desk.config.fired, n)
      invariant forall j :: 0 <= j < n ==> desk.config.fired[j]
    {
      n := n + 1;
    }
    if n == |legs| {
      return;
    }
    if legs[n].scheduledDate > now {
      return;
    }
    assert legs[n] in legs && ids[n] in ids;
    ghost var was := desk.Abs();
    ghost var job := P.Job(ids[n], legs[n].amount, false, P.FireLeg(n));
    SingleSweepPayable(was, P.ClaimSingle(P.Payout, job, true, was.balance, ok[n]), n);
    hide P.Next;
    var sent := EnqueueLeg(desk, legs[n].amount, ids[n], P.FireLeg(n), ok[n]);
    if sent {
      fired := 1;
    } else {
      skipped := 1;
    }
  }

  lemma SingleSweepPayable(s: P.Pot, step: P.Step, n: nat)
    requires s.config.Scheduled? && Payable(s.config, n)
    requires step.ClaimSingle? && step.job.effect == P.FireLeg(n)
    ensures SweepsPayable(s, step)
  {
    forall i: nat ensures Count([step.job], i) <= 1 && (Count([step.job], i) > 0 ==> Payable(s.config, i)) {
      assert [step.job][1..] == [];
    }
  }

  // ----- which legs an unordered sweep sends ---------------------------------------------------------------

  predicate IsDue(legs: seq<ScheduledLeg>, flags: seq<bool>, now: int, n: nat)
    requires n < |legs| == |flags|
  {
    !flags[n] && legs[n].scheduledDate <= now
  }

  /** What is left of the balance when leg n is considered. */
  function LeftAt(legs: seq<ScheduledLeg>, flags: seq<bool>, now: int, balance: int, n: nat): int
    requires n <= |legs| == |flags|
    decreases n, 0
  {
    if n == 0 then balance
    else
      var left := LeftAt(legs, flags, now, balance, n - 1);
      if Fits(legs, flags, now, balance, n - 1) then left - (legs[n - 1].amount + OUTBOUND_FEE) else left
  }

  /** Leg n is due and fits in what the due legs admitted before it leave. */
  predicate Fits(legs: seq<ScheduledLeg>, flags: seq<bool>, now: int, balance: int, n: nat)
    requires n < |legs| == |flags|
    decreases n, 1
  {
    IsDue(legs, flags, now, n) && legs[n].amount + OUTBOUND_FEE <= LeftAt(legs, flags, now, balance, n)
  }

  /** How many legs before n are admitted. */
  function AdmittedBefore(legs: seq<ScheduledLeg>, flags: seq<bool>, now: int, balance: int, n: nat): (k: nat)
    requires n <= |legs| == |flags|
    ensures k <= n
  {
    if n == 0 then 0
    else AdmittedBefore(legs, flags, now, balance, n - 1) + if Fits(legs, flags, now, balance, n - 1) then 1 else 0
  }

  /** Leg n is sent: it is admitted and its enqueue goes through. */
  predicate IsSent(legs: seq<ScheduledLeg>, flags: seq<bool>, now: int, balance: int, ok: seq<bool>, n: nat)
    requires n < |legs| == |flags| == |ok|
  {
    Fits(legs, flags, now, balance, n) && ok[AdmittedBefore(legs, flags, now, balance, n)]
  }

  function LegJob(legs: seq<ScheduledLeg>, ids: seq<nat>, n: nat): P.Job
    requires n < |legs| == |ids|
  {
    P.Job(ids[n], legs[n].amount, true, P.FireLeg(n))
  }

  /** The jobs of the legs sent, from leg i on. */
  function SentFrom(legs: seq<ScheduledLeg>, flags: seq<bool>, ids: seq<nat>, now: int, balance: int,
                    ok: seq<bool>, i: nat): seq<P.Job>
    requires i <= |legs| == |flags| == |ids| == |ok|
    decreases |legs| - i
  {
    if i == |legs| then []
    else
      (if IsSent(legs, flags, now, balance, ok, i) then [LegJob(legs, ids, i)] else [])
      + SentFrom(legs, flags, ids, now, balance, ok, i + 1)
  }

  /** A leg's job is among those sent if and only if the leg is sent, and nothing else is among them. */
  lemma {:induction false} SentIff(legs: seq<ScheduledLeg>, flags: seq<bool>, ids: seq<nat>, now: int, balance: int,
                                   ok: seq<bool>, i: nat)
    requires i <= |legs| == |flags| == |ids| == |ok|
    ensures forall job :: job in SentFrom(legs, flags, ids, now, balance, ok, i) <==>
              exists n: nat ::
                i <= n < |legs| && IsSent(legs, flags, now, balance, ok, n) && job == LegJob(legs, ids, n)
    decreases |legs| - i
  {
    hide IsSent;
    if i < |legs| {
      SentIff(legs, flags, ids, now, balance, ok, i + 1);
    }
  }

  /** The batch as the sweep builds and admits it, from leg i on with what is left then. */
  lemma {:induction false} SentAreEnqueued(legs: seq<ScheduledLeg>, flags: seq<bool>, ids: seq<nat>, now: int,
                                           balance: int, ok: seq<bool>, i: nat)
    requires i <= |legs| == |flags| == |ids| == |ok|
    ensures var admitted := P.Admitted(DueFrom(legs, flags, ids, now, i), LeftAt(legs, flags, now, balance, i));
            var k := AdmittedBefore(legs, flags, now, balance, i);
            && k + |admitted| == AdmittedBefore(legs, flags, now, balance, |legs|) <= |ok|
            && Enqueued(admitted, ok[k..]) == SentFrom(legs, flags, ids, now, balance, ok, i)
    decreases |legs| - i
  {
    if i < |legs| {
      SentAreEnqueued(legs, flags, ids, now, balance, ok, i + 1);
      SentHead(legs, flags, ids, now, balance, ok, i);
    }
  }

  lemma AdmittedHead(job: P.Job, rest: seq<P.Job>, left: int)
    ensures P.Admitted([job] + rest, left)
            == if left < job.amount + OUTBOUND_FEE then P.Admitted(rest, left)
               else [job] + P.Admitted(rest, left - (job.amount + OUTBOUND_FEE))
  {
    assert ([job] + rest)[1..] == rest;
  }

  lemma EnqueuedHead(job: P.Job, rest: seq<P.Job>, ok: seq<bool>, k: nat)
    requires k < |ok| && |rest| <= |ok| - k - 1
    ensures Enqueued([job] + rest, ok[k..]) == (if ok[k] then [job] else []) + Enqueued(rest, ok[k + 1..])
  {
    assert ([job] + rest)[1..] == rest && ok[k..][1..] == ok[k + 1..];
  }

  lemma NextAt(legs: seq<ScheduledLeg>, flags: seq<bool>, now: int, balance: int, i: nat)
    requires i < |legs| == |flags|
    ensures var fits, need := Fits(legs, flags, now, balance, i), legs[i].amount + OUTBOUND_FEE;
            && LeftAt(legs, flags, now, balance, i + 1)
               == LeftAt(legs, flags, now, balance, i) - (if fits then need else 0)
            && AdmittedBefore(legs, flags, now, balance, i + 1)
               == AdmittedBefore(legs, flags, now, balance, i) + (if fits then 1 else 0)
            && (fits <==> IsDue(legs, flags, now, i) && need <= LeftAt(legs, flags, now, balance, i))
  {}

  lemma DueHead(legs: seq<ScheduledLeg>, flags: seq<bool>, ids: seq<nat>, now: int, i: nat)
    requires i < |legs| == |flags| == |ids|
    ensures var rest := DueFrom(legs, flags, ids, now, i + 1);
            DueFrom(legs, flags, ids, now, i)
            == if IsDue(legs, flags, now, i) then [LegJob(legs, ids, i)] + rest else rest
  {}

  lemma SentHead(legs: seq<ScheduledLeg>, flags: seq<bool>, ids: seq<nat>, now: int, balance: int,
                 ok: seq<bool>, i: nat)
    requires i < |legs| == |flags| == |ids| == |ok|
    requires var admitted := P.Admitted(DueFrom(legs, flags, ids, now, i + 1),
                                        LeftAt(legs, flags, now, balance, i + 1));
             var k := AdmittedBefore(legs, flags, now, balance, i + 1);
             && k + |admitted| == AdmittedBefore(legs, flags, now, balance, |legs|) <= |ok|
             && Enqueued(admitted, ok[k..]) == SentFrom(legs, flags, ids, now, balance, ok, i + 1)
    ensures var admitted := P.Admitted(DueFrom(legs, flags, ids, now, i), LeftAt(legs, flags, now, balance, i));
            var k := AdmittedBefore(legs, flags, now, balance, i);
            && k + |admitted| == AdmittedBefore(legs, flags, now, balance, |legs|) <= |ok|
            && Enqueued(admitted, ok[k..]) == SentFrom(legs, flags, ids, now, balance, ok, i)
  {
    hide P.Admitted, Enqueued, LeftAt, AdmittedBefore, DueFrom, Fits, IsDue;
    var rest := DueFrom(legs, flags, ids, now, i + 1);
    var left, job := LeftAt(legs, flags, now, balance, i), LegJob(legs, ids, i);
    NextAt(legs, flags, now, balance, i);
    DueHead(legs, flags, ids, now, i);
    AdmittedHead(job, rest, left);
    if Fits(legs, flags, now, balance, i) {
      EnqueuedHead(job, P.Admitted(rest, left - (job.amount + OUTBOUND_FEE)), ok,
                   AdmittedBefore(legs, flags, now, balance, i));
    } else {
      assert [] + SentFrom(legs, flags, ids, now, balance, ok, i + 1)
             == SentFrom(legs, flags, ids, now, balance, ok, i + 1);
    }
  }

  function DueCount(legs: seq<ScheduledLeg>, flags: seq<bool>, now: int, i: nat): nat
    requires i <= |legs| == |flags|
    decreases |legs| - i
  {
    if i == |legs| then 0 else (if IsDue(legs, flags, now, i) then 1 else 0) + DueCount(legs, flags, now, i + 1)
  }

  lemma {:induction false} DueCounted(legs: seq<ScheduledLeg>, flags: seq<bool>, ids: seq<nat>, now: int, i: nat)
    requires i <= |legs| == |flags| == |ids|
    ensures |DueFrom(legs, flags, ids, now, i)| == DueCount(legs, flags, now, i) <= |legs| - i
    decreases |legs| - i
  {
    if i < |legs| {
      DueCounted(legs, flags, ids, now, i + 1);
    }
  }

  /** Enqueueing looks at no more answers than there are jobs. */
  lemma {:induction false} EnqueuedPrefix(jobs: seq<P.Job>, ok: seq<bool>, n: nat)
    requires |jobs| <= n <= |ok|
    ensures Enqueued(jobs, ok[..n]) == Enqueued(jobs, ok)
  {
    if jobs != [] {
      assert ok[..n][1..] == ok[1..][..n - 1];
      EnqueuedPrefix(jobs[1..], ok[1..], n - 1);
    }
  }

  lemma {:induction false} AdmittedNoMore(due: seq<P.Job>, balance: int)
    ensures |P.Admitted(due, balance)| <= |due|
  {
    if due != [] {
      AdmittedNoMore(due[1..], balance);
      AdmittedNoMore(due[1..], balance - (due[0].amount + OUTBOUND_FEE));
    }
  }

  /** The unordered branch: every due leg is considered once, in one batch. With the lock free the legs queued are
      exactly those that are due, fit after the due legs admitted before them, and get their enqueue through; they
      are counted by the lock and by `fired`. `ok[k]` is the answer to the k-th enqueue. */
  method FireDueLegs(desk: Disbursements, legs: seq<ScheduledLeg>, now: int, ids: seq<nat>, ok: seq<bool>)
    returns (fired: nat, skipped: nat)
    requires desk.Valid() && ScheduleReady(desk, legs, ids) && |ok| == |legs|
    requires !desk.config.ordered
    modifies desk
    ensures desk.Valid() && desk.config == old(desk.config)
    ensures fired + skipped == DueCount(legs, old(desk.config.fired), now, 0)
    ensures old(LegsGuarded(desk.Abs())) ==> LegsGuarded(desk.Abs())
    ensures old(desk.lock).Held? ==> fired == 0 && desk.Abs() == old(desk.Abs())
    ensures old(desk.lock).Free? ==>
              var sent := SentFrom(legs, old(desk.config.fired), ids, now, old(desk.Abs()).balance, ok, 0);
              && desk.queued == sent && fired == |sent|
              && desk.lock == (if sent == [] then P.Free else P.Held(P.Payout, |sent|))
              && P.Spent(desk.plan)
              && desk.Abs() == old(desk.Abs()).(lock := desk.lock, plan := desk.plan, queued := desk.queued)
  {
    ghost var was := desk.Abs();
    var due: seq<P.Job> := [];
    var i := |legs|;
    while i > 0
      invariant 0 <= i <= |legs|
      invariant due == DueFrom(legs, desk.config.fired, ids, now, i)
    {
      i := i - 1;
      if !desk.config.fired[i] && legs[i].scheduledDate <= now {
        due := [P.Job(ids[i], legs[i].amount, true, P.FireLeg(i))] + due;
      }
    }
    DueIsFresh(desk, legs, ids, now);
    DueAtMostOnce(was.config, legs, ids, now);
    DueCounted(legs, desk.config.fired, ids, now, 0);
    SentAreEnqueued(legs, desk.config.fired, ids, now, was.balance, ok, 0);
    AdmittedNoMore(due, was.balance);
    EnqueuedNil();
    P.NothingUnderWay(was);
    hide Books, Glued, Waiting, LegsGuarded, AtMostOneEach, FreshBatch, ScheduleReady, DueFrom, Enqueued, SentFrom;
    hide P.LockAccounts, DueCount;
    if |due| == 0 {
      return 0, 0;
    }
    var sending := ok[..|due|];
    EnqueuedPrefix(P.Admitted(due, was.balance), ok, |due|);
    fired, skipped := EnqueueUnorderedLegs(desk, due, sending);
    if P.Admitted(due, was.balance) != [] && was.lock.Free? {
      BatchGuarded(was, desk.Abs(), due, was.balance, sending);
    }
  }

  lemma DueIsFresh(desk: Disbursements, legs: seq<ScheduledLeg>, ids: seq<nat>, now: int)
    requires ScheduleReady(desk, legs, ids)
    ensures FreshBatch(desk, DueFrom(legs, desk.config.fired, ids, now, 0))
  {
    var due: seq<nat> := Ids(DueFrom(legs, desk.config.fired, ids, now, 0));
    DueFromFacts(legs, desk.config.fired, ids, now, 0, 0);
    DueFromIds(legs, desk.config.fired, ids, now, 0);
    assert ids[0..] == ids;
    forall x ensures multiset(due)[x] <= 1 {
      assert multiset(ids)[x] <= 1;
    }
  }

  lemma DueAtMostOnce(config: P.Config, legs: seq<ScheduledLeg>, ids: seq<nat>, now: int)
    requires config.Scheduled? && !config.ordered && |legs| == |config.fired| == |ids|
    requires forall leg <- legs :: leg.amount > 0
    ensures AtMostOneEach(config, DueFrom(legs, config.fired, ids, now, 0))
  {
    forall i: nat
      ensures var c := Count(DueFrom(legs, config.fired, ids, now, 0), i); c <= 1 && (c > 0 ==> Payable(config, i))
    {
      DueFromFacts(legs, config.fired, ids, now, 0, i);
    }
  }
}
