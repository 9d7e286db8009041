/** Solvency under the lock: a pot's balance covers every leg that has been promised but not posted. */
module Solvency {
  import opened Fees
  import opened RefundSplit
  import opened ContributorsRefund
  import opened Protocol

  /** What undispatched and queued legs will draw, fees included. */
  function Reserved(s: Pot): int {
    NeedSum(s.queued) + NeedSum(Pending(s))
  }

  ghost predicate Solvent(s: Pot) {
    s.balance >= Reserved(s)
  }

  /** What a step can get wrong. A claim commits to what the balance no longer covers beside what is reserved; a
      reversal takes back what is; a refund shares out the whole balance while something is. */
  predicate Covers(s: Pot, step: Step) {
    match step
    case ClaimSingle(_, job, _, _, enqueued) =>
      Accepted(s, step) && enqueued ==> job.amount + OUTBOUND_FEE <= s.balance - Reserved(s)
    case ClaimBatch(due, _, seen) => Accepted(s, step) ==> NeedSum(Admitted(due, seen)) <= s.balance - Reserved(s)
    case ReverseFunding(amount, seenFree) => seenFree && amount <= s.balance ==> amount <= s.balance - Reserved(s)
    case Rescale => s.plan.Unscaled? && Survivors(s.plan.slots, s.balance) != [] ==> Reserved(s) == 0
    case _ => true
  }

  /** The balance has not fallen since the claimant read it, nor the lock been taken since a reversal found it free. */
  predicate FreshRead(s: Pot, step: Step) {
    match step
    case ClaimSingle(_, _, _, seen, _) => seen <= s.balance
    case ClaimBatch(_, _, seen) => seen <= s.balance
    case ReverseFunding(_, seenFree) => seenFree ==> s.lock.Free?
    case _ => true
  }

  // ----- sums over job lists ----------------------------------------------------------------------------

  lemma {:induction false} NeedSumAppend(xs: seq<Job>, ys: seq<Job>)
    ensures NeedSum(xs + ys) == NeedSum(xs) + NeedSum(ys)
  {
    if xs == [] {
      assert xs + ys == ys;
    } else {
      assert (xs + ys)[1..] == xs[1..] + ys;
      NeedSumAppend(xs[1..], ys);
    }
  }

  lemma NeedSumRemove(jobs: seq<Job>, k: nat)
    requires k < |jobs|
    ensures NeedSum(RemoveAt(jobs, k)) == NeedSum(jobs) - Need(jobs[k])
  {
    NeedSumAppend(jobs[..k], jobs[k + 1..]);
    NeedSumAppend(jobs[..k], [jobs[k]] + jobs[k + 1..]);
    assert jobs == jobs[..k] + ([jobs[k]] + jobs[k + 1..]);
  }

  lemma NeedSumPush(jobs: seq<Job>, job: Job)
    ensures NeedSum(jobs + [job]) == NeedSum(jobs) + Need(job)
  {
    NeedSumAppend(jobs, [job]);
  }

  lemma {:induction false} NeedSumNonNegative(jobs: seq<Job>)
    ensures NeedSum(jobs) >= 0
    ensures forall j <- jobs :: Need(j) <= NeedSum(jobs)
  {
    if jobs != [] {
      NeedSumNonNegative(jobs[1..]);
    }
  }

  /** A batch never reserves more than the snapshot it was admitted against. */
  lemma {:induction false} AdmittedFits(due: seq<Job>, balance: int)
    requires forall j <- due :: j.amount > 0
    ensures Admitted(due, balance) != [] ==> NeedSum(Admitted(due, balance)) <= balance
  {
    if due != [] {
      assert forall j <- due[1..] :: j in due;
      assert due[0] in due;
      AdmittedFits(due[1..], balance);
      AdmittedFits(due[1..], balance - (due[0].amount + OUTBOUND_FEE));
    }
  }

  lemma {:induction false} NeedsAreDemand(jobs: seq<Job>, amounts: seq<int>)
    requires |jobs| == |amounts| && forall i :: 0 <= i < |jobs| ==> jobs[i].amount == amounts[i]
    ensures NeedSum(jobs) == Demand(amounts)
  {
    if jobs != [] {
      NeedsAreDemand(jobs[1..], amounts[1..]);
    }
  }

  /** The rescaled legs of a refund draw the whole balance just read, or nothing. */
  lemma RescaledNeeds(slots: seq<Slot>, ids: seq<nat>, balance: int)
    requires InPlace(slots) && |ids| == |slots|
    ensures NeedSum(RefundJobs(slots, ids, balance)) == if Survivors(slots, balance) == [] then 0 else balance
  {
    RefundDrainsOrNothing(slots, balance);
    hide FinalAmounts;
    NeedsAreDemand(RefundJobs(slots, ids, balance), FinalAmounts(slots, balance));
  }

  // ----- one step -----------------------------------------------------------------------------------------

  lemma ReservedParts(s: Pot)
    ensures Reserved(s) == NeedSum(s.queued) + NeedSum(JobsIn(s.plan)) + NeedSum(JobsInAll(s.others))
    ensures Reserved(s) >= 0
  {
    NeedSumAppend(JobsIn(s.plan), JobsInAll(s.others));
    NeedSumNonNegative(s.queued);
    NeedSumNonNegative(Pending(s));
  }

  lemma ReservedIgnores(s: Pot, job: Job, effect: Effect)
    ensures Reserved(Release(s, job)) == Reserved(s) && Release(s, job).balance == s.balance
    ensures Reserved(Decrement(s)) == Reserved(s) && Decrement(s).balance == s.balance
    ensures Reserved(ApplyEffect(s, effect)) == Reserved(s) && ApplyEffect(s, effect).balance == s.balance
  {
    EffectKeeps(s, effect);
  }

  lemma AfterWorkSolvent(s: Pot, job: Job, outcome: Outcome)
    requires s.balance >= Reserved(s) + Need(job) && job.amount > 0
    ensures Solvent(AfterWork(s, job, outcome))
  {
    hide Release, ApplyEffect, Reserved;
    var paid := s.(balance := s.balance - (job.amount + OUTBOUND_FEE));
    ReservedIgnores(s, job, job.effect);
    ReservedIgnores(paid, job, job.effect);
    ReservedIgnores(Release(paid, job), job, job.effect);
    ReservedIgnores(Release(s, job), job, job.effect);
    ReservedOfParts(s, paid);
    ReservedOfParts(s, paid.(processing := s.processing + [job]));
    ReservedOfParts(s, s.(stranded := s.stranded + 1));
  }

  lemma ReservedOfParts(s: Pot, t: Pot)
    requires s.queued == t.queued && s.plan == t.plan && s.others == t.others
    ensures Reserved(s) == Reserved(t)
  {}

  lemma WorkStaysSolvent(s: Pot, k: nat, outcome: Outcome)
    requires Shaped(s) && Solvent(s)
    ensures Solvent(Next(s, Work(k, outcome)))
  {
    if k < |s.queued| {
      NeedSumRemove(s.queued, k);
      WorkShaped(s, k, outcome);
      hide Shaped, AfterWork, RemoveAt, Pending;
      AfterWorkSolvent(s.(queued := RemoveAt(s.queued, k)), s.queued[k], outcome);
    }
  }

  lemma SettleStaysSolvent(s: Pot, k: nat, success: bool, lapse: Lapse)
    requires Shaped(s) && Solvent(s)
    ensures Solvent(Next(s, Settle(k, success, lapse)))
  {
    if k < |s.processing| {
      SettleShaped(s, k, success, lapse);
      var job := s.processing[k];
      hide Shaped, RemoveAt;
      var s1 := s.(processing := RemoveAt(s.processing, k));
      ReservedOfParts(s, s1);
      hide Reserved;
      AfterSettleSolvent(s1, job, success, lapse);
    }
  }

  lemma AfterSettleSolvent(s: Pot, job: Job, success: bool, lapse: Lapse)
    requires Solvent(s) && job.amount > 0
    ensures Solvent(AfterSettle(s, job, success, lapse))
  {
    hide Reserved, Decrement, ApplyEffect;
    var back := s.(balance := s.balance + (job.amount + OUTBOUND_FEE));
    var applied := ApplyEffect(s, job.effect);
    ReservedIgnores(s, job, job.effect);
    ReservedOfParts(s, back);
    ReservedIgnores(back, job, job.effect);
    ReservedIgnores(applied, job, job.effect);
    ReservedOfParts(s, s.(stranded := s.stranded + 1));
    ReservedOfParts(back, back.(stranded := s.stranded + 1));
    ReservedOfParts(applied, applied.(stranded := applied.stranded + 1));
  }

  /** A turn of a dispatch loop moves a leg to the queue, or lets go of some. */
  lemma DispatchReserves(s: Pot, enqueued: bool)
    ensures var t := Next(s, Dispatch(enqueued));
            t.balance == s.balance && Reserved(t) <= Reserved(s)
  {
    hide Reserved, Pending, JobsInAll, NeedSum;
    if JobsIn(s.plan) != [] {
      ReservedParts(s);
      ReservedParts(Next(s, Dispatch(enqueued)));
      NeedSumPush(s.queued, s.plan.jobs[0]);
      NeedSumSplit(s.plan.jobs);
    }
  }

  lemma NeedSumSplit(jobs: seq<Job>)
    requires jobs != []
    ensures NeedSum(jobs) == Need(jobs[0]) + NeedSum(jobs[1..]) && NeedSum(jobs[1..]) >= 0 && NeedSum([]) == 0
  {
    NeedSumNonNegative(jobs[1..]);
  }

  lemma TurnReserves(s: Pot, n: nat)
    ensures Reserved(Next(s, Turn(n))) == Reserved(s)
  {
    hide NeedSum, Pending, JobsIn;
    if n < |s.others| {
      var before, after := PendingTurned(s, n);
      var mine, theirs := JobsIn(s.plan), JobsIn(s.others[n]);
      NeedSumAppend(mine, before + theirs + after);
      NeedSumAppend(before + theirs, after);
      NeedSumAppend(before, theirs);
      NeedSumAppend(theirs, before + mine + after);
      NeedSumAppend(before + mine, after);
      NeedSumAppend(before, mine);
    }
  }

  lemma BegunReserves(s: Pot, plan: Plan)
    ensures Reserved(Begin(s, plan)) == Reserved(s) + NeedSum(JobsIn(plan))
  {
    PendingBegun(s, plan);
    NeedSumAppend(JobsIn(s.plan), JobsInAll(s.others));
    NeedSumAppend(JobsIn(plan), JobsInAll(s.others) + JobsIn(s.plan));
    NeedSumAppend(JobsInAll(s.others), JobsIn(s.plan));
  }

  lemma ClaimSolventIff(s: Pot, step: Step)
    requires Shaped(s) && Solvent(s) && Callable(step) && IsClaim(step)
    ensures Solvent(Next(s, step)) <==> Covers(s, step)
  {
    hide Shaped, Survivors;
    if Accepted(s, step) {
      match step {
        case ClaimSingle(_, job, _, _, _) =>
          NeedSumPush(s.queued, job);
        case ClaimBatch(due, _, seen) =>
          BatchReserves(s, due, seen);
        case ClaimRefund(slots, ids, _, _) =>
          BegunReserves(s.(lock := Held(Refund, |slots|)), Unscaled(slots, ids));
          ReservedOfParts(s, s.(lock := Held(Refund, |slots|)));
      }
    } else {
      assert Next(s, step) == s;
    }
  }

  lemma BatchReserves(s: Pot, due: seq<Job>, seen: int)
    requires s.lock.Free? && Admitted(due, seen) != []
    ensures var t := Next(s, ClaimBatch(due, true, seen));
            t.balance == s.balance && Reserved(t) == Reserved(s) + NeedSum(Admitted(due, seen))
  {
    var admitted := Admitted(due, seen);
    var held := s.(lock := Held(Payout, |admitted|));
    hide Admitted;
    BegunReserves(held, Dispatching(false, admitted));
    ReservedOfParts(s, held);
  }

  lemma RescaleReserves(s: Pot)
    requires s.plan.Unscaled? && ShapedPlan(s.plan)
    ensures var t := Next(s, Rescale);
            && t.balance == s.balance
            && Reserved(t) == Reserved(s) + if Survivors(s.plan.slots, s.balance) == [] then 0 else s.balance
  {
    hide Reserved, Survivors, RefundJobs, InPlace, Pending, JobsInAll, NeedSum;
    ReservedParts(s);
    ReservedParts(Next(s, Rescale));
    RescaledNeeds(s.plan.slots, s.plan.ids, s.balance);
    NoNeeds();
  }

  lemma NoNeeds()
    ensures NeedSum([]) == 0
  {}

  lemma RescaleSolventIff(s: Pot)
    requires Shaped(s) && Solvent(s)
    ensures Solvent(Next(s, Rescale)) <==> Covers(s, Rescale)
  {
    hide Survivors, RefundJobs, ShapedPlan, Pending, NeedSum;
    ReservedParts(s);
    if s.plan.Unscaled? {
      RescaleReserves(s);
    }
  }

  /** Every step keeps the pot solvent, except exactly one that the balance does not cover. */
  lemma StepSolventIff(s: Pot, step: Step)
    requires Shaped(s) && Solvent(s) && Callable(step)
    ensures Solvent(Next(s, step)) <==> Covers(s, step)
  {
    hide Shaped, Callable;
    match step
    case Work(k, outcome) => WorkStaysSolvent(s, k, outcome);
    case Settle(k, success, lapse) => SettleStaysSolvent(s, k, success, lapse);
    case Dispatch(enqueued) => DispatchReserves(s, enqueued);
    case Turn(n) => TurnReserves(s, n);
    case Fund(_) =>
    case ReverseFunding(_, _) =>
    case Close(_, _) =>
    case Rescale => RescaleSolventIff(s);
    case _ => ClaimSolventIff(s, step);
  }

  /** While the lock accounts for what is outstanding, a free lock means nothing is reserved. */
  lemma NothingReserved(s: Pot)
    requires LockAccounts(s) && (s.lock.Free? || s.plan.Unscaled?)
    ensures Reserved(s) == 0
  {
    assert s.queued == [] && s.others == [] && JobsIn(s.plan) == [];
  }

  /** Then a reading of the balance that has not gone stale covers whatever the step does. */
  lemma FreshReadCovers(s: Pot, step: Step)
    requires LockAccounts(s) && Callable(step) && FreshRead(s, step)
    ensures Covers(s, step)
  {
    if s.lock.Free? || s.plan.Unscaled? {
      NothingReserved(s);
    }
    hide LockAccounts, Reserved, NeedSum, Survivors;
    if step.ClaimBatch? {
      AdmittedFits(step.due, step.seen);
    }
  }

  // ----- runs ----------------------------------------------------------------------------------------------

  predicate AllCover(s: Pot, steps: seq<Step>)
    decreases |steps|
  {
    steps == [] || (Covers(s, steps[0]) && AllCover(Next(s, steps[0]), steps[1..]))
  }

  predicate AllFresh(s: Pot, steps: seq<Step>)
    decreases |steps|
  {
    steps == [] || (FreshRead(s, steps[0]) && AllFresh(Next(s, steps[0]), steps[1..]))
  }

  /** Every state along the run is solvent. */
  ghost predicate SolventThroughout(s: Pot, steps: seq<Step>)
    decreases |steps|
  {
    Solvent(s) && (steps == [] || SolventThroughout(Next(s, steps[0]), steps[1..]))
  }

  /** A run is solvent throughout if and only if each step along it was covered when it was made. */
  lemma {:induction false} RunSolventIff(s: Pot, steps: seq<Step>)
    requires Shaped(s) && Solvent(s) && AllCallable(steps)
    ensures SolventThroughout(s, steps) <==> AllCover(s, steps)
    decreases |steps|
  {
    if steps != [] {
      assert Callable(steps[0]);
      StepSolventIff(s, steps[0]);
      StepShaped(s, steps[0]);
      if Covers(s, steps[0]) {
        hide Shaped, Covers, Solvent, Callable, Next;
        assert AllCallable(steps[1..]);
        RunSolventIff(Next(s, steps[0]), steps[1..]);
      }
    }
  }

  lemma {:induction false} ThroughoutToTheEnd(s: Pot, steps: seq<Step>)
    requires SolventThroughout(s, steps)
    ensures Solvent(Run(s, steps))
    decreases |steps|
  {
    if steps != [] {
      ThroughoutToTheEnd(Next(s, steps[0]), steps[1..]);
    }
  }

  /** In every state a run reaches by steps that were covered, the pot covers all it has promised, so the worker
      never finds the balance short of a queued job. */
  lemma SolventWhenCovered(config: Config, steps: seq<Step>)
    requires AllCallable(steps) && AllCover(NewPot(config), steps)
    ensures var s := Run(NewPot(config), steps);
            && Solvent(s)
            && s.balance >= 0
            && forall j <- s.queued :: s.balance >= j.amount + OUTBOUND_FEE
  {
    var s0 := NewPot(config);
    NewPotAccounts(config);
    assert Solvent(s0);
    RunSolventIff(s0, steps);
    ThroughoutToTheEnd(s0, steps);
    RunShaped(s0, steps);
    var s := Run(s0, steps);
    hide Run, NewPot, AllCover;
    ReservedParts(s);
    NeedSumNonNegative(s.queued);
    NeedSumNonNegative(JobsIn(s.plan));
    NeedSumNonNegative(JobsInAll(s.others));
    forall j | j in s.queued ensures s.balance >= j.amount + OUTBOUND_FEE {
      assert j in s.queued + s.processing;
      assert Need(j) <= NeedSum(s.queued);
    }
  }

  lemma {:induction false} FreshRunCovered(s: Pot, steps: seq<Step>)
    requires LockAccounts(s) && AllCallable(steps) && NeverReleasesTwice(s, steps) && AllFresh(s, steps)
    ensures AllCover(s, steps)
    decreases |steps|
  {
    if steps != [] {
      assert Callable(steps[0]);
      FreshReadCovers(s, steps[0]);
      StepAccountsIff(s, steps[0]);
      hide LockAccounts, Covers, Callable, ReleasesTwice, FreshRead, Next;
      assert AllCallable(steps[1..]);
      FreshRunCovered(Next(s, steps[0]), steps[1..]);
    }
  }

  /** In particular in every state reached by claims on fresh readings, with no unit given back twice. */
  lemma SolventUnderTheLock(config: Config, steps: seq<Step>)
    requires AllCallable(steps) && AllFresh(NewPot(config), steps) && NeverReleasesTwice(NewPot(config), steps)
    ensures var s := Run(NewPot(config), steps);
            && Solvent(s)
            && s.balance >= 0
            && forall j <- s.queued :: s.balance >= j.amount + OUTBOUND_FEE
  {
    NewPotAccounts(config);
    hide LockAccounts, Shaped, Callable, Covers, Next;
    FreshRunCovered(NewPot(config), steps);
    SolventWhenCovered(config, steps);
  }

  /** A balance read, a reversal and then the claim: the job is queued short of funds, and the worker's
      own check is what stops it, releasing the lock and paying nothing. */
  lemma StaleClaimReachesTheWorkerCheck()
    ensures var job := Job(1, 90000, false, NoEffect);
            var steps := [Fund(100000), ReverseFunding(60000, true), ClaimSingle(Payout, job, true, 100000, true)];
            var s := Run(NewPot(Manual), steps);
            && AllWellFormed(steps) && !AllFresh(NewPot(Manual), steps)
            && s.queued == [job] && s.balance < job.amount + OUTBOUND_FEE && !Solvent(s)
            && Next(s, Work(0, Answered(Succeeded))) == s.(queued := [], lock := Free)
  {
    var job := Job(1, 90000, false, NoEffect);
    var steps := [Fund(100000), ReverseFunding(60000, true), ClaimSingle(Payout, job, true, 100000, true)];
    var s0 := NewPot(Manual);
    var s1, s2 := Next(s0, steps[0]), Next(Next(s0, steps[0]), steps[1]);
    assert steps[1..][1..] == [steps[2]] && steps[2..][1..] == [];
    assert s2.balance == 40000;
    assert Run(s2, steps[2..]) == Next(s2, steps[2]);
    assert Run(s1, steps[1..]) == Run(s2, steps[2..]);
    assert !AllFresh(s2, steps[2..]);
    assert !AllFresh(s1, steps[1..]);
    var s := Next(s2, steps[2]);
    assert s.queued == [job];
    assert RemoveAt([job], 0) == [];
  }

  /** A reversal reads the lock as free, a payout claims it on a fresh reading, and the reversal is posted: the job
      it leaves queued is short of funds, under its own lock. */
  lemma LateReversalLeavesAJobShort()
    ensures var job := Job(1, 90000, false, NoEffect);
            var steps := [Fund(100000), ClaimSingle(Payout, job, true, 100000, true), ReverseFunding(60000, true)];
            var s := Run(NewPot(Manual), steps);
            && AllWellFormed(steps) && !AllFresh(NewPot(Manual), steps)
            && s.queued == [job] && s.lock == Held(Payout, 1) && s.balance < job.amount + OUTBOUND_FEE && !Solvent(s)
  {
    var job := Job(1, 90000, false, NoEffect);
    var steps := [Fund(100000), ClaimSingle(Payout, job, true, 100000, true), ReverseFunding(60000, true)];
    var s0 := NewPot(Manual);
    var s1, s2 := Next(s0, steps[0]), Next(Next(s0, steps[0]), steps[1]);
    assert steps[1..][1..] == [steps[2]] && steps[2..][1..] == [];
    assert s2.queued == [job] && s2.lock == Held(Payout, 1);
    assert Run(s2, steps[2..]) == Next(s2, steps[2]);
    assert Run(s1, steps[1..]) == Run(s2, steps[2..]);
    assert !AllFresh(s2, steps[2..]);
    assert !AllFresh(s1, steps[1..]);
    ReservedParts(Next(s2, steps[2]));
  }
}
