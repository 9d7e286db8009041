/** What a recurring rule sees over every run, and when a pot closes. */
module PotRules {
  import opened Fees
  import opened Protocol
  import opened Schedules
  import opened Solvency

  // ----- recurring rules -----------------------------------------------------------------------------------

  function Advances(jobs: seq<Job>): nat {
    if jobs == [] then 0 else (if jobs[0].effect.AdvanceRecurring? then 1 else 0) + Advances(jobs[1..])
  }

  lemma {:induction false} AdvancesAppend(xs: seq<Job>, ys: seq<Job>)
    ensures Advances(xs + ys) == Advances(xs) + Advances(ys)
  {
    if xs == [] {
      assert xs + ys == ys;
    } else {
      assert (xs + ys)[1..] == xs[1..] + ys;
      AdvancesAppend(xs[1..], ys);
    }
  }

  lemma RecurringStep(s: Pot, step: Step)
    requires s.config.Recurring?
    ensures var t := Next(s, step);
            && t.config.Recurring? && t.config.intervalDays == s.config.intervalDays
            && t.config.nextRunAt == s.config.nextRunAt + Intervals(s.config.intervalDays, Advances(Recorded(s, step)))
  {
    StepConfig(s, step);
    var done := Recorded(s, step);
    if done != [] {
      assert done[1..] == [];
      assert Advances(done) == if done[0].effect.AdvanceRecurring? then 1 else 0;
    }
  }

  /** The length of n intervals. */
  function Intervals(days: nat, n: nat): nat {
    if n == 0 then 0 else days + Intervals(days, n - 1)
  }

  lemma {:induction false} AddIntervals(days: nat, a: nat, b: nat)
    ensures Intervals(days, a + b) == Intervals(days, a) + Intervals(days, b)
    ensures Intervals(days, 0) == 0
  {
    if a > 0 {
      AddIntervals(days, a - 1, b);
      assert a + b - 1 == a - 1 + b;
    }
  }

  lemma NoAdvances()
    ensures Advances([]) == 0
  {}

  /** A recurring rule's next run is its first one plus an interval for every payout recorded, whichever
      path recorded it. */
  lemma {:induction false} RecurringAdvances(s: Pot, steps: seq<Step>)
    requires s.config.Recurring?
    ensures var t := Run(s, steps);
            && t.config.Recurring? && t.config.intervalDays == s.config.intervalDays
            && t.config.nextRunAt
               == s.config.nextRunAt + Intervals(s.config.intervalDays, Advances(Along(Recorded, s, steps)))
    decreases |steps|
  {
    hide Next, Recorded, Advances, Intervals;
    if steps != [] {
      var t := Next(s, steps[0]);
      var done, rest := Recorded(s, steps[0]), Along(Recorded, t, steps[1..]);
      RecurringStep(s, steps[0]);
      RecurringAdvances(t, steps[1..]);
      assert Along(Recorded, s, steps) == done + rest && Run(s, steps) == Run(t, steps[1..]);
      hide Run, Along;
      AdvancesAppend(done, rest);
      AddIntervals(s.config.intervalDays, Advances(done), Advances(rest));
    } else {
      AddIntervals(s.config.intervalDays, 0, 0);
      NoAdvances();
    }
  }

  // ----- closing -------------------------------------------------------------------------------------------

  /** A dated target closes its pot when the worker sees the success itself and, since the webhook path
      applies the side effect with the lock still held, not when a webhook brings the news. */
  lemma TargetClosesIff(s: Pot, step: Step)
    requires LockAccounts(s) && s.status == Open && s.config.TargetBased? && s.config.dated
    requires Recorded(s, step) != [] && Recorded(s, step)[0].effect == FireTarget && !Recorded(s, step)[0].fanOut
    ensures Next(s, step).config.targetFired
    ensures Next(s, step).lock.Free? <==> (step.Settle? ==> !step.lapse.ReleaseLapse?)
    ensures Next(s, step).status == Closed <==> step.Work?
  {
    hide LockAccounts, RemoveAt;
    if step.Work? {
      TakenUp(s, step.k);
    } else {
      TakenOut(s, step.k);
    }
  }

  /** The effect recorded in a step, if any. */
  predicate Records(s: Pot, step: Step, effect: Effect) {
    Recorded(s, step) != [] && Recorded(s, step)[0].effect == effect
  }

  /** Whether the lock is free once the worker has given it back, or as the webhook finds it, when the side effect
      comes to be applied. */
  predicate FreeAtEffect(s: Pot, step: Step)
    requires Recorded(s, step) != []
  {
    if step.Settle? then s.lock.Free? else !Recorded(s, step)[0].fanOut || s.lock.Free? || s.lock.legCount <= 1
  }

  /** For every state and step, a pot's status changes if and only if it is open and is closed by its admin, or the
      success of a target with a date is recorded while the lock is free. */
  lemma StatusChangesIff(s: Pot, step: Step)
    ensures Next(s, step).status != s.status <==>
              && s.status == Open
              && (|| (step.Close? && step.seenIdle && step.seen == 0 && s.lock.Free?)
                  || (&& s.config.TargetBased? && s.config.dated
                      && Records(s, step, FireTarget) && FreeAtEffect(s, step)))
  {
    hide RemoveAt;
  }

  /** So no payout closes a pot whose target has no date, or that has no target: it can fire again. */
  lemma {:induction false} UndatedStaysOpen(s: Pot, steps: seq<Step>)
    requires !(s.config.TargetBased? && s.config.dated) && forall step <- steps :: !step.Close?
    ensures Run(s, steps).status == s.status
    decreases |steps|
  {
    if steps != [] {
      assert !steps[0].Close? && forall step <- steps[1..] :: step in steps;
      StatusChangesIff(s, steps[0]);
      RuleChanges(s, steps[0]);
      hide Next;
      UndatedStaysOpen(Next(s, steps[0]), steps[1..]);
    }
  }

  /** What each step does to the payout rule: nothing, but that a recorded success marks its target fired, moves its
      recurring rule on by one interval, or marks its leg fired. */
  lemma RuleChanges(s: Pot, step: Step)
    ensures var t := Next(s, step);
            match s.config
            case Manual => t.config == Manual
            case TargetBased(dated, fired) => t.config == TargetBased(dated, fired || Records(s, step, FireTarget))
            case Recurring(next, days) =>
              t.config == Recurring(if Records(s, step, AdvanceRecurring) then next + days else next, days)
            case Scheduled(ordered, fired) =>
              && t.config.Scheduled? && t.config.ordered == ordered && |t.config.fired| == |fired|
              && forall i: nat :: i < |fired| ==> (t.config.fired[i] <==> fired[i] || Records(s, step, FireLeg(i)))
  {
    StepConfig(s, step);
    hide Next;
  }

  lemma StepKeepsClosed(s: Pot, step: Step)
    requires s.status == Closed
    ensures Next(s, step).status == Closed
  {
    match step
    case Work(k, outcome) =>
      if k < |s.queued| {
        var job := s.queued[k];
        var s1 := s.(queued := RemoveAt(s.queued, k), balance := s.balance - (job.amount + OUTBOUND_FEE));
        EffectKeeps(Release(s1, job), job.effect);
      }
    case Settle(k, _, _) =>
      if k < |s.processing| {
        EffectKeeps(s.(processing := RemoveAt(s.processing, k)), s.processing[k].effect);
      }
    case _ =>
  }

  predicate FreeIfClosed(s: Pot) {
    s.status == Closed ==> s.lock.Free?
  }

  predicate FreeWhileClosed(s: Pot, steps: seq<Step>)
    decreases |steps|
  {
    FreeIfClosed(s) && (steps == [] || FreeWhileClosed(Next(s, steps[0]), steps[1..]))
  }

  /** Each claim that took the lock did so while the pot was open. */
  predicate ClaimsWhileOpen(s: Pot, steps: seq<Step>)
    decreases |steps|
  {
    steps == [] || ((Accepted(s, steps[0]) ==> s.status == Open) && ClaimsWhileOpen(Next(s, steps[0]), steps[1..]))
  }

  lemma WorkFreeIfClosed(s: Pot, k: nat, outcome: Outcome)
    requires FreeIfClosed(s)
    ensures FreeIfClosed(Next(s, Work(k, outcome)))
  {
    hide RemoveAt, ApplyEffect;
    if k < |s.queued| {
      var job := s.queued[k];
      var s1 := s.(queued := RemoveAt(s.queued, k), balance := s.balance - (job.amount + OUTBOUND_FEE));
      EffectKeeps(Release(s1, job), job.effect);
    }
  }

  lemma SettleFreeIfClosed(s: Pot, k: nat, success: bool, lapse: Lapse)
    requires FreeIfClosed(s)
    ensures FreeIfClosed(Next(s, Settle(k, success, lapse)))
  {
    hide RemoveAt, ApplyEffect;
    if k < |s.processing| {
      EffectKeeps(s.(processing := RemoveAt(s.processing, k)), s.processing[k].effect);
    }
  }

  lemma StepFreeIfClosedIff(s: Pot, step: Step)
    requires FreeIfClosed(s)
    ensures FreeIfClosed(Next(s, step)) <==> (Accepted(s, step) ==> s.status == Open)
  {
    match step
    case Work(k, outcome) => WorkFreeIfClosed(s, k, outcome);
    case Settle(k, success, lapse) => SettleFreeIfClosed(s, k, success, lapse);
    case Dispatch(_) =>
    case _ =>
  }

  /** Along any run whatever a closed pot has no operation in flight, if and only if every claim that took the lock
      did so while the pot was open: the claim itself does not look. */
  lemma {:induction false} ClosedForGood(s: Pot, steps: seq<Step>)
    requires FreeIfClosed(s)
    ensures FreeWhileClosed(s, steps) <==> ClaimsWhileOpen(s, steps)
    decreases |steps|
  {
    if steps != [] {
      StepFreeIfClosedIff(s, steps[0]);
      if Accepted(s, steps[0]) ==> s.status == Open {
        hide FreeIfClosed, Accepted, Next;
        ClosedForGood(Next(s, steps[0]), steps[1..]);
      }
    }
  }

  /** A caller reads an open pot; the pot is closed at zero and then credited; the caller reads the new balance
      and claims: the lock is held and a job queued on a closed pot, every balance reading being fresh. */
  lemma LateClaimLocksAClosedPot()
    ensures var job := Job(1, 10000, false, NoEffect);
            var steps := [Close(true, 0), Fund(20000), ClaimSingle(Payout, job, true, 20000, true)];
            var s := Run(NewPot(Manual), steps);
            && AllWellFormed(steps) && AllFresh(NewPot(Manual), steps)
            && s.status == Closed && s.lock == Held(Payout, 1) && s.queued == [job]
  {
    var job := Job(1, 10000, false, NoEffect);
    var steps := [Close(true, 0), Fund(20000), ClaimSingle(Payout, job, true, 20000, true)];
    var s0 := NewPot(Manual);
    var s1 := Next(s0, steps[0]);
    var s2 := Next(s1, steps[1]);
    assert steps[1..][1..] == [steps[2]] && steps[1..][1..][1..] == [];
    assert Run(s2, steps[1..][1..]) == Run(Next(s2, steps[2]), []);
    assert AllFresh(s2, steps[1..][1..]);
    assert AllFresh(s1, steps[1..]);
  }

  // ----- what a pot holds ----------------------------------------------------------------------------------

  function FundedBy(step: Step): nat {
    if step.Fund? then step.amount else 0
  }

  /** What the step takes back of an earlier funding, if it is accepted. */
  function ReversedBy(s: Pot, step: Step): nat {
    if step.ReverseFunding? && step.seenFree && s.balance >= step.amount then step.amount else 0
  }

  function Funded(steps: seq<Step>): nat {
    if steps == [] then 0 else FundedBy(steps[0]) + Funded(steps[1..])
  }

  function Reversed(s: Pot, steps: seq<Step>): nat
    decreases |steps|
  {
    if steps == [] then 0 else ReversedBy(s, steps[0]) + Reversed(Next(s, steps[0]), steps[1..])
  }

  /** A pot's balance and what its processing transfers have drawn. */
  function Holds(s: Pot): int {
    s.balance + NeedSum(s.processing)
  }

  lemma AfterWorkConserves(s: Pot, job: Job, outcome: Outcome)
    requires job.amount > 0
    ensures Holds(AfterWork(s, job, outcome))
            == Holds(s)
               - if outcome == Answered(Succeeded) && s.balance >= job.amount + OUTBOUND_FEE then Need(job) else 0
  {
    NeedSumPush(s.processing, job);
    hide NeedSum, ApplyEffect, Release;
    var paid := s.(balance := s.balance - (job.amount + OUTBOUND_FEE));
    SameMoney(s, job);
    SameMoney(paid, job);
    SameMoney(Release(s, job), job);
    EffectKeeps(Release(paid, job), job.effect);
  }

  lemma SameMoney(s: Pot, job: Job)
    ensures Release(s, job).balance == s.balance && Release(s, job).processing == s.processing
  {}

  lemma WorkConserves(s: Pot, k: nat, outcome: Outcome)
    requires Shaped(s)
    ensures Holds(Next(s, Work(k, outcome))) + NeedSum(Completed(s, Work(k, outcome))) == Holds(s)
  {
    if k < |s.queued| {
      WorkShaped(s, k, outcome);
      assert [s.queued[k]][1..] == [];
      hide Shaped, RemoveAt, AfterWork;
      AfterWorkConserves(s.(queued := RemoveAt(s.queued, k)), s.queued[k], outcome);
    }
  }

  lemma SettleConserves(s: Pot, k: nat, success: bool, lapse: Lapse)
    requires Shaped(s)
    ensures Holds(Next(s, Settle(k, success, lapse))) + NeedSum(Completed(s, Settle(k, success, lapse))) == Holds(s)
  {
    if k < |s.processing| {
      SettleShaped(s, k, success, lapse);
      var job := s.processing[k];
      NeedSumRemove(s.processing, k);
      assert [job][1..] == [];
      hide Shaped, RemoveAt, ApplyEffect;
      EffectKeeps(s.(processing := RemoveAt(s.processing, k)), job.effect);
    }
  }

  lemma StepConserves(s: Pot, step: Step)
    requires Shaped(s)
    ensures Holds(Next(s, step)) + NeedSum(Completed(s, step)) == Holds(s) + FundedBy(step) - ReversedBy(s, step)
  {
    match step
    case Work(k, outcome) => WorkConserves(s, k, outcome);
    case Settle(k, success, lapse) => SettleConserves(s, k, success, lapse);
    case _ =>
  }

  /** Conservation over any run, failures and errors included: what a pot has and has in transit, with what its
      completed payouts drew, is what it had, with what was funded and not reversed. Nothing else moves its money. */
  lemma {:induction false} Conservation(s: Pot, steps: seq<Step>)
    requires Shaped(s) && AllCallable(steps)
    ensures Holds(Run(s, steps)) + NeedSum(Along(Completed, s, steps)) == Holds(s) + Funded(steps) - Reversed(s, steps)
    decreases |steps|
  {
    if steps != [] {
      assert Callable(steps[0]);
      StepConserves(s, steps[0]);
      StepShaped(s, steps[0]);
      var t := Next(s, steps[0]);
      NeedSumAppend(Completed(s, steps[0]), Along(Completed, t, steps[1..]));
      hide Shaped, Callable, Next, Completed, Holds, ReversedBy, NeedSum;
      assert AllCallable(steps[1..]);
      Conservation(t, steps[1..]);
    } else {
      assert NeedSum([]) == 0;
    }
  }

  lemma {:induction false} NothingClaimed(s: Pot, steps: seq<Step>)
    requires LockAccounts(s) && s.lock.Free? && s.status == Closed && AllCallable(steps) && ClaimsWhileOpen(s, steps)
    ensures Along(Completed, s, steps) == [] && Run(s, steps).processing == [] && Run(s, steps).lock.Free?
    ensures Run(s, steps).status == Closed
    decreases |steps|
  {
    if steps != [] {
      assert Callable(steps[0]);
      var t := Next(s, steps[0]);
      NothingToComplete(s, steps[0]);
      StepKeepsClosed(s, steps[0]);
      StepFreeIfClosedIff(s, steps[0]);
      StepAccountsIff(s, steps[0]);
      hide LockAccounts, Callable, Next, Completed;
      assert AllCallable(steps[1..]);
      NothingClaimed(t, steps[1..]);
    }
  }

  lemma NothingToComplete(s: Pot, step: Step)
    requires LockAccounts(s) && s.lock.Free?
    ensures s.queued == [] && s.processing == [] && Completed(s, step) == []
  {}

  lemma {:induction false} RunKeepsClosed(s: Pot, steps: seq<Step>)
    requires s.status == Closed
    ensures Run(s, steps).status == Closed
    decreases |steps|
  {
    if steps != [] {
      StepKeepsClosed(s, steps[0]);
      hide Next;
      RunKeepsClosed(Next(s, steps[0]), steps[1..]);
    }
  }

  /** What a closed pot holds after any run: what it held, with what was funded since, less what was reversed, less
      what late claims have paid or have in transit. Closed empty, it holds nothing exactly when those cancel, and
      without a late claim exactly when every funding since closing has been reversed. */
  lemma ClosedPotHolds(s: Pot, steps: seq<Step>)
    requires LockAccounts(s) && Shaped(s) && s.status == Closed && s.lock.Free? && AllCallable(steps)
    ensures var t := Run(s, steps);
            var late := NeedSum(Along(Completed, s, steps)) + NeedSum(t.processing);
            && t.status == Closed
            && t.balance == s.balance + Funded(steps) - Reversed(s, steps) - late
            && (t.balance == 0 <==> s.balance + Funded(steps) == Reversed(s, steps) + late)
            && (ClaimsWhileOpen(s, steps) ==>
                  late == 0 && (t.balance == 0 <==> s.balance + Funded(steps) == Reversed(s, steps)))
  {
    Conservation(s, steps);
    RunKeepsClosed(s, steps);
    NothingToComplete(s, Fund(0));
    hide LockAccounts, Shaped, Callable, Next, Completed;
    if ClaimsWhileOpen(s, steps) {
      NothingClaimed(s, steps);
    }
  }

  /** Closing tests the lock alone: it goes by the reading of the balance, and leaves an empty pot exactly when that
      reading has not been overtaken. */
  lemma ClosesEmptyIff(s: Pot, seenIdle: bool, seen: int)
    requires Next(s, Close(seenIdle, seen)) != s
    ensures var t := Next(s, Close(seenIdle, seen));
            && s.lock.Free? && t == s.(status := Closed)
            && (t.balance == 0 <==> seen == s.balance)
  {}

  /** A pot is read as open, idle and empty; a contribution is credited; the pot is closed, and holds it. */
  lemma FundingOvertakesClosing(amount: nat)
    ensures Run(NewPot(Manual), [Fund(amount), Close(true, 0)]) == NewPot(Manual).(balance := amount, status := Closed)
  {
    var s0, steps := NewPot(Manual), [Fund(amount), Close(true, 0)];
    var s1 := Next(s0, steps[0]);
    assert steps[1..] == [steps[1]] && [steps[1]][1..] == [];
    assert Run(s1, [steps[1]]) == Run(Next(s1, steps[1]), []);
  }

  /** Closing checks the balance, but funding does not check the status: whatever a closed pot is sent, it holds. */
  lemma ClosedPotCanBeFunded(s: Pot, amount: nat)
    requires s.status == Closed
    ensures Run(s, [Fund(amount)]) == s.(balance := s.balance + amount)
    ensures Run(s, [Fund(amount)]).status == Closed
  {
    assert [Fund(amount)][1..] == [];
    assert Run(s, [Fund(amount)]) == Run(Next(s, Fund(amount)), []);
  }
}
