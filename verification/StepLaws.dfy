/** When each part of a pot's state moves: for every state and every step, who can take the lock, where each job
    goes, what the balance becomes and when a unit is stranded. */
module StepLaws {
  import opened Fees
  import opened RefundSplit
  import opened ContributorsRefund
  import opened Protocol
  import opened Schedules

  /** The worker comes as far as the account lookup. */
  predicate Reaches(s: Pot, step: Step) {
    && step.Work? && step.k < |s.queued| && !step.outcome.ThrottleFails?
    && s.queued[step.k].amount + OUTBOUND_FEE <= s.balance
  }

  lemma WorkParts(s: Pot, k: nat, outcome: Outcome)
    requires k < |s.queued|
    ensures var t := Next(s, Work(k, outcome));
            var reaches := Reaches(s, Work(k, outcome));
            && t.queued == RemoveAt(s.queued, k)
            && t.processing == (if reaches && outcome == Answered(Unsettled) then s.processing + [s.queued[k]]
                                else s.processing)
            && t.balance
               == s.balance - (if reaches && (outcome == Answered(Succeeded) || outcome == Answered(Unsettled))
                               then s.queued[k].amount + OUTBOUND_FEE else 0)
            && t.stranded == s.stranded + (if reaches && outcome.LookupFails? then 1 else 0)
            && (t.lock.Held? ==> s.lock.Held? && t.lock.operation == s.lock.operation)
  {
    hide RemoveAt;
    var job := s.queued[k];
    var s1 := s.(queued := RemoveAt(s.queued, k), balance := s.balance - (job.amount + OUTBOUND_FEE));
    EffectKeeps(Release(s1, job), job.effect);
    hide ApplyEffect;
  }

  lemma SettleParts(s: Pot, k: nat, success: bool, lapse: Lapse)
    requires k < |s.processing|
    ensures var (t, job) := (Next(s, Settle(k, success, lapse)), s.processing[k]);
            && t.queued == s.queued && t.processing == RemoveAt(s.processing, k)
            && t.balance == s.balance + (if success then 0 else job.amount + OUTBOUND_FEE)
            && t.stranded == s.stranded + (if lapse.ReleaseLapse? || (lapse.EffectLapse? && success
                                                                      && job.effect != NoEffect) then 1 else 0)
            && (t.lock.Held? ==> s.lock.Held? && t.lock.operation == s.lock.operation)
  {
    hide RemoveAt;
    EffectKeeps(s.(processing := RemoveAt(s.processing, k)), s.processing[k].effect);
    hide ApplyEffect;
  }

  // ----- claims --------------------------------------------------------------------------------------------

  predicate ReadAsOpen(step: Step)
    requires IsClaim(step)
  {
    match step
    case ClaimSingle(_, _, seenOpen, _, _) => seenOpen
    case ClaimBatch(_, seenOpen, _) => seenOpen
    case ClaimRefund(_, _, seenOpen, _) => seenOpen
  }

  /** Something of what is claimed can be paid, with its fee, out of the balance that was read. */
  predicate CanPay(step: Step)
    requires IsClaim(step)
  {
    match step
    case ClaimSingle(_, job, _, seen, _) => job.amount + OUTBOUND_FEE <= seen
    case ClaimBatch(due, _, seen) => exists i :: 0 <= i < |due| && due[i].amount + OUTBOUND_FEE <= seen
    case ClaimRefund(slots, _, _, seen) =>
      seen > 0 && exists i :: 0 <= i < |slots| && FinalAmounts(slots, seen)[i] > 0
  }

  lemma {:induction false} NobodyAdmitted(due: seq<Job>, balance: int)
    ensures Admitted(due, balance) != [] <==> exists i :: 0 <= i < |due| && due[i].amount + OUTBOUND_FEE <= balance
  {
    if due != [] && balance < due[0].amount + OUTBOUND_FEE {
      NobodyAdmitted(due[1..], balance);
      assert forall i :: 0 < i < |due| ==> due[i] == due[1..][i - 1];
    }
  }

  lemma SomebodyPaidIff(slots: seq<Slot>, balance: int)
    requires InPlace(slots)
    ensures Survivors(slots, balance) != [] <==> exists i :: 0 <= i < |slots| && FinalAmounts(slots, balance)[i] > 0
  {
    RefundDrainsOrNothing(slots, balance);
    hide InPlace, Survivors, Nets;
  }

  /** A claim takes the lock if and only if the lock is free, the pot was read as open, and the balance read can pay
      at least one leg of it with its fee; otherwise nothing happens. */
  lemma ClaimAcceptedIff(s: Pot, step: Step)
    requires Callable(step) && IsClaim(step)
    ensures Accepted(s, step) <==> s.lock.Free? && ReadAsOpen(step) && CanPay(step)
    ensures !Accepted(s, step) ==> Next(s, step) == s
  {
    match step
    case ClaimSingle(_, _, _, _, _) =>
    case ClaimBatch(due, _, seen) => NobodyAdmitted(due, seen);
    case ClaimRefund(slots, _, _, seen) =>
      SomebodyPaidIff(slots, seen);
      hide FinalAmounts, InPlace;
  }

  /** The lock passes from free to held by an accepted claim alone, of whatever operation that is, and keeps its
      operation until it is free again. */
  lemma OperationIsTheClaims(s: Pot, step: Step)
    ensures var t := Next(s, step);
            t.lock.Held? ==>
              if s.lock.Held? then t.lock.operation == s.lock.operation
              else
                && Accepted(s, step)
                && t.lock.operation == if step.ClaimSingle? then step.operation
                                       else if step.ClaimRefund? then Refund else Payout
  {
    hide RemoveAt, Admitted, Survivors, RefundJobs;
    match step
    case Work(k, outcome) =>
      if k < |s.queued| {
        WorkParts(s, k, outcome);
        hide Next;
      }
    case Settle(k, success, lapse) =>
      if k < |s.processing| {
        SettleParts(s, k, success, lapse);
        hide Next;
      }
    case _ =>
  }

  // ----- where jobs go -------------------------------------------------------------------------------------

  /** The next leg of the fan-out whose turn it is has something to send. */
  predicate Sends(s: Pot) {
    s.plan.Dispatching? && s.plan.jobs != [] && (s.plan.refund ==> s.plan.jobs[0].amount > 0)
  }

  /** The job a step puts on the queue, if any. */
  function Enqueues(s: Pot, step: Step): seq<Job> {
    match step
    case ClaimSingle(_, job, _, _, enqueued) => if enqueued && Accepted(s, step) then [job] else []
    case Dispatch(enqueued) => if enqueued && Sends(s) then [s.plan.jobs[0]] else []
    case _ => []
  }

  /** The job the worker takes up. */
  function TakesUp(s: Pot, step: Step): seq<Job> {
    if step.Work? && step.k < |s.queued| then [s.queued[step.k]] else []
  }

  /** The job left with the provider, its outcome unknown. */
  function Leaves(s: Pot, step: Step): seq<Job> {
    if Reaches(s, step) && step.outcome == Answered(Unsettled) then [s.queued[step.k]] else []
  }

  function Settles(s: Pot, step: Step): seq<Job> {
    if step.Settle? && step.k < |s.processing| then [s.processing[step.k]] else []
  }

  lemma RemovedOne(jobs: seq<Job>, k: nat)
    requires k < |jobs|
    ensures multiset(jobs) == multiset(RemoveAt(jobs, k) + [jobs[k]])
  {
    assert jobs == jobs[..k] + [jobs[k]] + jobs[k + 1..];
  }

  lemma OtherParts(s: Pot, step: Step)
    requires !step.Work? && !step.Settle?
    ensures var t := Next(s, step); t.queued == s.queued + Enqueues(s, step) && t.processing == s.processing
  {
    hide Admitted, Survivors, RefundJobs;
  }

  lemma QueueParts(s: Pot, step: Step)
    ensures var t := Next(s, step);
            if step.Work? && step.k < |s.queued| then
              && t.queued == RemoveAt(s.queued, step.k)
              && TakesUp(s, step) == [s.queued[step.k]] && Enqueues(s, step) == []
            else t.queued == s.queued + Enqueues(s, step) && TakesUp(s, step) == []
  {
    if step.Work? && step.k < |s.queued| {
      WorkParts(s, step.k, step.outcome);
      hide Next;
    } else if step.Settle? && step.k < |s.processing| {
      SettleParts(s, step.k, step.success, step.lapse);
      hide Next;
    } else if !step.Work? && !step.Settle? {
      OtherParts(s, step);
      hide Next;
    }
  }

  lemma ProcessingParts(s: Pot, step: Step)
    ensures var t := Next(s, step);
            if step.Settle? && step.k < |s.processing| then
              && t.processing == RemoveAt(s.processing, step.k)
              && Settles(s, step) == [s.processing[step.k]] && Leaves(s, step) == []
            else t.processing == s.processing + Leaves(s, step) && Settles(s, step) == []
  {
    if step.Work? && step.k < |s.queued| {
      WorkParts(s, step.k, step.outcome);
      hide Next;
    } else if step.Settle? && step.k < |s.processing| {
      SettleParts(s, step.k, step.success, step.lapse);
      hide Next;
    } else if !step.Work? && !step.Settle? {
      OtherParts(s, step);
      hide Next;
    }
  }

  /** Every job is where the steps have put it: queued by an accepted claim or by its fan-out's turn, taken up once
      by the worker, left with the provider only while its outcome is unknown, settled once. */
  lemma JobsMove(s: Pot, step: Step)
    ensures var t := Next(s, step);
            && multiset(t.queued + TakesUp(s, step)) == multiset(s.queued + Enqueues(s, step))
            && multiset(t.processing + Settles(s, step)) == multiset(s.processing + Leaves(s, step))
  {
    hide Next, TakesUp, Enqueues, Settles, Leaves, RemoveAt;
    QueueParts(s, step);
    ProcessingParts(s, step);
    if step.Work? && step.k < |s.queued| {
      RemovedOne(s.queued, step.k);
      assert s.queued + [] == s.queued;
    }
    if step.Settle? && step.k < |s.processing| {
      RemovedOne(s.processing, step.k);
      assert s.processing + [] == s.processing;
    }
  }

  lemma JobsMoveOn(mid: seq<Job>, last: seq<Job>, out: seq<Job>, laterOut: seq<Job>, first: seq<Job>, into: seq<Job>,
                   laterInto: seq<Job>)
    requires multiset(mid + out) == multiset(first + into)
    requires multiset(last + laterOut) == multiset(mid + laterInto)
    ensures multiset(last + (out + laterOut)) == multiset(first + (into + laterInto))
  {
    assert multiset(last + (out + laterOut)) == multiset(last + laterOut) + multiset(out);
    assert multiset(mid + laterInto) + multiset(out) == multiset(mid + out) + multiset(laterInto);
    assert multiset(first + into) + multiset(laterInto) == multiset(first + (into + laterInto));
  }

  /** Over any run at all: what is queued at the end, with everything the worker has taken up, is what was queued at
      first with everything put on the queue since, each job as often as it was; and so with what is left with the
      provider, what has settled, and what was left there. */
  lemma {:induction false} JobsOverRuns(s: Pot, steps: seq<Step>)
    ensures var t := Run(s, steps);
            && multiset(t.queued + Along(TakesUp, s, steps)) == multiset(s.queued + Along(Enqueues, s, steps))
            && multiset(t.processing + Along(Settles, s, steps)) == multiset(s.processing + Along(Leaves, s, steps))
    decreases |steps|
  {
    hide Next, TakesUp, Enqueues, Settles, Leaves;
    if steps != [] {
      var t, rest := Next(s, steps[0]), steps[1..];
      var end := Run(t, rest);
      JobsMove(s, steps[0]);
      JobsOverRuns(t, rest);
      JobsMoveOn(t.queued, end.queued, TakesUp(s, steps[0]), Along(TakesUp, t, rest), s.queued, Enqueues(s, steps[0]),
                 Along(Enqueues, t, rest));
      JobsMoveOn(t.processing, end.processing, Settles(s, steps[0]), Along(Settles, t, rest), s.processing,
                 Leaves(s, steps[0]), Along(Leaves, t, rest));
    }
  }

  // ----- the balance ---------------------------------------------------------------------------------------

  /** What a step adds to the balance: a funding, or a failed transfer given back with its fee, less a reversal the
      balance covers, or a transfer that is made or may have been. */
  function Adds(s: Pot, step: Step): int {
    match step
    case Fund(amount) => amount
    case ReverseFunding(amount, seenFree) => if seenFree && amount <= s.balance then 0 - amount else 0
    case Work(k, outcome) =>
      if Reaches(s, step) && (outcome == Answered(Succeeded) || outcome == Answered(Unsettled))
      then -(s.queued[k].amount + OUTBOUND_FEE) else 0
    case Settle(k, success, _) =>
      if k < |s.processing| && !success then s.processing[k].amount + OUTBOUND_FEE else 0
    case _ => 0
  }

  lemma BalanceMoves(s: Pot, step: Step)
    ensures Next(s, step).balance == s.balance + Adds(s, step)
  {
    hide RemoveAt, Admitted, Survivors, RefundJobs;
    match step
    case Work(k, outcome) =>
      if k < |s.queued| {
        WorkParts(s, k, outcome);
        hide Next;
      }
    case Settle(k, success, lapse) =>
      if k < |s.processing| {
        SettleParts(s, k, success, lapse);
        hide Next;
      }
    case _ =>
  }

  // ----- stranded units ------------------------------------------------------------------------------------

  /** How many units a step strands. */
  function Strands(s: Pot, step: Step): nat {
    match step
    case ClaimSingle(_, _, _, _, enqueued) => if Accepted(s, step) && !enqueued then 1 else 0
    case Dispatch(enqueued) => if Sends(s) && s.plan.refund && !enqueued then |s.plan.jobs| else 0
    case Work(_, outcome) => if Reaches(s, step) && outcome.LookupFails? then 1 else 0
    case Settle(k, success, lapse) =>
      if k < |s.processing|
         && (lapse.ReleaseLapse? || (lapse.EffectLapse? && success && s.processing[k].effect != NoEffect))
      then 1 else 0
    case _ => 0
  }

  /** Units are stranded in four ways and no other: a single claim or a refund whose enqueue fails, the latter with
      every leg still to come, a lookup that fails, and an error once a pending transfer is settled. */
  lemma StrandedGrows(s: Pot, step: Step)
    ensures Next(s, step).stranded == s.stranded + Strands(s, step)
  {
    hide RemoveAt, Admitted, Survivors, RefundJobs;
    match step
    case Work(k, outcome) =>
      if k < |s.queued| {
        WorkParts(s, k, outcome);
        hide Next;
      }
    case Settle(k, success, lapse) =>
      if k < |s.processing| {
        SettleParts(s, k, success, lapse);
        hide Next;
      }
    case _ =>
  }
}
