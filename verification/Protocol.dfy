/** The disbursement protocol of one pot, as a transition system over its row, the legs its fan-outs have
    yet to dispatch, its queued jobs and its transactions still processing. */
module Protocol {
  import opened Fees
  import opened RefundSplit
  import opened ContributorsRefund

  /** What a payout's success does to the rule that fired it. */
  datatype Effect = NoEffect | FireTarget | AdvanceRecurring | FireLeg(leg: nat)

  datatype Job = Job(jobId: nat, amount: int, fanOut: bool, effect: Effect)

  datatype Operation = Payout | Refund

  /** pendingOperation with its leg count; the two columns are null together. */
  datatype Lock = Free | Held(operation: Operation, legCount: nat)

  /** The legs of a fan-out that have no job yet. A contributors' refund first holds the lock with its
      fractions alone, and fixes amounts only after reading the balance again. */
  datatype Plan =
    | Unscaled(slots: seq<Slot>, ids: seq<nat>)
    | Dispatching(refund: bool, jobs: seq<Job>)

  datatype Status = Open | Closed

  datatype Config =
    | Manual
    | TargetBased(dated: bool, targetFired: bool)
    | Recurring(nextRunAt: int, intervalDays: nat)
    | Scheduled(ordered: bool, fired: seq<bool>)

  /** `stranded` counts lock units whose leg has no job or transaction left to settle it: an enqueue
      that failed after the claim, or a job that failed before its transaction was posted and without
      releasing the lock, or a transfer settled without doing so. `plan` is the fan-out whose turn it is;
      `others` are those under way beside it, which takes a lock freed too early. */
  datatype Pot = Pot(
    status: Status,
    balance: int,
    lock: Lock,
    plan: Plan,
    others: seq<Plan>,
    queued: seq<Job>,
    processing: seq<Job>,
    stranded: nat,
    config: Config)

  datatype Answer = Succeeded | Unsettled | Rejected

  /** How a worker's attempt at a job turns out. In the last case the provider reported success and recording
      it threw, before or after the lock was given back: the worker takes the transfer for one that did not
      happen, reverses it, and gives the lock back again. */
  datatype Outcome =
    | ThrottleFails
    | LookupFails
    | PostFails
    | Answered(answer: Answer)
    | ErredAfterSuccess(released: bool)

  /** What throws while a pending transfer's outcome is recorded, once its transaction has been. */
  datatype Lapse = NoLapse | EffectLapse | ReleaseLapse

  /** One atomic step. A claim, or a closing, carries what its caller read before: whether the pot was open (for
      a closing, and nothing in flight), and its balance. The update itself tests only the lock, and a reversal,
      which carries whether the lock was free, not even that. */
  datatype Step =
    | Fund(amount: nat)
    | ReverseFunding(amount: nat, seenFree: bool)
    | ClaimSingle(operation: Operation, job: Job, seenOpen: bool, seen: int, enqueued: bool)
    | ClaimBatch(due: seq<Job>, seenOpen: bool, seen: int)
    | ClaimRefund(slots: seq<Slot>, ids: seq<nat>, seenOpen: bool, seen: int)
    | Rescale
    | Dispatch(enqueued: bool)
    | Turn(n: nat)
    | Work(k: nat, outcome: Outcome)
    | Settle(k: nat, success: bool, lapse: Lapse)
    | Close(seenIdle: bool, seen: int)

  // ----- the steps ---------------------------------------------------------------------------------

  /** What a job draws from the pot. */
  function Need(job: Job): int {
    if job.amount > 0 then job.amount + OUTBOUND_FEE else 0
  }

  function NeedSum(jobs: seq<Job>): int {
    if jobs == [] then 0 else Need(jobs[0]) + NeedSum(jobs[1..])
  }

  /** Legs admitted in order against one balance snapshot: a leg that does not fit is passed over. */
  function Admitted(due: seq<Job>, balance: int): seq<Job> {
    if due == [] then []
    else if balance < due[0].amount + OUTBOUND_FEE then Admitted(due[1..], balance)
    else [due[0]] + Admitted(due[1..], balance - (due[0].amount + OUTBOUND_FEE))
  }

  function RemoveAt(jobs: seq<Job>, k: nat): seq<Job>
    requires k < |jobs|
  {
    jobs[..k] + jobs[k + 1..]
  }

  /** decrementPendingOperationLeg: the lock clears when the count reaches zero. */
  function Decrement(s: Pot): Pot {
    if s.lock.Free? || s.lock.legCount <= 1 then s.(lock := Free)
    else s.(lock := s.lock.(legCount := s.lock.legCount - 1))
  }

  /** clearPendingOperation */
  function Clear(s: Pot): Pot {
    s.(lock := Free)
  }

  /** The worker's releaseLock. */
  function Release(s: Pot, job: Job): Pot {
    if job.fanOut then Decrement(s) else Clear(s)
  }

  /** applyOnSuccess; an effect whose rule the pot does not have updates no row. */
  function ApplyEffect(s: Pot, effect: Effect): Pot {
    match effect
    case NoEffect => s
    case FireTarget =>
      if !s.config.TargetBased? then s
      else
        var s1 := s.(config := s.config.(targetFired := true));
        if s.config.dated && s.status == Open && s.lock.Free? then s1.(status := Closed) else s1
    case AdvanceRecurring =>
      if !s.config.Recurring? then s
      else s.(config := s.config.(nextRunAt := s.config.nextRunAt + s.config.intervalDays))
    case FireLeg(i) =>
      if !s.config.Scheduled? || i >= |s.config.fired| then s
      else s.(config := s.config.(fired := s.config.fired[i := true]))
  }

  /** The worker takes a job off the queue: processLedgerDisbursement and the code around it. */
  function AfterWork(s: Pot, job: Job, outcome: Outcome): Pot {
    if outcome.ThrottleFails? || s.balance < job.amount + OUTBOUND_FEE then Release(s, job)
    else
      match outcome
      case LookupFails => s.(stranded := s.stranded + 1)
      case PostFails => Release(s, job)
      case Answered(Succeeded) =>
        ApplyEffect(Release(s.(balance := s.balance - (job.amount + OUTBOUND_FEE)), job), job.effect)
      case Answered(Unsettled) =>
        s.(balance := s.balance - (job.amount + OUTBOUND_FEE), processing := s.processing + [job])
      case Answered(Rejected) => Release(s, job)
      case ErredAfterSuccess(released) => if released then Release(Release(s, job), job) else Release(s, job)
  }

  /** The side effect is lost: there is one, and applying it throws. */
  predicate LosesEffect(job: Job, success: bool, lapse: Lapse) {
    success && lapse.EffectLapse? && !job.effect.NoEffect?
  }

  /** resolvePendingTransfer: the side effect, or the reversal, comes before the lock is decremented, and what
      throws on the way leaves the leg's unit with nobody to give it back. */
  function AfterSettle(s: Pot, job: Job, success: bool, lapse: Lapse): Pot {
    if LosesEffect(job, success, lapse) then s.(stranded := s.stranded + 1)
    else
      var t := if success then ApplyEffect(s, job.effect)
               else s.(balance := s.balance + (job.amount + OUTBOUND_FEE));
      if lapse.ReleaseLapse? then t.(stranded := t.stranded + 1) else Decrement(t)
  }

  predicate Spent(plan: Plan) {
    plan.Dispatching? && plan.jobs == []
  }

  /** A new fan-out gets its turn; one still under way goes on beside it. */
  function Begin(s: Pot, plan: Plan): Pot {
    s.(plan := plan, others := if Spent(s.plan) then s.others else s.others + [s.plan])
  }

  function RefundJobs(slots: seq<Slot>, ids: seq<nat>, balance: int): (r: seq<Job>)
    requires |ids| == |slots|
    ensures |r| == |slots|
    ensures forall i :: 0 <= i < |r| ==> r[i] == Job(ids[i], FinalAmounts(slots, balance)[i], true, NoEffect)
  {
    var amounts := FinalAmounts(slots, balance);
    seq(|slots|, i requires 0 <= i < |slots| => Job(ids[i], amounts[i], true, NoEffect))
  }

  function AfterDispatch(s: Pot, enqueued: bool): Pot
    requires s.plan.Dispatching? && s.plan.jobs != []
  {
    var job := s.plan.jobs[0];
    var rest := s.(plan := s.plan.(jobs := s.plan.jobs[1..]));
    if s.plan.refund && job.amount <= 0 then Decrement(rest)
    else if enqueued then rest.(queued := rest.queued + [job])
    else if s.plan.refund then s.(plan := s.plan.(jobs := []), stranded := s.stranded + |s.plan.jobs|)
    else Decrement(rest)
  }

  function Next(s: Pot, step: Step): Pot {
    match step
    case Fund(amount) => s.(balance := s.balance + amount)
    case ReverseFunding(amount, seenFree) =>
      if !seenFree || s.balance < amount then s else s.(balance := s.balance - amount)
    case ClaimSingle(operation, job, seenOpen, seen, enqueued) =>
      if !seenOpen || job.amount + OUTBOUND_FEE > seen || s.lock.Held? then s
      else if enqueued then s.(lock := Held(operation, 1), queued := s.queued + [job])
      else s.(lock := Held(operation, 1), stranded := s.stranded + 1)
    case ClaimBatch(due, seenOpen, seen) =>
      var admitted := Admitted(due, seen);
      if !seenOpen || admitted == [] || s.lock.Held? then s
      else Begin(s.(lock := Held(Payout, |admitted|)), Dispatching(false, admitted))
    case ClaimRefund(slots, ids, seenOpen, seen) =>
      if !seenOpen || seen <= 0 || slots == [] || Survivors(slots, seen) == [] || s.lock.Held? then s
      else Begin(s.(lock := Held(Refund, |slots|)), Unscaled(slots, ids))
    case Rescale =>
      if !s.plan.Unscaled? || |s.plan.ids| != |s.plan.slots| then s
      else s.(plan := Dispatching(true, RefundJobs(s.plan.slots, s.plan.ids, s.balance)))
    case Dispatch(enqueued) =>
      if s.plan.Unscaled? || s.plan.jobs == [] then s else AfterDispatch(s, enqueued)
    case Turn(n) =>
      if n >= |s.others| then s else s.(plan := s.others[n], others := s.others[n := s.plan])
    case Work(k, outcome) =>
      if k >= |s.queued| then s
      else AfterWork(s.(queued := RemoveAt(s.queued, k)), s.queued[k], outcome)
    case Settle(k, success, lapse) =>
      if k >= |s.processing| then s
      else AfterSettle(s.(processing := RemoveAt(s.processing, k)), s.processing[k], success, lapse)
    case Close(seenIdle, seen) =>
      if !seenIdle || seen != 0 || s.lock.Held? then s else s.(status := Closed)
  }

  function Run(s: Pot, steps: seq<Step>): Pot
    decreases |steps|
  {
    if steps == [] then s else Run(Next(s, steps[0]), steps[1..])
  }

  function NewPot(config: Config): Pot {
    Pot(Open, 0, Free, Dispatching(false, []), [], [], [], 0, config)
  }

  /** What callers hand the protocol: positive amounts, single claims that are not fan-out legs, batches
      that are, and refund legs in the order they were built. */
  ghost predicate Callable(step: Step) {
    match step
    case ClaimSingle(_, job, _, _, _) => job.amount > 0 && !job.fanOut
    case ClaimBatch(due, _, _) => forall j <- due :: j.amount > 0 && j.fanOut
    case ClaimRefund(slots, ids, _, _) => InPlace(slots) && |ids| == |slots|
    case _ => true
  }

  /** A step in which recording an outcome does not throw. */
  ghost predicate WellFormed(step: Step) {
    && Callable(step)
    && (step.Work? ==> !step.outcome.ErredAfterSuccess?)
    && (step.Settle? ==> step.lapse.NoLapse?)
  }

  ghost predicate AllCallable(steps: seq<Step>) {
    forall step <- steps :: Callable(step)
  }

  ghost predicate AllWellFormed(steps: seq<Step>) {
    forall step <- steps :: WellFormed(step)
  }

  predicate IsClaim(step: Step) {
    step.ClaimSingle? || step.ClaimBatch? || step.ClaimRefund?
  }

  /** The claim takes the lock. */
  predicate Accepted(s: Pot, step: Step) {
    IsClaim(step) && s.lock.Free? && Next(s, step).lock.Held?
  }

  // ----- what is under way ---------------------------------------------------------------------------

  function JobsIn(plan: Plan): seq<Job> {
    if plan.Unscaled? then [] else plan.jobs
  }

  function JobsInAll(plans: seq<Plan>): seq<Job> {
    if plans == [] then [] else JobsIn(plans[0]) + JobsInAll(plans[1..])
  }

  /** The legs whose amounts are fixed and that have no job yet. */
  function Pending(s: Pot): seq<Job> {
    JobsIn(s.plan) + JobsInAll(s.others)
  }

  lemma {:induction false} JobsInAllSplit(plans: seq<Plan>, n: nat)
    requires n < |plans|
    ensures JobsInAll(plans) == JobsInAll(plans[..n]) + JobsIn(plans[n]) + JobsInAll(plans[n + 1..])
  {
    hide JobsIn;
    if n == 0 {
      assert plans[..0] == [];
    } else {
      JobsInAllSplit(plans[1..], n - 1);
      assert plans[1..][..n - 1] == plans[..n][1..] && plans[1..][n..] == plans[n + 1..];
      assert JobsInAll(plans[..n]) == JobsIn(plans[0]) + JobsInAll(plans[..n][1..]);
    }
  }

  /** What the others have pending, before and after the plan whose turn comes. */
  lemma PendingTurned(s: Pot, n: nat) returns (before: seq<Job>, after: seq<Job>)
    requires n < |s.others|
    ensures Pending(s) == JobsIn(s.plan) + (before + JobsIn(s.others[n]) + after)
    ensures Pending(Next(s, Turn(n))) == JobsIn(s.others[n]) + (before + JobsIn(s.plan) + after)
  {
    hide JobsIn;
    var swapped := s.others[n := s.plan];
    before, after := JobsInAll(s.others[..n]), JobsInAll(s.others[n + 1..]);
    JobsInAllSplit(s.others, n);
    JobsInAllSplit(swapped, n);
    assert swapped[..n] == s.others[..n] && swapped[n + 1..] == s.others[n + 1..];
  }

  lemma PendingBegun(s: Pot, plan: Plan)
    ensures Pending(Begin(s, plan)) == JobsIn(plan) + (JobsInAll(s.others) + JobsIn(s.plan))
  {
    if !Spent(s.plan) {
      var all := s.others + [s.plan];
      JobsInAllSplit(all, |s.others|);
      assert all[..|s.others|] == s.others && all[|s.others| + 1..] == [];
    }
  }

  ghost predicate ShapedPlan(plan: Plan) {
    match plan
    case Unscaled(slots, ids) => slots != [] && InPlace(slots) && |ids| == |slots|
    case Dispatching(refund, jobs) =>
      forall j <- jobs :: j.fanOut && (if refund then j.effect == NoEffect else j.amount > 0)
  }

  /** What every step keeps, whatever becomes of the lock: nothing is queued or in transit for no amount, and
      fan-outs hold what their claims gave them. */
  ghost predicate Shaped(s: Pot) {
    && (forall j <- s.queued + s.processing :: j.amount > 0)
    && ShapedPlan(s.plan)
    && (forall p <- s.others :: ShapedPlan(p))
  }

  lemma WorkShaped(s: Pot, k: nat, outcome: Outcome)
    requires Shaped(s) && k < |s.queued|
    ensures s.queued[k].amount > 0 && Shaped(Next(s, Work(k, outcome)))
  {
    hide ApplyEffect, ShapedPlan;
    RemoveAtMembers(s.queued, k);
    var job := s.queued[k];
    assert job in s.queued + s.processing;
    var s1 := s.(queued := RemoveAt(s.queued, k), balance := s.balance - (job.amount + OUTBOUND_FEE));
    EffectKeeps(Release(s1, job), job.effect);
  }

  lemma SettleShaped(s: Pot, k: nat, success: bool, lapse: Lapse)
    requires Shaped(s) && k < |s.processing|
    ensures s.processing[k].amount > 0 && Shaped(Next(s, Settle(k, success, lapse)))
  {
    hide ApplyEffect, ShapedPlan;
    RemoveAtMembers(s.processing, k);
    assert s.processing[k] in s.queued + s.processing;
    EffectKeeps(s.(processing := RemoveAt(s.processing, k)), s.processing[k].effect);
  }

  lemma DispatchShaped(s: Pot, enqueued: bool)
    requires Shaped(s)
    ensures Shaped(Next(s, Dispatch(enqueued)))
  {
    if s.plan.Dispatching? && s.plan.jobs != [] {
      assert s.plan.jobs[0] in s.plan.jobs && forall j <- s.plan.jobs[1..] :: j in s.plan.jobs;
    }
  }

  lemma ClaimShaped(s: Pot, step: Step)
    requires Shaped(s) && Callable(step) && IsClaim(step)
    ensures Shaped(Next(s, step))
  {
    if step.ClaimBatch? {
      AdmittedAll(step.due, step.seen);
    }
  }

  /** Every step at all keeps the shape. */
  lemma StepShaped(s: Pot, step: Step)
    requires Shaped(s) && Callable(step)
    ensures Shaped(Next(s, step))
  {
    match step
    case Work(k, outcome) => if k < |s.queued| { WorkShaped(s, k, outcome); }
    case Settle(k, success, lapse) => if k < |s.processing| { SettleShaped(s, k, success, lapse); }
    case Dispatch(enqueued) => DispatchShaped(s, enqueued);
    case Turn(_) =>
    case Rescale =>
    case Fund(_) =>
    case ReverseFunding(_, _) =>
    case Close(_, _) =>
    case _ => ClaimShaped(s, step);
  }

  lemma {:induction false} RunShaped(s: Pot, steps: seq<Step>)
    requires Shaped(s) && AllCallable(steps)
    ensures Shaped(Run(s, steps))
    decreases |steps|
  {
    if steps != [] {
      StepShaped(s, steps[0]);
      hide Shaped, Callable, Next;
      assert AllCallable(steps[1..]);
      RunShaped(Next(s, steps[0]), steps[1..]);
    }
  }

  // ----- lock accounting -----------------------------------------------------------------------------

  function Size(plan: Plan): nat {
    if plan.Unscaled? then |plan.slots| else |plan.jobs|
  }

  function Sizes(plans: seq<Plan>): nat {
    if plans == [] then 0 else Size(plans[0]) + Sizes(plans[1..])
  }

  function Planned(s: Pot): nat {
    Size(s.plan) + Sizes(s.others)
  }

  /** Legs that have not been dispatched, jobs queued, transactions processing, and stranded units. */
  function Outstanding(s: Pot): nat {
    Planned(s) + |s.queued| + |s.processing| + s.stranded
  }

  /** The lock is free exactly when nothing is outstanding; held, its count is what is outstanding, and a
      job that is not a fan-out leg is the only thing outstanding. */
  ghost predicate LockAccounts(s: Pot) {
    && (s.lock.Free? <==> Outstanding(s) == 0)
    && (s.lock.Held? ==> s.lock.legCount == Outstanding(s))
    && (forall j <- s.queued + s.processing :: !j.fanOut ==> Outstanding(s) == 1)
    && s.others == []
    && (forall j <- JobsIn(s.plan) :: j.fanOut)
    && (s.plan.Unscaled? ==>
          && s.plan.slots != [] && InPlace(s.plan.slots) && |s.plan.ids| == |s.plan.slots|
          && s.queued == [] && s.processing == [])
    && (forall j <- s.queued + s.processing :: j.amount > 0)
    && (s.plan.Dispatching? && !s.plan.refund ==> forall j <- s.plan.jobs :: j.amount > 0)
  }

  /** A free lock that accounts for what is outstanding: nothing is. */
  lemma NothingUnderWay(s: Pot)
    requires LockAccounts(s)
    ensures s.lock.Free? ==> s.queued == [] && s.processing == [] && Spent(s.plan) && s.others == [] && s.stranded == 0
  {}

  lemma EffectKeeps(s: Pot, effect: Effect)
    ensures var t := ApplyEffect(s, effect);
            t == s.(config := t.config, status := t.status)
    ensures var t := ApplyEffect(s, effect);
            t.status != s.status ==> t.status == Closed && s.lock.Free?
  {}

  lemma AdmittedAll(due: seq<Job>, balance: int)
    ensures forall j <- Admitted(due, balance) :: j in due
  {
    if due != [] {
      AdmittedAll(due[1..], balance);
      AdmittedAll(due[1..], balance - (due[0].amount + OUTBOUND_FEE));
    }
  }

  lemma RemoveAtMembers(jobs: seq<Job>, k: nat)
    requires k < |jobs|
    ensures forall j <- RemoveAt(jobs, k) :: j in jobs
    ensures |RemoveAt(jobs, k)| == |jobs| - 1
  {}

  /** The lock still counts one unit more than is outstanding: that of a job just taken up. */
  ghost predicate OneOver(s: Pot, job: Job) {
    && s.lock.Held? && s.lock.legCount == Outstanding(s) + 1
    && (!job.fanOut ==> Outstanding(s) == 0)
    && (forall j <- s.queued + s.processing :: j.fanOut && j.amount > 0)
    && s.others == []
    && (forall j <- JobsIn(s.plan) :: j.fanOut)
    && s.plan.Dispatching?
    && (!s.plan.refund ==> forall j <- s.plan.jobs :: j.amount > 0)
  }

  lemma ReleaseAccounts(s: Pot, job: Job)
    requires OneOver(s, job)
    ensures LockAccounts(Release(s, job)) && LockAccounts(Decrement(s))
    ensures Release(s, job) == Decrement(s)
  {}

  lemma EffectAccounts(s: Pot, effect: Effect)
    requires LockAccounts(s)
    ensures LockAccounts(ApplyEffect(s, effect))
  {
    EffectKeeps(s, effect);
  }

  lemma EffectOneOver(s: Pot, job: Job, effect: Effect)
    requires OneOver(s, job)
    ensures OneOver(ApplyEffect(s, effect), job)
  {
    EffectKeeps(s, effect);
  }

  lemma TakenUp(s: Pot, k: nat)
    requires LockAccounts(s) && k < |s.queued|
    ensures OneOver(s.(queued := RemoveAt(s.queued, k)), s.queued[k])
    ensures s.queued[k].amount > 0
  {
    RemoveAtMembers(s.queued, k);
    var job := s.queued[k];
    assert job in s.queued + s.processing;
    forall j | j in RemoveAt(s.queued, k) + s.processing ensures j.fanOut && j.amount > 0 {
      assert j in s.queued + s.processing;
    }
  }

  lemma TakenOut(s: Pot, k: nat)
    requires LockAccounts(s) && k < |s.processing|
    ensures OneOver(s.(processing := RemoveAt(s.processing, k)), s.processing[k])
    ensures s.processing[k].amount > 0
  {
    RemoveAtMembers(s.processing, k);
    var job := s.processing[k];
    assert job in s.queued + s.processing;
    forall j | j in s.queued + RemoveAt(s.processing, k) ensures j.fanOut && j.amount > 0 {
      assert j in s.queued + s.processing;
    }
  }

  lemma StillProcessing(s: Pot, job: Job)
    requires OneOver(s, job) && job.amount > 0
    ensures LockAccounts(s.(processing := s.processing + [job]))
    ensures LockAccounts(s.(stranded := s.stranded + 1))
  {}

  lemma OneOverIgnoresBalance(s: Pot, job: Job, balance: int)
    requires OneOver(s, job)
    ensures OneOver(s.(balance := balance), job)
  {}

  lemma AfterWorkAccounts(s: Pot, job: Job, outcome: Outcome)
    requires OneOver(s, job) && job.amount > 0 && outcome != ErredAfterSuccess(true)
    ensures LockAccounts(AfterWork(s, job, outcome))
  {
    hide LockAccounts, OneOver, Release, ApplyEffect;
    var paid := s.(balance := s.balance - (job.amount + OUTBOUND_FEE));
    OneOverIgnoresBalance(s, job, paid.balance);
    if outcome.ThrottleFails? || s.balance < job.amount + OUTBOUND_FEE {
      ReleaseAccounts(s, job);
    } else {
      match outcome
      case LookupFails => StillProcessing(s, job);
      case PostFails => ReleaseAccounts(s, job);
      case Answered(Succeeded) =>
        ReleaseAccounts(paid, job);
        EffectAccounts(Release(paid, job), job.effect);
      case Answered(Unsettled) => StillProcessing(paid, job);
      case Answered(Rejected) => ReleaseAccounts(s, job);
      case ErredAfterSuccess(_) => ReleaseAccounts(s, job);
    }
  }

  /** Giving the lock back twice for one job is harmless exactly when nothing else is outstanding. */
  lemma ReleaseTwiceIff(s: Pot, job: Job)
    requires OneOver(s, job)
    ensures LockAccounts(Release(Release(s, job), job)) <==> Outstanding(s) == 0
  {
    ReleaseAccounts(s, job);
  }

  /** The step gives the lock back twice for one leg of several. */
  predicate ReleasesTwice(s: Pot, step: Step) {
    && step.Work? && step.outcome == ErredAfterSuccess(true) && step.k < |s.queued|
    && s.balance >= s.queued[step.k].amount + OUTBOUND_FEE && Outstanding(s) > 1
  }

  lemma WorkAccounts(s: Pot, k: nat, outcome: Outcome)
    requires LockAccounts(s)
    ensures LockAccounts(Next(s, Work(k, outcome))) <==> !ReleasesTwice(s, Work(k, outcome))
  {
    if k < |s.queued| {
      var s1 := s.(queued := RemoveAt(s.queued, k));
      TakenUp(s, k);
      RemoveAtMembers(s.queued, k);
      hide LockAccounts, OneOver, Release, RemoveAt;
      if outcome == ErredAfterSuccess(true) {
        ReleaseTwiceIff(s1, s.queued[k]);
        ReleaseAccounts(s1, s.queued[k]);
      } else {
        hide AfterWork;
        AfterWorkAccounts(s1, s.queued[k], outcome);
      }
    }
  }

  lemma AfterSettleAccounts(s: Pot, job: Job, success: bool, lapse: Lapse)
    requires OneOver(s, job) && job.amount > 0
    ensures LockAccounts(AfterSettle(s, job, success, lapse))
  {
    hide LockAccounts, OneOver, ApplyEffect, Decrement;
    var back := s.balance + (job.amount + OUTBOUND_FEE);
    if LosesEffect(job, success, lapse) {
      StillProcessing(s, job);
    } else if success {
      EffectOneOver(s, job, job.effect);
      StillProcessing(ApplyEffect(s, job.effect), job);
      ReleaseAccounts(ApplyEffect(s, job.effect), job);
    } else {
      OneOverIgnoresBalance(s, job, back);
      StillProcessing(s.(balance := back), job);
      ReleaseAccounts(s.(balance := back), job);
    }
  }

  lemma SettleAccounts(s: Pot, k: nat, success: bool, lapse: Lapse)
    requires LockAccounts(s)
    ensures LockAccounts(Next(s, Settle(k, success, lapse)))
  {
    if k < |s.processing| {
      TakenOut(s, k);
      hide LockAccounts, OneOver, AfterSettle;
      AfterSettleAccounts(s.(processing := RemoveAt(s.processing, k)), s.processing[k], success, lapse);
    }
  }

  lemma ClaimAccounts(s: Pot, step: Step)
    requires LockAccounts(s) && Callable(step) && IsClaim(step)
    ensures LockAccounts(Next(s, step))
  {
    assert s.lock.Free? ==> s.queued == [] && s.processing == [];
    if step.ClaimBatch? {
      AdmittedAll(step.due, step.seen);
    }
  }

  lemma DispatchAccounts(s: Pot, enqueued: bool)
    requires LockAccounts(s)
    ensures LockAccounts(Next(s, Dispatch(enqueued)))
  {
    if s.plan.Dispatching? && s.plan.jobs != [] {
      var job := s.plan.jobs[0];
      assert job in s.plan.jobs && job in JobsIn(s.plan);
    }
  }

  /** Every step keeps the lock's count equal to what is outstanding, except exactly an error after a success
      that gives back the lock a second time while other legs still hold it. */
  lemma StepAccountsIff(s: Pot, step: Step)
    requires LockAccounts(s) && Callable(step)
    ensures LockAccounts(Next(s, step)) <==> !ReleasesTwice(s, step)
  {
    match step
    case Work(k, outcome) => WorkAccounts(s, k, outcome);
    case Settle(k, success, lapse) => SettleAccounts(s, k, success, lapse);
    case Dispatch(enqueued) => DispatchAccounts(s, enqueued);
    case Turn(_) =>
    case Fund(_) =>
    case ReverseFunding(_, _) =>
    case Close(_, _) =>
    case Rescale =>
    case _ => ClaimAccounts(s, step);
  }

  /** What giving a leg's unit back twice does: the lock counts one unit fewer than is outstanding, and where the
      leg had one other beside it, is free for the next claim while that one is still outstanding. */
  lemma ReleasedTwice(s: Pot, step: Step)
    requires LockAccounts(s) && ReleasesTwice(s, step)
    ensures var t := Next(s, step);
            && Outstanding(t) == Outstanding(s) - 1 && t.balance == s.balance
            && t.lock == if Outstanding(t) == 1 then Free else s.lock.(legCount := Outstanding(t) - 1)
  {
    TakenUp(s, step.k);
    RemoveAtMembers(s.queued, step.k);
    hide RemoveAt;
    assert s.queued[step.k] in s.queued + s.processing;
  }

  lemma StepAccounts(s: Pot, step: Step)
    requires LockAccounts(s) && WellFormed(step)
    ensures LockAccounts(Next(s, step))
  {
    StepAccountsIff(s, step);
  }

  lemma {:induction false} RunAccounts(s: Pot, steps: seq<Step>)
    requires LockAccounts(s) && AllWellFormed(steps)
    ensures LockAccounts(Run(s, steps))
    decreases |steps|
  {
    if steps != [] {
      StepAccounts(s, steps[0]);
      RunAccounts(Next(s, steps[0]), steps[1..]);
    }
  }

  ghost predicate AccountsThroughout(s: Pot, steps: seq<Step>)
    decreases |steps|
  {
    LockAccounts(s) && (steps == [] || AccountsThroughout(Next(s, steps[0]), steps[1..]))
  }

  predicate NeverReleasesTwice(s: Pot, steps: seq<Step>)
    decreases |steps|
  {
    steps == [] || (!ReleasesTwice(s, steps[0]) && NeverReleasesTwice(Next(s, steps[0]), steps[1..]))
  }

  lemma {:induction false} RunAccountsIff(s: Pot, steps: seq<Step>)
    requires LockAccounts(s) && AllCallable(steps)
    ensures AccountsThroughout(s, steps) <==> NeverReleasesTwice(s, steps)
    decreases |steps|
  {
    if steps != [] {
      StepAccountsIff(s, steps[0]);
      if !ReleasesTwice(s, steps[0]) {
        hide LockAccounts, ReleasesTwice, Callable, Next;
        RunAccountsIff(Next(s, steps[0]), steps[1..]);
      }
    }
  }

  lemma NewPotAccounts(config: Config)
    ensures LockAccounts(NewPot(config)) && Shaped(NewPot(config))
  {
    IdleAccounts(NewPot(config));
    hide LockAccounts, Shaped;
  }

  lemma IdleAccounts(s: Pot)
    requires s.lock.Free? && s.plan == Dispatching(false, []) && s.others == []
    requires s.queued == [] && s.processing == [] && s.stranded == 0
    ensures LockAccounts(s) && Shaped(s)
  {
    hide InPlace;
    assert JobsIn(s.plan) == [] && Outstanding(s) == 0;
  }

  /** Over any interleaving of steps whatever, fresh readings or stale ones, failures and errors included, the
      lock accounts for what is outstanding in every state along the way, if and only if no error after a
      success gives one leg's unit back twice while others hold theirs. */
  lemma LockAccounting(config: Config, steps: seq<Step>)
    requires AllCallable(steps)
    ensures AccountsThroughout(NewPot(config), steps) <==> NeverReleasesTwice(NewPot(config), steps)
    ensures AllWellFormed(steps) ==> LockAccounts(Run(NewPot(config), steps))
  {
    NewPotAccounts(config);
    hide LockAccounts, Callable, Next;
    RunAccountsIff(NewPot(config), steps);
    if AllWellFormed(steps) {
      RunAccounts(NewPot(config), steps);
    }
  }

  /** An error after a success leaves the pot as if the provider had rejected the transfer it made: the money
      has gone out, and the pot still counts it as its own. */
  lemma ErrorAfterSuccessLooksRejected(s: Pot, k: nat)
    ensures Next(s, Work(k, ErredAfterSuccess(false))) == Next(s, Work(k, Answered(Rejected)))
    ensures Next(s, Work(k, ErredAfterSuccess(true)))
            == Next(s, Work(k, Answered(Rejected))).(lock := Next(s, Work(k, ErredAfterSuccess(true))).lock)
  {}

  /** Clearing the lock outright for a single-leg job is the same as decrementing it. */
  lemma ClearAgreesWithDecrement(s: Pot, job: Job)
    requires LockAccounts(s) && (job in s.queued || job in s.processing) && !job.fanOut
    ensures Clear(s) == Decrement(s)
  {
    assert job in s.queued + s.processing;
  }

  // ----- when the lock can be released ---------------------------------------------------------------

  lemma {:induction false} StrandedStays(s: Pot, steps: seq<Step>)
    ensures Run(s, steps).stranded >= s.stranded
    decreases |steps|
  {
    if steps != [] {
      StepKeepsStranded(s, steps[0]);
      StrandedStays(Next(s, steps[0]), steps[1..]);
    }
  }

  lemma StepKeepsStranded(s: Pot, step: Step)
    ensures Next(s, step).stranded >= s.stranded
  {
    match step
    case Work(k, outcome) =>
      if k < |s.queued| {
        var job := s.queued[k];
        var s1 := s.(queued := RemoveAt(s.queued, k), balance := s.balance - (job.amount + OUTBOUND_FEE));
        EffectKeeps(Release(s1, job), job.effect);
      }
    case Settle(k, success, _) =>
      if k < |s.processing| {
        EffectKeeps(s.(processing := RemoveAt(s.processing, k)), s.processing[k].effect);
      }
    case _ =>
  }

  /** A step toward an empty protocol: scale, dispatch, reject a queued job, fail a processing one. */
  function DrainStep(s: Pot): Step {
    if s.plan.Unscaled? then Rescale
    else if s.plan.jobs != [] then Dispatch(true)
    else if s.queued != [] then Work(0, Answered(Rejected))
    else Settle(0, false, NoLapse)
  }

  function Burden(s: Pot): nat {
    (if s.plan.Unscaled? then 1 else 0) + 3 * Planned(s) + 2 * |s.queued| + |s.processing|
  }

  lemma DrainProgress(s: Pot)
    requires LockAccounts(s) && Outstanding(s) > s.stranded
    ensures var t := Next(s, DrainStep(s));
            WellFormed(DrainStep(s)) && t.stranded == s.stranded && Burden(t) < Burden(s)
  {
    hide RemoveAt, RefundJobs, InPlace;
    if s.plan.Dispatching? && s.plan.jobs == [] && s.queued != [] {
      RemoveAtMembers(s.queued, 0);
    } else if s.plan.Dispatching? && s.plan.jobs == [] {
      RemoveAtMembers(s.processing, 0);
    }
  }

  lemma {:induction false} Drain(s: Pot) returns (steps: seq<Step>)
    requires LockAccounts(s)
    ensures AllWellFormed(steps) && Outstanding(Run(s, steps)) == s.stranded
    decreases Burden(s)
  {
    if Outstanding(s) == s.stranded {
      steps := [];
    } else {
      var step := DrainStep(s);
      DrainProgress(s);
      StepAccounts(s, step);
      var rest := Drain(Next(s, step));
      steps := [step] + rest;
      assert steps[1..] == rest;
    }
  }

  /** From any reachable state some continuation frees the lock, if and only if no unit is stranded. */
  lemma ReleasableIff(s: Pot)
    requires LockAccounts(s)
    ensures (exists steps :: AllWellFormed(steps) && Run(s, steps).lock.Free?) <==> s.stranded == 0
  {
    if s.stranded == 0 {
      var steps := Drain(s);
      RunAccounts(s, steps);
    } else {
      forall steps | AllWellFormed(steps) ensures !Run(s, steps).lock.Free? {
        StrandedStays(s, steps);
        RunAccounts(s, steps);
      }
    }
  }
}
