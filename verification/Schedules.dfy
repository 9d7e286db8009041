/** What scheduled legs see over every run: when one can be transferred twice, what their flags tell, and that
    an ordered schedule is paid in sequence. */
module Schedules {
  import opened Fees
  import opened RefundSplit
  import opened ContributorsRefund
  import opened Protocol
  import opened Solvency

  /** How many of these jobs pay leg i. */
  function Count(jobs: seq<Job>, i: nat): nat {
    if jobs == [] then 0 else (if jobs[0].effect == FireLeg(i) then 1 else 0) + Count(jobs[1..], i)
  }

  function InFlight(s: Pot, i: nat): nat {
    Count(Pending(s), i) + Count(s.queued, i) + Count(s.processing, i)
  }

  /** A leg may be paid: it exists, has not fired, and in an ordered schedule every earlier one has. */
  predicate Payable(config: Config, i: nat)
    requires config.Scheduled?
  {
    && i < |config.fired| && !config.fired[i]
    && (config.ordered ==> forall j :: 0 <= j < i ==> config.fired[j])
  }

  ghost predicate AtMostOneEach(config: Config, jobs: seq<Job>)
    requires config.Scheduled?
  {
    forall i: nat :: Count(jobs, i) <= 1 && (Count(jobs, i) > 0 ==> Payable(config, i))
  }

  /** No leg has two payouts outstanding, and none that has fired has any. */
  ghost predicate LegsGuarded(s: Pot) {
    s.config.Scheduled? ==>
      forall i: nat :: InFlight(s, i) <= 1 && (InFlight(s, i) > 0 ==> Payable(s.config, i))
  }

  ghost predicate Prefix(fired: seq<bool>, n: nat) {
    n <= |fired| && forall i :: 0 <= i < |fired| ==> (fired[i] <==> i < n)
  }

  /** The jobs a step puts in flight by claiming the lock. */
  function Claimed(s: Pot, step: Step): seq<Job> {
    if s.lock.Held? || Next(s, step).lock.Free? then []
    else
      match step
      case ClaimSingle(_, job, _, _, enqueued) => if enqueued then [job] else []
      case ClaimBatch(due, _, seen) => Admitted(due, seen)
      case _ => []
  }

  /** The sweep claims legs that are still payable, each once. */
  ghost predicate SweepsPayable(s: Pot, step: Step) {
    s.config.Scheduled? ==> AtMostOneEach(s.config, Claimed(s, step))
  }

  /** And that are not in flight already, which a lock that accounts for what is outstanding sees to. */
  ghost predicate SweepsClear(s: Pot, step: Step) {
    s.config.Scheduled? ==>
      forall i: nat :: Count(Claimed(s, step), i) > 0 ==>
        InFlight(s, i) + Count(Claimed(s, step), i) <= 1 && Payable(s.config, i)
  }

  predicate Covered(s: Pot, job: Job) {
    s.balance >= job.amount + OUTBOUND_FEE
  }

  /** The job whose transfer is completed on the ledger in this step, if one is. */
  function Completed(s: Pot, step: Step): seq<Job> {
    match step
    case Work(k, outcome) =>
      if k < |s.queued| && outcome == Answered(Succeeded) && Covered(s, s.queued[k]) then [s.queued[k]] else []
    case Settle(k, success, _) => if k < |s.processing| && success then [s.processing[k]] else []
    case _ => []
  }

  /** The job that is transferred in this step although nothing of it comes to be recorded: the ledger takes its
      transfer back, or its side effect is lost. */
  function Unrecorded(s: Pot, step: Step): seq<Job> {
    match step
    case Work(k, outcome) =>
      if k < |s.queued| && outcome.ErredAfterSuccess? && Covered(s, s.queued[k]) then [s.queued[k]] else []
    case Settle(k, success, lapse) =>
      if k < |s.processing| && LosesEffect(s.processing[k], success, lapse) then [s.processing[k]] else []
    case _ => []
  }

  /** The job whose transfer is completed and whose side effect is applied. */
  function Recorded(s: Pot, step: Step): seq<Job> {
    if Unrecorded(s, step) != [] then [] else Completed(s, step)
  }

  /** The job the provider transfers, whatever is made of it here. */
  function Transferred(s: Pot, step: Step): seq<Job> {
    Recorded(s, step) + Unrecorded(s, step)
  }

  /** What the steps of a run what, in order. */
  function Along(what: (Pot, Step) -> seq<Job>, s: Pot, steps: seq<Step>): seq<Job>
    decreases |steps|
  {
    if steps == [] then [] else what(s, steps[0]) + Along(what, Next(s, steps[0]), steps[1..])
  }

  lemma {:induction false} AlongAppend(what: (Pot, Step) -> seq<Job>, s: Pot, steps: seq<Step>, more: seq<Step>)
    ensures Run(s, steps + more) == Run(Run(s, steps), more)
    ensures Along(what, s, steps + more) == Along(what, s, steps) + Along(what, Run(s, steps), more)
    decreases |steps|
  {
    if steps == [] {
      assert steps + more == more;
    } else {
      hide Next;
      assert (steps + more)[1..] == steps[1..] + more;
      AlongAppend(what, Next(s, steps[0]), steps[1..], more);
    }
  }

  // ----- counting ------------------------------------------------------------------------------------------

  lemma {:induction false} CountAppend(xs: seq<Job>, ys: seq<Job>, i: nat)
    ensures Count(xs + ys, i) == Count(xs, i) + Count(ys, i)
  {
    if xs == [] {
      assert xs + ys == ys;
    } else {
      assert (xs + ys)[1..] == xs[1..] + ys;
      CountAppend(xs[1..], ys, i);
    }
  }

  lemma CountOne(job: Job, i: nat)
    ensures Count([job], i) == if job.effect == FireLeg(i) then 1 else 0
  {}

  lemma CountRemove(jobs: seq<Job>, k: nat, i: nat)
    requires k < |jobs|
    ensures Count(jobs, i) == Count(RemoveAt(jobs, k), i) + Count([jobs[k]], i)
  {
    CountAppend(jobs[..k], jobs[k + 1..], i);
    CountAppend([jobs[k]], jobs[k + 1..], i);
    CountAppend(jobs[..k], [jobs[k]] + jobs[k + 1..], i);
    assert jobs == jobs[..k] + ([jobs[k]] + jobs[k + 1..]);
  }

  lemma {:induction false} CountNoEffect(jobs: seq<Job>, i: nat)
    requires forall j <- jobs :: j.effect == NoEffect
    ensures Count(jobs, i) == 0
  {
    if jobs != [] {
      assert jobs[0] in jobs;
      CountNoEffect(jobs[1..], i);
    }
  }

  /** A fired leg, as a number. */
  function FiredBit(config: Config, i: nat): nat {
    if config.Scheduled? && i < |config.fired| && config.fired[i] then 1 else 0
  }

  lemma CountNil(i: nat)
    ensures Count([], i) == 0
  {}

  lemma CountPending(s: Pot, i: nat)
    ensures Count(Pending(s), i) == Count(JobsIn(s.plan), i) + Count(JobsInAll(s.others), i)
  {
    CountAppend(JobsIn(s.plan), JobsInAll(s.others), i);
  }

  // ----- flights -------------------------------------------------------------------------------------------

  /** A step's transfers leave the flights of a leg. */
  ghost predicate Thins(s: Pot, step: Step, i: nat) {
    InFlight(Next(s, step), i) + Count(Transferred(s, step), i) <= InFlight(s, i)
  }

  lemma SameFlights(s: Pot, t: Pot, i: nat)
    requires s.plan == t.plan && s.others == t.others && s.queued == t.queued && s.processing == t.processing
    ensures InFlight(s, i) == InFlight(t, i)
  {}

  lemma AfterWorkFlights(s: Pot, job: Job, outcome: Outcome, i: nat)
    ensures var t := AfterWork(s, job, outcome);
            && InFlight(t, i) <= InFlight(s, i) + Count([job], i)
            && (outcome != Answered(Unsettled) ==> InFlight(t, i) == InFlight(s, i))
  {
    CountAppend(s.processing, [job], i);
    var paid := s.(balance := s.balance - (job.amount + OUTBOUND_FEE));
    EffectKeeps(Release(paid, job), job.effect);
    hide Count, ApplyEffect, JobsInAll;
  }

  lemma TransferredByWork(s: Pot, k: nat, outcome: Outcome)
    ensures Transferred(s, Work(k, outcome))
            == if k < |s.queued| && Covered(s, s.queued[k])
                  && (outcome == Answered(Succeeded) || outcome.ErredAfterSuccess?)
               then [s.queued[k]] else []
  {
    if k < |s.queued| {
      assert [s.queued[k]] + [] == [s.queued[k]] == [] + [s.queued[k]];
    }
  }

  lemma TransferredBySettle(s: Pot, k: nat, success: bool, lapse: Lapse)
    ensures Transferred(s, Settle(k, success, lapse))
            == if k < |s.processing| && success then [s.processing[k]] else []
  {
    if k < |s.processing| {
      assert [s.processing[k]] + [] == [s.processing[k]] == [] + [s.processing[k]];
    }
  }

  lemma WorkFlights(s: Pot, k: nat, outcome: Outcome, i: nat)
    ensures Thins(s, Work(k, outcome), i)
  {
    hide Count, RemoveAt, AfterWork, JobsIn, JobsInAll, Transferred;
    CountNil(i);
    TransferredByWork(s, k, outcome);
    if k < |s.queued| {
      CountRemove(s.queued, k, i);
      var s1 := s.(queued := RemoveAt(s.queued, k));
      AfterWorkFlights(s1, s.queued[k], outcome, i);
      assert Pending(s1) == Pending(s);
    }
  }

  lemma AfterSettleFlights(s: Pot, job: Job, success: bool, lapse: Lapse, i: nat)
    ensures InFlight(AfterSettle(s, job, success, lapse), i) == InFlight(s, i)
  {
    EffectKeeps(s, job.effect);
    hide Count, ApplyEffect, JobsInAll;
    SameFlights(s, AfterSettle(s, job, success, lapse), i);
  }

  lemma SettleFlights(s: Pot, k: nat, success: bool, lapse: Lapse, i: nat)
    ensures Thins(s, Settle(k, success, lapse), i)
  {
    hide Count, RemoveAt, AfterSettle, JobsIn, JobsInAll, Transferred;
    CountNil(i);
    TransferredBySettle(s, k, success, lapse);
    if k < |s.processing| {
      CountRemove(s.processing, k, i);
      var s1 := s.(processing := RemoveAt(s.processing, k));
      AfterSettleFlights(s1, s.processing[k], success, lapse, i);
      assert Pending(s1) == Pending(s);
    }
  }

  lemma CountSplit(jobs: seq<Job>, i: nat)
    requires jobs != []
    ensures Count(jobs, i) == Count([jobs[0]], i) + Count(jobs[1..], i) && Count([], i) == 0
  {}

  lemma DispatchFlights(s: Pot, enqueued: bool, i: nat)
    ensures Thins(s, Dispatch(enqueued), i)
  {
    hide Count, Pending, JobsInAll;
    CountNil(i);
    assert Transferred(s, Dispatch(enqueued)) == [] + [] == [];
    if JobsIn(s.plan) != [] {
      CountPending(s, i);
      CountPending(Next(s, Dispatch(enqueued)), i);
      CountSplit(s.plan.jobs, i);
      CountAppend(s.queued, [s.plan.jobs[0]], i);
    }
  }

  lemma TurnFlights(s: Pot, n: nat, i: nat)
    ensures InFlight(Next(s, Turn(n)), i) == InFlight(s, i)
  {
    if n < |s.others| {
      var before, after := PendingTurned(s, n);
      var mine, theirs := JobsIn(s.plan), JobsIn(s.others[n]);
      hide Count, Pending, JobsIn;
      CountAppend(mine, before + theirs + after, i);
      CountAppend(before + theirs, after, i);
      CountAppend(before, theirs, i);
      CountAppend(theirs, before + mine + after, i);
      CountAppend(before + mine, after, i);
      CountAppend(before, mine, i);
    }
  }

  lemma RescaleFlights(s: Pot, i: nat)
    ensures InFlight(Next(s, Rescale), i) == InFlight(s, i)
  {
    if s.plan.Unscaled? && |s.plan.ids| == |s.plan.slots| {
      CountPending(s, i);
      CountPending(Next(s, Rescale), i);
      hide Pending;
      CountNil(i);
      CountNoEffect(RefundJobs(s.plan.slots, s.plan.ids, s.balance), i);
    }
  }

  lemma NonClaimFlights(s: Pot, step: Step, i: nat)
    requires !IsClaim(step)
    ensures Thins(s, step, i) && Claimed(s, step) == []
  {
    CountNil(i);
    match step
    case Work(k, outcome) => WorkFlights(s, k, outcome, i);
    case Settle(k, success, lapse) => SettleFlights(s, k, success, lapse, i);
    case Dispatch(enqueued) => DispatchFlights(s, enqueued, i);
    case Turn(n) => TurnFlights(s, n, i);
    case Rescale => RescaleFlights(s, i);
    case Fund(_) =>
    case ReverseFunding(_, _) =>
    case Close(_, _) =>
  }

  lemma BegunFlights(s: Pot, plan: Plan, i: nat)
    ensures InFlight(Begin(s, plan), i) == InFlight(s, i) + Count(JobsIn(plan), i)
  {
    PendingBegun(s, plan);
    CountPending(s, i);
    CountAppend(JobsIn(plan), JobsInAll(s.others) + JobsIn(s.plan), i);
    CountAppend(JobsInAll(s.others), JobsIn(s.plan), i);
  }

  /** Whatever a claim puts in flight comes on top of what is there. */
  lemma ClaimFlights(s: Pot, step: Step, i: nat)
    requires IsClaim(step)
    ensures InFlight(Next(s, step), i) == InFlight(s, i) + Count(Claimed(s, step), i)
    ensures Transferred(s, step) == []
  {
    CountNil(i);
    if Accepted(s, step) {
      match step {
        case ClaimSingle(operation, job, _, _, _) =>
          CountAppend(s.queued, [job], i);
        case ClaimBatch(due, _, seen) =>
          var held := s.(lock := Held(Payout, |Admitted(due, seen)|));
          BegunFlights(held, Dispatching(false, Admitted(due, seen)), i);
          SameFlights(s, held, i);
        case ClaimRefund(slots, ids, _, _) =>
          var held := s.(lock := Held(Refund, |slots|));
          BegunFlights(held, Unscaled(slots, ids), i);
          SameFlights(s, held, i);
      }
    }
  }

  // ----- when a leg can be transferred twice ---------------------------------------------------------------

  ghost predicate NoClaims(steps: seq<Step>) {
    forall step <- steps :: !IsClaim(step)
  }

  lemma {:induction false} FlightsBoundTransfers(s: Pot, steps: seq<Step>, i: nat)
    requires NoClaims(steps)
    ensures Count(Along(Transferred, s, steps), i) <= InFlight(s, i)
    decreases |steps|
  {
    if steps != [] {
      assert !IsClaim(steps[0]);
      NonClaimFlights(s, steps[0], i);
      var done, rest := Transferred(s, steps[0]), Along(Transferred, Next(s, steps[0]), steps[1..]);
      hide Next, Transferred, InFlight, Count;
      assert NoClaims(steps[1..]);
      FlightsBoundTransfers(Next(s, steps[0]), steps[1..], i);
      CountAppend(done, rest, i);
    } else {
      CountNil(i);
    }
  }

  /** The first fan-out of these with jobs, or the number of them. */
  function FirstLoaded(plans: seq<Plan>): (n: nat)
    ensures n <= |plans|
    ensures n < |plans| ==> JobsIn(plans[n]) != []
    ensures n == |plans| ==> JobsInAll(plans) == []
  {
    if plans == [] then 0 else if JobsIn(plans[0]) != [] then 0 else 1 + FirstLoaded(plans[1..])
  }

  function Loaded(plans: seq<Plan>): nat {
    if plans == [] then 0 else (if JobsIn(plans[0]) != [] then 1 else 0) + Loaded(plans[1..])
  }

  lemma {:induction false} LoadedSwap(plans: seq<Plan>, n: nat, plan: Plan)
    requires n < |plans| && JobsIn(plans[n]) != [] && JobsIn(plan) == []
    ensures Loaded(plans[n := plan]) < Loaded(plans)
  {
    if n > 0 {
      LoadedSwap(plans[1..], n - 1, plan);
      assert plans[n := plan][1..] == plans[1..][n - 1 := plan];
    } else {
      assert plans[0 := plan][1..] == plans[1..];
    }
  }

  /** The next step toward having transferred everything in flight: dispatch, turn to a fan-out with legs left,
      a transfer that succeeds, a pending one that did. */
  function PayStep(s: Pot): Step {
    if JobsIn(s.plan) != [] then Dispatch(true)
    else if FirstLoaded(s.others) < |s.others| then Turn(FirstLoaded(s.others))
    else if s.queued != [] then Work(0, Answered(Succeeded))
    else Settle(0, true, NoLapse)
  }

  function ToDo(s: Pot): nat {
    4 * |Pending(s)| + Loaded(s.others) + 2 * |s.queued| + |s.processing|
  }

  ghost predicate PaysOn(s: Pot, i: nat) {
    var step := PayStep(s);
    var t := Next(s, step);
    && WellFormed(step) && !IsClaim(step) && Shaped(t) && Solvent(t) && ToDo(t) < ToDo(s)
    && InFlight(s, i) == Count(Transferred(s, step), i) + InFlight(t, i)
  }

  lemma DispatchPaysOn(s: Pot, i: nat)
    requires Shaped(s) && Solvent(s) && JobsIn(s.plan) != []
    ensures PaysOn(s, i)
  {
    hide Reserved, InFlight, JobsInAll, AfterDispatch, InPlace;
    StepShaped(s, Dispatch(true));
    DispatchReserves(s, true);
    DispatchKeepsFlights(s, i);
    CountNil(i);
    hide Shaped, Count;
  }

  /** A leg dispatched is in flight as before; one let go has no effect to count. */
  lemma DispatchKeepsFlights(s: Pot, i: nat)
    requires ShapedPlan(s.plan) && JobsIn(s.plan) != []
    ensures var t := Next(s, Dispatch(true));
            && InFlight(t, i) == InFlight(s, i) && ToDo(t) < ToDo(s)
  {
    hide Count, Pending, JobsInAll, Loaded, InPlace;
    var job, t := s.plan.jobs[0], Next(s, Dispatch(true));
    assert job in s.plan.jobs;
    CountPending(s, i);
    CountPending(t, i);
    CountSplit(s.plan.jobs, i);
    CountOne(job, i);
    CountAppend(s.queued, [job], i);
    assert |Pending(t)| < |Pending(s)| by { PendingShrinks(s); }
  }

  lemma PendingShrinks(s: Pot)
    requires JobsIn(s.plan) != []
    ensures |Pending(Next(s, Dispatch(true)))| == |Pending(s)| - 1
  {
    hide JobsInAll;
  }

  lemma TurnPaysOn(s: Pot, i: nat)
    requires Shaped(s) && Solvent(s) && JobsIn(s.plan) == [] && FirstLoaded(s.others) < |s.others|
    ensures PaysOn(s, i)
  {
    var n := FirstLoaded(s.others);
    StepShaped(s, Turn(n));
    TurnReserves(s, n);
    TurnFlights(s, n, i);
    LoadedSwap(s.others, n, s.plan);
    var before, after := PendingTurned(s, n);
    CountNil(i);
    hide Shaped, Reserved, InFlight, Pending, Loaded, JobsIn, JobsInAll;
  }

  lemma NothingPending(s: Pot)
    requires JobsIn(s.plan) == [] && FirstLoaded(s.others) == |s.others|
    ensures Pending(s) == []
  {}

  lemma WorkPaysOn(s: Pot, i: nat)
    requires Shaped(s) && Solvent(s) && Pending(s) == [] && s.queued != [] && PayStep(s) == Work(0, Answered(Succeeded))
    ensures PaysOn(s, i)
  {
    var step := Work(0, Answered(Succeeded));
    var job := s.queued[0];
    StepShaped(s, step);
    WorkStaysSolvent(s, 0, Answered(Succeeded));
    assert job in s.queued + s.processing;
    NeedSumNonNegative(s.queued[1..]);
    assert Covered(s, job) by { assert NeedSum(Pending(s)) == 0; }
    CountRemove(s.queued, 0, i);
    var s1 := s.(queued := RemoveAt(s.queued, 0));
    RemoveAtMembers(s.queued, 0);
    AfterWorkFlights(s1, job, Answered(Succeeded), i);
    AfterWorkKeepsLists(s1, job);
    hide Count, RemoveAt, AfterWork, Shaped, Reserved, NeedSum, JobsInAll;
    assert [job] + [] == [job];
  }

  lemma AfterWorkKeepsLists(s: Pot, job: Job)
    ensures var t := AfterWork(s, job, Answered(Succeeded));
            t.plan == s.plan && t.others == s.others && t.queued == s.queued && t.processing == s.processing
  {
    var paid := s.(balance := s.balance - (job.amount + OUTBOUND_FEE));
    EffectKeeps(Release(paid, job), job.effect);
    hide ApplyEffect;
  }

  lemma SettlePaysOn(s: Pot, i: nat)
    requires Shaped(s) && Solvent(s) && s.processing != [] && PayStep(s) == Settle(0, true, NoLapse)
    ensures PaysOn(s, i)
  {
    hide Count, RemoveAt, ApplyEffect, Shaped, Reserved, JobsIn, JobsInAll, Transferred, FirstLoaded, Loaded;
    var job := s.processing[0];
    StepShaped(s, Settle(0, true, NoLapse));
    SettleStaysSolvent(s, 0, true, NoLapse);
    TransferredBySettle(s, 0, true, NoLapse);
    CountRemove(s.processing, 0, i);
    var s1 := s.(processing := RemoveAt(s.processing, 0));
    RemoveAtMembers(s.processing, 0);
    AfterSettleFlights(s1, job, true, NoLapse, i);
    EffectKeeps(s1, job.effect);
    assert Pending(s1) == Pending(s);
  }

  lemma PayProgress(s: Pot, i: nat)
    requires Shaped(s) && Solvent(s) && ToDo(s) > 0
    ensures PaysOn(s, i)
  {
    hide Shaped, Solvent, PaysOn, Next;
    if JobsIn(s.plan) != [] {
      DispatchPaysOn(s, i);
    } else if FirstLoaded(s.others) < |s.others| {
      TurnPaysOn(s, i);
    } else {
      NothingPending(s);
      NothingLoaded(s.others);
      if s.queued != [] {
        WorkPaysOn(s, i);
      } else {
        SettlePaysOn(s, i);
      }
    }
  }

  lemma {:induction false} NothingLoaded(plans: seq<Plan>)
    requires FirstLoaded(plans) == |plans|
    ensures Loaded(plans) == 0
  {
    if plans != [] {
      NothingLoaded(plans[1..]);
    }
  }

  /** Everything in flight can be transferred: dispatched to the end, every transfer succeeding. */
  lemma {:induction false} PayAll(s: Pot, i: nat) returns (steps: seq<Step>)
    requires Shaped(s) && Solvent(s)
    ensures NoClaims(steps) && AllWellFormed(steps) && Count(Along(Transferred, s, steps), i) == InFlight(s, i)
    decreases ToDo(s)
  {
    if ToDo(s) == 0 {
      steps := [];
      CountNil(i);
    } else {
      PayProgress(s, i);
      hide Shaped, Solvent, Next, Transferred, InFlight, Count, WellFormed, ToDo;
      var step := PayStep(s);
      var t := Next(s, step);
      var rest := PayAll(t, i);
      steps := [step] + rest;
      assert steps[1..] == rest;
      CountAppend(Transferred(s, step), Along(Transferred, t, rest), i);
    }
  }

  lemma FundThenPayAll(s: Pot, i: nat) returns (steps: seq<Step>)
    requires Shaped(s)
    ensures NoClaims(steps) && AllWellFormed(steps) && Count(Along(Transferred, s, steps), i) == InFlight(s, i)
  {
    var enough: nat := if Reserved(s) > s.balance then Reserved(s) - s.balance else 0;
    var t := Next(s, Fund(enough));
    StepShaped(s, Fund(enough));
    ReservedOfParts(s, t);
    SameFlights(s, t, i);
    hide Shaped, InFlight, Count;
    var rest := PayAll(t, i);
    steps := [Fund(enough)] + rest;
    assert steps[1..] == rest && Transferred(s, Fund(enough)) == [];
    assert [] + Along(Transferred, t, rest) == Along(Transferred, t, rest);
  }

  /** From a state with `before` transfers of a leg behind it, steps that claim nothing can bring them to two or
      more if and only if those and the leg's flights together are two or more. */
  lemma ReachesTwoIff(s: Pot, before: nat, i: nat)
    requires Shaped(s)
    ensures (exists more :: NoClaims(more) && before + Count(Along(Transferred, s, more), i) >= 2)
            <==> before + InFlight(s, i) >= 2
  {
    hide Shaped, InFlight, Count, Transferred;
    if before + InFlight(s, i) >= 2 {
      var more := FundThenPayAll(s, i);
      assert before + Count(Along(Transferred, s, more), i) >= 2;
    } else {
      forall more | NoClaims(more) ensures before + Count(Along(Transferred, s, more), i) < 2 {
        FlightsBoundTransfers(s, more, i);
      }
    }
  }

  /** Transfers of a leg made along a run, and those still in flight at its end. */
  function Exposure(s: Pot, steps: seq<Step>, i: nat): nat {
    Count(Along(Transferred, s, steps), i) + InFlight(Run(s, steps), i)
  }

  /** The exact condition for a leg to be transferred twice, after any run at all, errors and units given back
      twice included: some continuation that claims nothing brings its transfers over the whole run to two or
      more, if and only if those made and those in flight are two or more. */
  lemma TransferredTwiceIff(config: Config, steps: seq<Step>, i: nat)
    requires AllCallable(steps)
    ensures (exists more :: NoClaims(more) && Count(Along(Transferred, NewPot(config), steps + more), i) >= 2)
            <==> Exposure(NewPot(config), steps, i) >= 2
  {
    var s0 := NewPot(config);
    NewPotAccounts(config);
    hide LockAccounts, Shaped, Callable, InFlight, Transferred, Next;
    RunShaped(s0, steps);
    var s, before := Run(s0, steps), Count(Along(Transferred, s0, steps), i);
    ReachesTwoIff(s, before, i);
    forall more
      ensures Count(Along(Transferred, s0, steps + more), i) == before + Count(Along(Transferred, s, more), i)
    {
      AlongAppend(Transferred, s0, steps, more);
      CountAppend(Along(Transferred, s0, steps), Along(Transferred, s, more), i);
    }
    hide Along, Count, Run;
    if Exposure(s0, steps, i) >= 2 {
      var more :| NoClaims(more) && before + Count(Along(Transferred, s, more), i) >= 2;
      assert Count(Along(Transferred, s0, steps + more), i) >= 2;
    }
  }

  /** A claim is what adds to it: the legs it puts in flight. No other step does. */
  lemma ExposureStep(s: Pot, steps: seq<Step>, step: Step, i: nat)
    ensures IsClaim(step) ==>
              Exposure(s, steps + [step], i) == Exposure(s, steps, i) + Count(Claimed(Run(s, steps), step), i)
    ensures !IsClaim(step) ==> Exposure(s, steps + [step], i) <= Exposure(s, steps, i)
  {
    var t := Run(s, steps);
    var made := Along(Transferred, s, steps);
    AlongAppend(Transferred, s, steps, [step]);
    assert [step][1..] == [];
    assert Along(Transferred, t, [step]) == Transferred(t, step) + [];
    assert Run(t, [step]) == Run(Next(t, step), []);
    CountAppend(made, Transferred(t, step), i);
    assert Transferred(t, step) + [] == Transferred(t, step);
    CountNil(i);
    if IsClaim(step) {
      ClaimFlights(t, step, i);
    } else {
      NonClaimFlights(t, step, i);
    }
    hide Along, Count, Transferred, InFlight, Claimed, Next;
  }

  /** So after a claim, accepted or not: if and only if the transfers of the leg made so far, those in flight and
      those claimed now are two or more. */
  lemma ClaimTransfersTwiceIff(config: Config, steps: seq<Step>, claim: Step, i: nat)
    requires AllCallable(steps) && Callable(claim) && IsClaim(claim)
    ensures var s0 := NewPot(config);
            var s := Run(s0, steps);
            (exists more :: NoClaims(more) && Count(Along(Transferred, s0, steps + [claim] + more), i) >= 2)
            <==> Count(Along(Transferred, s0, steps), i) + InFlight(s, i) + Count(Claimed(s, claim), i) >= 2
  {
    hide Callable, Along, InFlight, Claimed, IsClaim, NewPot, Run;
    assert AllCallable(steps + [claim]);
    TransferredTwiceIff(config, steps + [claim], i);
    ExposureStep(NewPot(config), steps, claim, i);
  }

  /** Each claim of the leg along the run has it once, and finds it neither transferred nor in flight. */
  ghost predicate ClaimedOnce(s: Pot, steps: seq<Step>, i: nat) {
    forall k :: 0 <= k < |steps| && ClaimedAt(s, steps, k, i) > 0 ==>
      ClaimedAt(s, steps, k, i) == 1 && Exposure(s, steps[..k], i) == 0
  }

  function ClaimedAt(s: Pot, steps: seq<Step>, k: nat, i: nat): nat
    requires k < |steps|
  {
    Count(Claimed(Run(s, steps[..k]), steps[k]), i)
  }

  lemma ExposureAt(s: Pot, steps: seq<Step>, k: nat, i: nat)
    requires k < |steps|
    ensures ClaimedAt(s, steps, k, i) > 0 ==>
              Exposure(s, steps[..k + 1], i) == Exposure(s, steps[..k], i) + ClaimedAt(s, steps, k, i)
    ensures ClaimedAt(s, steps, k, i) == 0 ==> Exposure(s, steps[..k + 1], i) <= Exposure(s, steps[..k], i)
  {
    hide Exposure, Claimed, IsClaim;
    ExposureStep(s, steps[..k], steps[k], i);
    assert steps[..k + 1] == steps[..k] + [steps[k]];
    if !IsClaim(steps[k]) {
      NonClaimFlights(Run(s, steps[..k]), steps[k], i);
      CountNil(i);
    }
  }

  lemma {:induction false} ExposureBounded(s: Pot, steps: seq<Step>, k: nat, i: nat)
    requires ClaimedOnce(s, steps, i) && InFlight(s, i) == 0 && k <= |steps|
    ensures Exposure(s, steps[..k], i) <= 1
    decreases k
  {
    hide Exposure, ClaimedAt, InFlight;
    if k == 0 {
      assert steps[..0] == [];
      NothingExposed(s, i);
    } else {
      ExposureBounded(s, steps, k - 1, i);
      ExposureAt(s, steps, k - 1, i);
    }
  }

  lemma NothingExposed(s: Pot, i: nat)
    ensures Exposure(s, [], i) == InFlight(s, i)
  {
    CountNil(i);
  }

  /** So a leg is safe from a second transfer all along a run, whatever becomes of what is in flight, if and only
      if every claim of it had it once and found it neither transferred nor in flight. */
  lemma NeverTwiceIff(config: Config, steps: seq<Step>, i: nat)
    requires AllCallable(steps)
    ensures ClaimedOnce(NewPot(config), steps, i)
            <==> forall k, more :: 0 <= k <= |steps| && NoClaims(more) ==>
                   Count(Along(Transferred, NewPot(config), steps[..k] + more), i) <= 1
  {
    var s0 := NewPot(config);
    assert InFlight(s0, i) == 0 by { CountNil(i); }
    hide Callable, Along, Exposure, NewPot, NoClaims, Count, ClaimedAt, InFlight;
    forall k | 0 <= k <= |steps|
      ensures Exposure(s0, steps[..k], i) <= 1
              <==> forall more :: NoClaims(more) ==> Count(Along(Transferred, s0, steps[..k] + more), i) <= 1
    {
      TransferredTwiceIff(config, steps[..k], i);
    }
    if ClaimedOnce(s0, steps, i) {
      forall k | 0 <= k <= |steps| ensures Exposure(s0, steps[..k], i) <= 1 {
        ExposureBounded(s0, steps, k, i);
      }
    } else {
      var k :| 0 <= k < |steps| && ClaimedAt(s0, steps, k, i) > 0
               && !(ClaimedAt(s0, steps, k, i) == 1 && Exposure(s0, steps[..k], i) == 0);
      ExposureAt(s0, steps, k, i);
      assert Exposure(s0, steps[..k + 1], i) > 1;
    }
  }

  // ----- what the flags tell -------------------------------------------------------------------------------

  /** The config after a step: only a recorded payout changes it, by its own effect. */
  ghost predicate ConfigStep(s: Pot, step: Step) {
    var t := Next(s, step);
    if Recorded(s, step) == [] then t.config == s.config
    else t.config == ApplyEffect(s, Recorded(s, step)[0].effect).config
  }

  lemma EffectConfig(s: Pot, t: Pot, effect: Effect)
    requires s.config == t.config
    ensures ApplyEffect(s, effect).config == ApplyEffect(t, effect).config
  {}

  lemma WorkConfig(s: Pot, k: nat, outcome: Outcome)
    requires k < |s.queued|
    ensures ConfigStep(s, Work(k, outcome))
  {
    hide ApplyEffect, RemoveAt;
    var job := s.queued[k];
    var s1 := s.(queued := RemoveAt(s.queued, k), balance := s.balance - (job.amount + OUTBOUND_FEE));
    EffectConfig(Release(s1, job), s, job.effect);
  }

  lemma SettleConfig(s: Pot, k: nat, success: bool, lapse: Lapse)
    requires k < |s.processing|
    ensures ConfigStep(s, Settle(k, success, lapse))
  {
    hide ApplyEffect, RemoveAt;
    var job := s.processing[k];
    EffectConfig(s.(processing := RemoveAt(s.processing, k)), s, job.effect);
  }

  lemma StepConfig(s: Pot, step: Step)
    ensures ConfigStep(s, step)
  {
    match step
    case Work(k, outcome) => if k < |s.queued| { WorkConfig(s, k, outcome); }
    case Settle(k, success, lapse) => if k < |s.processing| { SettleConfig(s, k, success, lapse); }
    case _ =>
  }

  /** A recorded leg payout marks exactly that leg. */
  lemma RecordingMarks(s: Pot, step: Step, i: nat)
    requires s.config.Scheduled? && (forall j: nat :: Count(Recorded(s, step), j) > 0 ==> Payable(s.config, j))
    ensures var t := Next(s, step);
            && t.config.Scheduled? && t.config.ordered == s.config.ordered && |t.config.fired| == |s.config.fired|
            && FiredBit(t.config, i) == FiredBit(s.config, i) + Count(Recorded(s, step), i)
  {
    StepConfig(s, step);
    var done := Recorded(s, step);
    if done != [] {
      CountOne(done[0], i);
      assert done == [done[0]];
      if done[0].effect.FireLeg? {
        CountOne(done[0], done[0].effect.leg);
        assert Payable(s.config, done[0].effect.leg);
      }
    }
    hide Next;
  }

  lemma TransferredFlew(s: Pot, step: Step, j: nat)
    ensures Count(Transferred(s, step), j) <= InFlight(s, j)
    ensures Count(Transferred(s, step), j) == Count(Recorded(s, step), j) + Count(Unrecorded(s, step), j)
  {
    CountAppend(Recorded(s, step), Unrecorded(s, step), j);
    if IsClaim(step) {
      ClaimFlights(s, step, j);
      CountNil(j);
    } else {
      NonClaimFlights(s, step, j);
    }
    hide Count, Recorded, Unrecorded, InFlight;
  }

  lemma RecordedPayable(s: Pot, step: Step, j: nat)
    requires LegsGuarded(s) && s.config.Scheduled? && Count(Recorded(s, step), j) > 0
    ensures Payable(s.config, j)
  {
    hide Recorded, Payable;
    TransferredFlew(s, step, j);
  }

  lemma SameFired(a: Config, b: Config, i: nat)
    requires a.Scheduled? && b.Scheduled? && a.ordered == b.ordered && |a.fired| == |b.fired|
    requires FiredBit(b, i) == FiredBit(a, i) && forall j: nat :: FiredBit(b, j) >= FiredBit(a, j)
    requires Payable(a, i)
    ensures Payable(b, i)
  {
    forall j | 0 <= j < i && a.fired[j] ensures b.fired[j] {
      assert FiredBit(b, j) >= FiredBit(a, j);
    }
  }

  lemma StepFlights(s: Pot, step: Step, i: nat)
    ensures InFlight(Next(s, step), i) + Count(Transferred(s, step), i) <= InFlight(s, i) + Count(Claimed(s, step), i)
  {
    CountNil(i);
    if IsClaim(step) {
      ClaimFlights(s, step, i);
    } else {
      NonClaimFlights(s, step, i);
    }
  }

  /** Only a claim can make a leg unguarded; a recorded payout was the leg's only flight. */
  lemma StepGuarded(s: Pot, step: Step)
    requires LegsGuarded(s) && SweepsClear(s, step)
    ensures LegsGuarded(Next(s, step))
  {
    var t := Next(s, step);
    StepConfig(s, step);
    if s.config.Scheduled? {
      forall j: nat | Count(Recorded(s, step), j) > 0 ensures Payable(s.config, j) {
        RecordedPayable(s, step, j);
      }
      forall j: nat ensures FiredBit(t.config, j) == FiredBit(s.config, j) + Count(Recorded(s, step), j) {
        RecordingMarks(s, step, j);
      }
      RecordingMarks(s, step, 0);
      hide Next, Recorded, Claimed, Payable, Count, InFlight;
      forall i: nat ensures InFlight(t, i) <= 1 && (InFlight(t, i) > 0 ==> Payable(t.config, i)) {
        StepFlights(s, step, i);
        TransferredFlew(s, step, i);
        if InFlight(t, i) > 0 {
          SameFired(s.config, t.config, i);
        }
      }
    }
  }

  /** A claim keeps legs guarded exactly when those it takes are payable and not in flight. */
  lemma ClaimGuardedIff(s: Pot, step: Step)
    requires LegsGuarded(s) && IsClaim(step)
    ensures LegsGuarded(Next(s, step)) <==> SweepsClear(s, step)
  {
    if SweepsClear(s, step) {
      StepGuarded(s, step);
    } else {
      var claimed := Claimed(s, step);
      var i: nat :| Count(claimed, i) > 0 && !(InFlight(s, i) + Count(claimed, i) <= 1 && Payable(s.config, i));
      ClaimFlights(s, step, i);
      StepConfig(s, step);
      hide InFlight, Count, Claimed, Payable;
    }
  }

  ghost predicate AllClear(s: Pot, steps: seq<Step>)
    decreases |steps|
  {
    steps == [] || (SweepsClear(s, steps[0]) && AllClear(Next(s, steps[0]), steps[1..]))
  }

  ghost predicate AllPayable(s: Pot, steps: seq<Step>)
    decreases |steps|
  {
    steps == [] || (SweepsPayable(s, steps[0]) && AllPayable(Next(s, steps[0]), steps[1..]))
  }

  /** With the lock free and accounting for what is outstanding, a payable leg is not in flight. */
  lemma PayableIsClear(s: Pot, step: Step)
    requires LockAccounts(s) && SweepsPayable(s, step)
    ensures SweepsClear(s, step)
  {
    if s.lock.Free? {
      assert s.queued == [] && s.processing == [] && Pending(s) == [];
    }
  }

  lemma {:induction false} PayableRunIsClear(s: Pot, steps: seq<Step>)
    requires LockAccounts(s) && AllCallable(steps) && NeverReleasesTwice(s, steps) && AllPayable(s, steps)
    ensures AllClear(s, steps)
    decreases |steps|
  {
    if steps != [] {
      assert Callable(steps[0]);
      PayableIsClear(s, steps[0]);
      StepAccountsIff(s, steps[0]);
      hide LockAccounts, Callable, ReleasesTwice, SweepsPayable, SweepsClear, Next;
      assert AllCallable(steps[1..]);
      PayableRunIsClear(Next(s, steps[0]), steps[1..]);
    }
  }

  /** Over any run of clear claims, whatever else goes wrong, the payouts recorded for a leg are exactly the change
      in its flag, and its transfers are those and the unrecorded ones. */
  lemma {:induction false} RecordingsAreFired(s: Pot, steps: seq<Step>, i: nat)
    requires LegsGuarded(s) && s.config.Scheduled? && AllClear(s, steps)
    ensures var t := Run(s, steps);
            && t.config.Scheduled? && t.config.ordered == s.config.ordered && |t.config.fired| == |s.config.fired|
            && FiredBit(t.config, i) == FiredBit(s.config, i) + Count(Along(Recorded, s, steps), i)
            && Count(Along(Transferred, s, steps), i)
               == Count(Along(Recorded, s, steps), i) + Count(Along(Unrecorded, s, steps), i)
    decreases |steps|
  {
    if steps != [] {
      var t := Next(s, steps[0]);
      forall j: nat | Count(Recorded(s, steps[0]), j) > 0 ensures Payable(s.config, j) {
        RecordedPayable(s, steps[0], j);
      }
      RecordingMarks(s, steps[0], i);
      TransferredFlew(s, steps[0], i);
      StepGuarded(s, steps[0]);
      hide LegsGuarded, SweepsClear, Next, Recorded, Unrecorded, Transferred, InFlight, Count;
      RecordingsAreFired(t, steps[1..], i);
      CountAppend(Recorded(s, steps[0]), Along(Recorded, t, steps[1..]), i);
      CountAppend(Unrecorded(s, steps[0]), Along(Unrecorded, t, steps[1..]), i);
      CountAppend(Transferred(s, steps[0]), Along(Transferred, t, steps[1..]), i);
    } else {
      CountNil(i);
    }
  }

  lemma NewScheduleGuarded(ordered: bool, n: nat)
    ensures LegsGuarded(NewPot(Scheduled(ordered, seq(n, _ => false))))
  {
    forall i ensures Count([], i) == 0 { CountNil(i); }
  }

  /** Over every run of clear claims on a new schedule a leg's transfers are its flag and its unrecorded transfers.
      So without one of these each leg is paid at most once, and exactly when it ends up marked fired. */
  lemma EachLegPaidAtMostOnce(ordered: bool, n: nat, steps: seq<Step>, i: nat)
    requires AllClear(NewPot(Scheduled(ordered, seq(n, _ => false))), steps)
    ensures var s := NewPot(Scheduled(ordered, seq(n, _ => false)));
            var paid := Count(Along(Transferred, s, steps), i);
            && paid == FiredBit(Run(s, steps).config, i) + Count(Along(Unrecorded, s, steps), i)
            && (Count(Along(Unrecorded, s, steps), i) == 0 ==>
                  paid <= 1 && (paid == 1 <==> FiredBit(Run(s, steps).config, i) == 1))
  {
    NewScheduleGuarded(ordered, n);
    hide LegsGuarded, AllClear, Along;
    RecordingsAreFired(NewPot(Scheduled(ordered, seq(n, _ => false))), steps, i);
  }

  // ----- how it comes to a second transfer -------------------------------------------------------------------

  /** A single payout claimed on a fresh reading and transferred at once. */
  function Round(job: Job, seen: int): seq<Step> {
    [ClaimSingle(Payout, job, true, seen, true), Work(0, Answered(Succeeded))]
  }

  lemma RoundTransfers(s: Pot, job: Job)
    requires s.lock.Free? && s.queued == [] && job.amount > 0 && !job.fanOut && Covered(s, job)
    ensures var steps := Round(job, s.balance);
            && AllWellFormed(steps) && AllFresh(s, steps) && Along(Transferred, s, steps) == [job]
            && Run(s, steps) == ApplyEffect(s.(balance := s.balance - (job.amount + OUTBOUND_FEE)), job.effect)
            && (AllPayable(s, steps) <==> SweepsPayable(s, steps[0]))
            && Claimed(s, steps[0]) == [job]
  {
    hide ApplyEffect, AtMostOneEach;
    var steps := Round(job, s.balance);
    var t := Next(s, steps[0]);
    assert t == s.(lock := Held(Payout, 1), queued := [job]);
    assert RemoveAt([job], 0) == [];
    var u := Next(t, steps[1]);
    assert u == ApplyEffect(s.(balance := s.balance - (job.amount + OUTBOUND_FEE)), job.effect);
    assert steps[1..] == [steps[1]] && [steps[1]][1..] == [];
    assert Run(t, [steps[1]]) == Run(u, []) && AllFresh(t, [steps[1]]);
    assert Transferred(s, steps[0]) == [] && Transferred(t, steps[1]) == [job];
    assert Along(Transferred, t, [steps[1]]) == [job] + [];
    assert Claimed(t, steps[1]) == [];
    NothingClaimedIsPayable(t.config);
    assert AllPayable(t, [steps[1]]);
  }

  lemma NothingClaimedIsPayable(config: Config)
    requires config.Scheduled? || !config.Scheduled?
    ensures config.Scheduled? ==> AtMostOneEach(config, [])
  {}

  lemma {:induction false} AllPayableAppend(s: Pot, steps: seq<Step>, more: seq<Step>)
    ensures AllPayable(s, steps + more) <==> AllPayable(s, steps) && AllPayable(Run(s, steps), more)
    decreases |steps|
  {
    if steps == [] {
      assert steps + more == more;
    } else {
      hide Next, SweepsPayable;
      assert (steps + more)[1..] == steps[1..] + more;
      AllPayableAppend(Next(s, steps[0]), steps[1..], more);
    }
  }

  lemma OneOfOne(job: Job, i: nat)
    requires job.effect == FireLeg(i)
    ensures forall k: nat :: Count([job], k) == if k == i then 1 else 0
  {
    assert [job][1..] == [];
  }

  /** A pot with nothing going on and a schedule of one leg. */
  function Idle(ordered: bool, fired: bool, balance: int): Pot {
    NewPot(Scheduled(ordered, [fired])).(balance := balance)
  }

  /** A sweep that reads a leg as unfired, waits while that leg's payout completes, and only then claims the
      lock, pays the leg a second time: the claim checks the lock and the balance but not the leg. */
  lemma StaleSweepPaysTwice(ordered: bool, amount: nat, funds: nat)
    requires amount > 0 && funds >= 2 * (amount + OUTBOUND_FEE)
    ensures var s := NewPot(Scheduled(ordered, [false]));
            var first, second := Job(1, amount, false, FireLeg(0)), Job(2, amount, false, FireLeg(0));
            var once := [Fund(funds)] + Round(first, funds);
            var twice := once + Round(second, funds - (amount + OUTBOUND_FEE));
            && AllWellFormed(twice) && !AllPayable(s, twice)
            && Count(Along(Transferred, s, once), 0) == 1 && Count(Along(Transferred, s, twice), 0) == 2
  {
    hide Round, ApplyEffect, Along, Run, AllPayable, SweepsPayable, AllFresh, Next, WellFormed, Count, Claimed;
    hide Idle, NewPot;
    var first, second := Job(1, amount, false, FireLeg(0)), Job(2, amount, false, FireLeg(0));
    var s0, left := NewPot(Scheduled(ordered, [false])), funds - (amount + OUTBOUND_FEE);
    var idle, fired := Idle(ordered, false, funds), Idle(ordered, true, left);
    var fund, one, two := [Fund(funds)], Round(first, funds), Round(second, left);
    IdleFacts(ordered, false, funds);
    IdleFacts(ordered, true, left);
    FundedIdle(ordered, funds);
    RoundTransfers(idle, first);
    FiredIdle(ordered, funds, amount);
    RoundTransfers(fired, second);
    FiredNotPayable(fired, second);
    FundWellFormed(funds);
    ThreeParts(s0, fund, one, two, idle, fired, first, second);
    OneOfOne(first, 0);
    OneOfOne(second, 0);
    CountAppend([first], [second], 0);
  }

  lemma IdleFacts(ordered: bool, fired: bool, balance: int)
    ensures var s := Idle(ordered, fired, balance);
            s.lock.Free? && s.queued == [] && s.balance == balance && s.config == Scheduled(ordered, [fired])
  {}

  lemma ThreeParts(s: Pot, a: seq<Step>, b: seq<Step>, c: seq<Step>, t: Pot, u: Pot, first: Job, second: Job)
    requires Run(s, a) == t && Run(t, b) == u && Along(Transferred, s, a) == []
    requires Along(Transferred, t, b) == [first] && Along(Transferred, u, c) == [second]
    ensures Along(Transferred, s, a + b) == [first] && Along(Transferred, s, a + b + c) == [first] + [second]
    ensures AllPayable(s, a + b + c) ==> AllPayable(u, c)
    ensures AllWellFormed(a) && AllWellFormed(b) && AllWellFormed(c) ==> AllWellFormed(a + b + c)
  {
    hide Along, Run, AllPayable, Transferred, WellFormed;
    AlongAppend(Transferred, s, a, b);
    AlongAppend(Transferred, s, a + b, c);
    AllPayableAppend(s, a + b, c);
    assert [] + [first] == [first];
  }

  lemma FundWellFormed(amount: nat)
    ensures AllWellFormed([Fund(amount)])
  {}

  lemma FundedIdle(ordered: bool, funds: nat)
    ensures var s := NewPot(Scheduled(ordered, [false]));
            && Run(s, [Fund(funds)]) == Idle(ordered, false, funds) && Along(Transferred, s, [Fund(funds)]) == []
  {
    var s := NewPot(Scheduled(ordered, [false]));
    assert [Fund(funds)][1..] == [];
    assert Run(Next(s, Fund(funds)), []) == Next(s, Fund(funds)) == Idle(ordered, false, funds);
    assert Transferred(s, Fund(funds)) == [];
  }

  lemma FiredIdle(ordered: bool, funds: int, amount: int)
    ensures ApplyEffect(Idle(ordered, false, funds).(balance := funds - (amount + OUTBOUND_FEE)), FireLeg(0))
            == Idle(ordered, true, funds - (amount + OUTBOUND_FEE))
  {
    assert [false][0 := true] == [true];
  }

  lemma FiredNotPayable(s: Pot, job: Job)
    requires s.config.Scheduled? && s.config.fired == [true] && job.effect == FireLeg(0)
    requires Claimed(s, Round(job, s.balance)[0]) == [job]
    ensures !SweepsPayable(s, Round(job, s.balance)[0])
  {
    OneOfOne(job, 0);
    assert Count([job], 0) > 0 && !Payable(s.config, 0);
  }

  /** A scheduled payout that was transferred, but whose recording throws, is transferred again by the next sweep,
      every reading of it fresh and the leg payable: its leg was never marked. */
  lemma ErrorPaysTheLegAgain(s: Pot, released: bool, i: nat, jobId: nat)
    requires LockAccounts(s) && LegsGuarded(s) && s.config.Scheduled?
    requires Outstanding(s) == 1 && |s.queued| == 1 && s.queued[0].effect == FireLeg(i) && Covered(s, s.queued[0])
    ensures var erred := Work(0, ErredAfterSuccess(released));
            var t := Next(s, erred);
            var again := Round(Job(jobId, s.queued[0].amount, false, FireLeg(i)), t.balance);
            && t == s.(queued := [], lock := Free)
            && AllWellFormed(again) && AllFresh(t, again) && AllPayable(t, again)
            && Count(Along(Transferred, s, [erred] + again), i) == 2
  {
    AloneInFlight(s, i);
    ErredAlone(s, released);
    hide LockAccounts, LegsGuarded, RemoveAt, Count, InFlight, Outstanding, ApplyEffect, Round, Next, Transferred;
    hide AllFresh, WellFormed, Along, Run, AllPayable;
    var erred := Work(0, ErredAfterSuccess(released));
    var t := Next(s, erred);
    var job := s.queued[0];
    var again := Job(jobId, job.amount, false, FireLeg(i));
    RoundTransfers(t, again);
    PayableAlone(t, Round(again, t.balance)[0], again, i);
    OneOfOne(again, i);
    OneOfOne(job, i);
    CountAppend([job], [again], i);
    AlongAppend(Transferred, s, [erred], Round(again, t.balance));
  }

  lemma ErredAlone(s: Pot, released: bool)
    requires s.queued != [] && RemoveAt(s.queued, 0) == [] && Covered(s, s.queued[0])
    requires s.lock.Held? && s.lock.legCount == 1
    ensures var erred := Work(0, ErredAfterSuccess(released));
            var t := s.(queued := [], lock := Free);
            && Next(s, erred) == t && Run(s, [erred]) == t && Along(Transferred, s, [erred]) == [s.queued[0]]
  {
    hide RemoveAt;
    var erred := Work(0, ErredAfterSuccess(released));
    var t := Next(s, erred);
    assert [erred][1..] == [] && Transferred(s, erred) == [] + [s.queued[0]] == [s.queued[0]];
    assert Run(s, [erred]) == Run(t, []);
    assert Along(Transferred, s, [erred]) == [s.queued[0]] + Along(Transferred, t, []);
  }

  lemma PayableAlone(s: Pot, step: Step, job: Job, i: nat)
    requires Claimed(s, step) == [job] && job.effect == FireLeg(i)
    requires s.config.Scheduled? ==> Payable(s.config, i)
    ensures SweepsPayable(s, step)
  {
    OneOfOne(job, i);
    hide Claimed, Payable;
  }

  lemma AloneInFlight(s: Pot, i: nat)
    requires LockAccounts(s) && LegsGuarded(s) && s.config.Scheduled?
    requires Outstanding(s) == 1 && |s.queued| == 1 && s.queued[0].effect == FireLeg(i)
    ensures s.queued[0].amount > 0 && s.processing == [] && Spent(s.plan) && s.others == []
    ensures Payable(s.config, i) && s.lock.Held? && s.lock.legCount == 1 && RemoveAt(s.queued, 0) == []
  {
    var job := s.queued[0];
    assert job in s.queued + s.processing;
    assert s.queued == [job];
    OneOfOne(job, i);
    assert InFlight(s, i) >= 1;
  }

  /** Two legs of a batch are queued, and recording the first one's success throws once the lock has been given
      back. */
  function EarlyRelease(amount: nat, funds: nat): seq<Step> {
    [Fund(funds), ClaimBatch([LegJob(1, 0, amount), LegJob(2, 1, amount)], true, funds), Dispatch(true), Dispatch(true),
     Work(0, ErredAfterSuccess(true))]
  }

  function LegJob(jobId: nat, i: nat, amount: int): Job {
    Job(jobId, amount, true, FireLeg(i))
  }

  /** The pot with two legs of a schedule, its batch in various states. */
  function Batch(funds: int, legCount: nat, undispatched: seq<Job>, queued: seq<Job>): Pot {
    NewPot(Scheduled(false, [false, false])).(
      balance := funds,
      lock := if legCount == 0 then Free else Held(Payout, legCount),
      plan := Dispatching(false, undispatched),
      queued := queued)
  }

  lemma BatchGoes(funds: nat, first: Job, second: Job)
    requires first.fanOut && first.amount > 0 && second.amount > 0
    requires funds >= (first.amount + OUTBOUND_FEE) + (second.amount + OUTBOUND_FEE)
    ensures var claim := ClaimBatch([first, second], true, funds);
            && Next(Batch(0, 0, [], []), Fund(funds)) == Batch(funds, 0, [], [])
            && Next(Batch(funds, 0, [], []), claim) == Batch(funds, 2, [first, second], [])
            && Claimed(Batch(funds, 0, [], []), claim) == [first, second]
            && Next(Batch(funds, 2, [first, second], []), Dispatch(true)) == Batch(funds, 2, [second], [first])
            && Next(Batch(funds, 2, [second], [first]), Dispatch(true)) == Batch(funds, 2, [], [first, second])
            && Next(Batch(funds, 2, [], [first, second]), Work(0, ErredAfterSuccess(true)))
               == Batch(funds, 0, [], [second])
  {
    BothAdmitted(first, second, funds);
    assert [first, second][1..] == [second] && [second][1..] == [] && [first] + [second] == [first, second];
    assert [] + [first] == [first] && RemoveAt([first, second], 0) == [second];
    hide Admitted, RemoveAt;
  }

  /** The lock is given back twice, and free with the second leg still queued. */
  lemma FreedTooEarly(amount: nat, funds: nat)
    requires amount > 0 && funds >= 2 * (amount + OUTBOUND_FEE)
    ensures var s0, steps := NewPot(Scheduled(false, [false, false])), EarlyRelease(amount, funds);
            && AllCallable(steps) && AllFresh(s0, steps) && AllPayable(s0, steps)
            && Run(s0, steps) == s0.(balance := funds, queued := [LegJob(2, 1, amount)])
  {
    var first, second := LegJob(1, 0, amount), LegJob(2, 1, amount);
    var s0, s1 := Batch(0, 0, [], []), Batch(funds, 0, [], []);
    var s2, s3 := Batch(funds, 2, [first, second], []), Batch(funds, 2, [second], [first]);
    var s4, s5 := Batch(funds, 2, [], [first, second]), Batch(funds, 0, [], [second]);
    var c, d, e := ClaimBatch([first, second], true, funds), Dispatch(true), Work(0, ErredAfterSuccess(true));
    BatchGoes(funds, first, second);
    hide Next, SweepsPayable, Claimed;
    BothPayable(s1, c, first, second);
    OthersPayable(s0, Fund(funds));
    OthersPayable(s2, d);
    OthersPayable(s3, d);
    OthersPayable(s4, e);
    FiveSteps(s0, Fund(funds), c, d, d, e, s1, s2, s3, s4, s5);
    hide Run, AllFresh, AllPayable;
  }

  lemma BothAdmitted(first: Job, second: Job, funds: int)
    requires first.amount > 0 && second.amount > 0
    requires funds >= (first.amount + OUTBOUND_FEE) + (second.amount + OUTBOUND_FEE)
    ensures Admitted([first, second], funds) == [first, second]
  {
    var left := funds - (first.amount + OUTBOUND_FEE);
    assert [first, second][1..] == [second] && [second][1..] == [];
    assert Admitted([second], left) == [second] + Admitted([], left - (second.amount + OUTBOUND_FEE)) == [second];
    assert Admitted([first, second], funds) == [first] + Admitted([second], left);
    assert [first] + [second] == [first, second];
  }

  lemma BothPayable(s: Pot, step: Step, first: Job, second: Job)
    requires s.config == Scheduled(false, [false, false]) && Claimed(s, step) == [first, second]
    requires first.effect == FireLeg(0) && second.effect == FireLeg(1)
    ensures SweepsPayable(s, step)
  {
    OneOfOne(first, 0);
    OneOfOne(second, 1);
    forall i: nat
      ensures Count([first, second], i) <= 1 && (Count([first, second], i) > 0 ==> Payable(s.config, i))
    {
      CountAppend([first], [second], i);
      assert [first] + [second] == [first, second];
    }
  }

  lemma OthersPayable(s: Pot, step: Step)
    requires !IsClaim(step)
    ensures SweepsPayable(s, step)
  {
    NonClaimFlights(s, step, 0);
    forall i: nat ensures Count([], i) == 0 { CountNil(i); }
    hide Claimed, Next;
  }

  lemma FiveSteps(s0: Pot, a: Step, b: Step, c: Step, d: Step, e: Step, s1: Pot, s2: Pot, s3: Pot, s4: Pot, s5: Pot)
    requires Next(s0, a) == s1 && Next(s1, b) == s2 && Next(s2, c) == s3 && Next(s3, d) == s4 && Next(s4, e) == s5
    ensures Run(s0, [a, b, c, d, e]) == s5
    ensures AllFresh(s0, [a, b, c, d, e]) <==>
              FreshRead(s0, a) && FreshRead(s1, b) && FreshRead(s2, c) && FreshRead(s3, d) && FreshRead(s4, e)
    ensures AllPayable(s0, [a, b, c, d, e]) <==>
              && SweepsPayable(s0, a) && SweepsPayable(s1, b) && SweepsPayable(s2, c) && SweepsPayable(s3, d)
              && SweepsPayable(s4, e)
  {
    hide Next, SweepsPayable, FreshRead;
    assert [a, b, c, d, e][1..] == [b, c, d, e] && [b, c, d, e][1..] == [c, d, e] && [c, d, e][1..] == [d, e];
    assert [d, e][1..] == [e] && [e][1..] == [];
    assert Run(s4, [e]) == Run(s5, []) && AllFresh(s5, []) && AllPayable(s5, []);
    assert Run(s3, [d, e]) == s5 && Run(s2, [c, d, e]) == s5 && Run(s1, [b, c, d, e]) == s5;
    assert AllFresh(s4, [e]) <==> FreshRead(s4, e);
    assert AllFresh(s3, [d, e]) <==> FreshRead(s3, d) && AllFresh(s4, [e]);
    assert AllFresh(s2, [c, d, e]) <==> FreshRead(s2, c) && AllFresh(s3, [d, e]);
    assert AllFresh(s1, [b, c, d, e]) <==> FreshRead(s1, b) && AllFresh(s2, [c, d, e]);
    assert AllPayable(s4, [e]) <==> SweepsPayable(s4, e);
    assert AllPayable(s3, [d, e]) <==> SweepsPayable(s3, d) && AllPayable(s4, [e]);
    assert AllPayable(s2, [c, d, e]) <==> SweepsPayable(s2, c) && AllPayable(s3, [d, e]);
    assert AllPayable(s1, [b, c, d, e]) <==> SweepsPayable(s1, b) && AllPayable(s2, [c, d, e]);
  }

  /** Then the next sweep claims the second leg, every reading fresh and the leg payable, and both can be transferred;
      and a reversal is accepted that leaves the queued one short. */
  lemma EarlyReleasePaysTwice(amount: nat, funds: nat)
    requires amount > 0 && funds >= 2 * (amount + OUTBOUND_FEE)
    ensures var s0, steps := NewPot(Scheduled(false, [false, false])), EarlyRelease(amount, funds);
            var s, claim := Run(s0, steps), ClaimBatch([LegJob(3, 1, amount)], true, funds);
            && Accepted(s, claim) && FreshRead(s, claim) && SweepsPayable(s, claim)
            && (exists more :: NoClaims(more) && Count(Along(Transferred, s0, steps + [claim] + more), 1) >= 2)
            && Solvent(s) && !Solvent(Next(s, ReverseFunding(funds, true)))
  {
    var s0, steps := NewPot(Scheduled(false, [false, false])), EarlyRelease(amount, funds);
    var second, again := LegJob(2, 1, amount), LegJob(3, 1, amount);
    var claim := ClaimBatch([again], true, funds);
    FreedTooEarly(amount, funds);
    var s := Run(s0, steps);
    assert [again][1..] == [] && Admitted([again], funds) == [again] + [] == [again];
    assert Accepted(s, claim) && Claimed(s, claim) == [again];
    OneOfOne(again, 1);
    OneOfOne(second, 1);
    assert SweepsPayable(s, claim);
    ClaimTransfersTwiceIff(s0.config, steps, claim, 1);
    assert InFlight(s, 1) >= 1;
    assert Reserved(s) == Need(second) by { NothingPending(s); assert NeedSum([second]) == Need(second); }
    hide Along, EarlyRelease;
  }

  // ----- ordered schedules ---------------------------------------------------------------------------------

  function LegsPaid(jobs: seq<Job>): seq<nat> {
    if jobs == [] then []
    else (if jobs[0].effect.FireLeg? then [jobs[0].effect.leg] else []) + LegsPaid(jobs[1..])
  }

  function Range(m: nat, n: nat): seq<nat>
    requires m <= n
  {
    seq(n - m, i requires 0 <= i < n - m => m + i)
  }

  lemma RangeSplit(m: nat, k: nat, n: nat)
    requires m <= k <= n
    ensures Range(m, n) == Range(m, k) + Range(k, n)
  {}

  lemma {:induction false} LegsPaidAppend(xs: seq<Job>, ys: seq<Job>)
    ensures LegsPaid(xs + ys) == LegsPaid(xs) + LegsPaid(ys)
  {
    if xs == [] {
      assert xs + ys == ys;
    } else {
      assert (xs + ys)[1..] == xs[1..] + ys;
      LegsPaidAppend(xs[1..], ys);
      var head := if xs[0].effect.FireLeg? then [xs[0].effect.leg] else [];
      assert LegsPaid(xs + ys) == head + LegsPaid(xs[1..] + ys);
      assert LegsPaid(xs) == head + LegsPaid(xs[1..]);
      hide LegsPaid;
      assert head + (LegsPaid(xs[1..]) + LegsPaid(ys)) == head + LegsPaid(xs[1..]) + LegsPaid(ys);
    }
  }

  lemma OrderedStep(s: Pot, step: Step, m: nat) returns (n: nat)
    requires LegsGuarded(s) && s.config.Scheduled? && s.config.ordered && Prefix(s.config.fired, m)
    ensures m <= n && LegsPaid(Recorded(s, step)) == Range(m, n)
    ensures var t := Next(s, step); t.config.Scheduled? && t.config.ordered && Prefix(t.config.fired, n)
  {
    StepConfig(s, step);
    var done := Recorded(s, step);
    if done != [] && done[0].effect.FireLeg? {
      var i := done[0].effect.leg;
      CountOne(done[0], i);
      assert done == [done[0]];
      RecordedPayable(s, step, i);
      if i > 0 {
        assert s.config.fired[i - 1];
      }
      assert i == m;
      n := m + 1;
      assert Range(m, n) == [m];
    } else {
      n := m;
      assert LegsPaid(done) == [] == Range(m, m);
    }
  }

  /** An ordered schedule is paid strictly in sequence: the legs whose payouts are recorded along any run of clear
      claims are the next ones after those already fired, in order, and the fired legs always form a prefix. */
  lemma {:induction false} OrderedInSequence(s: Pot, steps: seq<Step>, m: nat) returns (n: nat)
    requires LegsGuarded(s) && s.config.Scheduled? && s.config.ordered && Prefix(s.config.fired, m)
    requires AllClear(s, steps)
    ensures m <= n && LegsPaid(Along(Recorded, s, steps)) == Range(m, n)
    ensures Run(s, steps).config.Scheduled? && Prefix(Run(s, steps).config.fired, n)
    decreases |steps|
  {
    if steps == [] {
      n := m;
      assert Range(m, m) == [];
    } else {
      var t := Next(s, steps[0]);
      var k := OrderedStep(s, steps[0], m);
      StepGuarded(s, steps[0]);
      hide LegsGuarded, SweepsClear, Next, Recorded, Prefix, Range, LegsPaid;
      n := OrderedInSequence(t, steps[1..], k);
      LegsPaidAppend(Recorded(s, steps[0]), Along(Recorded, t, steps[1..]));
      RangeSplit(m, k, n);
    }
  }
}
