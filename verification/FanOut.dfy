/** Dispatching the legs of a fan-out one by one, on the class: shared by a batch of scheduled legs and a
    contributors' refund. */
module FanOut {
  import opened Wrappers
  import opened Ledger
  import opened Movements
  import opened Fees
  import opened Desk
  import P = Protocol

  /** The jobs of a list whose enqueue went through. */
  function Enqueued(jobs: seq<P.Job>, ok: seq<bool>): seq<P.Job>
    requires |jobs| <= |ok|
  {
    if jobs == [] then [] else (if ok[0] then [jobs[0]] else []) + Enqueued(jobs[1..], ok[1..])
  }

  // ----- the glue ------------------------------------------------------------------------------------------

  lemma IdsAppend(xs: seq<P.Job>, ys: seq<P.Job>)
    ensures Ids(xs + ys) == Ids(xs) + Ids(ys)
  {}

  /** Waiting references may be permuted or dropped. */
  lemma GluedFewer(s: Tables, potId: nat, waiting: seq<nat>, fewer: seq<nat>, processing: seq<P.Job>)
    requires Glued(s, potId, waiting, processing)
    requires multiset(fewer) <= multiset(waiting)
    ensures Glued(s, potId, fewer, processing)
  {
    forall x ensures multiset(fewer)[x] <= 1 {
      assert multiset(waiting)[x] <= 1;
    }
    forall x | x in fewer ensures Disbursement(x) !in s.transactions {
      assert x in multiset(fewer) && x in multiset(waiting);
      assert x in waiting;
    }
  }

  lemma DispatchWaiting(refund: bool, jobs: seq<P.Job>, queued: seq<P.Job>)
    requires jobs != []
    ensures var waiting: seq<nat> := Waiting(P.Dispatching(refund, jobs), queued);
            var sent: seq<nat> := Waiting(P.Dispatching(refund, jobs[1..]), queued + [jobs[0]]);
            var dropped: seq<nat> := Waiting(P.Dispatching(refund, jobs[1..]), queued);
            var none: seq<nat> := Waiting(P.Dispatching(refund, []), queued);
            multiset(sent) <= multiset(waiting) && multiset(dropped) <= multiset(waiting)
            && multiset(none) <= multiset(waiting)
  {
    assert jobs == [jobs[0]] + jobs[1..];
    IdsAppend([jobs[0]], jobs[1..]);
    IdsAppend(queued, [jobs[0]]);
    assert Ids([]) == [];
  }

  lemma DispatchKeepsGlue(s: Tables, potId: nat, refund: bool, jobs: seq<P.Job>,
                          queued: seq<P.Job>, processing: seq<P.Job>)
    requires jobs != [] && Glued(s, potId, Waiting(P.Dispatching(refund, jobs), queued), processing)
    ensures Glued(s, potId, Waiting(P.Dispatching(refund, jobs[1..]), queued + [jobs[0]]), processing)
    ensures Glued(s, potId, Waiting(P.Dispatching(refund, jobs[1..]), queued), processing)
    ensures Glued(s, potId, Waiting(P.Dispatching(refund, []), queued), processing)
  {
    DispatchWaiting(refund, jobs, queued);
    hide Glued, Waiting;
    var waiting := Waiting(P.Dispatching(refund, jobs), queued);
    GluedFewer(s, potId, waiting, Waiting(P.Dispatching(refund, jobs[1..]), queued + [jobs[0]]), processing);
    GluedFewer(s, potId, waiting, Waiting(P.Dispatching(refund, jobs[1..]), queued), processing);
    GluedFewer(s, potId, waiting, Waiting(P.Dispatching(refund, []), queued), processing);
  }

  // ----- the step ------------------------------------------------------------------------------------------

  /** One turn of either dispatch loop: a leg with nothing to send gives its lock unit back, as does a
      scheduled leg whose enqueue fails; a refund leg whose enqueue fails ends the loop where it stands. */
  method DispatchNext(desk: Disbursements, enqueueOk: bool)
    requires desk.Valid() && desk.plan.Dispatching? && desk.plan.jobs != []
    modifies desk
    ensures desk.Valid() && desk.Abs() == P.Next(old(desk.Abs()), P.Dispatch(enqueueOk))
    ensures desk.plan.Dispatching?
  {
    hide Books, Glued, Waiting, P.LockAccounts;
    P.StepAccounts(desk.Abs(), P.Dispatch(enqueueOk));
    DispatchKeepsGlue(desk.ledger.State(), desk.potId, desk.plan.refund, desk.plan.jobs, desk.queued, desk.processing);
    var job, refund := desk.plan.jobs[0], desk.plan.refund;
    if enqueueOk && !(refund && job.amount <= 0) {
      desk.plan := desk.plan.(jobs := desk.plan.jobs[1..]);
      desk.queued := desk.queued + [job];
    } else if refund && job.amount > 0 {
      desk.stranded := desk.stranded + |desk.plan.jobs|;
      desk.plan := desk.plan.(jobs := []);
    } else {
      desk.plan := desk.plan.(jobs := desk.plan.jobs[1..]);
      desk.DecrementPendingOperationLeg();
    }
  }

  // ----- a batch -------------------------------------------------------------------------------------------

  /** How a batch stands with i legs dispatched: `sent` of them queued, the rest given back. */
  ghost predicate BatchAt(was: P.Pot, admitted: seq<P.Job>, ok: seq<bool>, i: nat, now: P.Pot)
    requires i <= |admitted| <= |ok|
  {
    var sent := Enqueued(admitted[..i], ok[..i]);
    var left := |admitted| - i + |sent|;
    now == was.(lock := if left == 0 then P.Free else P.Held(P.Payout, left),
                plan := P.Dispatching(false, admitted[i..]),
                queued := sent)
  }

  lemma {:induction false} EnqueuedPush(jobs: seq<P.Job>, ok: seq<bool>, i: nat)
    requires i < |jobs| <= |ok|
    ensures Enqueued(jobs[..i + 1], ok[..i + 1])
            == Enqueued(jobs[..i], ok[..i]) + if ok[i] then [jobs[i]] else []
  {
    assert jobs[..i + 1][1..] == jobs[1..][..i];
    assert ok[..i + 1][1..] == ok[1..][..i];
    if i > 0 {
      assert jobs[..i][1..] == jobs[1..][..i - 1];
      assert ok[..i][1..] == ok[1..][..i - 1];
      EnqueuedPush(jobs[1..], ok[1..], i - 1);
    }
  }

  lemma BatchStep(was: P.Pot, admitted: seq<P.Job>, ok: seq<bool>, i: nat, now: P.Pot)
    requires i < |admitted| <= |ok| && BatchAt(was, admitted, ok, i, now)
    ensures now.plan.Dispatching? && now.plan.jobs != []
    ensures BatchAt(was, admitted, ok, i + 1, P.Next(now, P.Dispatch(ok[i])))
  {
    EnqueuedPush(admitted, ok, i);
    hide Enqueued;
    assert admitted[i..][1..] == admitted[i + 1..];
  }
}
