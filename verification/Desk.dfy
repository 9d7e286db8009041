/** The services that carry the protocol out for one pot, over the real ledger: each method changes the
    pot's row, its queue and the ledger step by step, and is a step of the transition system. */
module Desk {
  import opened Wrappers
  import opened Ledger
  import opened LedgerFacts
  import opened Fees
  import opened Movements
  import opened Identity
  import P = Protocol
  import StepLaws

  /** Where recording a transfer's success throws, if it does. */
  datatype RecordingError = NoError | MarkThrows | ReleaseThrows | EffectThrows

  /** Where a manual payout is to go: the pot's fixed account, one the caller names, or nowhere. */
  datatype Destination = Fixed | Named(verifies: bool) | Missing

  datatype PotError =
    | NotOpen
    | NotApplicable
    | DestinationRequired
    | DestinationRejected
    | NonPositive
    | ExceedsBalance
    | AlreadyInFlight
    | NothingToDisburse
    | BalanceNotZero
    | EnqueueFailed

  function Ids(jobs: seq<P.Job>): (r: seq<nat>)
    ensures |r| == |jobs|
    ensures forall i :: 0 <= i < |r| ==> r[i] == jobs[i].jobId
  {
    seq(|jobs|, i requires 0 <= i < |jobs| => jobs[i].jobId)
  }

  /** The references of legs that have no transaction yet. */
  function Waiting(plan: P.Plan, queued: seq<P.Job>): seq<nat> {
    (if plan.Unscaled? then plan.ids else Ids(plan.jobs)) + Ids(queued)
  }

  ghost predicate NoRepeats(ids: seq<nat>) {
    forall x :: multiset(ids)[x] <= 1
  }

  ghost predicate IsProcessing(s: Tables, potId: nat, jobId: nat) {
    && Disbursement(jobId) in s.transactions
    && s.transactions[Disbursement(jobId)].status == Processing
    && s.transactions[Disbursement(jobId)].potId == Some(potId)
  }

  /** How the queue and the processing list hang together with the ledger: a waiting reference is fresh,
      and the pot's processing transactions are exactly those on the list, amount for amount. */
  ghost predicate Glued(s: Tables, potId: nat, waiting: seq<nat>, processing: seq<P.Job>) {
    && NoRepeats(waiting)
    && NoRepeats(Ids(processing))
    && (forall x <- waiting :: Disbursement(x) !in s.transactions)
    && (forall k :: 0 <= k < |processing| ==>
          && IsProcessing(s, potId, processing[k].jobId)
          && s.transactions[Disbursement(processing[k].jobId)].amount == processing[k].amount)
    && (forall x: nat :: IsProcessing(s, potId, x) ==> x in Ids(processing))
  }

  // ----- keeping the glue ---------------------------------------------------------------------------------

  lemma RemoveId(jobs: seq<P.Job>, k: nat)
    requires k < |jobs|
    ensures multiset(Ids(jobs)) == multiset(Ids(P.RemoveAt(jobs, k))) + multiset{jobs[k].jobId}
  {
    var rest := P.RemoveAt(jobs, k);
    assert Ids(rest) == Ids(jobs)[..k] + Ids(jobs)[k + 1..];
    assert Ids(jobs) == Ids(jobs)[..k] + [jobs[k].jobId] + Ids(jobs)[k + 1..];
  }

  lemma TakeWaiting(plan: P.Plan, queued: seq<P.Job>, k: nat)
    requires k < |queued| && NoRepeats(Waiting(plan, queued))
    ensures var rest := Waiting(plan, P.RemoveAt(queued, k));
            NoRepeats(rest) && queued[k].jobId !in rest && forall x <- rest :: x in Waiting(plan, queued)
    ensures queued[k].jobId in Waiting(plan, queued)
  {
    RemoveId(queued, k);
    var planned := if plan.Unscaled? then plan.ids else Ids(plan.jobs);
    var all: seq<nat> := Waiting(plan, queued);
    var rest: seq<nat> := Waiting(plan, P.RemoveAt(queued, k));
    assert multiset(all) == multiset(planned) + multiset(Ids(queued));
    assert multiset(rest) == multiset(planned) + multiset(Ids(P.RemoveAt(queued, k)));
    assert multiset(all) == multiset(rest) + multiset{queued[k].jobId};
    assert multiset(all)[queued[k].jobId] <= 1;
    forall x ensures multiset(rest)[x] <= 1 {
      assert multiset(all)[x] <= 1;
    }
    forall x | x in rest ensures x in all {
      assert x in multiset(all);
    }
    assert queued[k].jobId in multiset(all);
  }

  lemma PushProcessing(s: Tables, potId: nat, waiting: seq<nat>, processing: seq<P.Job>, s': Tables, job: P.Job)
    requires Glued(s, potId, waiting, processing) && job.jobId !in waiting && Disbursement(job.jobId) !in s.transactions
    requires s'.transactions.Keys == s.transactions.Keys + {Disbursement(job.jobId)}
    requires forall r <- s.transactions :: s'.transactions[r] == s.transactions[r]
    requires IsProcessing(s', potId, job.jobId) && s'.transactions[Disbursement(job.jobId)].amount == job.amount
    ensures Glued(s', potId, waiting, processing + [job])
  {
    var all := processing + [job];
    assert Ids(all) == Ids(processing) + [job.jobId];
    assert job.jobId !in Ids(processing);
    assert multiset(Ids(all)) == multiset(Ids(processing)) + multiset{job.jobId};
    forall x: nat | IsProcessing(s', potId, x) ensures x in Ids(all) {
      if x != job.jobId {
        assert IsProcessing(s, potId, x);
      } else {
        assert Ids(all)[|processing|] == x;
      }
    }
  }

  /** Transactions that are not processing for this pot may come and go without touching the glue. */
  lemma OthersChange(s: Tables, potId: nat, waiting: seq<nat>, processing: seq<P.Job>, s': Tables)
    requires Glued(s, potId, waiting, processing)
    requires forall x <- waiting :: Disbursement(x) !in s'.transactions
    requires forall x: nat :: IsProcessing(s', potId, x) <==> IsProcessing(s, potId, x)
    requires forall x: nat :: IsProcessing(s, potId, x) && IsProcessing(s', potId, x) ==>
               s'.transactions[Disbursement(x)].amount == s.transactions[Disbursement(x)].amount
    ensures Glued(s', potId, waiting, processing)
  {}

  lemma PopProcessing(s: Tables, potId: nat, waiting: seq<nat>, processing: seq<P.Job>, k: nat, s': Tables)
    requires Glued(s, potId, waiting, processing) && k < |processing|
    requires forall x <- waiting :: Disbursement(x) !in s'.transactions
    requires forall x: nat :: IsProcessing(s', potId, x) <==> IsProcessing(s, potId, x) && x != processing[k].jobId
    requires forall x: nat :: IsProcessing(s', potId, x) ==>
               s'.transactions[Disbursement(x)].amount == s.transactions[Disbursement(x)].amount
    ensures Glued(s', potId, waiting, P.RemoveAt(processing, k))
  {
    RemoveId(processing, k);
    var rest := P.RemoveAt(processing, k);
    var id := processing[k].jobId;
    assert multiset(Ids(processing))[id] <= 1;
    assert id !in multiset(Ids(rest));
    assert id !in Ids(rest);
    forall x ensures multiset(Ids(rest))[x] <= 1 {
      assert multiset(Ids(processing))[x] <= 1;
    }
    forall i | 0 <= i < |rest|
      ensures IsProcessing(s', potId, rest[i].jobId)
      ensures s'.transactions[Disbursement(rest[i].jobId)].amount == rest[i].amount
    {
      assert rest[i].jobId in Ids(rest);
      assert rest[i] == processing[if i < k then i else i + 1];
    }
    forall x: nat | IsProcessing(s', potId, x) ensures x in Ids(rest) {
      assert x in Ids(processing);
      assert x in multiset(Ids(processing));
      assert x in multiset(Ids(rest));
    }
  }

  // ----- one transfer on the ledger ------------------------------------------------------------------------

  lemma PostStillProcessing(s: Tables, potId: nat, waiting: seq<nat>, processing: seq<P.Job>, kind: Kind, job: P.Job)
    requires Books(s) && Glued(s, potId, waiting, processing)
    requires job.jobId !in waiting && Disbursement(job.jobId) !in s.transactions
    requires Move(s, PayOut(kind, job.jobId, potId, job.amount)).result.Success?
    ensures var s' := Move(s, PayOut(kind, job.jobId, potId, job.amount)).state;
            && Books(s') && s'.ids == s.ids && Glued(s', potId, waiting, processing + [job])
            && Disbursement(job.jobId) in s'.transactions
            && s'.transactions[Disbursement(job.jobId)] == Transaction(kind, Processing, job.amount, Some(potId))
            && BalanceIn(s'.balances, Pot(potId)) == BalanceIn(s.balances, Pot(potId)) - (job.amount + OUTBOUND_FEE)
  {
    hide Books, Move, Glued;
    var m := PayOut(kind, job.jobId, potId, job.amount);
    PayOutEffect(s, kind, job.jobId, potId, job.amount);
    PostKeepsBooks(s, m);
    PushProcessing(s, potId, waiting, processing, Move(s, m).state, job);
  }

  lemma PostThenComplete(s: Tables, potId: nat, waiting: seq<nat>, processing: seq<P.Job>, kind: Kind, job: P.Job)
    requires Books(s) && Glued(s, potId, waiting, processing)
    requires job.jobId !in waiting && Disbursement(job.jobId) !in s.transactions
    requires Move(s, PayOut(kind, job.jobId, potId, job.amount)).result.Success?
    ensures var s1 := Move(s, PayOut(kind, job.jobId, potId, job.amount)).state;
            && Disbursement(job.jobId) in s1.transactions
            && var s2 := SetStatus(s1, Disbursement(job.jobId), Completed);
               && Books(s2) && s2.ids == s.ids && Glued(s2, potId, waiting, processing)
               && BalanceIn(s2.balances, Pot(potId)) == BalanceIn(s.balances, Pot(potId)) - (job.amount + OUTBOUND_FEE)
  {
    hide Books, Glued, InputOf;
    var m := PayOut(kind, job.jobId, potId, job.amount);
    var r := Disbursement(job.jobId);
    PostStillProcessing(s, potId, waiting, processing, kind, job);
    PayOutEffect(s, kind, job.jobId, potId, job.amount);
    var s1 := Move(s, m).state;
    CompleteKeepsBooks(s1, r);
    var s2 := SetStatus(s1, r, Completed);
    assert Move(s1, Complete(r)).state == s2;
    hide Move;
    WaitingApart(s, potId, waiting, processing, job.jobId);
    OthersChange(s, potId, waiting, processing, s2);
  }

  lemma WaitingApart(s: Tables, potId: nat, waiting: seq<nat>, processing: seq<P.Job>, id: nat)
    requires Glued(s, potId, waiting, processing) && id !in waiting
    ensures forall x <- waiting :: Disbursement(x) !in s.transactions && x != id
  {}

  lemma PostThenReverse(s: Tables, potId: nat, waiting: seq<nat>, processing: seq<P.Job>, kind: Kind, job: P.Job)
    requires Books(s) && Glued(s, potId, waiting, processing)
    requires job.jobId !in waiting && Disbursement(job.jobId) !in s.transactions
    requires Move(s, PayOut(kind, job.jobId, potId, job.amount)).result.Success?
    ensures var s1 := Move(s, PayOut(kind, job.jobId, potId, job.amount)).state;
            var p := Move(s1, Undo(Disbursement(job.jobId)));
            && p.result.Success?
            && Books(p.state) && p.state.ids == s.ids && Glued(p.state, potId, waiting, processing)
            && BalanceIn(p.state.balances, Pot(potId)) == BalanceIn(s.balances, Pot(potId))
  {
    hide Books, Glued, Move;
    var m := PayOut(kind, job.jobId, potId, job.amount);
    var r := Disbursement(job.jobId);
    PostStillProcessing(s, potId, waiting, processing, kind, job);
    PayOutEffect(s, kind, job.jobId, potId, job.amount);
    var s1 := Move(s, m).state;
    UndoPayOutEffect(s1, job.jobId);
    UndoEffect(s1, r);
    UndoKeepsBooks(s1, r);
    WaitingApart(s, potId, waiting, processing, job.jobId);
    OthersChange(s, potId, waiting, processing, Move(s1, Undo(r)).state);
  }

  /** A transfer completed on the ledger and then reversed, because recording its success threw. */
  lemma CompleteThenReverse(s: Tables, potId: nat, waiting: seq<nat>, processing: seq<P.Job>, kind: Kind, job: P.Job)
    requires Books(s) && Glued(s, potId, waiting, processing)
    requires job.jobId !in waiting && Disbursement(job.jobId) !in s.transactions
    requires Move(s, PayOut(kind, job.jobId, potId, job.amount)).result.Success?
    ensures var r := Disbursement(job.jobId);
            var s1 := Move(s, PayOut(kind, job.jobId, potId, job.amount)).state;
            && r in s1.transactions
            && var p := Move(SetStatus(s1, r, Completed), Undo(r));
               && p.result.Success?
               && Books(p.state) && p.state.ids == s.ids && Glued(p.state, potId, waiting, processing)
               && BalanceIn(p.state.balances, Pot(potId)) == BalanceIn(s.balances, Pot(potId))
  {
    hide Books, Glued, Move, LegsFor, Net, SortById, ApplyAll;
    var r := Disbursement(job.jobId);
    PostThenComplete(s, potId, waiting, processing, kind, job);
    PayOutEffect(s, kind, job.jobId, potId, job.amount);
    var s2 := SetStatus(Move(s, PayOut(kind, job.jobId, potId, job.amount)).state, r, Completed);
    UndoPayOutEffect(s2, job.jobId);
    UndoEffect(s2, r);
    UndoKeepsBooks(s2, r);
    WaitingApart(s, potId, waiting, processing, job.jobId);
    OthersChange(s, potId, waiting, processing, Move(s2, Undo(r)).state);
  }

  /** What records a success throws; a job without a side effect has none to lose. */
  predicate RecordingFails(job: P.Job, error: RecordingError) {
    error == MarkThrows || error == ReleaseThrows || (error == EffectThrows && job.effect != P.NoEffect)
  }

  lemma RecordedIs(job: P.Job, answer: P.Answer, error: RecordingError)
    ensures Recorded(job, answer, error)
            == if answer == P.Succeeded && RecordingFails(job, error) then P.ErredAfterSuccess(error == EffectThrows)
               else P.Answered(answer)
  {}

  /** How the protocol sees an answer and what throws after it. */
  function Recorded(job: P.Job, answer: P.Answer, error: RecordingError): P.Outcome {
    if answer != P.Succeeded || error == NoError || (error == EffectThrows && job.effect.NoEffect?) then
      P.Answered(answer)
    else P.ErredAfterSuccess(error == EffectThrows)
  }

  /** How the protocol sees what throws once a pending transfer's transaction is marked. */
  function LapseOf(error: RecordingError): P.Lapse {
    match error
    case EffectThrows => P.EffectLapse
    case ReleaseThrows => P.ReleaseLapse
    case _ => P.NoLapse
  }

  /** What an error costs once a pending transfer's transaction is settled. */
  function StrandsOne(job: P.Job, success: bool, error: RecordingError): nat {
    if error == ReleaseThrows || (error == EffectThrows && success && job.effect != P.NoEffect) then 1 else 0
  }

  lemma StrandedIs(s: P.Pot, k: nat, success: bool, error: RecordingError)
    requires k < |s.processing|
    ensures P.Next(s, P.Settle(k, success, LapseOf(error))).stranded
            == s.stranded + StrandsOne(s.processing[k], success, error)
  {
    StepLaws.StrandedGrows(s, P.Settle(k, success, LapseOf(error)));
    hide P.Next;
  }

  lemma NothingWaits()
    ensures Waiting(P.Dispatching(false, []), []) == []
  {}

  lemma NothingGlued(s: Tables, potId: nat)
    requires forall x: nat :: !IsProcessing(s, potId, x)
    ensures Glued(s, potId, [], [])
  {
    hide IsProcessing;
  }

  lemma GluedWithout(s: Tables, potId: nat, plan: P.Plan, queued: seq<P.Job>, processing: seq<P.Job>, k: nat)
    requires Glued(s, potId, Waiting(plan, queued), processing) && k < |queued|
    ensures Glued(s, potId, Waiting(plan, P.RemoveAt(queued, k)), processing)
    ensures queued[k].jobId !in Waiting(plan, P.RemoveAt(queued, k))
    ensures Disbursement(queued[k].jobId) !in s.transactions
  {
    TakeWaiting(plan, queued, k);
  }

  lemma SettleSuccess(s: Tables, potId: nat, waiting: seq<nat>, processing: seq<P.Job>, k: nat)
    requires Books(s) && Glued(s, potId, waiting, processing) && k < |processing|
    ensures Disbursement(processing[k].jobId) in s.transactions
    ensures var s' := SetStatus(s, Disbursement(processing[k].jobId), Completed);
            && Books(s') && s'.ids == s.ids && Glued(s', potId, waiting, P.RemoveAt(processing, k))
            && s'.balances == s.balances && !IsProcessing(s', potId, processing[k].jobId)
  {
    var r := Disbursement(processing[k].jobId);
    assert IsProcessing(s, potId, processing[k].jobId);
    WaitingApart(s, potId, waiting, processing, processing[k].jobId) by {
      assert processing[k].jobId !in waiting;
    }
    hide Books, Glued;
    CompleteKeepsBooks(s, r);
    PopProcessing(s, potId, waiting, processing, k, SetStatus(s, r, Completed));
  }

  lemma SettleFailure(s: Tables, potId: nat, waiting: seq<nat>, processing: seq<P.Job>, k: nat)
    requires Books(s) && Glued(s, potId, waiting, processing) && k < |processing|
    ensures var p := Move(s, Undo(Disbursement(processing[k].jobId)));
            && p.result.Success?
            && Books(p.state) && p.state.ids == s.ids && Glued(p.state, potId, waiting, P.RemoveAt(processing, k))
            && !IsProcessing(p.state, potId, processing[k].jobId)
            && BalanceIn(p.state.balances, Pot(potId))
               == BalanceIn(s.balances, Pot(potId)) + (processing[k].amount + OUTBOUND_FEE)
  {
    hide LegsFor, Net, SortById, ApplyAll;
    var id := processing[k].jobId;
    assert IsProcessing(s, potId, id);
    assert s.transactions[Disbursement(id)].amount == processing[k].amount;
    assert id !in waiting;
    WaitingApart(s, potId, waiting, processing, id);
    hide Books, Glued, Move;
    UndoPayOutEffect(s, id);
    UndoEffect(s, Disbursement(id));
    UndoKeepsBooks(s, Disbursement(id));
    PopProcessing(s, potId, waiting, processing, k, Move(s, Undo(Disbursement(id))).state);
  }

  // ----- claims and fundings -------------------------------------------------------------------------------

  lemma GluedWith(s: Tables, potId: nat, plan: P.Plan, queued: seq<P.Job>, processing: seq<P.Job>, job: P.Job)
    requires Glued(s, potId, Waiting(plan, queued), processing)
    requires job.jobId !in Waiting(plan, queued) && Disbursement(job.jobId) !in s.transactions
    ensures Glued(s, potId, Waiting(plan, queued + [job]), processing)
  {
    assert Ids(queued + [job]) == Ids(queued) + [job.jobId];
    assert Waiting(plan, queued + [job]) == Waiting(plan, queued) + [job.jobId];
    NoRepeatsPush(Waiting(plan, queued), job.jobId);
    hide IsProcessing, NoRepeats, Ids, Waiting;
  }

  lemma NoRepeatsPush(ids: seq<nat>, id: nat)
    requires NoRepeats(ids) && id !in ids
    ensures NoRepeats(ids + [id])
  {
    assert id !in multiset(ids);
    forall x ensures multiset(ids + [id])[x] <= 1 {
      assert multiset(ids)[x] <= 1;
    }
  }

  lemma FundKeepsGlue(s: Tables, potId: nat, waiting: seq<nat>, processing: seq<P.Job>, id: nat, intended: int)
    requires Books(s) && HasAccounts(s, potId) && Glued(s, potId, waiting, processing)
    requires intended > 0 && Contribution(id) !in s.transactions
    ensures var p := Move(s, Fund(id, potId, intended));
            && p.result.Success? && Books(p.state) && p.state.ids == s.ids && Glued(p.state, potId, waiting, processing)
            && p.state.transactions
               == s.transactions[Contribution(id) := Transaction(ContributionKind, Completed, intended, Some(potId))]
            && BalanceIn(p.state.balances, Pot(potId)) == BalanceIn(s.balances, Pot(potId)) + intended
  {
    hide Books, Move;
    FundAccepted(s, id, potId, intended);
    FundEffect(s, id, potId, intended);
    PostKeepsBooks(s, Fund(id, potId, intended));
  }

  lemma ContributionPositive(s: Tables, id: nat)
    requires Books(s) && Live(s.transactions, Contribution(id))
    ensures s.transactions[Contribution(id)].amount > 0
  {
    hide Books;
    var credit := LegsFor(Contribution(id), s.transactions[Contribution(id)])[1];
    LegsPositive(s, Contribution(id), credit);
  }

  lemma UndoKeepsGlue(s: Tables, potId: nat, waiting: seq<nat>, processing: seq<P.Job>, id: nat)
    requires Books(s) && Glued(s, potId, waiting, processing) && Live(s.transactions, Contribution(id))
    ensures var p := Move(s, Undo(Contribution(id)));
            && p == Reverse(s, Contribution(id), Reversal(Contribution(id)))
            && Books(p.state) && p.state.ids == s.ids && Glued(p.state, potId, waiting, processing)
            && s.transactions[Contribution(id)].amount > 0
            && (p.result.Failure? ==> p.state == s)
            && (p.result.Success? && PotOf(s.transactions[Contribution(id)]) == potId ==>
                  BalanceIn(p.state.balances, Pot(potId))
                  == BalanceIn(s.balances, Pot(potId)) - s.transactions[Contribution(id)].amount)
  {
    hide Books, Post;
    UndoKeepsBooks(s, Contribution(id));
    ContributionPositive(s, id);
    if Move(s, Undo(Contribution(id))).result.Success? {
      UndoEffect(s, Contribution(id));
      UndoFundEffect(s, id);
      hide Move, Live;
      OthersChange(s, potId, waiting, processing, Move(s, Undo(Contribution(id))).state);
    }
  }

  // ----- other pots ---------------------------------------------------------------------------------------

  /** A movement that is another pot's business, or the platform's. */
  ghost predicate Elsewhere(s: Tables, potId: nat, waiting: seq<nat>, m: Movement) {
    match m
    case Fund(_, q, _) => q != potId
    case PayOut(_, jobId, q, _) => q != potId && jobId !in waiting
    case RefundOverpayment(_, _, _) => true
    case RefundExpired(_, _) => true
    case Undo(r) => !r.Reversal? && NotOurs(s, potId, r)
    case Complete(r) => NotOurs(s, potId, r)
  }

  ghost predicate NotOurs(s: Tables, potId: nat, r: Reference) {
    (r.Contribution? || r.Disbursement?) && r in s.transactions ==> PotOf(s.transactions[r]) != potId
  }

  /** Nothing done for other pots, or for payments that never reached a pot, moves this pot's balance or its
      processing transactions. */
  lemma OthersLeaveThePotAlone(s: Tables, potId: nat, waiting: seq<nat>, processing: seq<P.Job>, m: Movement)
    requires Books(s) && Glued(s, potId, waiting, processing) && Elsewhere(s, potId, waiting, m)
    ensures var s' := Move(s, m).state;
            && Books(s') && s'.ids == s.ids && Glued(s', potId, waiting, processing)
            && BalanceIn(s'.balances, Pot(potId)) == BalanceIn(s.balances, Pot(potId))
  {
    hide Books, Glued, LegsFor, InputOf, Net, InboundFeeLegs, OutboundFeeLegs, DrawdownLegs;
    MoveKeepsBooks(s, m);
    match m
    case Undo(r) => OthersUndone(s, potId, waiting, processing, r);
    case Complete(r) => OthersCompleted(s, potId, waiting, processing, r);
    case _ => OthersPosted(s, potId, waiting, processing, m);
  }

  lemma OthersPosted(s: Tables, potId: nat, waiting: seq<nat>, processing: seq<P.Job>, m: Movement)
    requires Books(s) && Glued(s, potId, waiting, processing) && Elsewhere(s, potId, waiting, m) && Posts(m)
    ensures var s' := Move(s, m).state;
            && s'.ids == s.ids && Glued(s', potId, waiting, processing)
            && BalanceIn(s'.balances, Pot(potId)) == BalanceIn(s.balances, Pot(potId))
  {
    hide Books, Glued, LegsFor, Net, BalanceIn, SortById, ApplyAll, RowsFor, BalanceError, InputOf;
    var i, s' := InputOf(m), Move(s, m).state;
    PostCases(s, i);
    hide Post;
    if s' != s {
      PostEffect(s, m);
      hide Move;
      PotNetZero(m, potId);
      InputApart(s, potId, waiting, m);
      PostedGlue(s, potId, waiting, processing, s', i);
    }
  }

  lemma InputApart(s: Tables, potId: nat, waiting: seq<nat>, m: Movement)
    requires Elsewhere(s, potId, waiting, m) && Posts(m)
    ensures var i := InputOf(m); i.reference.Disbursement? ==> i.potId != Some(potId) && i.reference.jobId !in waiting
  {}

  lemma PotNetZero(m: Movement, potId: nat)
    requires Posts(m) && (m.Fund? || m.PayOut? ==> m.potId != potId)
    ensures Net(InputOf(m).entries, Pot(potId)) == 0
  {
    hide Net, NombaInboundFeeFor;
    match m
    case Fund(_, q, amount) => PotNet(q, amount, Pot(potId));
    case PayOut(_, _, q, amount) => PotNet(q, amount, Pot(potId));
    case RefundOverpayment(_, _, amount) => PotNet(0, amount, Pot(potId));
    case RefundExpired(_, amount) => PotNet(0, amount, Pot(potId));
  }

  lemma PostedGlue(s: Tables, potId: nat, waiting: seq<nat>, processing: seq<P.Job>, s': Tables, i: PostInput)
    requires Glued(s, potId, waiting, processing) && i.reference !in s.transactions
    requires s'.transactions == s.transactions[i.reference := Transaction(i.kind, i.status, i.amount, i.potId)]
    requires i.reference.Disbursement? ==> i.potId != Some(potId) && i.reference.jobId !in waiting
    ensures Glued(s', potId, waiting, processing)
  {
    OthersChange(s, potId, waiting, processing, s');
  }

  lemma OthersUndone(s: Tables, potId: nat, waiting: seq<nat>, processing: seq<P.Job>, r: Reference)
    requires Books(s) && Glued(s, potId, waiting, processing) && !r.Reversal? && NotOurs(s, potId, r)
    ensures var s' := Move(s, Undo(r)).state;
            && s'.ids == s.ids && Glued(s', potId, waiting, processing)
            && BalanceIn(s'.balances, Pot(potId)) == BalanceIn(s.balances, Pot(potId))
  {
    hide Books, LegsFor, Net, BalanceIn, Post;
    var s' := Move(s, Undo(r)).state;
    if !Live(s.transactions, r) {
      UndoAgainIsNoOp(s, r);
    } else if Move(s, Undo(r)).result.Success? {
      UndoEffect(s, r);
      LegsNetZero(r, s.transactions[r], potId);
      hide Move, Live;
      OthersChange(s, potId, waiting, processing, s');
    }
  }

  lemma LegsNetZero(r: Reference, t: Transaction, potId: nat)
    requires !r.Reversal? && (r.Contribution? || r.Disbursement? ==> PotOf(t) != potId)
    ensures Net(LegsFor(r, t), Pot(potId)) == 0
  {
    hide Net, NombaInboundFeeFor;
    PotNet(PotOf(t), t.amount, Pot(potId));
  }

  lemma OthersCompleted(s: Tables, potId: nat, waiting: seq<nat>, processing: seq<P.Job>, r: Reference)
    requires Glued(s, potId, waiting, processing) && NotOurs(s, potId, r)
    ensures var s' := Move(s, Complete(r)).state;
            && s'.ids == s.ids && Glued(s', potId, waiting, processing) && s'.balances == s.balances
  {
    hide Post, Reverse, InputOf;
    OthersChange(s, potId, waiting, processing, Move(s, Complete(r)).state);
  }

  // ----- the services --------------------------------------------------------------------------------------

  class Disbursements {
    const potId: nat
    const ledger: LedgerService
    var status: P.Status
    var lock: P.Lock
    var plan: P.Plan
    var queued: seq<P.Job>
    var processing: seq<P.Job>
    var stranded: nat
    var config: P.Config

    /** The pot as the protocol sees it: its balance is the ledger's, and while the lock accounts for what is
        outstanding one fan-out at most is under way. */
    ghost function Abs(): P.Pot
      reads this, ledger
    {
      P.Pot(status, BalanceIn(ledger.balances, Pot(potId)), lock, plan, [], queued, processing, stranded, config)
    }

    /** Books, accounts and references are in order. */
    ghost predicate Sound()
      reads this, ledger
    {
      && Books(ledger.State())
      && HasAccounts(ledger.State(), potId)
      && Glued(ledger.State(), potId, Waiting(plan, queued), processing)
    }

    ghost predicate Valid()
      reads this, ledger
    {
      Sound() && P.LockAccounts(Abs())
    }

    constructor (potId: nat, ledger: LedgerService, config: P.Config)
      requires Books(ledger.State()) && HasAccounts(ledger.State(), potId)
      requires BalanceIn(ledger.balances, Pot(potId)) == 0
      requires forall x: nat :: !IsProcessing(ledger.State(), potId, x)
      ensures Valid() && this.potId == potId && this.ledger == ledger && Abs() == P.NewPot(config)
    {
      hide Books, P.LockAccounts, BalanceIn, Glued, IsProcessing, HasAccounts;
      NothingGlued(ledger.State(), potId);
      P.NewPotAccounts(config);
      hide P.Shaped, Waiting;
      this.potId, this.ledger, this.config := potId, ledger, config;
      status, lock, plan, queued, processing, stranded := P.Open, P.Free, P.Dispatching(false, []), [], [], 0;
      new;
      NothingWaits();
    }

    // ----- the lock -------------------------------------------------------------------------------------------

    method ClearPendingOperation()
      modifies this`lock
      ensures Abs() == P.Clear(old(Abs()))
    {
      lock := P.Free;
    }

    method DecrementPendingOperationLeg()
      modifies this`lock
      ensures Abs() == P.Decrement(old(Abs()))
    {
      if lock.Free? {
        return;
      }
      var legCount := if lock.legCount > 0 then lock.legCount - 1 else 0;
      lock := lock.(legCount := legCount);
      if legCount == 0 {
        lock := P.Free;
      }
    }

    method ReleaseLock(job: P.Job)
      modifies this`lock
      ensures Abs() == P.Release(old(Abs()), job)
    {
      if job.fanOut {
        DecrementPendingOperationLeg();
      } else {
        ClearPendingOperation();
      }
    }

    method ApplyOnSuccess(effect: P.Effect)
      modifies this`config, this`status
      ensures Abs() == P.ApplyEffect(old(Abs()), effect)
      ensures status != old(status) <==>
                && effect == P.FireTarget && old(config).TargetBased? && old(config).dated
                && old(status) == P.Open && lock.Free?
    {
      match effect
      case NoEffect =>
      case FireTarget =>
        if config.TargetBased? {
          config := config.(targetFired := true);
          if config.dated && status == P.Open && lock == P.Free {
            status := P.Closed;
          }
        }
      case AdvanceRecurring =>
        if config.Recurring? {
          config := config.(nextRunAt := config.nextRunAt + config.intervalDays);
        }
      case FireLeg(i) =>
        if config.Scheduled? && i < |config.fired| {
          config := config.(fired := config.fired[i := true]);
        }
    }

    // ----- the worker -------------------------------------------------------------------------------------------

    /** Everything but the lock's count is in order, and the job in hand has no transaction yet. */
    ghost predicate InHand(job: P.Job)
      reads this, ledger
    {
      && Books(ledger.State())
      && HasAccounts(ledger.State(), potId)
      && P.OneOver(Abs(), job)
      && Glued(ledger.State(), potId, Waiting(plan, queued), processing)
      && job.amount > 0
      && job.jobId !in Waiting(plan, queued)
      && Disbursement(job.jobId) !in ledger.transactions
    }

    /** Posts the job's transaction; only a short float can turn it down, and then nothing changes. */
    method PostPayOut(job: P.Job, kind: Kind) returns (posted: bool)
      requires InHand(job)
      requires BalanceIn(ledger.balances, Pot(potId)) >= job.amount + OUTBOUND_FEE
      modifies ledger
      ensures posted <==> BalanceIn(old(ledger.balances), PlatformFloat) >= job.amount + NOMBA_OUTBOUND_FEE
      ensures var p := Move(old(ledger.State()), PayOut(kind, job.jobId, potId, job.amount));
              posted == p.result.Success? && ledger.State() == p.state
      ensures !posted ==> ledger.State() == old(ledger.State())
    {
      ghost var s, m := ledger.State(), PayOut(kind, job.jobId, potId, job.amount);
      PayOutAcceptedIff(s, kind, job.jobId, potId, job.amount);
      PostCases(s, InputOf(m));
      hide Books, Glued, P.OneOver, Waiting, Post;
      var r := ledger.PostTransaction(InputOf(PayOut(kind, job.jobId, potId, job.amount)));
      posted := r.Success?;
    }

    method ReverseOnLedger(r: Reference)
      modifies ledger
      ensures ledger.State() == Move(old(ledger.State()), Undo(r)).state
    {
      hide Reverse;
      var reversed := ledger.ReverseTransaction(r, Reversal(r));
    }

    /** Reverses a transfer posted from state s, completed since or not. */
    method TakeBack(job: P.Job, ghost kind: Kind, ghost completed: bool, ghost s: Tables)
      requires Books(s) && HasAccounts(s, potId) && Glued(s, potId, Waiting(plan, queued), processing)
      requires job.jobId !in Waiting(plan, queued) && Disbursement(job.jobId) !in s.transactions
      requires Move(s, PayOut(kind, job.jobId, potId, job.amount)).result.Success?
      requires var posted := Move(s, PayOut(kind, job.jobId, potId, job.amount)).state;
               && Disbursement(job.jobId) in posted.transactions
               && ledger.State() == if completed then SetStatus(posted, Disbursement(job.jobId), Completed) else posted
      modifies ledger
      ensures Sound() && BalanceIn(ledger.balances, Pot(potId)) == BalanceIn(s.balances, Pot(potId))
    {
      hide Books, Glued, Waiting, Move, BalanceIn;
      PostThenReverse(s, potId, Waiting(plan, queued), processing, kind, job);
      CompleteThenReverse(s, potId, Waiting(plan, queued), processing, kind, job);
      ReverseOnLedger(Disbursement(job.jobId));
    }

    /** Records a success, statement by statement, up to the one that throws. */
    method RecordSuccess(job: P.Job, kind: Kind, error: RecordingError, ghost s: Tables) returns (thrown: bool)
      requires Books(s) && HasAccounts(s, potId) && Glued(s, potId, Waiting(plan, queued), processing)
      requires job.jobId !in Waiting(plan, queued) && Disbursement(job.jobId) !in s.transactions
      requires Move(s, PayOut(kind, job.jobId, potId, job.amount)).result.Success?
      requires ledger.State() == Move(s, PayOut(kind, job.jobId, potId, job.amount)).state
      requires BalanceIn(s.balances, Pot(potId)) >= job.amount + OUTBOUND_FEE
      modifies this`lock, this`config, this`status, ledger
      ensures thrown == Recorded(job, P.Succeeded, error).ErredAfterSuccess?
      ensures !thrown ==>
                && Sound()
                && Abs() == P.AfterWork(old(Abs()).(balance := BalanceIn(s.balances, Pot(potId))), job,
                                        P.Answered(P.Succeeded))
      ensures thrown ==>
                var posted := Move(s, PayOut(kind, job.jobId, potId, job.amount)).state;
                && Disbursement(job.jobId) in posted.transactions
                && ledger.State() == (if error == MarkThrows then posted
                                      else SetStatus(posted, Disbursement(job.jobId), Completed))
                && config == old(config) && status == old(status)
                && lock == if error == EffectThrows then P.Release(old(Abs()), job).lock else old(lock)
    {
      hide Books, Glued, Waiting, Move, BalanceIn, P.ApplyEffect;
      PostThenComplete(s, potId, Waiting(plan, queued), processing, kind, job);
      if error == MarkThrows {
        return true;
      }
      var completed := ledger.MarkCompleted(Disbursement(job.jobId));
      if error == ReleaseThrows {
        return true;
      }
      ReleaseLock(job);
      if error == EffectThrows && !job.effect.NoEffect? {
        return true;
      }
      ApplyOnSuccess(job.effect);
      thrown := false;
    }

    /** What the worker does once the provider has answered a transaction just posted from state s. Whatever
        throws after a success is taken for a transfer that did not happen. */
    method TakeAnswer(job: P.Job, kind: Kind, answer: P.Answer, error: RecordingError, ghost s: Tables)
      requires Books(s) && HasAccounts(s, potId) && Glued(s, potId, Waiting(plan, queued), processing)
      requires job.jobId !in Waiting(plan, queued) && Disbursement(job.jobId) !in s.transactions
      requires Move(s, PayOut(kind, job.jobId, potId, job.amount)).result.Success?
      requires ledger.State() == Move(s, PayOut(kind, job.jobId, potId, job.amount)).state
      requires BalanceIn(s.balances, Pot(potId)) >= job.amount + OUTBOUND_FEE
      modifies this`lock, this`config, this`status, this`processing, ledger
      ensures Sound()
      ensures Abs() == P.AfterWork(old(Abs()).(balance := BalanceIn(s.balances, Pot(potId))), job,
                                   Recorded(job, answer, error))
    {
      hide Books, Glued, Waiting, Move;
      PostStillProcessing(s, potId, Waiting(plan, queued), processing, kind, job);
      match answer
      case Succeeded =>
        var thrown := RecordSuccess(job, kind, error, s);
        if thrown {
          TakeBack(job, kind, error != MarkThrows, s);
          ReleaseLock(job);
        }
      case Unsettled =>
        processing := processing + [job];
      case Rejected =>
        PostThenReverse(s, potId, Waiting(plan, queued), processing, kind, job);
        ReverseOnLedger(Disbursement(job.jobId));
        ReleaseLock(job);
    }

    /** Posts the transfer and acts on the provider's answer. */
    method PostAndTransfer(job: P.Job, kind: Kind, answer: P.Answer, error: RecordingError)
      returns (ghost outcome: P.Outcome)
      requires InHand(job)
      requires BalanceIn(ledger.balances, Pot(potId)) >= job.amount + OUTBOUND_FEE
      modifies this, ledger
      ensures Sound()
      ensures Abs() == P.AfterWork(old(Abs()), job, outcome)
      ensures outcome == if old(BalanceIn(ledger.balances, PlatformFloat)) < job.amount + NOMBA_OUTBOUND_FEE
                         then P.PostFails else Recorded(job, answer, error)
    {
      hide Books, Glued, P.LockAccounts, P.OneOver, Waiting, Move, Post, Recorded;
      ghost var s := ledger.State();
      outcome := if BalanceIn(ledger.balances, PlatformFloat) < job.amount + NOMBA_OUTBOUND_FEE then P.PostFails
                 else Recorded(job, answer, error);
      var posted := PostPayOut(job, kind);
      if !posted {
        ReleaseLock(job);
        return;
      }
      TakeAnswer(job, kind, answer, error, s);
    }

    /** processLedgerDisbursement and the throttle call before it, for the job at position k. The throttle, the
        account lookup, the transfer's answer and what throws afterwards come from outside. The lock goes on
        accounting for what is outstanding unless the job's unit is given back twice. */
    method ProcessLedgerDisbursement(k: nat, kind: Kind, throttleOk: bool, lookupOk: bool, answer: P.Answer,
                                     error: RecordingError)
      returns (ghost outcome: P.Outcome)
      requires Valid() && k < |queued|
      modifies this, ledger
      ensures Sound()
      ensures Valid() <==> !P.ReleasesTwice(old(Abs()), P.Work(k, outcome))
      ensures Abs() == P.Next(old(Abs()), P.Work(k, outcome))
      ensures outcome == if !throttleOk then P.ThrottleFails
                         else if !lookupOk then P.LookupFails
                         else if old(BalanceIn(ledger.balances, PlatformFloat))
                                 < old(queued[k]).amount + NOMBA_OUTBOUND_FEE then P.PostFails
                         else if answer == P.Succeeded && RecordingFails(old(queued[k]), error)
                         then P.ErredAfterSuccess(error == EffectThrows)
                         else P.Answered(answer)
    {
      hide Books, Glued, P.LockAccounts, P.OneOver, Waiting, P.RemoveAt, P.ApplyEffect, Recorded;
      var job := queued[k];
      ghost var was, s := Abs(), ledger.State();
      outcome := if !throttleOk then P.ThrottleFails
                 else if !lookupOk then P.LookupFails
                 else if BalanceIn(ledger.balances, PlatformFloat) < job.amount + NOMBA_OUTBOUND_FEE then P.PostFails
                 else Recorded(job, answer, error);
      RecordedIs(job, answer, error);
      P.StepAccountsIff(was, P.Work(k, outcome));
      hide P.ReleasesTwice;
      P.TakenUp(was, k);
      GluedWithout(s, potId, plan, queued, processing, k);
      queued := P.RemoveAt(queued, k);
      if !throttleOk {
        ReleaseLock(job);
        return;
      }
      var balance := ledger.GetBalance(Pot(potId));
      if balance < job.amount + OUTBOUND_FEE {
        ReleaseLock(job);
        return;
      }
      if !lookupOk {
        stranded := stranded + 1;
        return;
      }
      var answered := PostAndTransfer(job, kind, answer, error);
    }

    // ----- the webhook's outcome of a pending transfer ---------------------------------------------------------

    /** The transaction a processing entry stands for. */
    lemma FindProcessing(jobId: nat) returns (k: nat)
      requires Valid() && IsProcessing(ledger.State(), potId, jobId)
      ensures k < |processing| && processing[k].jobId == jobId
    {
      assert jobId in Ids(processing);
      k :| 0 <= k < |processing| && Ids(processing)[k] == jobId;
    }

    method SettleSucceeded(k: nat, error: RecordingError)
      requires Valid() && k < |processing| && error != MarkThrows
      modifies this, ledger
      ensures Valid() && Abs() == P.Next(old(Abs()), P.Settle(k, true, LapseOf(error)))
      ensures !IsProcessing(ledger.State(), potId, old(processing)[k].jobId)
    {
      hide Books, Glued, IsProcessing, P.LockAccounts, Waiting, P.RemoveAt;
      var job := processing[k];
      ghost var s := ledger.State();
      P.StepAccountsIff(Abs(), P.Settle(k, true, LapseOf(error)));
      SettleSuccess(s, potId, Waiting(plan, queued), processing, k);
      var completed := ledger.MarkCompleted(Disbursement(job.jobId));
      processing := P.RemoveAt(processing, k);
      if error == EffectThrows && !job.effect.NoEffect? {
        stranded := stranded + 1;
        return;
      }
      ApplyOnSuccess(job.effect);
      if error == ReleaseThrows {
        stranded := stranded + 1;
      } else {
        DecrementPendingOperationLeg();
      }
    }

    method SettleFailed(k: nat, error: RecordingError)
      requires Valid() && k < |processing| && error != MarkThrows
      modifies this, ledger
      ensures Valid() && Abs() == P.Next(old(Abs()), P.Settle(k, false, LapseOf(error)))
      ensures !IsProcessing(ledger.State(), potId, old(processing)[k].jobId)
    {
      hide Books, Glued, IsProcessing, P.LockAccounts, Waiting, P.RemoveAt, Move;
      var job := processing[k];
      ghost var s := ledger.State();
      P.StepAccountsIff(Abs(), P.Settle(k, false, LapseOf(error)));
      SettleFailure(s, potId, Waiting(plan, queued), processing, k);
      ReverseOnLedger(Disbursement(job.jobId));
      processing := P.RemoveAt(processing, k);
      if error == ReleaseThrows {
        stranded := stranded + 1;
      } else {
        DecrementPendingOperationLeg();
      }
    }

    /** resolvePendingTransfer, for an outcome routed to the pot its transaction names: a transaction no
        longer processing, or unknown, is left alone, so a redelivered outcome changes nothing. What throws
        once the transaction is marked leaves the leg's unit held for good, as no redelivery gets that far again;
        what throws before leaves all as it was. */
    method ResolvePendingTransfer(jobId: nat, success: bool, error: RecordingError)
      requires Valid()
      requires Disbursement(jobId) in ledger.transactions
      requires ledger.transactions[Disbursement(jobId)].status == Processing
               ==> ledger.transactions[Disbursement(jobId)].potId == Some(potId)
      modifies this, ledger
      ensures Valid() && (IsProcessing(ledger.State(), potId, jobId) ==> error == MarkThrows)
      ensures !old(IsProcessing(ledger.State(), potId, jobId)) || error == MarkThrows ==>
                Abs() == old(Abs()) && ledger.State() == old(ledger.State())
      ensures old(IsProcessing(ledger.State(), potId, jobId)) && error != MarkThrows ==>
                exists k :: 0 <= k < |old(processing)| && old(processing)[k].jobId == jobId
                            && Abs() == P.Next(old(Abs()), P.Settle(k, success, LapseOf(error)))
                            && stranded == old(stranded) + StrandsOne(old(processing)[k], success, error)
    {
      if Disbursement(jobId) !in ledger.transactions || ledger.transactions[Disbursement(jobId)].status != Processing {
        return;
      }
      if error == MarkThrows {
        return;
      }
      ghost var found := FindProcessing(jobId);
      hide Books, Glued, P.LockAccounts, P.Next;
      var k := 0;
      while processing[k].jobId != jobId
        invariant 0 <= k <= found
        decreases found - k
      {
        k := k + 1;
      }
      StrandedIs(Abs(), k, success, error);
      if success {
        SettleSucceeded(k, error);
      } else {
        SettleFailed(k, error);
      }
    }

    // ----- triggers ----------------------------------------------------------------------------------------------

    /** postFixedAmountDisbursement: the reference is a fresh random one, and every caller has checked that the
        amount is positive. Whether the pot is open was read by the caller and is not read again. */
    method PostFixedAmountDisbursement(operation: P.Operation, amount: int, jobId: nat, effect: P.Effect,
                                       enqueueOk: bool)
      returns (r: Result<nat, PotError>)
      requires Valid() && amount > 0
      requires jobId !in Waiting(plan, queued) && Disbursement(jobId) !in ledger.transactions
      modifies this
      ensures Valid()
      ensures Abs() == P.Next(old(Abs()), P.ClaimSingle(operation, P.Job(jobId, amount, false, effect), true,
                                                        old(Abs()).balance, enqueueOk))
      ensures r == if amount + OUTBOUND_FEE > old(Abs()).balance then Failure(ExceedsBalance)
                   else if old(lock).Held? then Failure(AlreadyInFlight)
                   else if enqueueOk then Success(jobId) else Failure(EnqueueFailed)
    {
      hide Books, Glued, P.LockAccounts, Waiting;
      ghost var job := P.Job(jobId, amount, false, effect);
      P.StepAccounts(Abs(), P.ClaimSingle(operation, job, true, Abs().balance, enqueueOk));
      GluedWith(ledger.State(), potId, plan, queued, processing, P.Job(jobId, amount, false, effect));
      var balance := ledger.GetBalance(Pot(potId));
      if amount + OUTBOUND_FEE > balance {
        return Failure(ExceedsBalance);
      }
      if lock.Held? {
        return Failure(AlreadyInFlight);
      }
      lock := P.Held(operation, 1);
      if !enqueueOk {
        stranded := stranded + 1;
        return Failure(EnqueueFailed);
      }
      queued := queued + [P.Job(jobId, amount, false, effect)];
      r := Success(jobId);
    }

    /** postDisbursement: the whole balance, less the fee it has to carry itself. */
    method PostDisbursement(operation: P.Operation, jobId: nat, effect: P.Effect, enqueueOk: bool)
      returns (r: Result<nat, PotError>)
      requires Valid()
      requires jobId !in Waiting(plan, queued) && Disbursement(jobId) !in ledger.transactions
      modifies this
      ensures Valid()
      ensures old(Abs()).balance <= OUTBOUND_FEE ==> r == Failure(NothingToDisburse) && Abs() == old(Abs())
      ensures old(Abs()).balance > OUTBOUND_FEE ==>
                var job := P.Job(jobId, old(Abs()).balance - OUTBOUND_FEE, false, effect);
                && Abs() == P.Next(old(Abs()), P.ClaimSingle(operation, job, true, old(Abs()).balance, enqueueOk))
                && (r.Success? ==> Abs().queued == old(queued) + [job] && P.Need(job) == Abs().balance)
                && r == if old(lock).Held? then Failure(AlreadyInFlight)
                        else if enqueueOk then Success(jobId) else Failure(EnqueueFailed)
      ensures r.Failure? && r.error != EnqueueFailed ==> Abs() == old(Abs())
    {
      hide Books, Glued, P.LockAccounts, Waiting;
      var balance := ledger.GetBalance(Pot(potId));
      var payoutAmount := balance - OUTBOUND_FEE;
      if payoutAmount <= 0 {
        return Failure(NothingToDisburse);
      }
      r := PostFixedAmountDisbursement(operation, payoutAmount, jobId, effect, enqueueOk);
    }

    /** triggerPayout, with an amount or for the whole balance. `seenOpen` is the status as read on entry; only a
        destination the caller names is verified now. */
    method TriggerPayout(seenOpen: bool, destination: Destination, amount: Option<int>, jobId: nat, enqueueOk: bool)
      returns (r: Result<nat, PotError>)
      requires Valid()
      requires jobId !in Waiting(plan, queued) && Disbursement(jobId) !in ledger.transactions
      modifies this
      ensures Valid()
      ensures r.Success? <==>
                && seenOpen && old(config).Manual? && (destination == Fixed || destination == Named(true))
                && old(lock).Free? && enqueueOk
                && match amount
                   case Some(n) => 0 < n <= old(Abs()).balance - OUTBOUND_FEE
                   case None => old(Abs()).balance > OUTBOUND_FEE
      ensures r == if !seenOpen then Failure(NotOpen)
                   else if !old(config).Manual? then Failure(NotApplicable)
                   else if destination == Missing then Failure(DestinationRequired)
                   else if destination == Named(false) then Failure(DestinationRejected)
                   else if amount.Some? && amount.value <= 0 then Failure(NonPositive)
                   else if amount.Some? && amount.value + OUTBOUND_FEE > old(Abs()).balance then Failure(ExceedsBalance)
                   else if amount.None? && old(Abs()).balance <= OUTBOUND_FEE then Failure(NothingToDisburse)
                   else if old(lock).Held? then Failure(AlreadyInFlight)
                   else if enqueueOk then Success(jobId) else Failure(EnqueueFailed)
      ensures r.Success? ==>
                var paid := if amount.Some? then amount.value else old(Abs()).balance - OUTBOUND_FEE;
                Abs() == old(Abs()).(lock := P.Held(P.Payout, 1),
                                     queued := old(queued) + [P.Job(jobId, paid, false, P.NoEffect)])
      ensures r == Failure(EnqueueFailed) ==>
                Abs() == old(Abs()).(lock := P.Held(P.Payout, 1), stranded := old(stranded) + 1)
      ensures r.Failure? && r.error != EnqueueFailed ==> Abs() == old(Abs())
    {
      hide Books, Glued, P.LockAccounts, Waiting;
      if !seenOpen {
        return Failure(NotOpen);
      }
      if !config.Manual? {
        return Failure(NotApplicable);
      }
      if destination == Missing {
        return Failure(DestinationRequired);
      }
      if destination == Named(false) {
        return Failure(DestinationRejected);
      }
      match amount
      case Some(n) =>
        var balance := ledger.GetBalance(Pot(potId));
        if n <= 0 {
          return Failure(NonPositive);
        }
        if n + OUTBOUND_FEE > balance {
          return Failure(ExceedsBalance);
        }
        r := PostFixedAmountDisbursement(P.Payout, n, jobId, P.NoEffect, enqueueOk);
      case None =>
        r := PostDisbursement(P.Payout, jobId, P.NoEffect, enqueueOk);
    }

    /** close: status and lock as read on entry, the balance as read after them, and the update, which looks at the
        lock again and at nothing else. */
    method Close(seenOpen: bool, seenLock: P.Lock, seenBalance: int) returns (r: Result<(), PotError>)
      requires Valid()
      modifies this`status
      ensures Valid() && Abs() == P.Next(old(Abs()), P.Close(seenOpen && seenLock.Free?, seenBalance))
      ensures r == if !seenOpen then Failure(NotOpen)
                   else if seenLock.Held? then Failure(AlreadyInFlight)
                   else if seenBalance != 0 then Failure(BalanceNotZero)
                   else if old(lock).Held? then Failure(AlreadyInFlight)
                   else Success(())
      ensures r.Success? ==> status == P.Closed && P.Outstanding(Abs()) == 0
      ensures r.Failure? ==> status == old(status)
    {
      hide Books, Glued, Waiting;
      P.StepAccounts(Abs(), P.Close(seenOpen && seenLock.Free?, seenBalance));
      if !seenOpen {
        return Failure(NotOpen);
      }
      if seenLock.Held? {
        return Failure(AlreadyInFlight);
      }
      if seenBalance != 0 {
        return Failure(BalanceNotZero);
      }
      if lock.Held? {
        return Failure(AlreadyInFlight);
      }
      status := P.Closed;
      r := Success(());
    }

    // ----- funding, as the pot sees it -----------------------------------------------------------------------------

    /** The posting confirmFunding makes once a contribution is covered. */
    method CreditContribution(contributionId: nat, intended: int)
      requires Valid() && intended > 0 && Contribution(contributionId) !in ledger.transactions
      modifies ledger
      ensures Valid() && Abs() == P.Next(old(Abs()), P.Fund(intended))
      ensures ledger.State() == Move(old(ledger.State()), Fund(contributionId, potId, intended)).state
      ensures ledger.transactions
              == old(ledger.transactions)[Contribution(contributionId) :=
                                            Transaction(ContributionKind, Completed, intended, Some(potId))]
    {
      hide Books, Glued, P.LockAccounts, Waiting, Move;
      P.StepAccounts(Abs(), P.Fund(intended));
      FundKeepsGlue(ledger.State(), potId, Waiting(plan, queued), processing, contributionId, intended);
      PostOnLedger(Fund(contributionId, potId, intended));
    }

    method PostOnLedger(m: Movement)
      requires !m.Undo? && !m.Complete?
      modifies ledger
      ensures ledger.State() == Move(old(ledger.State()), m).state
    {
      hide Post;
      var r := ledger.PostTransaction(InputOf(m));
    }

    /** reverseFunding's part in the pot: refused if an operation was in flight when the lock was read, and otherwise
        accepted exactly when the pot and the float still hold the money, whoever has the lock by then. */
    method ReverseContribution(contributionId: nat, seenFree: bool) returns (reversed: bool)
      requires Valid() && Live(ledger.transactions, Contribution(contributionId))
      requires PotOf(ledger.transactions[Contribution(contributionId)]) == potId
      modifies ledger
      ensures Valid()
      ensures var t := old(ledger.transactions[Contribution(contributionId)]);
              && (reversed <==> && seenFree
                                && old(Abs()).balance >= t.amount
                                && old(BalanceIn(ledger.balances, PlatformFloat)) >= t.amount + PLATFORM_INBOUND_FEE)
              && (reversed ==> t.amount > 0 && Abs() == P.Next(old(Abs()), P.ReverseFunding(t.amount, seenFree)))
              && (!reversed ==> ledger.State() == old(ledger.State()))
    {
      hide Books, Glued, P.LockAccounts, Waiting, Move;
      if !seenFree {
        return false;
      }
      ghost var s, t := ledger.State(), ledger.transactions[Contribution(contributionId)];
      FundingUndoAcceptedIff(s, contributionId);
      UndoKeepsGlue(s, potId, Waiting(plan, queued), processing, contributionId);
      P.StepAccounts(Abs(), P.ReverseFunding(t.amount, seenFree));
      var r := ledger.ReverseTransaction(Contribution(contributionId), Reversal(Contribution(contributionId)));
      reversed := r.Success?;
    }
  }
}
