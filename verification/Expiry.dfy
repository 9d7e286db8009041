/** Refunds of payments whose contribution expired unfunded: drawn on suspense, outside any pot, and marked on
    the payment once the transfer is known to have gone through. */
module Expiry {
  import opened Wrappers
  import opened Ledger
  import opened LedgerFacts
  import opened Fees
  import opened Movements
  import opened Identity
  import opened Flows
  import P = Protocol

  ghost predicate SystemAccounts(s: Tables) {
    {PlatformFloat, PlatformRevenue, Suspense, NombaFeeExpense, NombaClearing} <= s.ids.Keys
  }

  /** An expiry refund is posted exactly when the float covers it: the payment was never credited anywhere. */
  lemma ExpiryRefundAcceptedIff(s: Tables, paymentId: nat, amount: int)
    requires Books(s) && SystemAccounts(s) && amount > 0 && ExpiryRefund(paymentId) !in s.transactions
    ensures Move(s, RefundExpired(paymentId, amount)).result.Success?
            <==> BalanceIn(s.balances, PlatformFloat) >= amount + NOMBA_OUTBOUND_FEE
  {
    hide Books, Move;
    DrawdownInOrder(Suspense, amount);
    hide BalanceError;
    assert forall e <- DrawdownLegs(Suspense, amount) :: e.account in s.ids;
    PostAcceptedIff(s, RefundExpired(paymentId, amount));
    DrawdownCoveredIff(s, Suspense, amount);
  }

  /** Whether the payment's refund is on the ledger with this status. */
  predicate RefundIs(s: Tables, paymentId: nat, status: Status) {
    ExpiryRefund(paymentId) in s.transactions && s.transactions[ExpiryRefund(paymentId)].status == status
  }

  /** The payments marked refunded are those whose refund completed. */
  ghost predicate Marked(s: Tables, refunded: set<nat>) {
    forall id: nat :: id in refunded <==> RefundIs(s, id, Completed)
  }

  ghost predicate OnlyChanges(s: Tables, s': Tables, paymentId: nat) {
    && s'.ids == s.ids
    && forall r: Reference :: r != ExpiryRefund(paymentId) && !r.Reversal? ==>
         && (r in s'.transactions <==> r in s.transactions)
         && (r in s.transactions ==> s'.transactions[r] == s.transactions[r])
  }

  lemma PostedRefund(s: Tables, paymentId: nat, amount: int)
    requires Books(s) && ExpiryRefund(paymentId) !in s.transactions
    requires Move(s, RefundExpired(paymentId, amount)).result.Success?
    ensures var s' := Move(s, RefundExpired(paymentId, amount)).state;
            && Books(s') && OnlyChanges(s, s', paymentId) && RefundIs(s', paymentId, Processing)
  {
    hide Books, Move, ExpiryRefundLegs, DrawdownLegs, Net, BalanceIn;
    PostEffect(s, RefundExpired(paymentId, amount));
    PostKeepsBooks(s, RefundExpired(paymentId, amount));
  }

  lemma SettledRefund(s: Tables, paymentId: nat, success: bool)
    requires Books(s) && RefundIs(s, paymentId, Processing)
    ensures var r := ExpiryRefund(paymentId);
            var p := Move(s, if success then Complete(r) else Undo(r));
            && p.result.Success? && Books(p.state) && OnlyChanges(s, p.state, paymentId)
            && RefundIs(p.state, paymentId, if success then Completed else Reversed)
  {
    hide Books, LegsFor, Net, BalanceIn, EntriesOf;
    var r := ExpiryRefund(paymentId);
    if success {
      CompleteKeepsBooks(s, r);
    } else {
      OutboundUndoAccepted(s, r);
      UndoEffect(s, r);
      UndoKeepsBooks(s, r);
      hide Move;
    }
  }

  lemma MarkedAfter(s: Tables, s': Tables, refunded: set<nat>, paymentId: nat)
    requires Marked(s, refunded) && OnlyChanges(s, s', paymentId) && !RefundIs(s, paymentId, Completed)
    ensures Marked(s', if RefundIs(s', paymentId, Completed) then refunded + {paymentId} else refunded)
  {}

  // ----- a second transfer ---------------------------------------------------------------------------------

  predicate Settled(s: Tables, paymentId: nat) {
    ExpiryRefund(paymentId) in s.transactions && s.transactions[ExpiryRefund(paymentId)].status != Processing
  }

  /** The ledger after a settled refund's transfer was made again. */
  function Resettled(s: Tables, paymentId: nat, answer: P.Answer): Tables
    requires Settled(s, paymentId)
  {
    match answer
    case Succeeded => SetStatus(s, ExpiryRefund(paymentId), Completed)
    case Unsettled => s
    case Rejected => Move(s, Undo(ExpiryRefund(paymentId))).state
  }

  /** The answer to the second transfer contradicts that to the first. */
  predicate Contradicts(s: Tables, paymentId: nat, answer: P.Answer) {
    || (RefundIs(s, paymentId, Completed) && answer.Rejected?)
    || (RefundIs(s, paymentId, Reversed) && answer.Succeeded?)
  }

  lemma PostedAlready(s: Tables, paymentId: nat, amount: int)
    requires ExpiryRefund(paymentId) in s.transactions && amount > 0
    ensures Post(s, InputOf(RefundExpired(paymentId, amount))).state == s
  {
    DrawdownInOrder(Suspense, amount);
    hide BalanceError, DrawdownLegs;
  }

  lemma UndoIsReverse(s: Tables, r: Reference)
    ensures Move(s, Undo(r)) == Reverse(s, r, Reversal(r))
  {}

  /** A completed refund reversed loses its mark's reason; a reversed one completed has its reversal on file. */
  lemma ResettledValidIff(s: Tables, refunded: set<nat>, paymentId: nat, answer: P.Answer)
    requires Books(s) && SystemAccounts(s) && Marked(s, refunded) && Settled(s, paymentId)
    ensures var s' := Resettled(s, paymentId, answer);
            var marks := if answer.Succeeded? then refunded + {paymentId} else refunded;
            (Books(s') && SystemAccounts(s') && Marked(s', marks)) <==> !Contradicts(s, paymentId, answer)
  {
    var r := ExpiryRefund(paymentId);
    match answer
    case Unsettled =>
    case Succeeded => CompletedAgain(s, refunded, paymentId);
    case Rejected => RejectedAgain(s, refunded, paymentId);
  }

  /** What the second answer leaves on record, and that money moves only when it rejects a refund completed before,
      whose whole flow is then taken back. */
  lemma ResettledDoes(s: Tables, paymentId: nat, answer: P.Answer)
    requires Books(s) && Settled(s, paymentId)
    ensures var (r, s') := (ExpiryRefund(paymentId), Resettled(s, paymentId, answer));
            && OnlyChanges(s, s', paymentId)
            && RefundIs(s', paymentId, match answer
                                       case Succeeded => Completed
                                       case Unsettled => s.transactions[r].status
                                       case Rejected => Reversed)
            && forall a :: BalanceIn(s'.balances, a)
                           == BalanceIn(s.balances, a)
                              - if answer.Rejected? && RefundIs(s, paymentId, Completed)
                                then FlowOf(r, s.transactions[r], a) else 0
  {
    var r := ExpiryRefund(paymentId);
    hide Books, LegsFor, Net, BalanceIn, EntriesOf, Move, Flow;
    if answer.Rejected? {
      if RefundIs(s, paymentId, Completed) {
        OutboundUndoAccepted(s, r);
        UndoEffect(s, r);
        UndoMoves(s, r);
      } else {
        UndoAgainIsNoOp(s, r);
      }
    }
  }

  lemma CompletedAgain(s: Tables, refunded: set<nat>, paymentId: nat)
    requires Books(s) && Marked(s, refunded) && Settled(s, paymentId)
    ensures var s' := SetStatus(s, ExpiryRefund(paymentId), Completed);
            (Books(s') && Marked(s', refunded + {paymentId})) <==> RefundIs(s, paymentId, Completed)
  {
    hide LegsFor, SortById, EntriesOf, LiveFold, Consistent, BalanceIn;
    var r := ExpiryRefund(paymentId);
    var s' := SetStatus(s, r, Completed);
    if RefundIs(s, paymentId, Completed) {
      hide Books;
      assert s'.transactions == s.transactions && refunded + {paymentId} == refunded;
    } else {
      assert Shaped(s, r);
      assert OriginalShape(s, r);
      assert Reversal(r) in s'.transactions;
      hide OriginalShape;
      assert !ReversalShape(s', Reversal(r));
      assert !Shaped(s', Reversal(r));
    }
  }

  lemma RejectedAgain(s: Tables, refunded: set<nat>, paymentId: nat)
    requires Books(s) && SystemAccounts(s) && Marked(s, refunded) && Settled(s, paymentId)
    ensures var s' := Move(s, Undo(ExpiryRefund(paymentId))).state;
            (Books(s') && SystemAccounts(s') && Marked(s', refunded)) <==> RefundIs(s, paymentId, Reversed)
  {
    hide Books, LegsFor, Net, BalanceIn, EntriesOf, Move;
    var r := ExpiryRefund(paymentId);
    if RefundIs(s, paymentId, Reversed) {
      UndoAgainIsNoOp(s, r);
    } else {
      OutboundUndoAccepted(s, r);
      UndoEffect(s, r);
      assert paymentId in refunded && !RefundIs(Move(s, Undo(r)).state, paymentId, Completed);
    }
  }

  class ExpiryRefunds {
    const ledger: LedgerService
    var refunded: set<nat>

    ghost predicate Valid()
      reads this, ledger
    {
      Books(ledger.State()) && SystemAccounts(ledger.State()) && Marked(ledger.State(), refunded)
    }

    constructor (ledger: LedgerService)
      requires Books(ledger.State()) && SystemAccounts(ledger.State())
      requires forall id: nat :: !RefundIs(ledger.State(), id, Completed)
      ensures Valid() && this.ledger == ledger && refunded == {}
    {
      this.ledger, refunded := ledger, {};
    }

    /** The outcome of a transfer that is processing: marked refunded, or reversed. */
    method Settle(paymentId: nat, success: bool)
      requires Valid() && RefundIs(ledger.State(), paymentId, Processing)
      modifies this, ledger
      ensures Valid() && RefundIs(ledger.State(), paymentId, if success then Completed else Reversed)
      ensures OnlyChanges(old(ledger.State()), ledger.State(), paymentId)
      ensures refunded == if success then old(refunded) + {paymentId} else old(refunded)
    {
      hide Books, Marked, Post;
      var r := ExpiryRefund(paymentId);
      SettledRefund(ledger.State(), paymentId, success);
      ghost var s, was := ledger.State(), refunded;
      if success {
        var completed := ledger.MarkCompleted(r);
        refunded := refunded + {paymentId};
      } else {
        var reversed := ledger.ReverseTransaction(r, Reversal(r));
      }
      hide Reverse;
      MarkedAfter(s, ledger.State(), was, paymentId);
    }

    /** Posts the refund; only a short float can turn it down, and then nothing changes. */
    method PostRefund(paymentId: nat, amount: int) returns (posted: bool)
      requires Valid() && amount > 0 && ExpiryRefund(paymentId) !in ledger.transactions
      modifies ledger
      ensures posted <==> old(BalanceIn(ledger.balances, PlatformFloat)) >= amount + NOMBA_OUTBOUND_FEE
      ensures Valid() && OnlyChanges(old(ledger.State()), ledger.State(), paymentId)
      ensures posted ==> RefundIs(ledger.State(), paymentId, Processing)
      ensures !posted ==> ledger.State() == old(ledger.State())
    {
      hide Books, Marked, Post, BalanceIn, ExpiryRefundLegs, BalanceError;
      ghost var s, m := ledger.State(), RefundExpired(paymentId, amount);
      ExpiryRefundAcceptedIff(s, paymentId, amount);
      PostCases(s, InputOf(m));
      if Move(s, m).result.Success? {
        PostedRefund(s, paymentId, amount);
        MarkedAfter(s, Move(s, m).state, refunded, paymentId);
      }
      var r := ledger.PostTransaction(InputOf(RefundExpired(paymentId, amount)));
      posted := r.Success?;
    }

    /** A job whose refund was completed or reversed already is answered with the row on file, and the provider is
        called again: nothing is posted for it, and the row is overwritten by the new answer. */
    method TransferAgain(paymentId: nat, amount: int, answer: P.Answer)
      requires Valid() && amount > 0 && Settled(ledger.State(), paymentId)
      modifies this, ledger
      ensures ledger.State() == Resettled(old(ledger.State()), paymentId, answer)
      ensures refunded == if answer.Succeeded? then old(refunded) + {paymentId} else old(refunded)
      ensures Valid() <==> !Contradicts(old(ledger.State()), paymentId, answer)
    {
      hide Books, Marked, BalanceIn, Move, Post, Reverse, Contradicts;
      ghost var s, was := ledger.State(), refunded;
      PostedAlready(s, paymentId, amount);
      var r := ExpiryRefund(paymentId);
      var posted := ledger.PostTransaction(InputOf(RefundExpired(paymentId, amount)));
      match answer {
        case Succeeded =>
          var completed := ledger.MarkCompleted(r);
          refunded := refunded + {paymentId};
        case Unsettled =>
        case Rejected =>
          UndoIsReverse(s, r);
          var reversed := ledger.ReverseTransaction(r, Reversal(r));
      }
      ResettledValidIff(s, was, paymentId, answer);
    }

    /** processContributionRefund. A job whose transaction is processing makes no transfer. A refund not yet on the
        ledger is transferred once posted, and settled, reversed or left processing as the provider answers. One
        completed or reversed already is transferred a second time, without a posting; books and marks stay right
        exactly when the second answer does not contradict the first. */
    method ProcessContributionRefund(paymentId: nat, amount: int, lookupOk: bool, answer: P.Answer)
      returns (transferred: bool)
      requires Valid() && amount > 0
      modifies this, ledger
      ensures transferred <==>
                && lookupOk && !old(RefundIs(ledger.State(), paymentId, Processing))
                && (ExpiryRefund(paymentId) !in old(ledger.transactions) ==>
                      old(BalanceIn(ledger.balances, PlatformFloat)) >= amount + NOMBA_OUTBOUND_FEE)
      ensures !transferred ==> ledger.State() == old(ledger.State()) && refunded == old(refunded)
      ensures transferred ==> refunded == if answer.Succeeded? then old(refunded) + {paymentId} else old(refunded)
      ensures transferred && ExpiryRefund(paymentId) !in old(ledger.transactions) ==>
                && OnlyChanges(old(ledger.State()), ledger.State(), paymentId)
                && RefundIs(ledger.State(), paymentId,
                            match answer
                            case Succeeded => Completed
                            case Unsettled => Processing
                            case Rejected => Reversed)
      ensures transferred && ExpiryRefund(paymentId) in old(ledger.transactions) ==>
                && ledger.State() == Resettled(old(ledger.State()), paymentId, answer)
                && OnlyChanges(old(ledger.State()), ledger.State(), paymentId)
                && RefundIs(ledger.State(), paymentId,
                            match answer
                            case Succeeded => Completed
                            case Unsettled => old(ledger.transactions)[ExpiryRefund(paymentId)].status
                            case Rejected => Reversed)
      ensures Valid() <==> !(lookupOk && Contradicts(old(ledger.State()), paymentId, answer))
    {
      hide Books, Marked, Post, BalanceIn, Resettled;
      var refund := ExpiryRefund(paymentId);
      if refund in ledger.transactions && ledger.transactions[refund].status == Processing {
        return false;
      }
      if !lookupOk {
        return false;
      }
      if ExpiryRefund(paymentId) in ledger.transactions {
        ResettledDoes(ledger.State(), paymentId, answer);
        TransferAgain(paymentId, amount, answer);
        return true;
      }
      var posted := PostRefund(paymentId, amount);
      if !posted {
        return false;
      }
      if answer != P.Unsettled {
        Settle(paymentId, answer == P.Succeeded);
      }
      transferred := true;
    }

    /** resolvePendingTransfer for a payment: a refund no longer processing, or never posted, is left alone. */
    method ResolvePendingTransfer(paymentId: nat, success: bool)
      requires Valid()
      modifies this, ledger
      ensures Valid() && !RefundIs(ledger.State(), paymentId, Processing)
      ensures !old(RefundIs(ledger.State(), paymentId, Processing)) ==>
                ledger.State() == old(ledger.State()) && refunded == old(refunded)
      ensures old(RefundIs(ledger.State(), paymentId, Processing)) ==>
                && OnlyChanges(old(ledger.State()), ledger.State(), paymentId)
                && RefundIs(ledger.State(), paymentId, if success then Completed else Reversed)
                && refunded == if success then old(refunded) + {paymentId} else old(refunded)
    {
      hide Books, Marked;
      var refund := ExpiryRefund(paymentId);
      if refund !in ledger.transactions || ledger.transactions[refund].status != Processing {
        return;
      }
      Settle(paymentId, success);
    }
  }
}
