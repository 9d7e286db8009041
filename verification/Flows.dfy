/** Every balance as a closed form of the transaction rows: what each live transaction moved, and nothing else. */
module Flows {
  import opened Wrappers
  import opened Ledger
  import opened LedgerFacts
  import opened Fees
  import opened Movements
  import opened Identity

  // ----- what one transaction moves ------------------------------------------------------------------------

  /** The provider's cut of a transaction and the platform's. */
  function ProviderFee(r: Reference, amount: int): int {
    if r.Contribution? then NombaInboundFeeFor(amount) else NOMBA_OUTBOUND_FEE
  }

  function PlatformFee(r: Reference): int {
    if r.Contribution? then PLATFORM_INBOUND_FEE else PLATFORM_OUTBOUND_FEE
  }

  /** What a transaction does to one account: money coming in is held in the float, the provider's cut never
      having reached it; money going out leaves the float with the provider's cut, at the cost of a pot or,
      where no pot ever had it, of suspense. */
  function Flow(r: Reference, amount: int, potId: nat, a: Account): int
    requires !r.Reversal?
  {
    match a
    case Pot(p) =>
      if p != potId then 0
      else if r.Contribution? then amount
      else if r.Disbursement? then -(amount + ProviderFee(r, amount) + PlatformFee(r))
      else 0
    case Suspense =>
      if r.Contribution? || r.Disbursement? then 0 else amount + ProviderFee(r, amount) + PlatformFee(r)
    case PlatformFloat =>
      if r.Contribution? then amount + PlatformFee(r) else -(amount + ProviderFee(r, amount))
    case PlatformRevenue => PlatformFee(r)
    case NombaFeeExpense => ProviderFee(r, amount)
    case NombaClearing => ProviderFee(r, amount)
    case ProviderSettlement => 0
  }

  function FlowOf(r: Reference, t: Transaction, a: Account): int
    requires !r.Reversal?
  {
    Flow(r, t.amount, PotOf(t), a)
  }

  /** The legs of every builder net to these flows, account by account. */
  lemma NetIsFlow(r: Reference, t: Transaction, a: Account)
    requires !r.Reversal?
    ensures Net(LegsFor(r, t), a) == FlowOf(r, t, a)
  {
    NetOfFive(LegsFor(r, t), a);
  }

  /** The row each posting leaves: what kind of movement it was, for how much, and whether it awaits the
      provider. */
  lemma RowLeft(s: Tables, m: Movement)
    requires Books(s) && Posts(m) && ReferenceOf(m) !in s.transactions && Move(s, m).result.Success?
    ensures var t := Move(s, m).result.value;
            && Move(s, m).state.transactions == s.transactions[ReferenceOf(m) := t]
            && t.amount == m.amount
            && t.status == (if m.Fund? || m.RefundOverpayment? then Completed else Processing)
            && t.kind == (if m.Fund? then ContributionKind else if m.PayOut? then m.kind else RefundKind)
            && t.potId == (if m.RefundExpired? then None else Some(m.potId))
  {
    hide Books, LegsFor, Move, BalanceIn, Net, InboundFeeLegs, OutboundFeeLegs, DrawdownLegs;
    PostEffect(s, m);
    FreshAnswer(s, m);
  }

  lemma FreshAnswer(s: Tables, m: Movement)
    requires Posts(m) && ReferenceOf(m) !in s.transactions && Move(s, m).result.Success?
    ensures var i := InputOf(m); Move(s, m).result == Success(Transaction(i.kind, i.status, i.amount, i.potId))
  {
    hide InputOf, BalanceError, SortById, ApplyAll, RowsFor;
  }

  /** An accepted posting moves every account of the ledger by its flow. */
  lemma PostMoves(s: Tables, m: Movement)
    requires Books(s) && Posts(m) && ReferenceOf(m) !in s.transactions && Move(s, m).result.Success?
    ensures forall a ::
              BalanceIn(Move(s, m).state.balances, a)
              == BalanceIn(s.balances, a)
                 + Flow(ReferenceOf(m), m.amount, if m.RefundExpired? then 0 else m.potId, a)
  {
    hide Books, LegsFor, Move, InputOf, Net, FlowOf;
    var i := InputOf(m);
    var t := Transaction(i.kind, i.status, i.amount, i.potId);
    PostEffect(s, m);
    InputLegs(m);
    forall a
      ensures Net(i.entries, a) == Flow(ReferenceOf(m), m.amount, if m.RefundExpired? then 0 else m.potId, a)
    {
      NetIsFlow(i.reference, t, a);
      InputRow(m, a);
    }
  }

  lemma InputRow(m: Movement, a: Account)
    requires Posts(m)
    ensures var i := InputOf(m);
            && !i.reference.Reversal? && ReferenceOf(m) == i.reference
            && FlowOf(i.reference, Transaction(i.kind, i.status, i.amount, i.potId), a)
               == Flow(i.reference, m.amount, if m.RefundExpired? then 0 else m.potId, a)
  {
    hide Flow;
  }

  /** An accepted reversal moves every account back by the flow of the row it reverses. */
  lemma UndoMoves(s: Tables, r: Reference)
    requires Books(s) && Live(s.transactions, r) && Move(s, Undo(r)).result.Success?
    ensures forall a ::
              BalanceIn(Move(s, Undo(r)).state.balances, a)
              == BalanceIn(s.balances, a) - FlowOf(r, s.transactions[r], a)
  {
    hide Books, LegsFor, Move, Net, FlowOf, BalanceIn;
    UndoEffect(s, r);
    forall a ensures Net(LegsFor(r, s.transactions[r]), a) == FlowOf(r, s.transactions[r], a) {
      NetIsFlow(r, s.transactions[r], a);
    }
  }

  // ----- the flows of all live transactions ----------------------------------------------------------------

  ghost function LiveRefs(ts: map<Reference, Transaction>): (refs: set<Reference>)
    ensures forall r :: r in refs <==> Live(ts, r)
  {
    set r <- ts | Live(ts, r)
  }

  predicate Known(ts: map<Reference, Transaction>, refs: set<Reference>) {
    forall r <- refs :: r in ts && !r.Reversal?
  }

  ghost function FlowSum(ts: map<Reference, Transaction>, refs: set<Reference>, a: Account): int
    requires Known(ts, refs)
  {
    if refs == {} then 0
    else
      var r :| r in refs;
      FlowOf(r, ts[r], a) + FlowSum(ts, refs - {r}, a)
  }

  lemma {:induction false} FlowSumPick(ts: map<Reference, Transaction>, refs: set<Reference>, r: Reference, a: Account)
    requires Known(ts, refs) && r in refs
    ensures FlowSum(ts, refs, a) == FlowOf(r, ts[r], a) + FlowSum(ts, refs - {r}, a)
    decreases refs
  {
    hide FlowOf;
    var q :| q in refs && FlowSum(ts, refs, a) == FlowOf(q, ts[q], a) + FlowSum(ts, refs - {q}, a);
    if q != r {
      FlowSumPick(ts, refs - {q}, r, a);
      FlowSumPick(ts, refs - {r}, q, a);
      assert refs - {q} - {r} == refs - {r} - {q};
    }
  }

  /** Only the amounts and pots of the rows matter. */
  lemma {:induction false} FlowSumSame(ts: map<Reference, Transaction>, ts': map<Reference, Transaction>,
                                       refs: set<Reference>, a: Account)
    requires Known(ts, refs) && Known(ts', refs)
    requires forall r <- refs :: ts'[r].amount == ts[r].amount && ts'[r].potId == ts[r].potId
    ensures FlowSum(ts', refs, a) == FlowSum(ts, refs, a)
    decreases refs
  {
    if refs != {} {
      var r :| r in refs;
      FlowSumPick(ts, refs, r, a);
      FlowSumPick(ts', refs, r, a);
      hide FlowSum, Flow;
      FlowSumSame(ts, ts', refs - {r}, a);
    }
  }

  /** Every balance is what the live transactions moved. */
  ghost predicate Balanced(s: Tables) {
    forall a :: BalanceIn(s.balances, a) == FlowSum(s.transactions, LiveRefs(s.transactions), a)
  }

  lemma PostKeepsFlows(s: Tables, m: Movement)
    requires Books(s) && Posts(m) && Balanced(s)
    ensures Balanced(Move(s, m).state)
  {
    hide Books, InputOf, Move, Flow, FlowSum, BalanceIn;
    var r, s' := ReferenceOf(m), Move(s, m).state;
    PostNews(s, m);
    InputRow(m, Suspense);
    InputLegs(m);
    if s' != s {
      PostEffect(s, m);
      PostMoves(s, m);
      var live := LiveRefs(s.transactions);
      assert LiveRefs(s'.transactions) == live + {r};
      forall a ensures BalanceIn(s'.balances, a) == FlowSum(s'.transactions, live + {r}, a) {
        FlowSumPick(s'.transactions, live + {r}, r, a);
        assert live + {r} - {r} == live;
        FlowSumSame(s.transactions, s'.transactions, live, a);
        InputRow(m, a);
      }
    }
  }

  lemma UndoKeepsFlows(s: Tables, r: Reference)
    requires Books(s) && !r.Reversal? && Balanced(s)
    ensures Balanced(Move(s, Undo(r)).state)
  {
    hide Books, Move, FlowOf, FlowSum, BalanceIn;
    var s' := Move(s, Undo(r)).state;
    RejectedIsNoOp(s, Undo(r));
    if !Live(s.transactions, r) {
      UndoAgainIsNoOp(s, r);
    } else if Move(s, Undo(r)).result.Success? {
      UndoEffect(s, r);
      UndoMoves(s, r);
      var live := LiveRefs(s.transactions);
      assert LiveRefs(s'.transactions) == live - {r};
      forall a ensures BalanceIn(s'.balances, a) == FlowSum(s'.transactions, live - {r}, a) {
        FlowSumPick(s.transactions, live, r, a);
        FlowSumSame(s.transactions, s'.transactions, live - {r}, a);
      }
    }
  }

  lemma CompleteKeepsFlows(s: Tables, r: Reference)
    requires Balanced(s)
    ensures Balanced(Move(s, Complete(r)).state)
  {
    hide FlowOf, FlowSum, BalanceIn;
    var s' := Move(s, Complete(r)).state;
    var live := LiveRefs(s.transactions);
    assert LiveRefs(s'.transactions) == live;
    forall a ensures BalanceIn(s'.balances, a) == FlowSum(s'.transactions, live, a) {
      FlowSumSame(s.transactions, s'.transactions, live, a);
    }
  }

  lemma MoveKeepsFlows(s: Tables, m: Movement)
    requires Books(s) && Allowed(m) && Balanced(s)
    ensures Balanced(Move(s, m).state)
  {
    hide Books, Balanced, Move;
    match m
    case Undo(r) => UndoKeepsFlows(s, r);
    case Complete(r) => CompleteKeepsFlows(s, r);
    case _ => PostKeepsFlows(s, m);
  }

  lemma {:induction false} RunKeepsFlows(s: Tables, ms: seq<Movement>)
    requires Books(s) && Balanced(s) && forall m <- ms :: Allowed(m)
    ensures Balanced(MoveAll(s, ms))
    decreases |ms|
  {
    hide Books, Balanced, Move, Allowed;
    if ms != [] {
      assert Allowed(ms[0]);
      MoveKeepsFlows(s, ms[0]);
      MoveKeepsBooks(s, ms[0]);
      RunKeepsFlows(Move(s, ms[0]).state, ms[1..]);
    }
  }

  /** After every run of postings, completions and reversals, each account holds exactly what the transactions
      not reversed have moved, each by its own flow: no fee is booked twice, missed or at another rate. */
  lemma BalancesAreFlows(ids: map<Account, nat>, ms: seq<Movement>, a: Account)
    requires forall m <- ms :: Allowed(m)
    ensures var s := MoveAll(EmptyTables(ids), ms);
            BalanceIn(s.balances, a) == FlowSum(s.transactions, LiveRefs(s.transactions), a)
  {
    var s0 := EmptyTables(ids);
    EveryRunKeepsBooks(ids, []);
    assert LiveRefs(s0.transactions) == {};
    RunKeepsFlows(s0, ms);
  }
}
