/** The accounting identity of every run, what an accepted transfer does to each account, and why a
    reversal leaves the books as if the transfer had never been made. */
module Identity {
  import opened Wrappers
  import opened Ledger
  import opened LedgerFacts
  import opened Fees
  import opened Movements

  // ----- effects of accepted movements -----------------------------------------------------------

  predicate Posts(m: Movement) {
    !m.Undo? && !m.Complete?
  }

  /** An accepted posting of a fresh reference: which rows it adds and how each balance moves. */
  lemma PostEffect(s: Tables, m: Movement)
    requires Books(s) && Posts(m) && InputOf(m).reference !in s.transactions && Move(s, m).result.Success?
    ensures var i := InputOf(m);
            var s' := Move(s, m).state;
            && s'.ids == s.ids
            && s'.transactions == s.transactions[i.reference := Transaction(i.kind, i.status, i.amount, i.potId)]
            && (forall a :: BalanceIn(s'.balances, a) == BalanceIn(s.balances, a) + Net(i.entries, a))
            && (forall e <- i.entries :: e.account in s.ids && e.amount > 0)
  {
    hide InputOf, Books;
    var i := InputOf(m);
    var s' := Move(s, m).state;
    PostCases(s, i);
    forall a ensures BalanceIn(s'.balances, a) == BalanceIn(s.balances, a) + Net(i.entries, a) {
      AppendsNet(s, i, s', a);
    }
  }

  predicate ReadyToPost(s: Tables, i: PostInput) {
    && i.reference !in s.transactions
    && BalanceError(i.entries) == None
    && (forall e <- i.entries :: e.account in s.ids)
  }

  lemma CoveredSorted(b: Balances, entries: seq<EntryInput>, ids: map<Account, nat>)
    requires forall e <- entries :: e.account in ids
    requires DistinctAccounts(entries)
    ensures ApplyAll(b, SortById(entries, ids)).Success? <==> forall e <- entries :: Covered(b, e)
  {
    hide SortById, ApplyAll, EntryInput.Signed, BalanceIn;
    var sorted := SortById(entries, ids);
    SortDistinct(entries, ids);
    DistinctAcceptedIff(b, sorted);
    hide DistinctAccounts;
    assert forall x :: x in entries <==> x in multiset(entries);
    assert forall x :: x in sorted <==> x in multiset(sorted);
    if forall e <- entries :: Covered(b, e) {
      forall i | 0 <= i < |sorted| ensures BalanceIn(b, sorted[i].account) + sorted[i].Signed() >= 0 {
        assert sorted[i] in sorted;
        assert Covered(b, sorted[i]);
      }
    } else {
      var e :| e in entries && !Covered(b, e);
      var i :| 0 <= i < |sorted| && sorted[i] == e;
      assert BalanceIn(b, sorted[i].account) + sorted[i].Signed() < 0;
    }
  }

  /** A posting of builder legs that is otherwise in order is accepted exactly when every leg is covered. */
  lemma PostAcceptedIff(s: Tables, m: Movement)
    requires Posts(m) && ReadyToPost(s, InputOf(m))
    ensures Move(s, m).result.Success? <==> forall e <- InputOf(m).entries :: Covered(s.balances, e)
  {
    hide InputOf, LegsFor, DistinctAccounts, ApplyAll, SortById, BalanceError, Covered, EntryInput.Signed, RowsFor, Net;
    var i := InputOf(m);
    InputLegs(m);
    LegsShape(i.reference, Transaction(i.kind, i.status, i.amount, i.potId));
    CoveredSorted(s.balances, i.entries, s.ids);
  }

  lemma DrawdownInOrder(source: Account, amount: int)
    requires amount > 0
    ensures BalanceError(DrawdownLegs(source, amount)) == None
  {
    var legs := DrawdownLegs(source, amount);
    assert Total(legs, Debit) == amount + OUTBOUND_FEE + NOMBA_OUTBOUND_FEE by {
      assert legs[1..][1..] == legs[2..] && legs[2..][1..] == legs[3..] && legs[3..][1..] == legs[4..];
      assert Total(legs[4..], Debit) == 0;
      assert Total(legs[3..], Debit) == NOMBA_OUTBOUND_FEE;
      assert Total(legs[2..], Debit) == NOMBA_OUTBOUND_FEE;
      assert Total(legs[1..], Debit) == NOMBA_OUTBOUND_FEE;
    }
    assert Total(legs, Credit) == amount + OUTBOUND_FEE + NOMBA_OUTBOUND_FEE by {
      assert legs[1..][1..] == legs[2..] && legs[2..][1..] == legs[3..] && legs[3..][1..] == legs[4..];
      assert Total(legs[4..], Credit) == NOMBA_OUTBOUND_FEE;
      assert Total(legs[3..], Credit) == NOMBA_OUTBOUND_FEE;
      assert Total(legs[2..], Credit) == NOMBA_OUTBOUND_FEE + PLATFORM_OUTBOUND_FEE;
    }
  }

  lemma InboundInOrder(potId: nat, intended: int)
    requires intended > 0
    ensures BalanceError(InboundFeeLegs(potId, intended)) == None
  {
    var legs := InboundFeeLegs(potId, intended);
    var fee := NombaInboundFeeFor(intended);
    assert Total(legs, Debit) == intended + PLATFORM_INBOUND_FEE + fee by {
      assert legs[1..][1..] == legs[2..] && legs[2..][1..] == legs[3..] && legs[3..][1..] == legs[4..];
      assert Total(legs[4..], Debit) == 0;
      assert Total(legs[3..], Debit) == fee;
      assert Total(legs[2..], Debit) == fee;
    }
    assert Total(legs, Credit) == intended + PLATFORM_INBOUND_FEE + fee by {
      assert legs[1..][1..] == legs[2..] && legs[2..][1..] == legs[3..] && legs[3..][1..] == legs[4..];
      assert Total(legs[4..], Credit) == fee;
      assert Total(legs[3..], Credit) == fee;
      assert Total(legs[2..], Credit) == fee + PLATFORM_INBOUND_FEE;
    }
  }

  predicate HasAccounts(s: Tables, potId: nat) {
    {Pot(potId), PlatformFloat, PlatformRevenue, Suspense, NombaFeeExpense, NombaClearing} <= s.ids.Keys
  }

  lemma PotNet(potId: nat, amount: int, a: Account)
    requires a.Pot?
    ensures Net(OutboundFeeLegs(potId, amount), a) == if a == Pot(potId) then -amount - OUTBOUND_FEE else 0
    ensures Net(DrawdownLegs(Suspense, amount), a) == 0
    ensures Net(InboundFeeLegs(potId, amount), a) == if a == Pot(potId) then amount else 0
  {
    NetOfFive(OutboundFeeLegs(potId, amount), a);
    NetOfFive(DrawdownLegs(Suspense, amount), a);
    NetOfFive(InboundFeeLegs(potId, amount), a);
  }

  lemma FloatNet(potId: nat, amount: int)
    ensures Net(InboundFeeLegs(potId, amount), PlatformFloat) == amount + PLATFORM_INBOUND_FEE
  {
    NetOfFive(InboundFeeLegs(potId, amount), PlatformFloat);
  }

  /** Which balances decide whether a drawdown is covered. */
  lemma DrawdownCoveredIff(s: Tables, source: Account, amount: int)
    requires Books(s) && amount > 0 && (source.Pot? || source == Suspense)
    ensures (forall e <- DrawdownLegs(source, amount) :: Covered(s.balances, e))
            <==> && (source.Pot? ==> BalanceIn(s.balances, source) >= amount + OUTBOUND_FEE)
                 && BalanceIn(s.balances, PlatformFloat) >= amount + NOMBA_OUTBOUND_FEE
  {
    NonNegative(s, Suspense);
    NonNegative(s, PlatformRevenue);
    NonNegative(s, NombaFeeExpense);
    NonNegative(s, NombaClearing);
    hide Books;
    var legs := DrawdownLegs(source, amount);
    assert legs[0] in legs && legs[1] in legs;
  }

  /** A payout or refund of a pot is posted exactly when the pot covers amount and fee and the float
      covers amount and the provider's fee. */
  lemma PayOutAcceptedIff(s: Tables, kind: Kind, jobId: nat, potId: nat, amount: int)
    requires Books(s) && HasAccounts(s, potId) && amount > 0 && Disbursement(jobId) !in s.transactions
    ensures Move(s, PayOut(kind, jobId, potId, amount)).result.Success?
            <==> && BalanceIn(s.balances, Pot(potId)) >= amount + OUTBOUND_FEE
                 && BalanceIn(s.balances, PlatformFloat) >= amount + NOMBA_OUTBOUND_FEE
  {
    hide Books, Move;
    var m := PayOut(kind, jobId, potId, amount);
    DrawdownInOrder(Pot(potId), amount);
    hide BalanceError;
    assert forall e <- DrawdownLegs(Pot(potId), amount) :: e.account in s.ids;
    PostAcceptedIff(s, m);
    DrawdownCoveredIff(s, Pot(potId), amount);
  }

  /** Once posted, the pot alone among pots has paid, exactly amount and fee. */
  lemma PayOutEffect(s: Tables, kind: Kind, jobId: nat, potId: nat, amount: int)
    requires Books(s) && Disbursement(jobId) !in s.transactions
    requires Move(s, PayOut(kind, jobId, potId, amount)).result.Success?
    ensures var s' := Move(s, PayOut(kind, jobId, potId, amount)).state;
            && s'.ids == s.ids
            && s'.transactions
               == s.transactions[Disbursement(jobId) := Transaction(kind, Processing, amount, Some(potId))]
            && BalanceIn(s'.balances, Pot(potId)) == BalanceIn(s.balances, Pot(potId)) - amount - OUTBOUND_FEE
            && forall q: nat :: q != potId ==> BalanceIn(s'.balances, Pot(q)) == BalanceIn(s.balances, Pot(q))
  {
    hide Books, Move, InboundFeeLegs, OutboundFeeLegs, DrawdownLegs;
    PostEffect(s, PayOut(kind, jobId, potId, amount));
    forall q: nat { PotNet(potId, amount, Pot(q)); }
  }

  /** Funding only adds to balances, so nothing but a bad amount or a missing account can reject it. */
  lemma FundAccepted(s: Tables, id: nat, potId: nat, amount: int)
    requires Books(s) && HasAccounts(s, potId) && amount > 0 && Contribution(id) !in s.transactions
    ensures Move(s, Fund(id, potId, amount)).result.Success?
  {
    hide Books, Move;
    var m := Fund(id, potId, amount);
    InboundInOrder(potId, amount);
    hide BalanceError;
    assert forall e <- InboundFeeLegs(potId, amount) :: e.account in s.ids;
    PostAcceptedIff(s, m);
    forall e | e in InboundFeeLegs(potId, amount) ensures Covered(s.balances, e) {
      NonNegativeBooks(s, e.account);
    }
  }

  lemma NonNegativeBooks(s: Tables, a: Account)
    requires Books(s)
    ensures BalanceIn(s.balances, a) >= 0
  {
    hide Consistent;
    NonNegative(s, a);
  }

  /** A funded contribution credits its pot the intended amount, never the gross one. */
  lemma FundEffect(s: Tables, id: nat, potId: nat, amount: int)
    requires Books(s) && Contribution(id) !in s.transactions && Move(s, Fund(id, potId, amount)).result.Success?
    ensures var s' := Move(s, Fund(id, potId, amount)).state;
            && s'.ids == s.ids
            && s'.transactions
               == s.transactions[Contribution(id) := Transaction(ContributionKind, Completed, amount, Some(potId))]
            && BalanceIn(s'.balances, Pot(potId)) == BalanceIn(s.balances, Pot(potId)) + amount
            && BalanceIn(s'.balances, PlatformFloat)
               == BalanceIn(s.balances, PlatformFloat) + amount + PLATFORM_INBOUND_FEE
            && forall q: nat :: q != potId ==> BalanceIn(s'.balances, Pot(q)) == BalanceIn(s.balances, Pot(q))
  {
    hide Books, Move, InboundFeeLegs, OutboundFeeLegs, DrawdownLegs, Net;
    PostEffect(s, Fund(id, potId, amount));
    FloatNet(potId, amount);
    forall q: nat { PotNet(potId, amount, Pot(q)); }
  }

  /** An overpayment refund draws on the float alone: that is the one thing that can reject it. */
  lemma OverpaymentRefundAcceptedIff(s: Tables, paymentId: nat, potId: nat, amount: int)
    requires Books(s) && HasAccounts(s, potId) && amount > 0 && OverpaymentRefund(paymentId) !in s.transactions
    ensures Move(s, RefundOverpayment(paymentId, potId, amount)).result.Success?
            <==> BalanceIn(s.balances, PlatformFloat) >= amount + NOMBA_OUTBOUND_FEE
  {
    hide Books, Move;
    var m := RefundOverpayment(paymentId, potId, amount);
    DrawdownInOrder(Suspense, amount);
    hide BalanceError;
    assert forall e <- DrawdownLegs(Suspense, amount) :: e.account in s.ids;
    PostAcceptedIff(s, m);
    DrawdownCoveredIff(s, Suspense, amount);
  }

  /** No pot pays for an overpayment refund. */
  lemma OverpaymentRefundEffect(s: Tables, paymentId: nat, potId: nat, amount: int)
    requires Books(s)
    ensures var s' := Move(s, RefundOverpayment(paymentId, potId, amount)).state;
            forall q: nat :: BalanceIn(s'.balances, Pot(q)) == BalanceIn(s.balances, Pot(q))
  {
    hide Books, Move, Net, BalanceIn, DrawdownLegs, OutboundFeeLegs, InboundFeeLegs;
    var m := RefundOverpayment(paymentId, potId, amount);
    if Move(s, m).result.Failure? {
      RejectedIsNoOp(s, m);
    } else if OverpaymentRefund(paymentId) in s.transactions {
      PostRepeated(s, m);
    } else {
      PostEffect(s, m);
      forall q: nat { PotNet(potId, amount, Pot(q)); }
    }
  }

  /** Reversing a payout gives its pot back exactly what it paid and leaves every other pot alone. */
  lemma UndoPayOutEffect(s: Tables, jobId: nat)
    requires Books(s) && Live(s.transactions, Disbursement(jobId))
    ensures var t := s.transactions[Disbursement(jobId)];
            var p := Move(s, Undo(Disbursement(jobId)));
            && p.result.Success?
            && BalanceIn(p.state.balances, Pot(PotOf(t)))
               == BalanceIn(s.balances, Pot(PotOf(t))) + t.amount + OUTBOUND_FEE
            && forall q: nat :: q != PotOf(t) ==> BalanceIn(p.state.balances, Pot(q)) == BalanceIn(s.balances, Pot(q))
  {
    var r := Disbursement(jobId);
    var t := s.transactions[r];
    OutboundUndoAccepted(s, r);
    UndoEffect(s, r);
    hide Books, Move;
    forall a: Account | a.Pot?
      ensures Net(LegsFor(r, t), a) == if a == Pot(PotOf(t)) then -t.amount - OUTBOUND_FEE else 0
    {
      NetOfFive(LegsFor(r, t), a);
    }
  }

  /** Reversing a contribution takes exactly its intended amount back out of its pot. */
  lemma UndoFundEffect(s: Tables, id: nat)
    requires Books(s) && Live(s.transactions, Contribution(id)) && Move(s, Undo(Contribution(id))).result.Success?
    ensures var t := s.transactions[Contribution(id)];
            var s' := Move(s, Undo(Contribution(id))).state;
            && BalanceIn(s'.balances, Pot(PotOf(t))) == BalanceIn(s.balances, Pot(PotOf(t))) - t.amount
            && forall q: nat :: q != PotOf(t) ==> BalanceIn(s'.balances, Pot(q)) == BalanceIn(s.balances, Pot(q))
  {
    var r := Contribution(id);
    var t := s.transactions[r];
    UndoEffect(s, r);
    hide Books, Move;
    forall a: Account | a.Pot? ensures Net(LegsFor(r, t), a) == if a == Pot(PotOf(t)) then t.amount else 0 {
      NetOfFive(LegsFor(r, t), a);
    }
  }

  // ----- the identity ------------------------------------------------------------------------------

  /** The provider's fee is expensed and cleared in equal amounts, and nothing is ever settled directly. */
  ghost predicate ContraPair(s: Tables) {
    && BalanceIn(s.balances, NombaFeeExpense) == BalanceIn(s.balances, NombaClearing)
    && BalanceIn(s.balances, ProviderSettlement) == 0
  }

  lemma PostNews(s: Tables, m: Movement)
    requires Posts(m)
    ensures Move(s, m).state == s || (InputOf(m).reference !in s.transactions && Move(s, m).result.Success?)
  {
    PostCases(s, InputOf(m));
  }

  lemma PostKeepsContraPair(s: Tables, m: Movement)
    requires Books(s) && Posts(m) && ContraPair(s)
    ensures ContraPair(Move(s, m).state)
  {
    hide Books, InputOf, Move, LegsFor;
    var i := InputOf(m);
    PostNews(s, m);
    if i.reference !in s.transactions && Move(s, m).result.Success? {
      PostEffect(s, m);
      InputLegs(m);
      LegsShape(i.reference, Transaction(i.kind, i.status, i.amount, i.potId));
    }
  }

  lemma UndoKeepsContraPair(s: Tables, r: Reference)
    requires Books(s) && !r.Reversal? && ContraPair(s)
    ensures ContraPair(Move(s, Undo(r)).state)
  {
    hide Books, LegsFor;
    if !Live(s.transactions, r) {
      UndoAgainIsNoOp(s, r);
    } else if Move(s, Undo(r)).result.Success? {
      UndoEffect(s, r);
      hide Move;
      LegsShape(r, s.transactions[r]);
    }
  }

  lemma MoveKeepsContraPair(s: Tables, m: Movement)
    requires Books(s) && Allowed(m) && ContraPair(s)
    ensures ContraPair(Move(s, m).state)
  {
    hide Books;
    match m
    case Complete(_) =>
    case Undo(r) => UndoKeepsContraPair(s, r);
    case _ => PostKeepsContraPair(s, m);
  }

  lemma MoveKeepsTrialBalance(s: Tables, m: Movement)
    requires TrialBalances(s)
    ensures TrialBalances(Move(s, m).state)
  {
    match m
    case Complete(_) =>
    case Undo(r) =>
      if r in s.transactions {
        PostKeepsTrialBalance(s, ReversalInput(s, r, Reversal(r)));
      }
    case _ => PostKeepsTrialBalance(s, InputOf(m));
  }

  lemma {:induction false} RunKeepsIdentity(s: Tables, ms: seq<Movement>)
    requires Books(s) && ContraPair(s) && TrialBalances(s) && forall m <- ms :: Allowed(m)
    ensures Books(MoveAll(s, ms)) && ContraPair(MoveAll(s, ms)) && TrialBalances(MoveAll(s, ms))
    decreases |ms|
  {
    if ms != [] {
      var m := ms[0];
      MoveKeepsBooks(s, m);
      MoveKeepsContraPair(s, m);
      MoveKeepsTrialBalance(s, m);
      hide Books, ContraPair, TrialBalances, Move;
      RunKeepsIdentity(Move(s, m).state, ms[1..]);
    }
  }

  ghost function PotAccounts(s: Tables): set<Account> {
    set a <- s.ids.Keys | a.Pot?
  }

  lemma SumOfSplit(b: Balances, accounts: set<Account>, rest: set<Account>, a: Account)
    requires accounts - {a} == rest && a !in rest
    requires a !in accounts ==> BalanceIn(b, a) == 0
    ensures SumOf(b, accounts) == BalanceIn(b, a) + SumOf(b, rest)
  {
    if a in accounts {
      SumOfPick(b, accounts, a);
    } else {
      assert accounts == rest;
    }
  }

  lemma DebitSplit(s: Tables)
    requires forall a :: a !in s.ids ==> BalanceIn(s.balances, a) == 0
    ensures SumOf(s.balances, WithNormal(s, Debit))
            == BalanceIn(s.balances, PlatformFloat) + BalanceIn(s.balances, Suspense)
               + BalanceIn(s.balances, NombaFeeExpense) + BalanceIn(s.balances, ProviderSettlement)
  {
    hide SumOf, BalanceIn;
    var b, debits := s.balances, WithNormal(s, Debit);
    var d1 := debits - {PlatformFloat};
    var d2 := d1 - {Suspense};
    var d3 := d2 - {NombaFeeExpense};
    SumOfSplit(b, debits, d1, PlatformFloat);
    SumOfSplit(b, d1, d2, Suspense);
    SumOfSplit(b, d2, d3, NombaFeeExpense);
    SumOfSplit(b, d3, {}, ProviderSettlement);
    assert SumOf(b, {}) == 0 by { SumOfNone(b); }
  }

  lemma SumOfNone(b: Balances)
    ensures SumOf(b, {}) == 0
  {}

  lemma CreditSplit(s: Tables)
    requires forall a :: a !in s.ids ==> BalanceIn(s.balances, a) == 0
    ensures SumOf(s.balances, WithNormal(s, Credit))
            == BalanceIn(s.balances, PlatformRevenue) + BalanceIn(s.balances, NombaClearing)
               + SumOf(s.balances, PotAccounts(s))
  {
    hide SumOf, BalanceIn;
    var b, credits := s.balances, WithNormal(s, Credit);
    var c1 := credits - {PlatformRevenue};
    SumOfSplit(b, credits, c1, PlatformRevenue);
    SumOfSplit(b, c1, PotAccounts(s), NombaClearing);
  }

  /** The identity follows from the trial balance once the two contra accounts cancel. */
  lemma IdentityFromTrialBalance(s: Tables)
    requires Books(s) && ContraPair(s) && TrialBalances(s)
    ensures BalanceIn(s.balances, PlatformFloat) + BalanceIn(s.balances, Suspense)
            == SumOf(s.balances, PotAccounts(s)) + BalanceIn(s.balances, PlatformRevenue)
  {
    assert forall a :: a !in s.ids ==> BalanceIn(s.balances, a) == 0;
    hide Books, SumOf, BalanceIn, WithNormal, PotAccounts;
    DebitSplit(s);
    CreditSplit(s);
  }

  /** Over every run of postings and reversals: float and suspense together hold exactly what the pots
      and the platform's revenue are owed, and the provider's fee expense equals its clearing. */
  lemma AccountingIdentity(ids: map<Account, nat>, ms: seq<Movement>)
    requires forall m <- ms :: Allowed(m)
    ensures var s := MoveAll(EmptyTables(ids), ms);
            && BalanceIn(s.balances, PlatformFloat) + BalanceIn(s.balances, Suspense)
               == SumOf(s.balances, PotAccounts(s)) + BalanceIn(s.balances, PlatformRevenue)
            && BalanceIn(s.balances, NombaFeeExpense) == BalanceIn(s.balances, NombaClearing)
  {
    var s0 := EmptyTables(ids);
    EmptySum(WithNormal(s0, Debit));
    EmptySum(WithNormal(s0, Credit));
    RunKeepsIdentity(s0, ms);
    IdentityFromTrialBalance(MoveAll(s0, ms));
  }

  // ----- as if it had never been posted -----------------------------------------------------------

  predicate AllAccepted(s: Tables, ms: seq<Movement>)
    decreases |ms|
  {
    ms == [] || (Move(s, ms[0]).result.Success? && AllAccepted(Move(s, ms[0]).state, ms[1..]))
  }

  function ReferenceOf(m: Movement): Reference {
    match m
    case Undo(r) => r
    case Complete(r) => r
    case _ => InputOf(m).reference
  }

  predicate Outbound(r: Reference) {
    !r.Contribution? && !r.Reversal?
  }

  /** The first table holds the second's rows, and besides them only `r` and perhaps its reversal. */
  ghost predicate OnlyMore(t1: map<Reference, Transaction>, t2: map<Reference, Transaction>, r: Reference) {
    && r in t1 && r !in t2 && Reversal(r) !in t2
    && (Reversal(r) in t1 ==> t1[Reversal(r)].status == Completed)
    && (forall q :: q != r && q != Reversal(r) ==> (q in t1 <==> q in t2))
    && (forall q <- t2 :: t1[q] == t2[q])
  }

  /** What an outbound transaction still weighs in an account: nothing once it is reversed. */
  function Weight(s: Tables, r: Reference, a: Account): int
    requires r in s.transactions && Outbound(r)
  {
    if Live(s.transactions, r) then Net(LegsFor(r, s.transactions[r]), a) else 0
  }

  /** Two books that differ by one outbound transaction, live or reversed since, and nothing else. */
  ghost predicate Twin(s1: Tables, s2: Tables, r: Reference) {
    && Books(s1) && Books(s2) && s1.ids == s2.ids
    && Outbound(r) && OnlyMore(s1.transactions, s2.transactions, r)
    && forall a :: BalanceIn(s1.balances, a) == BalanceIn(s2.balances, a) + Weight(s1, r, a)
  }

  lemma OutboundNetSign(s: Tables, r: Reference, a: Account)
    requires Books(s) && Outbound(r) && r in s.transactions && (a.Pot? || a.PlatformFloat?)
    ensures Net(LegsFor(r, s.transactions[r]), a) <= 0
  {
    var legs := LegsFor(r, s.transactions[r]);
    LegsShape(r, s.transactions[r]);
    forall i | 0 <= i < 5 ensures Net([legs[i]], a) <= 0 {
      assert legs[i] in legs;
      LegsPositive(s, r, legs[i]);
    }
    hide LegsFor, Books;
    NetOfFive(legs, a);
  }

  lemma TwinHoldsMore(s1: Tables, s2: Tables, r: Reference, a: Account)
    requires Twin(s1, s2, r) && (a.Pot? || a.PlatformFloat?)
    ensures BalanceIn(s2.balances, a) >= BalanceIn(s1.balances, a)
  {
    OutboundNetSign(s1, r, a);
  }

  /** Which legs of a posting can lower a balance at all. */
  lemma OnlyPotAndFloatFall(m: Movement, e: EntryInput)
    requires Posts(m) && e in InputOf(m).entries && e.amount > 0 && e.Signed() < 0
    ensures e.account.Pot? || e.account.PlatformFloat?
  {}

  lemma TwinPostAccepted(s1: Tables, s2: Tables, r: Reference, m: Movement)
    requires Twin(s1, s2, r) && Posts(m) && InputOf(m).reference !in s1.transactions && Move(s1, m).result.Success?
    ensures InputOf(m).reference !in s2.transactions && Move(s2, m).result.Success?
  {
    var i := InputOf(m);
    hide InputOf;
    PostCases(s1, i);
    assert ReadyToPost(s1, i) && ReadyToPost(s2, i);
    PostAcceptedIff(s1, m);
    forall e | e in i.entries ensures Covered(s2.balances, e) {
      PostEffect(s1, m);
      if e.Signed() >= 0 {
        NonNegative(s2, e.account);
      } else {
        OnlyPotAndFloatFall(m, e);
        TwinHoldsMore(s1, s2, r, e.account);
        assert Covered(s1.balances, e);
      }
    }
    PostAcceptedIff(s2, m);
  }

  lemma PostRepeated(s: Tables, m: Movement)
    requires Posts(m) && InputOf(m).reference in s.transactions
    ensures Move(s, m).state == s
    ensures Move(s, m).result.Success? <==> BalanceError(InputOf(m).entries) == None
  {}

  /** A change made to both books that spares the transaction they differ by. */
  lemma StillTwin(s1: Tables, s2: Tables, s1': Tables, s2': Tables, r: Reference)
    requires Twin(s1, s2, r) && Books(s1') && Books(s2') && s1'.ids == s2'.ids
    requires OnlyMore(s1'.transactions, s2'.transactions, r) && s1'.transactions[r] == s1.transactions[r]
    requires forall a :: BalanceIn(s1'.balances, a) - BalanceIn(s1.balances, a)
                         == BalanceIn(s2'.balances, a) - BalanceIn(s2.balances, a)
    ensures Twin(s1', s2', r)
  {
    hide Books, BalanceIn, LegsFor, Net;
    assert forall a :: Weight(s1', r, a) == Weight(s1, r, a);
    hide OnlyMore, Weight, Live;
  }

  lemma TwinPost(s1: Tables, s2: Tables, r: Reference, m: Movement)
    requires Twin(s1, s2, r) && Posts(m) && ReferenceOf(m) != r && Move(s1, m).result.Success?
    ensures Move(s2, m).result.Success? && Twin(Move(s1, m).state, Move(s2, m).state, r)
  {
    hide InputOf, Books, BalanceError, LegsFor, Move;
    var i := InputOf(m);
    assert ReferenceOf(m) == i.reference;
    InputLegs(m);
    PostKeepsBooks(s1, m);
    PostKeepsBooks(s2, m);
    if i.reference in s1.transactions {
      PostRepeated(s1, m);
      PostRepeated(s2, m);
    } else {
      TwinPostAccepted(s1, s2, r, m);
      PostEffect(s1, m);
      PostEffect(s2, m);
      hide BalanceIn, Net;
      StillTwin(s1, s2, Move(s1, m).state, Move(s2, m).state, r);
    }
  }

  lemma TwinUndoAccepted(s1: Tables, s2: Tables, r: Reference, q: Reference)
    requires Twin(s1, s2, r) && q != r && Live(s1.transactions, q) && Move(s1, Undo(q)).result.Success?
    ensures Live(s2.transactions, q) && Move(s2, Undo(q)).result.Success?
  {
    hide Move;
    if q.Contribution? {
      var potId := PotOf(s1.transactions[q]);
      FundingUndoAcceptedIff(s1, q.contributionId);
      FundingUndoAcceptedIff(s2, q.contributionId);
      TwinHoldsMore(s1, s2, r, Pot(potId));
      TwinHoldsMore(s1, s2, r, PlatformFloat);
    } else {
      OutboundUndoAccepted(s2, q);
    }
  }

  lemma ReversalOnRecord(s: Tables, q: Reference)
    requires Books(s) && Live(s.transactions, q) && Move(s, Undo(q)).result.Success?
    ensures var s' := Move(s, Undo(q)).state;
            && Reversal(q) in s'.transactions
            && s'.transactions[Reversal(q)] == Transaction(ReversalKind, Completed, s.transactions[q].amount, None)
  {
    UndoPosts(s, q);
  }

  /** How the reversal of another live transaction changes the rows. */
  ghost predicate UndoneRows(t: map<Reference, Transaction>, t': map<Reference, Transaction>, q: Reference)
    requires q in t
  {
    && t'.Keys == t.Keys + {Reversal(q)}
    && t'[q] == t[q].(status := Reversed)
    && t'[Reversal(q)] == Transaction(ReversalKind, Completed, t[q].amount, None)
    && forall p <- t :: p != q ==> t'[p] == t[p]
  }

  lemma MoreUndone(t1: map<Reference, Transaction>, t2: map<Reference, Transaction>,
                   t1': map<Reference, Transaction>, t2': map<Reference, Transaction>, r: Reference, q: Reference)
    requires OnlyMore(t1, t2, r) && q != r && !q.Reversal? && !r.Reversal? && q in t1
    requires Reversal(q) !in t1 && Reversal(q) !in t2
    requires UndoneRows(t1, t1', q) && UndoneRows(t2, t2', q)
    ensures OnlyMore(t1', t2', r) && t1'[r] == t1[r]
  {}

  lemma TwinUndoLive(s1: Tables, s2: Tables, r: Reference, q: Reference)
    requires Twin(s1, s2, r) && q != r && Live(s1.transactions, q) && Live(s2.transactions, q)
    requires Move(s1, Undo(q)).result.Success? && Move(s2, Undo(q)).result.Success?
    ensures Twin(Move(s1, Undo(q)).state, Move(s2, Undo(q)).state, r)
  {
    hide Books, Net, LegsFor, BalanceIn, Weight;
    UndoEffect(s1, q);
    UndoEffect(s2, q);
    UndoKeepsBooks(s1, q);
    UndoKeepsBooks(s2, q);
    ReversalOnRecord(s1, q);
    ReversalOnRecord(s2, q);
    LiveIsNotReversed(s1, q);
    LiveIsNotReversed(s2, q);
    hide Move;
    assert s1.transactions[q] == s2.transactions[q];
    hide OnlyMore;
    var s1', s2' := Move(s1, Undo(q)).state, Move(s2, Undo(q)).state;
    MoreUndone(s1.transactions, s2.transactions, s1'.transactions, s2'.transactions, r, q);
    hide Live, UndoneRows;
    StillTwin(s1, s2, s1', s2', r);
  }

  lemma TwinUndo(s1: Tables, s2: Tables, r: Reference, q: Reference)
    requires Twin(s1, s2, r) && q != r && !q.Reversal? && Move(s1, Undo(q)).result.Success?
    ensures Move(s2, Undo(q)).result.Success? && Twin(Move(s1, Undo(q)).state, Move(s2, Undo(q)).state, r)
  {
    hide Books;
    if !Live(s1.transactions, q) {
      UndoAgainIsNoOp(s1, q);
      UndoAgainIsNoOp(s2, q);
      assert q in s1.transactions;
    } else {
      TwinUndoAccepted(s1, s2, r, q);
      TwinUndoLive(s1, s2, r, q);
    }
  }

  lemma TwinComplete(s1: Tables, s2: Tables, r: Reference, q: Reference)
    requires Twin(s1, s2, r) && q != r && Move(s1, Complete(q)).result.Success?
    ensures Move(s2, Complete(q)).result.Success? && Twin(Move(s1, Complete(q)).state, Move(s2, Complete(q)).state, r)
  {
    hide Books, Net, LegsFor, InputOf, BalanceIn;
    CompleteKeepsBooks(s1, q);
    CompleteKeepsBooks(s2, q);
    StillTwin(s1, s2, Move(s1, Complete(q)).state, Move(s2, Complete(q)).state, r);
  }

  lemma TwinMove(s1: Tables, s2: Tables, r: Reference, m: Movement)
    requires Twin(s1, s2, r) && Allowed(m) && ReferenceOf(m) != r && Move(s1, m).result.Success?
    ensures Move(s2, m).result.Success? && Twin(Move(s1, m).state, Move(s2, m).state, r)
  {
    hide Twin, Move;
    match m
    case Undo(q) => TwinUndo(s1, s2, r, q);
    case Complete(q) => TwinComplete(s1, s2, r, q);
    case _ => TwinPost(s1, s2, r, m);
  }

  lemma OwnUndo(s1: Tables, s2: Tables, r: Reference)
    requires Twin(s1, s2, r)
    ensures var undone := Move(s1, Undo(r));
            undone.result.Success? && !Live(undone.state.transactions, r) && Twin(undone.state, s2, r)
  {
    hide Books, LegsFor;
    if Live(s1.transactions, r) {
      OutboundUndoAccepted(s1, r);
      UndoEffect(s1, r);
      UndoKeepsBooks(s1, r);
      ReversalOnRecord(s1, r);
      hide Move;
    } else {
      UndoAgainIsNoOp(s1, r);
    }
  }

  lemma OwnComplete(s1: Tables, s2: Tables, r: Reference)
    requires Twin(s1, s2, r) && Move(s1, Complete(r)).result.Success?
    ensures Twin(Move(s1, Complete(r)).state, s2, r)
  {
    hide Books, Net, LegsFor, InputOf, BalanceIn;
    CompleteKeepsBooks(s1, r);
    LegsIgnoreStatus(r, s1.transactions[r], Move(s1, Complete(r)).state.transactions[r]);
  }

  /** Completing, repeating or reversing the transfer itself leaves the books it is compared with alone. */
  lemma OwnMove(s1: Tables, s2: Tables, r: Reference, m: Movement)
    requires Twin(s1, s2, r) && ReferenceOf(m) == r && Move(s1, m).result.Success?
    ensures Twin(Move(s1, m).state, s2, r)
  {
    match m
    case Undo(_) => OwnUndo(s1, s2, r);
    case Complete(_) => OwnComplete(s1, s2, r);
    case _ => PostRepeated(s1, m);
  }

  /** The movements of a run that name another transaction. */
  function Others(ms: seq<Movement>, r: Reference): seq<Movement> {
    if ms == [] then [] else (if ReferenceOf(ms[0]) == r then [] else [ms[0]]) + Others(ms[1..], r)
  }

  lemma {:induction false} TwinRun(s1: Tables, s2: Tables, r: Reference, ms: seq<Movement>)
    requires Twin(s1, s2, r) && AllAccepted(s1, ms) && forall m <- ms :: Allowed(m)
    ensures AllAccepted(s2, Others(ms, r)) && Twin(MoveAll(s1, ms), MoveAll(s2, Others(ms, r)), r)
    decreases |ms|
  {
    hide Twin, Move, ReferenceOf;
    if ms != [] {
      var rest := Others(ms[1..], r);
      if ReferenceOf(ms[0]) == r {
        OwnMove(s1, s2, r, ms[0]);
        TwinRun(Move(s1, ms[0]).state, s2, r, ms[1..]);
        assert Others(ms, r) == rest;
      } else {
        TwinMove(s1, s2, r, ms[0]);
        TwinRun(Move(s1, ms[0]).state, Move(s2, ms[0]).state, r, ms[1..]);
        assert ([ms[0]] + rest)[1..] == rest;
      }
    }
  }

  lemma NoReversalYet(s: Tables, r: Reference)
    requires Books(s) && r !in s.transactions
    ensures Reversal(r) !in s.transactions
  {
    hide Consistent;
    assert Shaped(s, Reversal(r));
  }

  lemma TwinStart(s: Tables, m: Movement)
    requires Books(s) && Posts(m) && Outbound(ReferenceOf(m)) && ReferenceOf(m) !in s.transactions
    requires Move(s, m).result.Success?
    ensures Twin(Move(s, m).state, s, ReferenceOf(m))
  {
    hide Books, InputOf, LegsFor, Net, BalanceIn;
    PostEffect(s, m);
    PostKeepsBooks(s, m);
    InputLegs(m);
    NoReversalYet(s, ReferenceOf(m));
    hide Move;
  }

  lemma TwinUndone(after: Tables, other: Tables, r: Reference)
    requires Twin(after, other, r)
    ensures var undone := Move(after, Undo(r));
            && undone.result.Success?
            && (forall a :: BalanceIn(undone.state.balances, a) == BalanceIn(other.balances, a))
            && Move(undone.state, Undo(r)).state == undone.state
  {
    hide Books, Move, LegsFor;
    OwnUndo(after, other, r);
    UndoAgainIsNoOp(Move(after, Undo(r)).state, r);
  }

  /** The movements of a run that were accepted; the others changed nothing. */
  function AcceptedOf(s: Tables, ms: seq<Movement>): seq<Movement>
    decreases |ms|
  {
    if ms == [] then []
    else
      var rest := AcceptedOf(Move(s, ms[0]).state, ms[1..]);
      if Move(s, ms[0]).result.Success? then [ms[0]] + rest else rest
  }

  lemma RejectedIsNoOp(s: Tables, m: Movement)
    ensures Move(s, m).result.Failure? ==> Move(s, m).state == s
  {
    hide SortById, ApplyAll, RowsFor, BalanceError, InputOf, EntriesOf, FlipAll;
  }

  lemma {:induction false} AcceptedOfFacts(s: Tables, ms: seq<Movement>)
    ensures var some := AcceptedOf(s, ms);
            && MoveAll(s, some) == MoveAll(s, ms) && AllAccepted(s, some)
            && forall m <- some :: m in ms
    decreases |ms|
  {
    hide Move;
    if ms != [] {
      RejectedIsNoOp(s, ms[0]);
      var next := Move(s, ms[0]).state;
      var rest := AcceptedOf(next, ms[1..]);
      AcceptedOfFacts(next, ms[1..]);
      if Move(s, ms[0]).result.Success? {
        assert ([ms[0]] + rest)[1..] == rest;
        assert AllAccepted(s, [ms[0]] + rest);
        assert MoveAll(s, [ms[0]] + rest) == MoveAll(next, rest);
      }
    }
  }

  /** Post an outbound transfer, let anything happen, then reverse it, if that was not done yet: every
      movement of another transaction accepted in between would have been accepted without it, the reversal
      is accepted, and every account ends where it would have been had the transfer never been posted.
      Completing, repeating or reversing it on the way makes no difference, nor does reversing it again. */
  lemma AsIfNeverPosted(s: Tables, m: Movement, ms: seq<Movement>)
    requires Books(s) && Posts(m) && Outbound(ReferenceOf(m)) && ReferenceOf(m) !in s.transactions
    requires Move(s, m).result.Success?
    requires forall x <- ms :: Allowed(x)
    ensures var after := MoveAll(Move(s, m).state, ms);
            var undone := Move(after, Undo(ReferenceOf(m)));
            var between := Others(AcceptedOf(Move(s, m).state, ms), ReferenceOf(m));
            && AllAccepted(s, between)
            && undone.result.Success?
            && (forall a :: BalanceIn(undone.state.balances, a) == BalanceIn(MoveAll(s, between).balances, a))
            && Move(undone.state, Undo(ReferenceOf(m))).state == undone.state
  {
    hide Books, Move, LegsFor;
    var r := ReferenceOf(m);
    var s1 := Move(s, m).state;
    TwinStart(s, m);
    hide InputOf, Twin;
    var accepted := AcceptedOf(s1, ms);
    AcceptedOfFacts(s1, ms);
    TwinRun(s1, s, r, accepted);
    TwinUndone(MoveAll(s1, accepted), MoveAll(s, Others(accepted, r)), r);
  }

  // ----- what the float can hold up -------------------------------------------------------------------

  /** A funding is always accepted on an empty ledger, and brings in enough for any payout its pot covers. */
  lemma FundedPotCanPay(ids: map<Account, nat>, id: nat, jobId: nat, potId: nat, intended: int, amount: int)
    requires HasAccounts(EmptyTables(ids), potId) && amount > 0 && intended >= amount + OUTBOUND_FEE
    ensures var funded := Move(EmptyTables(ids), Fund(id, potId, intended));
            var paid := Move(funded.state, PayOut(PayoutKind, jobId, potId, amount));
            && funded.result.Success? && paid.result.Success?
            && BalanceIn(paid.state.balances, Pot(potId)) == intended - amount - OUTBOUND_FEE
  {
    var s := EmptyTables(ids);
    EveryRunKeepsBooks(ids, []);
    hide Books, Move;
    FundAccepted(s, id, potId, intended);
    FundEffect(s, id, potId, intended);
    PostKeepsBooks(s, Fund(id, potId, intended));
    var s1 := Move(s, Fund(id, potId, intended)).state;
    PayOutAcceptedIff(s1, PayoutKind, jobId, potId, amount);
    PayOutEffect(s1, PayoutKind, jobId, potId, amount);
  }

  lemma SumOfAtLeast(b: Balances, accounts: set<Account>, a: Account)
    requires a in accounts && forall x :: BalanceIn(b, x) >= 0
    ensures SumOf(b, accounts) >= BalanceIn(b, a)
  {
    SumOfPick(b, accounts, a);
    SumOfNonNegative(b, accounts - {a});
  }

  lemma {:induction false} SumOfNonNegative(b: Balances, accounts: set<Account>)
    requires forall x :: BalanceIn(b, x) >= 0
    ensures SumOf(b, accounts) >= 0
  {
    if accounts != {} {
      var a :| a in accounts;
      SumOfPick(b, accounts, a);
      SumOfNonNegative(b, accounts - {a});
    }
  }

  lemma {:induction false} RunKeepsAccounts(s: Tables, ms: seq<Movement>)
    ensures MoveAll(s, ms).ids == s.ids
    decreases |ms|
  {
    if ms != [] {
      MoveKeepsAccounts(s, ms[0]);
      hide Move;
      RunKeepsAccounts(Move(s, ms[0]).state, ms[1..]);
    }
  }

  lemma MoveKeepsAccounts(s: Tables, m: Movement)
    ensures Move(s, m).state.ids == s.ids
  {
    hide SortById, ApplyAll, RowsFor, BalanceError, InputOf, EntriesOf, FlipAll;
  }

  /** After any run, with nothing in suspense, a payout is posted whenever its pot covers it: the float is then
      never what stands in the way. */
  lemma FloatCoversWithoutSuspense(ids: map<Account, nat>, ms: seq<Movement>,
                                   kind: Kind, jobId: nat, potId: nat, amount: int)
    requires (forall m <- ms :: Allowed(m)) && HasAccounts(EmptyTables(ids), potId) && amount > 0
    requires var s := MoveAll(EmptyTables(ids), ms);
             && Disbursement(jobId) !in s.transactions && BalanceIn(s.balances, Suspense) == 0
             && BalanceIn(s.balances, Pot(potId)) >= amount + OUTBOUND_FEE
    ensures Move(MoveAll(EmptyTables(ids), ms), PayOut(kind, jobId, potId, amount)).result.Success?
  {
    hide Books, Move, SumOf, BalanceIn;
    var s := MoveAll(EmptyTables(ids), ms);
    RunKeepsAccounts(EmptyTables(ids), ms);
    EveryRunKeepsBooks(ids, ms);
    AccountingIdentity(ids, ms);
    forall x ensures BalanceIn(s.balances, x) >= 0 {
      NonNegativeBooks(s, x);
    }
    SumOfAtLeast(s.balances, PotAccounts(s), Pot(potId));
    PayOutAcceptedIff(s, kind, jobId, potId, amount);
  }

  /** But an overpayment's refund is paid out of the float without ever having been added to it, so a pot
      that covers a payout can find the float short. */
  lemma SuspenseCanBlockAPayout(ids: map<Account, nat>, potId: nat)
    requires HasAccounts(EmptyTables(ids), potId)
    ensures var s := MoveAll(EmptyTables(ids), [Fund(0, potId, 20000), RefundOverpayment(0, potId, 15000)]);
            && BalanceIn(s.balances, Pot(potId)) >= 10000 + OUTBOUND_FEE
            && Disbursement(0) !in s.transactions
            && Move(s, PayOut(PayoutKind, 0, potId, 10000)).result.Failure?
  {
    hide Books, Move, BalanceIn, InputOf;
    var s0 := EmptyTables(ids);
    var ms := [Fund(0, potId, 20000), RefundOverpayment(0, potId, 15000)];
    EveryRunKeepsBooks(ids, []);
    NothingHeld(s0);
    FundAccepted(s0, 0, potId, 20000);
    FundEffect(s0, 0, potId, 20000);
    PostKeepsBooks(s0, ms[0]);
    var s1 := Move(s0, ms[0]).state;
    RefundShortensFloat(s1, potId);
    assert ms[1..] == [ms[1]] && [ms[1]][1..] == [];
    assert MoveAll(s0, ms) == MoveAll(s1, [ms[1]]) == MoveAll(Move(s1, ms[1]).state, []);
  }

  lemma RefundShortensFloat(s: Tables, potId: nat)
    requires Books(s) && HasAccounts(s, potId)
    requires OverpaymentRefund(0) !in s.transactions && Disbursement(0) !in s.transactions
    requires BalanceIn(s.balances, PlatformFloat) == 21000
    ensures var s' := Move(s, RefundOverpayment(0, potId, 15000)).state;
            && BalanceIn(s'.balances, Pot(potId)) == BalanceIn(s.balances, Pot(potId))
            && Disbursement(0) !in s'.transactions
            && Move(s', PayOut(PayoutKind, 0, potId, 10000)).result.Failure?
  {
    hide Books, Move, BalanceIn;
    OverpaymentRefundAcceptedIff(s, 0, potId, 15000);
    OverpaymentRefundEffect(s, 0, potId, 15000);
    RefundFloatEffect(s, 0, potId, 15000);
    PostKeepsBooks(s, RefundOverpayment(0, potId, 15000));
    PayOutAcceptedIff(Move(s, RefundOverpayment(0, potId, 15000)).state, PayoutKind, 0, potId, 10000);
  }

  lemma NothingHeld(s: Tables)
    requires s.balances == map[]
    ensures forall a :: BalanceIn(s.balances, a) == 0
  {}

  lemma RefundFloatEffect(s: Tables, paymentId: nat, potId: nat, amount: int)
    requires Books(s) && OverpaymentRefund(paymentId) !in s.transactions
    requires Move(s, RefundOverpayment(paymentId, potId, amount)).result.Success?
    ensures var s' := Move(s, RefundOverpayment(paymentId, potId, amount)).state;
            && s'.ids == s.ids
            && (forall id: nat :: Disbursement(id) in s'.transactions <==> Disbursement(id) in s.transactions)
            && BalanceIn(s'.balances, PlatformFloat)
               == BalanceIn(s.balances, PlatformFloat) - (amount + NOMBA_OUTBOUND_FEE)
  {
    hide Books, Move, Net, BalanceIn;
    PostEffect(s, RefundOverpayment(paymentId, potId, amount));
    DrawdownFloatNet(Suspense, amount);
  }

  lemma DrawdownFloatNet(source: Account, amount: int)
    requires source != PlatformFloat
    ensures Net(DrawdownLegs(source, amount), PlatformFloat) == -(amount + NOMBA_OUTBOUND_FEE)
  {
    NetOfFive(DrawdownLegs(source, amount), PlatformFloat);
  }
}
