/** The platform's books: runs of postings and reversals built from the fee legs, and what they keep. */
module Movements {
  import opened Wrappers
  import opened Ledger
  import opened LedgerFacts
  import opened Fees

  /** The calls the backend makes on the ledger. `Undo` is reverseTransaction under the one reversal
      reference its callers use; `Complete` follows their check that the row is still processing. */
  datatype Movement =
    | Fund(contributionId: nat, potId: nat, amount: int)
    | PayOut(kind: Kind, jobId: nat, potId: nat, amount: int)
    | RefundOverpayment(paymentId: nat, potId: nat, amount: int)
    | RefundExpired(paymentId: nat, amount: int)
    | Undo(reference: Reference)
    | Complete(reference: Reference)

  function InputOf(m: Movement): PostInput
    requires !m.Undo? && !m.Complete?
  {
    match m
    case Fund(id, potId, amount) =>
      PostInput(ContributionKind, Contribution(id), InboundFeeLegs(potId, amount), amount, Completed, Some(potId))
    case PayOut(kind, jobId, potId, amount) =>
      PostInput(kind, Disbursement(jobId), OutboundFeeLegs(potId, amount), amount, Processing, Some(potId))
    case RefundOverpayment(paymentId, potId, amount) =>
      PostInput(RefundKind, OverpaymentRefund(paymentId), OverpaymentRefundLegs(amount), amount, Completed, Some(potId))
    case RefundExpired(paymentId, amount) =>
      PostInput(RefundKind, ExpiryRefund(paymentId), ExpiryRefundLegs(amount), amount, Processing, None)
  }

  function Move(s: Tables, m: Movement): Posting {
    match m
    case Undo(r) => Reverse(s, r, Reversal(r))
    case Complete(r) =>
      if r in s.transactions && s.transactions[r].status == Processing then
        Posting(SetStatus(s, r, Completed), Success(s.transactions[r].(status := Completed)))
      else Posting(s, Failure(TransactionDoesNotExist))
    case _ => Post(s, InputOf(m))
  }

  /** Callers only ever reverse a contribution or an outbound transfer, never a reversal. */
  predicate Allowed(m: Movement) {
    m.Undo? ==> !m.reference.Reversal?
  }

  function MoveAll(s: Tables, ms: seq<Movement>): Tables
    decreases |ms|
  {
    if ms == [] then s else MoveAll(Move(s, ms[0]).state, ms[1..])
  }

  // ----- the invariant ------------------------------------------------------------------------

  function PotOf(t: Transaction): nat {
    if t.potId.Some? then t.potId.value else 0
  }

  /** The legs a transaction was posted with, recovered from its reference, pot and amount. */
  function LegsFor(r: Reference, t: Transaction): seq<EntryInput>
    requires !r.Reversal?
  {
    match r
    case Contribution(_) => InboundFeeLegs(PotOf(t), t.amount)
    case Disbursement(_) => OutboundFeeLegs(PotOf(t), t.amount)
    case OverpaymentRefund(_) => OverpaymentRefundLegs(t.amount)
    case ExpiryRefund(_) => ExpiryRefundLegs(t.amount)
  }

  predicate Live(transactions: map<Reference, Transaction>, r: Reference) {
    !r.Reversal? && r in transactions && transactions[r].status != Reversed
  }

  /** What the live transactions alone contribute to an account. */
  function LiveFold(entries: seq<Entry>, transactions: map<Reference, Transaction>, a: Account): int {
    if entries == [] then 0
    else
      (if entries[0].input.account == a && Live(transactions, entries[0].reference)
       then entries[0].input.Signed() else 0)
      + LiveFold(entries[1..], transactions, a)
  }

  ghost predicate OriginalShape(s: Tables, r: Reference)
    requires r in s.transactions && !r.Reversal?
  {
    var legs := LegsFor(r, s.transactions[r]);
    && (forall x <- legs :: x.account in s.ids)
    && EntriesOf(s.entries, r) == SortById(legs, s.ids)
    && (s.transactions[r].status == Reversed ==> Reversal(r) in s.transactions)
  }

  ghost predicate ReversalShape(s: Tables, r: Reference)
    requires r in s.transactions && r.Reversal?
  {
    && !r.original.Reversal?
    && r.original in s.transactions
    && s.transactions[r.original].status == Reversed
  }

  ghost predicate Shaped(s: Tables, r: Reference) {
    r in s.transactions ==> if r.Reversal? then ReversalShape(s, r) else OriginalShape(s, r)
  }

  ghost predicate Books(s: Tables) {
    && Consistent(s)
    && (forall r :: Shaped(s, r))
    && (forall a :: BalanceIn(s.balances, a) == LiveFold(s.entries, s.transactions, a))
  }

  // ----- the leg builders ------------------------------------------------------------------------

  lemma NetOfFive(es: seq<EntryInput>, a: Account)
    requires |es| == 5
    ensures Net(es, a) == Net([es[0]], a) + Net([es[1]], a) + Net([es[2]], a) + Net([es[3]], a) + Net([es[4]], a)
  {
    assert es == [es[0]] + ([es[1]] + ([es[2]] + ([es[3]] + [es[4]])));
    NetAppend([es[3]], [es[4]], a);
    NetAppend([es[2]], [es[3]] + [es[4]], a);
    NetAppend([es[1]], [es[2]] + ([es[3]] + [es[4]]), a);
    NetAppend([es[0]], [es[1]] + ([es[2]] + ([es[3]] + [es[4]])), a);
  }

  lemma LegsIgnoreStatus(r: Reference, t: Transaction, t': Transaction)
    requires !r.Reversal? && t.potId == t'.potId && t.amount == t'.amount
    ensures LegsFor(r, t) == LegsFor(r, t')
  {}

  predicate FeeAccount(a: Account) {
    a.PlatformRevenue? || a.NombaFeeExpense? || a.NombaClearing?
  }

  /** Every builder's legs: one entry per account, only additions to the fee accounts, and the
      provider's fee recognised and cleared by the same amount. */
  lemma LegsShape(r: Reference, t: Transaction)
    requires !r.Reversal?
    ensures var legs := LegsFor(r, t);
            && |legs| == 5 && DistinctAccounts(legs)
            && (forall e <- legs :: (FeeAccount(e.account) || e.account == Suspense) && e.amount > 0
                                    ==> e.Signed() > 0)
            && Net(legs, NombaFeeExpense) == Net(legs, NombaClearing)
            && Net(legs, ProviderSettlement) == 0
            && (!r.Contribution? ==> forall e <- legs :: (e.account.Pot? || e.account.PlatformFloat?) && e.amount > 0
                                                         ==> e.Signed() < 0)
  {
    hide Net;
    LegsNets(r, t);
  }

  lemma LegsNets(r: Reference, t: Transaction)
    requires !r.Reversal?
    ensures var legs := LegsFor(r, t);
            |legs| == 5 && Net(legs, NombaFeeExpense) == Net(legs, NombaClearing) && Net(legs, ProviderSettlement) == 0
  {
    var legs := LegsFor(r, t);
    NetOfFive(legs, NombaFeeExpense);
    NetOfFive(legs, NombaClearing);
    NetOfFive(legs, ProviderSettlement);
  }

  // ----- live folds -------------------------------------------------------------------------------

  lemma {:induction false} LiveFoldAppend(xs: seq<Entry>, ys: seq<Entry>, ts: map<Reference, Transaction>, a: Account)
    ensures LiveFold(xs + ys, ts, a) == LiveFold(xs, ts, a) + LiveFold(ys, ts, a)
  {
    if xs == [] {
      assert xs + ys == ys;
    } else {
      assert (xs + ys)[1..] == xs[1..] + ys;
      LiveFoldAppend(xs[1..], ys, ts, a);
    }
  }

  lemma {:induction false} LiveFoldOfOne(es: seq<Entry>, ts: map<Reference, Transaction>, r: Reference, a: Account)
    requires forall e <- es :: e.reference == r
    ensures LiveFold(es, ts, a) == if Live(ts, r) then Fold(es, a) else 0
  {
    if es != [] {
      LiveFoldOfOne(es[1..], ts, r, a);
    }
  }

  lemma {:induction false} LiveFoldSame(es: seq<Entry>, ts: map<Reference, Transaction>,
                                        ts': map<Reference, Transaction>, a: Account)
    requires forall e <- es :: Live(ts, e.reference) == Live(ts', e.reference)
    ensures LiveFold(es, ts, a) == LiveFold(es, ts', a)
  {
    if es != [] {
      assert es[0] in es;
      LiveFoldSame(es[1..], ts, ts', a);
    }
  }

  /** Marking a live transaction reversed takes exactly its own entries out of the live fold. */
  lemma {:induction false} LiveFoldDrop(es: seq<Entry>, ts: map<Reference, Transaction>,
                                        ts': map<Reference, Transaction>, r: Reference, a: Account)
    requires Live(ts, r) && !Live(ts', r)
    requires forall q :: q != r ==> Live(ts, q) == Live(ts', q)
    ensures LiveFold(es, ts', a) == LiveFold(es, ts, a) - Net(EntriesOf(es, r), a)
  {
    if es != [] {
      LiveFoldDrop(es[1..], ts, ts', r, a);
      var rest := EntriesOf(es[1..], r);
      if es[0].reference == r {
        assert EntriesOf(es, r) == [es[0].input] + rest;
        NetAppend([es[0].input], rest, a);
      } else {
        assert EntriesOf(es, r) == [] + rest == rest;
      }
    }
  }

  lemma {:induction false} LiveFoldAtLeast(es: seq<Entry>, ts: map<Reference, Transaction>, a: Account, i: nat)
    requires i < |es| && es[i].input.account == a && Live(ts, es[i].reference)
    requires forall e <- es :: e.input.account == a && Live(ts, e.reference) ==> e.input.Signed() >= 0
    ensures LiveFold(es, ts, a) >= es[i].input.Signed()
  {
    assert es[0] in es;
    if i == 0 {
      LiveFoldNonNegative(es[1..], ts, a);
    } else {
      LiveFoldAtLeast(es[1..], ts, a, i - 1);
    }
  }

  lemma {:induction false} LiveFoldNonNegative(es: seq<Entry>, ts: map<Reference, Transaction>, a: Account)
    requires forall e <- es :: e.input.account == a && Live(ts, e.reference) ==> e.input.Signed() >= 0
    ensures LiveFold(es, ts, a) >= 0
  {
    if es != [] {
      assert es[0] in es;
      LiveFoldNonNegative(es[1..], ts, a);
    }
  }

  lemma {:induction false} EntryIndex(es: seq<Entry>, r: Reference, e: EntryInput) returns (i: nat)
    requires e in EntriesOf(es, r)
    ensures i < |es| && es[i].reference == r && es[i].input == e
  {
    if es[0].reference == r && es[0].input == e {
      i := 0;
    } else {
      i := EntryIndex(es[1..], r, e);
      i := i + 1;
    }
  }

  lemma {:induction false} EntryListed(es: seq<Entry>, i: nat)
    requires i < |es|
    ensures es[i].input in EntriesOf(es, es[i].reference)
  {
    if i > 0 {
      EntryListed(es[1..], i - 1);
    }
  }

  lemma EntryOfLegs(s: Tables, r: Reference, e: EntryInput)
    requires Books(s) && r in s.transactions && !r.Reversal?
    ensures e in EntriesOf(s.entries, r) <==> e in LegsFor(r, s.transactions[r])
  {
    var legs := LegsFor(r, s.transactions[r]);
    assert Shaped(s, r);
    assert multiset(EntriesOf(s.entries, r)) == multiset(legs);
    assert e in EntriesOf(s.entries, r) <==> e in multiset(legs);
  }

  lemma FeeEntryPositive(s: Tables, j: nat)
    requires Books(s) && j < |s.entries| && Live(s.transactions, s.entries[j].reference)
    requires FeeAccount(s.entries[j].input.account) || s.entries[j].input.account == Suspense
    ensures s.entries[j].input.Signed() > 0
  {
    var x := s.entries[j];
    assert x in s.entries;
    EntryListed(s.entries, j);
    EntryOfLegs(s, x.reference, x.input);
    hide Books;
    LegsShape(x.reference, s.transactions[x.reference]);
  }

  /** A live transaction's entry on a fee account, or on suspense, never exceeds that account's balance. */
  lemma FeeBalanceCovers(s: Tables, r: Reference, e: EntryInput)
    requires Books(s) && Live(s.transactions, r) && e in EntriesOf(s.entries, r)
    requires FeeAccount(e.account) || e.account == Suspense
    ensures BalanceIn(s.balances, e.account) >= e.Signed()
  {
    assert BalanceIn(s.balances, e.account) == LiveFold(s.entries, s.transactions, e.account);
    hide Books;
    var i := EntryIndex(s.entries, r, e);
    forall x | x in s.entries && x.input.account == e.account && Live(s.transactions, x.reference)
      ensures x.input.Signed() >= 0
    {
      var j :| 0 <= j < |s.entries| && s.entries[j] == x;
      FeeEntryPositive(s, j);
    }
    LiveFoldAtLeast(s.entries, s.transactions, e.account, i);
  }

  // ----- reversing ----------------------------------------------------------------------------------

  lemma {:induction false} FlipFacts(es: seq<EntryInput>, a: Account, d: Direction)
    ensures Net(FlipAll(es), a) == -Net(es, a)
    ensures Total(FlipAll(es), d) == Total(es, d.Flipped())
  {
    if es != [] {
      FlipFacts(es[1..], a, d);
      assert FlipAll(es)[1..] == FlipAll(es[1..]);
    }
  }

  lemma FlipKeepsBalance(es: seq<EntryInput>)
    requires BalanceError(es) == None
    ensures BalanceError(FlipAll(es)) == None
  {
    FlipFacts(es, Suspense, Debit);
    FlipFacts(es, Suspense, Credit);
  }

  lemma LiveIsNotReversed(s: Tables, r: Reference)
    requires Books(s) && Live(s.transactions, r)
    ensures Reversal(r) !in s.transactions
  {
    assert Shaped(s, Reversal(r));
  }

  lemma {:induction false} FlipAllFacts(own: seq<EntryInput>, ids: map<Account, nat>)
    requires forall x <- own :: x.account in ids
    ensures forall x <- FlipAll(own) :: x.account in ids
    ensures DistinctAccounts(own) ==> DistinctAccounts(FlipAll(own))
  {
    if own != [] {
      FlipAllFacts(own[1..], ids);
    }
  }

  predicate Covered(b: Balances, e: EntryInput) {
    BalanceIn(b, e.account) + e.Signed() >= 0
  }

  lemma FlippedSigned(e: EntryInput)
    ensures e.Flipped().Signed() == -e.Signed() && e.Flipped().account == e.account
  {}

  lemma CoverIff(b: Balances, own: seq<EntryInput>, sorted: seq<EntryInput>)
    requires multiset(sorted) == multiset(FlipAll(own))
    ensures (forall i :: 0 <= i < |sorted| ==> Covered(b, sorted[i]))
            <==> forall e <- own :: BalanceIn(b, e.account) >= e.Signed()
  {
    hide EntryInput.Signed, EntryInput.Flipped, BalanceIn;
    var flipped := FlipAll(own);
    if forall e <- own :: BalanceIn(b, e.account) >= e.Signed() {
      forall i | 0 <= i < |sorted| ensures Covered(b, sorted[i]) {
        assert sorted[i] in multiset(flipped);
        var k :| 0 <= k < |flipped| && flipped[k] == sorted[i];
        FlippedSigned(own[k]);
        assert own[k] in own;
      }
    } else {
      var e :| e in own && BalanceIn(b, e.account) < e.Signed();
      var k :| 0 <= k < |own| && own[k] == e;
      FlippedSigned(own[k]);
      assert flipped[k] in multiset(sorted);
      var i :| 0 <= i < |sorted| && sorted[i] == flipped[k];
      assert !Covered(b, sorted[i]);
    }
  }

  /** Flipping entries that hit each account once: acceptance is the original's cover, entry by entry. */
  lemma FlippedAcceptedIff(b: Balances, own: seq<EntryInput>, ids: map<Account, nat>)
    requires DistinctAccounts(own)
    requires forall x <- own :: x.account in ids
    ensures forall x <- FlipAll(own) :: x.account in ids
    ensures ApplyAll(b, SortById(FlipAll(own), ids)).Success?
            <==> forall e <- own :: BalanceIn(b, e.account) >= e.Signed()
  {
    FlipAllFacts(own, ids);
    var sorted := SortById(FlipAll(own), ids);
    SortDistinct(FlipAll(own), ids);
    CoverIff(b, own, sorted);
    DistinctAcceptedIff(b, sorted);
    hide DistinctAccounts;
    assert (forall i :: 0 <= i < |sorted| ==> Covered(b, sorted[i]))
           <==> forall i :: 0 <= i < |sorted| ==> BalanceIn(b, sorted[i].account) + sorted[i].Signed() >= 0;
  }

  lemma LiveEntries(s: Tables, r: Reference)
    requires Books(s) && Live(s.transactions, r)
    ensures var own := EntriesOf(s.entries, r);
            && (forall x <- own :: x.account in s.ids)
            && multiset(own) == multiset(LegsFor(r, s.transactions[r]))
            && DistinctAccounts(own)
            && BalanceError(own) == None
  {
    var legs := LegsFor(r, s.transactions[r]);
    assert Shaped(s, r);
    LegsShape(r, s.transactions[r]);
    hide LegsFor;
    SortDistinct(legs, s.ids);
  }

  lemma UndoIsApply(s: Tables, r: Reference)
    requires Books(s) && Live(s.transactions, r)
    ensures var own := EntriesOf(s.entries, r);
            && (forall x <- FlipAll(own) :: x.account in s.ids)
            && (Move(s, Undo(r)).result.Success?
                <==> ApplyAll(s.balances, SortById(FlipAll(own), s.ids)).Success?)
  {
    hide LegsFor, Books, RowsFor, ApplyAll, Total, EntryInput.Flipped, EntriesOf;
    var own := EntriesOf(s.entries, r);
    LiveEntries(s, r);
    LiveIsNotReversed(s, r);
    FlipKeepsBalance(own);
    FlippedAcceptedIff(s.balances, own, s.ids);
    hide BalanceError, DistinctAccounts;
  }

  /** Reversing a live transaction is accepted exactly when each account still holds what it was given. */
  lemma UndoAcceptedIff(s: Tables, r: Reference)
    requires Books(s) && Live(s.transactions, r)
    ensures Move(s, Undo(r)).result.Success?
            <==> forall e <- LegsFor(r, s.transactions[r]) :: BalanceIn(s.balances, e.account) >= e.Signed()
  {
    hide LegsFor, Books;
    var own := EntriesOf(s.entries, r);
    var legs := LegsFor(r, s.transactions[r]);
    LiveEntries(s, r);
    UndoIsApply(s, r);
    FlippedAcceptedIff(s.balances, own, s.ids);
    hide Move, DistinctAccounts;
    assert forall e :: e in own <==> e in multiset(own);
    assert forall e :: e in legs <==> e in multiset(legs);
  }

  lemma NonNegative(s: Tables, a: Account)
    requires Consistent(s)
    ensures BalanceIn(s.balances, a) >= 0
  {
    assert Fold(s.entries[..|s.entries|], a) >= 0;
    assert s.entries[..|s.entries|] == s.entries;
  }

  /** The legs on record are positive, because they were accepted. */
  lemma LegsPositive(s: Tables, r: Reference, e: EntryInput)
    requires Books(s) && r in s.transactions && !r.Reversal? && e in LegsFor(r, s.transactions[r])
    ensures e.amount > 0
  {
    EntryOfLegs(s, r, e);
    var i := EntryIndex(s.entries, r, e);
    assert s.entries[i] in s.entries;
  }

  /** A live outbound transfer can always be reversed. */
  lemma OutboundUndoAccepted(s: Tables, r: Reference)
    requires Books(s) && Live(s.transactions, r) && !r.Contribution?
    ensures Move(s, Undo(r)).result.Success?
  {
    hide SortById, ApplyAll, RowsFor, LiveFold, Fold, EntriesOf;
    hide Consistent;
    var legs := LegsFor(r, s.transactions[r]);
    LegsShape(r, s.transactions[r]);
    forall e | e in legs ensures BalanceIn(s.balances, e.account) >= e.Signed() {
      EntryOfLegs(s, r, e);
      LegsPositive(s, r, e);
      if FeeAccount(e.account) || e.account == Suspense {
        FeeBalanceCovers(s, r, e);
      } else {
        NonNegative(s, e.account);
      }
    }
    UndoAcceptedIff(s, r);
  }

  /** A funded contribution can be reversed exactly while its pot and the float still hold the money. */
  lemma FundingUndoAcceptedIff(s: Tables, id: nat)
    requires Books(s) && Live(s.transactions, Contribution(id))
    ensures var t := s.transactions[Contribution(id)];
            Move(s, Undo(Contribution(id))).result.Success?
            <==> && BalanceIn(s.balances, Pot(PotOf(t))) >= t.amount
                 && BalanceIn(s.balances, PlatformFloat) >= t.amount + PLATFORM_INBOUND_FEE
  {
    hide SortById, ApplyAll, RowsFor, Net, LiveFold, Fold, EntriesOf;
    hide Consistent;
    var r := Contribution(id);
    var t := s.transactions[r];
    var legs := LegsFor(r, t);
    assert legs[0] in legs && legs[1] in legs;
    LegsShape(r, t);
    forall e | e in legs && FeeAccount(e.account) ensures BalanceIn(s.balances, e.account) >= e.Signed() {
      EntryOfLegs(s, r, e);
      FeeBalanceCovers(s, r, e);
    }
    UndoAcceptedIff(s, r);
  }

  // ----- every movement keeps the books ------------------------------------------------------------

  lemma InputLegs(m: Movement)
    requires !m.Undo? && !m.Complete?
    ensures var i := InputOf(m);
            && !i.reference.Reversal? && i.status != Reversed
            && LegsFor(i.reference, Transaction(i.kind, i.status, i.amount, i.potId)) == i.entries
  {}

  lemma PostKeepsShapes(s: Tables, m: Movement, input: PostInput, s': Tables)
    requires Books(s) && !m.Undo? && !m.Complete? && input == InputOf(m) && Appends(s, input, s')
    ensures forall r :: Shaped(s', r)
  {
    hide SortById, ApplyAll, RowsFor, Net, LiveFold, Fold, EntriesOf;
    hide LegsFor, InputOf;
    AppendEntriesOf(s, input, s');
    InputLegs(m);
    hide Consistent, BalanceError;
    forall r ensures Shaped(s', r) {
      assert Shaped(s, r);
    }
  }

  lemma RowsLiveFold(s: Tables, input: PostInput, s': Tables, a: Account)
    requires Consistent(s) && input.reference !in s.transactions
    requires forall x <- input.entries :: x.account in s.ids
    requires s'.entries == s.entries + RowsFor(input.reference, s.balances, SortById(input.entries, s.ids))
    requires forall q :: q != input.reference ==> Live(s.transactions, q) == Live(s'.transactions, q)
    ensures LiveFold(s'.entries, s'.transactions, a)
            == LiveFold(s.entries, s.transactions, a)
               + (if Live(s'.transactions, input.reference) then Net(input.entries, a) else 0)
  {
    hide ApplyAll, BalanceError, SortById, RowsFor, LiveFold, Fold, Net, BalanceIn, EntriesOf;
    var sorted := SortById(input.entries, s.ids);
    var rows := RowsFor(input.reference, s.balances, sorted);
    assert forall e <- s.entries :: e.reference in s.transactions;
    hide Consistent;
    RowsForFacts(input.reference, s.balances, sorted);
    LiveFoldAppend(s.entries, rows, s'.transactions, a);
    LiveFoldSame(s.entries, s.transactions, s'.transactions, a);
    LiveFoldOfOne(rows, s'.transactions, input.reference, a);
    RowsForFold(input.reference, s.balances, sorted, |sorted|, a);
    assert rows[..|sorted|] == rows && sorted[..|sorted|] == sorted;
    SortFacts(input.entries, s.ids, a, Debit);
  }

  /** An accepted posting changes each balance by exactly the net of its entries. */
  lemma AppendsNet(s: Tables, input: PostInput, s': Tables, a: Account)
    requires Appends(s, input, s')
    ensures BalanceIn(s'.balances, a) == BalanceIn(s.balances, a) + Net(input.entries, a)
  {
    ApplyAllNet(s.balances, SortById(input.entries, s.ids), a);
    SortFacts(input.entries, s.ids, a, Debit);
  }

  lemma PostKeepsLiveBalance(s: Tables, m: Movement, input: PostInput, s': Tables, a: Account)
    requires Books(s) && !m.Undo? && !m.Complete? && input == InputOf(m) && Appends(s, input, s')
    ensures BalanceIn(s'.balances, a) == LiveFold(s'.entries, s'.transactions, a)
  {
    hide LegsFor, InputOf;
    InputLegs(m);
    assert BalanceIn(s.balances, a) == LiveFold(s.entries, s.transactions, a);
    AppendsNet(s, input, s', a);
    hide Consistent;
    RowsLiveFold(s, input, s', a);
  }

  lemma PostKeepsBooks(s: Tables, m: Movement)
    requires Books(s) && !m.Undo? && !m.Complete?
    ensures Books(Move(s, m).state)
  {
    hide LegsFor, InputOf, Consistent;
    var input := InputOf(m);
    var s' := Post(s, input).state;
    PostKeeps(s, input);
    PostCases(s, input);
    if Appends(s, input, s') {
      PostKeepsShapes(s, m, input, s');
      forall a ensures BalanceIn(s'.balances, a) == LiveFold(s'.entries, s'.transactions, a) {
        PostKeepsLiveBalance(s, m, input, s', a);
      }
    }
  }

  lemma CompleteKeepsLog(s: Tables, r: Reference)
    requires Consistent(s)
    ensures Consistent(Move(s, Complete(r)).state)
  {
    hide Fold, NeverNegative, RowsAgree, BalanceError, EntriesOf, SortById, ApplyAll, InputOf;
  }

  lemma CompleteKeepsBooks(s: Tables, r: Reference)
    requires Books(s)
    ensures Books(Move(s, Complete(r)).state)
  {
    hide SortById, ApplyAll, RowsFor, BalanceError, Net, LiveFold, Fold;
    hide LegsFor;
    hide Consistent;
    CompleteKeepsLog(s, r);
    var s' := Move(s, Complete(r)).state;
    forall q ensures Shaped(s', q) {
      assert Shaped(s, q);
      if q in s.transactions && !q.Reversal? {
        LegsIgnoreStatus(q, s.transactions[q], s'.transactions[q]);
      }
    }
    forall a ensures BalanceIn(s'.balances, a) == LiveFold(s'.entries, s'.transactions, a) {
      LiveFoldSame(s.entries, s.transactions, s'.transactions, a);
    }
  }

  lemma UndoPosts(s: Tables, r: Reference)
    requires Books(s) && Live(s.transactions, r) && Move(s, Undo(r)).result.Success?
    ensures var input := ReversalInput(s, r, Reversal(r));
            var p := Post(s, input);
            Appends(s, input, p.state) && Move(s, Undo(r)).state == SetStatus(p.state, r, Reversed)
  {
    hide LegsFor;
    LiveIsNotReversed(s, r);
    PostCases(s, ReversalInput(s, r, Reversal(r)));
  }

  /** What an accepted reversal of a live transaction does: every account loses exactly the net of the
      original's legs, and the rest of the log and of the transactions stands. */
  lemma UndoEffect(s: Tables, r: Reference)
    requires Books(s) && Live(s.transactions, r) && Move(s, Undo(r)).result.Success?
    ensures var s' := Move(s, Undo(r)).state;
            && s'.ids == s.ids
            && s'.transactions.Keys == s.transactions.Keys + {Reversal(r)}
            && s'.transactions[r] == s.transactions[r].(status := Reversed)
            && (forall q <- s.transactions :: q != r ==> s'.transactions[q] == s.transactions[q])
            && (forall q :: q != Reversal(r) ==> EntriesOf(s'.entries, q) == EntriesOf(s.entries, q))
            && (forall a :: BalanceIn(s'.balances, a)
                            == BalanceIn(s.balances, a) - Net(LegsFor(r, s.transactions[r]), a))
  {
    hide LegsFor, SortById, ApplyAll, RowsFor, BalanceError, Net, LiveFold;
    var input := ReversalInput(s, r, Reversal(r));
    var p := Post(s, input);
    UndoPosts(s, r);
    AppendEntriesOf(s, input, p.state);
    assert Shaped(s, r);
    hide Books, Post;
    forall a
      ensures BalanceIn(p.state.balances, a) == BalanceIn(s.balances, a) - Net(LegsFor(r, s.transactions[r]), a)
    {
      AppendsNet(s, input, p.state, a);
      FlipFacts(EntriesOf(s.entries, r), a, Debit);
      SortFacts(LegsFor(r, s.transactions[r]), s.ids, a, Debit);
    }
  }

  lemma UndoKeepsShapes(s: Tables, r: Reference)
    requires Books(s) && Live(s.transactions, r) && Move(s, Undo(r)).result.Success?
    ensures forall q :: Shaped(Move(s, Undo(r)).state, q)
  {
    hide LegsFor;
    UndoEffect(s, r);
    hide Consistent;
    var s' := Move(s, Undo(r)).state;
    assert forall q :: Shaped(s, q);
    hide Move;
    forall q ensures Shaped(s', q) {
      assert Shaped(s, q);
      if q in s.transactions && !q.Reversal? {
        LegsIgnoreStatus(q, s.transactions[q], s'.transactions[q]);
      }
    }
  }

  lemma UndoKeepsLiveBalances(s: Tables, r: Reference, a: Account)
    requires Books(s) && Live(s.transactions, r) && Move(s, Undo(r)).result.Success?
    ensures var s' := Move(s, Undo(r)).state;
            BalanceIn(s'.balances, a) == LiveFold(s'.entries, s'.transactions, a)
  {
    hide SortById, ApplyAll, RowsFor, BalanceError, Net, LiveFold, Fold;
    hide LegsFor;
    var s' := Move(s, Undo(r)).state;
    var input := ReversalInput(s, r, Reversal(r));
    var p := Post(s, input);
    UndoEffect(s, r);
    UndoPosts(s, r);
    assert Shaped(s, r);
    assert BalanceIn(s.balances, a) == LiveFold(s.entries, s.transactions, a);
    RowsLiveFold(s, input, p.state, a);
    LiveFoldDrop(p.state.entries, p.state.transactions, s'.transactions, r, a);
    assert EntriesOf(s'.entries, r) == EntriesOf(s.entries, r);
    hide Books;
    SortFacts(LegsFor(r, s.transactions[r]), s.ids, a, Debit);
  }

  lemma UndoKeepsBooks(s: Tables, r: Reference)
    requires Books(s) && !r.Reversal?
    ensures Books(Move(s, Undo(r)).state)
  {
    hide LegsFor;
    var s' := Move(s, Undo(r)).state;
    ReverseKeeps(s, r, Reversal(r));
    if !Live(s.transactions, r) {
      UndoAgainIsNoOp(s, r);
    } else if Move(s, Undo(r)).result.Success? {
      UndoKeepsShapes(s, r);
      forall a ensures BalanceIn(s'.balances, a) == LiveFold(s'.entries, s'.transactions, a) {
        UndoKeepsLiveBalances(s, r, a);
      }
    }
  }

  /** Repeating a reversal under the same reference changes nothing. */
  lemma UndoAgainIsNoOp(s: Tables, r: Reference)
    requires Books(s) && !r.Reversal? && !Live(s.transactions, r)
    ensures Move(s, Undo(r)).state == s
    ensures r in s.transactions ==> Move(s, Undo(r)).result.Success?
  {
    hide SortById, ApplyAll, RowsFor, Net, LiveFold;
    hide LegsFor;
    if r in s.transactions {
      assert Shaped(s, r);
      FlipKeepsBalance(EntriesOf(s.entries, r));
      hide Books;
      var input := ReversalInput(s, r, Reversal(r));
      assert Post(s, input) == Posting(s, Success(s.transactions[Reversal(r)]));
      assert s.transactions[r := s.transactions[r].(status := Reversed)] == s.transactions;
    }
  }

  lemma MoveKeepsBooks(s: Tables, m: Movement)
    requires Books(s) && Allowed(m)
    ensures Books(Move(s, m).state)
  {
    match m
    case Undo(r) => UndoKeepsBooks(s, r);
    case Complete(r) => CompleteKeepsBooks(s, r);
    case _ => PostKeepsBooks(s, m);
  }

  lemma {:induction false} RunKeepsBooks(s: Tables, ms: seq<Movement>)
    requires Books(s) && forall m <- ms :: Allowed(m)
    ensures Books(MoveAll(s, ms))
    decreases |ms|
  {
    if ms != [] {
      MoveKeepsBooks(s, ms[0]);
      RunKeepsBooks(Move(s, ms[0]).state, ms[1..]);
    }
  }

  /** Every run of movements from an empty ledger keeps the books. */
  lemma EveryRunKeepsBooks(ids: map<Account, nat>, ms: seq<Movement>)
    requires forall m <- ms :: Allowed(m)
    ensures Books(MoveAll(EmptyTables(ids), ms))
  {
    RunKeepsBooks(EmptyTables(ids), ms);
  }
}
