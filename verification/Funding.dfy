/** How a contribution is funded: payments accumulate until the gross amount is reached, the pot is credited
    once, and what the last payment brought in excess goes back. */
module Funding {
  import opened Wrappers
  import opened Ledger
  import opened LedgerFacts
  import opened Fees
  import opened Movements
  import opened Identity
  import opened Flows
  import Money

  // ----- what is stored ------------------------------------------------------------------------------------

  /** A contribution's terms: the pot is to get `intended`. */
  datatype Terms = Terms(id: nat, potId: nat, intended: nat)

  /** The gross amount the contributor must send. */
  function Expected(terms: Terms): int {
    terms.intended + InboundFeeFor(terms.intended)
  }

  datatype FundingStatus = Pending | Underpaid | Funded | Reversed | Failed

  datatype Payment = Payment(transactionId: nat, amount: int)

  datatype Record = Record(status: FundingStatus, payments: seq<Payment>)

  /** One payment_success delivery: the provider's id and amount, and whether the sender's bank details are
      all there. The amount is exact to the kobo and may be negative. */
  datatype Delivery = Delivery(payment: Payment, hasSender: bool)

  function Received(payments: seq<Payment>): int {
    if payments == [] then 0 else payments[0].amount + Received(payments[1..])
  }

  predicate Recorded(payments: seq<Payment>, transactionId: nat) {
    exists i :: 0 <= i < |payments| && payments[i].transactionId == transactionId
  }

  predicate Awaiting(status: FundingStatus) {
    status == Pending || status == Underpaid
  }

  /** A delivery that can be recorded: the sender is known and the amount reads as a naira string. */
  predicate Usable(d: Delivery) {
    d.hasSender && Money.NairaStringToKobo(Money.KoboToNairaString(d.payment.amount)).Success?
  }

  // ----- confirmFunding as a function ----------------------------------------------------------------------

  /** What one delivery does to the record, the ledger permitting. */
  function Accept(terms: Terms, record: Record, d: Delivery): Record {
    if !Awaiting(record.status) || !Usable(d) || Recorded(record.payments, d.payment.transactionId) then record
    else
      var payments := record.payments + [d.payment];
      Record(if Received(payments) < Expected(terms) then Underpaid else Funded, payments)
  }

  /** The portion of this payment that was needed to reach the gross amount. */
  function Needed(terms: Terms, record: Record, payment: Payment): int {
    var excess := Received(record.payments) - Expected(terms);
    if payment.amount - excess > 0 then payment.amount - excess else 0
  }

  /** The part of this payment's excess that is worth sending back, if any. */
  function RefundDue(terms: Terms, record: Record, payment: Payment): Option<int> {
    if Received(record.payments) - Expected(terms) <= 0 then None
    else
      var own := payment.amount - Needed(terms, record, payment);
      if own > OUTBOUND_FEE then Some(own - OUTBOUND_FEE) else None
  }

  datatype World = World(tables: Tables, record: Record)

  /** One delivery, ledger included. A rejected credit leaves the payment recorded and the status as it was. */
  function Confirm(terms: Terms, w: World, d: Delivery): World {
    var record := Accept(terms, w.record, d);
    if record == w.record || record.status != Funded then w.(record := record)
    else
      var credit := Move(w.tables, Fund(terms.id, terms.potId, terms.intended));
      if credit.result.Failure? then World(credit.state, record.(status := w.record.status))
      else
        match RefundDue(terms, record, d.payment)
        case None => World(credit.state, record)
        case Some(refund) =>
          World(Move(credit.state, RefundOverpayment(d.payment.transactionId, terms.potId, refund)).state, record)
  }

  /** refundOverpayment's own arithmetic: the amount sent back, from the payment and the inflated expectation,
      both as naira. */
  function RefundOverpaymentAmount(transactionAmount: string, expectedAmount: string): Option<int> {
    var received, expected := Money.NairaStringToKobo(transactionAmount), Money.NairaStringToKobo(expectedAmount);
    if received.Failure? || expected.Failure? || received.value - expected.value <= 0 then None
    else Some(received.value - expected.value)
  }

  // ----- bookkeeping over any deliveries -------------------------------------------------------------------

  function AcceptAll(terms: Terms, record: Record, ds: seq<Delivery>): Record
    decreases |ds|
  {
    if ds == [] then record else AcceptAll(terms, Accept(terms, record, ds[0]), ds[1..])
  }

  const NEW := Record(Pending, [])

  /** The distinct usable payments of a list of deliveries, each as first delivered. */
  function Distinct(seen: seq<Payment>, ds: seq<Delivery>): seq<Payment>
    decreases |ds|
  {
    if ds == [] then seen
    else if !Usable(ds[0]) || Recorded(seen, ds[0].payment.transactionId) then Distinct(seen, ds[1..])
    else Distinct(seen + [ds[0].payment], ds[1..])
  }

  lemma UsableIff(d: Delivery)
    ensures Usable(d) <==> d.hasSender && d.payment.amount >= 0
  {
    Money.PrintThenParse(d.payment.amount);
    hide Money.IsValidNairaString, Money.KoboToNairaString;
    assert Money.NairaStringToKobo(Money.KoboToNairaString(d.payment.amount)).Success?
           <==> Money.IsValidNairaString(Money.KoboToNairaString(d.payment.amount));
  }

  lemma {:induction false} TotalPush(payments: seq<Payment>, p: Payment)
    ensures Received(payments + [p]) == Received(payments) + p.amount
  {
    if payments == [] {
      assert payments + [p] == [p];
    } else {
      assert (payments + [p])[1..] == payments[1..] + [p];
      TotalPush(payments[1..], p);
    }
  }

  lemma {:induction false} DistinctGrows(seen: seq<Payment>, ds: seq<Delivery>)
    ensures Received(Distinct(seen, ds)) >= Received(seen)
    decreases |ds|
  {
    if ds != [] {
      UsableIff(ds[0]);
      hide Usable;
      TotalPush(seen, ds[0].payment);
      if !Usable(ds[0]) || Recorded(seen, ds[0].payment.transactionId) {
        DistinctGrows(seen, ds[1..]);
      } else {
        DistinctGrows(seen + [ds[0].payment], ds[1..]);
      }
    }
  }

  lemma {:induction false} SettledStays(terms: Terms, record: Record, ds: seq<Delivery>)
    requires !Awaiting(record.status)
    ensures AcceptAll(terms, record, ds) == record
    decreases |ds|
  {
    if ds != [] {
      hide Usable;
      SettledStays(terms, record, ds[1..]);
    }
  }

  /** The gross amount is reached with the last payment, and not before. */
  predicate JustReached(terms: Terms, payments: seq<Payment>) {
    && payments != []
    && Received(payments[..|payments| - 1]) < Expected(terms) <= Received(payments)
  }

  lemma {:induction false} FundedIffFrom(terms: Terms, record: Record, ds: seq<Delivery>)
    requires Awaiting(record.status) && Received(record.payments) < Expected(terms)
    ensures var r := AcceptAll(terms, record, ds);
            && (r.status == Funded || Awaiting(r.status))
            && (r.status == Funded <==> Received(Distinct(record.payments, ds)) >= Expected(terms))
            && (Awaiting(r.status) ==>
                  r.payments == Distinct(record.payments, ds) && Received(r.payments) < Expected(terms))
            && (r.status == Funded ==> JustReached(terms, r.payments))
    decreases |ds|
  {
    if ds != [] {
      hide Usable, Expected;
      var next := Accept(terms, record, ds[0]);
      TotalPush(record.payments, ds[0].payment);
      if next.status == Funded {
        SettledStays(terms, next, ds[1..]);
        DistinctGrows(next.payments, ds[1..]);
        assert next.payments[..|next.payments| - 1] == record.payments;
      } else {
        FundedIffFrom(terms, next, ds[1..]);
      }
    }
  }

  /** The record alone ends funded exactly when its distinct payments add up to the gross amount; until then
      the recorded total is all of them and stays below it. The payment that funds it is the last recorded. */
  lemma RecordFundedIff(terms: Terms, ds: seq<Delivery>)
    ensures var r := AcceptAll(terms, NEW, ds);
            && (r.status == Funded <==> Received(Distinct([], ds)) >= Expected(terms))
            && (r.status != Funded ==> r.payments == Distinct([], ds) && Received(r.payments) < Expected(terms))
            && (r.status == Funded ==> JustReached(terms, r.payments))
  {
    FundedIffFrom(terms, NEW, ds);
  }

  // ----- order and repetition do not matter ----------------------------------------------------------------

  ghost predicate Offered(ds: seq<Delivery>, p: Payment) {
    exists i :: 0 <= i < |ds| && Usable(ds[i]) && ds[i].payment == p
  }

  /** The provider never gives one transaction two amounts. */
  ghost predicate OneAmountEach(ds: seq<Delivery>) {
    forall p, q :: Offered(ds, p) && Offered(ds, q) && p.transactionId == q.transactionId ==> p == q
  }

  ghost predicate Once(payments: seq<Payment>) {
    forall i, j :: 0 <= i < j < |payments| ==> payments[i].transactionId != payments[j].transactionId
  }

  lemma OfferedTail(ds: seq<Delivery>, p: Payment)
    requires ds != []
    ensures Offered(ds, p) <==> (Usable(ds[0]) && ds[0].payment == p) || Offered(ds[1..], p)
  {
    hide Usable;
    if Offered(ds[1..], p) {
      var i :| 0 <= i < |ds[1..]| && Usable(ds[1..][i]) && ds[1..][i].payment == p;
      assert ds[i + 1] == ds[1..][i];
    }
    if Offered(ds, p) {
      var i :| 0 <= i < |ds| && Usable(ds[i]) && ds[i].payment == p;
      assert i > 0 ==> ds[1..][i - 1] == ds[i];
    }
  }

  lemma {:induction false} DistinctOnce(seen: seq<Payment>, ds: seq<Delivery>)
    requires Once(seen)
    ensures Once(Distinct(seen, ds))
    decreases |ds|
  {
    if ds != [] {
      hide Usable;
      if !Usable(ds[0]) || Recorded(seen, ds[0].payment.transactionId) {
        DistinctOnce(seen, ds[1..]);
      } else {
        DistinctOnce(seen + [ds[0].payment], ds[1..]);
      }
    }
  }

  /** The distinct payments are those seen or offered. */
  lemma {:induction false} DistinctMembers(seen: seq<Payment>, ds: seq<Delivery>, p: Payment)
    requires OneAmountEach(ds)
    requires forall q, o :: q in seen && Offered(ds, o) && q.transactionId == o.transactionId ==> q == o
    ensures p in Distinct(seen, ds) <==> p in seen || Offered(ds, p)
    decreases |ds|
  {
    hide Usable;
    if ds != [] {
      var first := ds[0].payment;
      forall q ensures Offered(ds, q) <==> (Usable(ds[0]) && first == q) || Offered(ds[1..], q) {
        OfferedTail(ds, q);
      }
      hide Offered;
      if !Usable(ds[0]) {
        DistinctMembers(seen, ds[1..], p);
      } else if Recorded(seen, first.transactionId) {
        var i :| 0 <= i < |seen| && seen[i].transactionId == first.transactionId;
        assert seen[i] in seen && Offered(ds, first);
        DistinctMembers(seen, ds[1..], p);
      } else {
        DistinctMembers(seen + [first], ds[1..], p);
      }
    }
  }

  lemma {:induction false} TotalSplit(xs: seq<Payment>, k: nat)
    requires k < |xs|
    ensures Received(xs) == xs[k].amount + Received(xs[..k] + xs[k + 1..])
  {
    if k > 0 {
      TotalSplit(xs[1..], k - 1);
      assert xs[1..][..k - 1] + xs[1..][k..] == (xs[..k] + xs[k + 1..])[1..];
    } else {
      assert xs[..0] + xs[1..] == xs[1..];
    }
  }

  lemma EmptyIff(xs: seq<Payment>)
    ensures xs == [] <==> forall p :: p !in xs
  {
    if xs != [] {
      assert xs[0] in xs;
    }
  }

  lemma RemovedMembers(xs: seq<Payment>, k: nat)
    requires k < |xs| && Once(xs)
    ensures Once(xs[..k] + xs[k + 1..])
    ensures forall p :: p in xs[..k] + xs[k + 1..] <==> p in xs && p != xs[k]
  {
    var rest := xs[..k] + xs[k + 1..];
    forall p | p in xs && p != xs[k] ensures p in rest {
      var j :| 0 <= j < |xs| && xs[j] == p;
      assert p == rest[if j < k then j else j - 1];
    }
    forall p | p in rest ensures p in xs && p != xs[k] {
      var j :| 0 <= j < |rest| && rest[j] == p;
      assert p == xs[if j < k then j else j + 1];
    }
  }

  /** Totals depend only on which payments there are, when each appears once. */
  lemma {:induction false} TotalOfSame(xs: seq<Payment>, ys: seq<Payment>)
    requires Once(xs) && Once(ys) && forall p :: p in xs <==> p in ys
    ensures Received(xs) == Received(ys)
    decreases |xs|
  {
    if xs == [] {
      EmptyIff(ys);
    } else {
      assert xs[0] in ys;
      var k :| 0 <= k < |ys| && ys[k] == xs[0];
      var rest := ys[..k] + ys[k + 1..];
      TotalSplit(ys, k);
      RemovedMembers(xs, 0);
      RemovedMembers(ys, k);
      assert xs[..0] + xs[1..] == xs[1..];
      forall p ensures p in xs[1..] <==> p in rest {
        assert p in xs[1..] <==> p in xs && p != xs[0];
        assert p in rest <==> p in ys && p != ys[k];
      }
      TotalOfSame(xs[1..], rest);
    }
  }

  /** Deliveries of the same payments, in any order and with any repetitions, lead the record to the same end. */
  lemma RecordIgnoresOrder(terms: Terms, ds: seq<Delivery>, es: seq<Delivery>)
    requires OneAmountEach(ds) && forall p :: Offered(ds, p) <==> Offered(es, p)
    ensures AcceptAll(terms, NEW, ds).status == Funded <==> AcceptAll(terms, NEW, es).status == Funded
    ensures Received(Distinct([], ds)) == Received(Distinct([], es))
  {
    hide Usable, Offered;
    var xs, ys := Distinct([], ds), Distinct([], es);
    DistinctOnce([], ds);
    DistinctOnce([], es);
    forall p ensures p in xs <==> p in ys {
      DistinctMembers([], ds, p);
      DistinctMembers([], es, p);
    }
    TotalOfSame(xs, ys);
    RecordFundedIff(terms, ds);
    RecordFundedIff(terms, es);
  }

  // ----- what an overpayment breaks down into --------------------------------------------------------------

  /** In the funding step this payment's own excess is everything received beyond the gross amount. It goes
      back, less the outbound fee, when it exceeds that fee; everything received is then accounted for; and
      the amount recomputed when sending it, through naira strings, is the amount posted. */
  lemma OverpaymentDecomposition(terms: Terms, record: Record, d: Delivery)
    requires Awaiting(record.status) && Received(record.payments) < Expected(terms)
    requires Accept(terms, record, d).status == Funded
    ensures var funded := Accept(terms, record, d);
            var received := Received(funded.payments);
            var excess := received - Expected(terms);
            var needed := Needed(terms, funded, d.payment);
            && d.payment.amount - needed == excess
            && RefundDue(terms, funded, d.payment)
               == (if excess > OUTBOUND_FEE then Some(excess - OUTBOUND_FEE) else None)
            && (excess > OUTBOUND_FEE ==>
                  && received == terms.intended + InboundFeeFor(terms.intended) + (excess - OUTBOUND_FEE) + OUTBOUND_FEE
                  && RefundOverpaymentAmount(Money.KoboToNairaString(d.payment.amount),
                                             Money.KoboToNairaString(needed + OUTBOUND_FEE))
                       == Some(excess - OUTBOUND_FEE))
  {
    UsableIff(d);
    TotalPush(record.payments, d.payment);
    var needed := Needed(terms, Accept(terms, record, d), d.payment);
    Money.PrintThenParse(d.payment.amount);
    Money.PrintThenParse(needed + OUTBOUND_FEE);
    hide Usable, Money.IsValidNairaString, Money.KoboToNairaString, Money.NairaStringToKobo, InboundFeeFor;
  }

  // ----- what one delivery does ----------------------------------------------------------------------------

  /** A delivery that counts: the contribution still awaits payment, and this one is usable and new. */
  predicate Counts(record: Record, d: Delivery) {
    && Awaiting(record.status) && d.hasSender && d.payment.amount >= 0
    && forall p <- record.payments :: p.transactionId != d.payment.transactionId
  }

  /** The part of this payment that is beyond the gross amount. */
  function OwnExcess(terms: Terms, record: Record, payment: Payment): (own: int)
    ensures Received(record.payments) <= Expected(terms) ==>
              own == Received(record.payments) + payment.amount - Expected(terms)
  {
    var excess := Received(record.payments) + payment.amount - Expected(terms);
    if excess <= payment.amount then excess else payment.amount
  }

  lemma CountsIff(record: Record, d: Delivery)
    ensures Counts(record, d) <==>
              Awaiting(record.status) && Usable(d) && !Recorded(record.payments, d.payment.transactionId)
  {
    UsableIff(d);
    hide Usable;
    if p :| p in record.payments && p.transactionId == d.payment.transactionId {
      var i :| 0 <= i < |record.payments| && record.payments[i] == p;
    }
  }

  /** What one delivery does, case by case: nothing unless it counts; short of the gross amount it is recorded; at
      the gross amount the pot is credited, and unless that is rejected the contribution is funded, and this
      payment's own excess, above the outbound fee, is posted back less that fee. */
  lemma ConfirmDoes(terms: Terms, w: World, d: Delivery)
    ensures var t := Confirm(terms, w, d);
            var payments := w.record.payments + [d.payment];
            var credit := Move(w.tables, Fund(terms.id, terms.potId, terms.intended));
            var own := OwnExcess(terms, w.record, d.payment);
            if !Counts(w.record, d) then t == w
            else if Received(w.record.payments) + d.payment.amount < Expected(terms) then
              t == World(w.tables, Record(Underpaid, payments))
            else if credit.result.Failure? then t == World(w.tables, Record(w.record.status, payments))
            else
              && t.record == Record(Funded, payments)
              && t.tables == if own <= OUTBOUND_FEE then credit.state
                             else Move(credit.state, RefundOverpayment(d.payment.transactionId, terms.potId,
                                                                       own - OUTBOUND_FEE)).state
  {
    CountsIff(w.record, d);
    TotalPush(w.record.payments, d.payment);
    RejectedIsNoOp(w.tables, Fund(terms.id, terms.potId, terms.intended));
    hide Move, Usable, Recorded, Expected;
  }

  /** The amount recomputed for the provider, through naira strings. */
  lemma SentBackAmount(amount: nat, needed: nat)
    ensures RefundOverpaymentAmount(Money.KoboToNairaString(amount), Money.KoboToNairaString(needed + OUTBOUND_FEE))
            == if amount - needed > OUTBOUND_FEE then Some(amount - needed - OUTBOUND_FEE) else None
  {
    Money.PrintThenParse(amount);
    Money.PrintThenParse(needed + OUTBOUND_FEE);
    hide Money.IsValidNairaString, Money.KoboToNairaString, Money.NairaStringToKobo;
  }

  // ----- the ledger ----------------------------------------------------------------------------------------

  /** Once the pot has been credited, the overpayment refund is posted exactly when the float, with what the
      funding itself brought in, covers the refund and the provider's fee: the excess is not in the float. */
  lemma RefundPostedIff(s: Tables, terms: Terms, transactionId: nat, refund: int)
    requires Books(s) && HasAccounts(s, terms.potId) && terms.intended > 0 && refund > 0
    requires Contribution(terms.id) !in s.transactions && OverpaymentRefund(transactionId) !in s.transactions
    ensures var credit := Move(s, Fund(terms.id, terms.potId, terms.intended));
            && credit.result.Success?
            && (Move(credit.state, RefundOverpayment(transactionId, terms.potId, refund)).result.Success?
                <==> BalanceIn(s.balances, PlatformFloat) + terms.intended + PLATFORM_INBOUND_FEE
                     >= refund + NOMBA_OUTBOUND_FEE)
  {
    var m := Fund(terms.id, terms.potId, terms.intended);
    FundAccepted(s, terms.id, terms.potId, terms.intended);
    FundEffect(s, terms.id, terms.potId, terms.intended);
    PostKeepsBooks(s, m);
    hide Books, Move;
    OverpaymentRefundAcceptedIff(Move(s, m).state, transactionId, terms.potId, refund);
  }

  /** Any delivery after the funding one changes nothing: a refund the float could not cover is not tried again. */
  lemma LaterDeliveriesChangeNothing(terms: Terms, w: World, d: Delivery)
    requires w.record.status == Funded
    ensures Confirm(terms, w, d) == w
  {
    hide Usable;
  }

  // ----- credited exactly once -----------------------------------------------------------------------------

  /** Everything that can happen around a contribution; `lockHeld` says whether its pot has an operation in flight. */
  datatype Event =
    | Paid(delivery: Delivery)
    | ReversePayment(lockHeld: bool)
    | Expire
    | Elsewhere(movement: Movement)

  function Step(terms: Terms, w: World, e: Event): World {
    match e
    case Paid(d) => Confirm(terms, w, d)
    case ReversePayment(lockHeld) =>
      if w.record.status != Funded || lockHeld then w
      else
        var p := Move(w.tables, Undo(Contribution(terms.id)));
        if p.result.Failure? then w else World(p.state, w.record.(status := FundingStatus.Reversed))
    case Expire => if Awaiting(w.record.status) then w.(record := w.record.(status := Failed)) else w
    case Elsewhere(m) => w.(tables := Move(w.tables, m).state)
  }

  function Run(terms: Terms, w: World, events: seq<Event>): World
    decreases |events|
  {
    if events == [] then w else Run(terms, Step(terms, w, events[0]), events[1..])
  }

  ghost predicate Apart(terms: Terms, e: Event) {
    e.Elsewhere? ==> Allowed(e.movement) && ReferenceOf(e.movement) != Contribution(terms.id)
  }

  function CreditOf(terms: Terms): Transaction {
    Transaction(ContributionKind, Completed, terms.intended, Some(terms.potId))
  }

  /** Status and ledger agree: nothing posted until funded, exactly the intended amount from then on, live
      until reversed; and until funded the recorded total stays below the gross amount. */
  ghost predicate Agree(terms: Terms, w: World) {
    var r := Contribution(terms.id);
    && Books(w.tables) && HasAccounts(w.tables, terms.potId)
    && match w.record.status
       case Funded => r in w.tables.transactions && w.tables.transactions[r] == CreditOf(terms)
       case Reversed =>
         r in w.tables.transactions && w.tables.transactions[r] == CreditOf(terms).(status := Status.Reversed)
       case _ => r !in w.tables.transactions && Received(w.record.payments) < Expected(terms)
  }

  lemma OthersLeaveIt(s: Tables, m: Movement, r: Reference)
    requires Books(s) && Allowed(m) && ReferenceOf(m) != r && !r.Reversal?
    ensures var s' := Move(s, m).state;
            && s'.ids == s.ids && Books(s')
            && (r in s'.transactions <==> r in s.transactions)
            && (r in s.transactions ==> s'.transactions[r] == s.transactions[r])
  {
    hide Move, Books, InputOf, BalanceIn, Net, LegsFor;
    MoveKeepsBooks(s, m);
    MoveKeepsAccounts(s, m);
    if Move(s, m).result.Failure? {
      RejectedIsNoOp(s, m);
    } else {
      match m {
        case Undo(q) =>
          if Live(s.transactions, q) {
            UndoEffect(s, q);
          } else {
            UndoAgainIsNoOp(s, q);
          }
        case Complete(q) => CompleteLeavesOthers(s, q, r);
        case _ =>
          if InputOf(m).reference in s.transactions {
            PostRepeated(s, m);
          } else {
            PostEffect(s, m);
          }
      }
    }
  }

  lemma CompleteLeavesOthers(s: Tables, q: Reference, r: Reference)
    requires q != r
    ensures var s' := Move(s, Complete(q)).state;
            && (r in s'.transactions <==> r in s.transactions)
            && (r in s.transactions ==> s'.transactions[r] == s.transactions[r])
  {}

  lemma CreditOnRecord(s: Tables, terms: Terms)
    requires Books(s) && HasAccounts(s, terms.potId) && terms.intended > 0 && Contribution(terms.id) !in s.transactions
    ensures var p := Move(s, Fund(terms.id, terms.potId, terms.intended));
            && p.result.Success? && Books(p.state) && p.state.ids == s.ids
            && Contribution(terms.id) in p.state.transactions
            && p.state.transactions[Contribution(terms.id)] == CreditOf(terms)
  {
    hide Books, Move;
    FundAccepted(s, terms.id, terms.potId, terms.intended);
    FundEffect(s, terms.id, terms.potId, terms.intended);
    PostKeepsBooks(s, Fund(terms.id, terms.potId, terms.intended));
  }

  lemma RefundLeavesIt(s: Tables, terms: Terms, transactionId: nat, refund: int)
    requires Books(s)
    ensures var s' := Move(s, RefundOverpayment(transactionId, terms.potId, refund)).state;
            && Books(s') && s'.ids == s.ids
            && (Contribution(terms.id) in s'.transactions <==> Contribution(terms.id) in s.transactions)
            && (Contribution(terms.id) in s.transactions ==>
                  s'.transactions[Contribution(terms.id)] == s.transactions[Contribution(terms.id)])
  {
    OthersLeaveIt(s, RefundOverpayment(transactionId, terms.potId, refund), Contribution(terms.id));
  }

  lemma ConfirmAgrees(terms: Terms, w: World, d: Delivery)
    requires Agree(terms, w) && terms.intended > 0
    ensures Agree(terms, Confirm(terms, w, d))
  {
    hide Usable, Expected, Books, Move, RefundDue, HasAccounts, InputOf, Recorded;
    var r := Accept(terms, w.record, d);
    if r != w.record && r.status == Funded {
      CreditOnRecord(w.tables, terms);
      var s1 := Move(w.tables, Fund(terms.id, terms.potId, terms.intended)).state;
      assert HasAccounts(s1, terms.potId) by { SameAccounts(w.tables, s1, terms.potId); }
      var due := RefundDue(terms, r, d.payment);
      if due.Some? {
        RefundLeavesIt(s1, terms, d.payment.transactionId, due.value);
        var m := RefundOverpayment(d.payment.transactionId, terms.potId, due.value);
        SameAccounts(w.tables, Move(s1, m).state, terms.potId);
      }
    }
  }

  lemma SameAccounts(s: Tables, s': Tables, potId: nat)
    requires s'.ids == s.ids
    ensures HasAccounts(s', potId) <==> HasAccounts(s, potId)
  {}

  lemma StepAgrees(terms: Terms, w: World, e: Event)
    requires Agree(terms, w) && terms.intended > 0 && Apart(terms, e)
    ensures Agree(terms, Step(terms, w, e))
  {
    match e
    case Paid(d) => ConfirmAgrees(terms, w, d);
    case ReversePayment(lockHeld) =>
      var r := Contribution(terms.id);
      if w.record.status == Funded && Move(w.tables, Undo(r)).result.Success? {
        UndoKeepsBooks(w.tables, r);
        UndoEffect(w.tables, r);
      }
    case Expire =>
    case Elsewhere(m) => OthersLeaveIt(w.tables, m, Contribution(terms.id));
  }

  lemma {:induction false} RunAgrees(terms: Terms, w: World, events: seq<Event>)
    requires Agree(terms, w) && terms.intended > 0 && forall e <- events :: Apart(terms, e)
    ensures Agree(terms, Run(terms, w, events))
    decreases |events|
  {
    if events != [] {
      StepAgrees(terms, w, events[0]);
      hide Agree, Apart, Step;
      RunAgrees(terms, Step(terms, w, events[0]), events[1..]);
    }
  }

  lemma StartAgrees(terms: Terms, ids: map<Account, nat>)
    requires terms.intended > 0 && HasAccounts(EmptyTables(ids), terms.potId)
    ensures Agree(terms, World(EmptyTables(ids), NEW))
  {
    hide Books, HasAccounts;
    EveryRunKeepsBooks(ids, []);
  }

  /** Whatever else happens, in any order: a funded contribution has credited its pot the intended amount by
      exactly one set of legs in the log, and one that is not funded has none. */
  lemma CreditedExactlyOnce(terms: Terms, ids: map<Account, nat>, events: seq<Event>)
    requires terms.intended > 0 && HasAccounts(EmptyTables(ids), terms.potId)
    requires forall e <- events :: Apart(terms, e)
    ensures var w := Run(terms, World(EmptyTables(ids), NEW), events);
            var own := EntriesOf(w.tables.entries, Contribution(terms.id));
            && Agree(terms, w)
            && multiset(own) == (if w.record.status == Funded || w.record.status == FundingStatus.Reversed
                                 then multiset(InboundFeeLegs(terms.potId, terms.intended)) else multiset{})
  {
    hide Books, InboundFeeLegs, EntriesOf, Received, Expected, Run, Apart, HasAccounts;
    var start := World(EmptyTables(ids), NEW);
    StartAgrees(terms, ids);
    RunAgrees(terms, start, events);
    var w := Run(terms, start, events);
    LegsOnRecord(w.tables, Contribution(terms.id));
  }

  lemma ReversedIff(terms: Terms, w: World, lockHeld: bool)
    requires Agree(terms, w)
    ensures var t := Step(terms, w, ReversePayment(lockHeld));
            if && w.record.status == Funded && !lockHeld
               && BalanceIn(w.tables.balances, Pot(terms.potId)) >= terms.intended
               && BalanceIn(w.tables.balances, PlatformFloat) >= terms.intended + PLATFORM_INBOUND_FEE
            then
              && t.record == w.record.(status := FundingStatus.Reversed)
              && forall a :: BalanceIn(t.tables.balances, a)
                             == BalanceIn(w.tables.balances, a)
                                - Flow(Contribution(terms.id), terms.intended, terms.potId, a)
            else t == w
  {
    hide Books, Move, BalanceIn, LegsFor, Flow, Received;
    var r := Contribution(terms.id);
    if w.record.status == Funded {
      FundingUndoAcceptedIff(w.tables, terms.id);
      if Move(w.tables, Undo(r)).result.Success? {
        UndoMoves(w.tables, r);
      }
    }
  }

  lemma PaidIff(terms: Terms, w: World, d: Delivery)
    requires Agree(terms, w) && terms.intended > 0
    ensures Confirm(terms, w, d).record
            == if !Counts(w.record, d) then w.record
               else
                 Record(if Received(w.record.payments) + d.payment.amount < Expected(terms) then Underpaid else Funded,
                        w.record.payments + [d.payment])
  {
    hide Expected, Books, Move, OwnExcess, Received, HasAccounts;
    ConfirmDoes(terms, w, d);
    if Awaiting(w.record.status) {
      CreditOnRecord(w.tables, terms);
    }
    hide Confirm;
  }

  /** When a contribution's status moves, and to what: for every state the books agree with and every event. A payment
      that counts makes it underpaid or funded, as the total says; only a funded one is reversed, if its pot was
      free and pot and float still hold the money; only one still awaiting money expires; and nothing else, and
      never back. */
  lemma StatusMovesIff(terms: Terms, w: World, e: Event)
    requires Agree(terms, w) && terms.intended > 0
    ensures var (before, after) := (w.record.status, Step(terms, w, e).record.status);
            && (after == Pending ==> before == Pending)
            && (after == Underpaid && before != Underpaid
                <==> && before == Pending && e.Paid? && Counts(w.record, e.delivery)
                     && Received(w.record.payments) + e.delivery.payment.amount < Expected(terms))
            && (after == Funded && before != Funded
                <==> && e.Paid? && Counts(w.record, e.delivery)
                     && Received(w.record.payments) + e.delivery.payment.amount >= Expected(terms))
            && (after == FundingStatus.Reversed && before != FundingStatus.Reversed
                <==> && before == Funded && e.ReversePayment? && !e.lockHeld
                     && BalanceIn(w.tables.balances, Pot(terms.potId)) >= terms.intended
                     && BalanceIn(w.tables.balances, PlatformFloat) >= terms.intended + PLATFORM_INBOUND_FEE)
            && (after == Failed && before != Failed
                <==> (before == Pending || before == Underpaid) && e.Expire?)
  {
    hide Books, Move, BalanceIn, HasAccounts, Expected, Received;
    match e
    case Paid(d) =>
      PaidIff(terms, w, d);
      hide Confirm;
    case ReversePayment(lockHeld) =>
      ReversedIff(terms, w, lockHeld);
      hide Step;
    case Expire =>
    case Elsewhere(_) =>
  }

  // ----- funded if and only if paid, on the ledger ---------------------------------------------------------

  function DeliveriesOf(events: seq<Event>): seq<Delivery> {
    if events == [] then []
    else (if events[0].Paid? then [events[0].delivery] else []) + DeliveriesOf(events[1..])
  }

  /** Deliveries of this contribution's payments, with whatever else the ledger does in between. */
  ghost predicate PaymentsAmong(terms: Terms, events: seq<Event>) {
    forall e <- events :: (e.Paid? || e.Elsewhere?) && Apart(terms, e)
  }

  /** While status and ledger agree the credit is never refused, so one delivery does to the record what it does
      to the record alone. */
  lemma ConfirmRecords(terms: Terms, w: World, d: Delivery)
    requires Agree(terms, w) && terms.intended > 0
    ensures Confirm(terms, w, d).record == Accept(terms, w.record, d)
  {
    hide Usable, Expected, Books, Move, RefundDue, HasAccounts, Recorded;
    if Awaiting(w.record.status) {
      CreditOnRecord(w.tables, terms);
    }
  }

  lemma {:induction false} RunRecords(terms: Terms, w: World, events: seq<Event>)
    requires Agree(terms, w) && terms.intended > 0 && PaymentsAmong(terms, events)
    ensures Run(terms, w, events).record == AcceptAll(terms, w.record, DeliveriesOf(events))
    decreases |events|
  {
    if events != [] {
      var e := events[0];
      assert (e.Paid? || e.Elsewhere?) && Apart(terms, e);
      StepAgrees(terms, w, e);
      if e.Paid? {
        ConfirmRecords(terms, w, e.delivery);
        assert ([e.delivery] + DeliveriesOf(events[1..]))[1..] == DeliveriesOf(events[1..]);
      } else {
        assert [] + DeliveriesOf(events[1..]) == DeliveriesOf(events[1..]);
      }
      hide Agree, Confirm, Accept, Apart;
      assert PaymentsAmong(terms, events[1..]);
      RunRecords(terms, Step(terms, w, e), events[1..]);
    }
  }

  lemma RunStaysAgreed(terms: Terms, s: Tables, events: seq<Event>)
    requires Books(s) && HasAccounts(s, terms.potId) && Contribution(terms.id) !in s.transactions
    requires terms.intended > 0 && PaymentsAmong(terms, events)
    ensures Agree(terms, World(s, NEW)) && Agree(terms, Run(terms, World(s, NEW), events))
  {
    RunAgrees(terms, World(s, NEW), events);
  }

  /** On any ledger, with anything else happening in between: a contribution ends funded if and only if its distinct
      payments add up to the gross amount. Then the log has exactly one set of its legs, for the intended amount;
      until then it has none, every distinct payment is recorded, and their total stays below the gross amount. */
  lemma FundedIff(terms: Terms, s: Tables, events: seq<Event>)
    requires Books(s) && HasAccounts(s, terms.potId) && Contribution(terms.id) !in s.transactions
    requires terms.intended > 0 && PaymentsAmong(terms, events)
    ensures var w := Run(terms, World(s, NEW), events);
            var paid := Distinct([], DeliveriesOf(events));
            var own := multiset(EntriesOf(w.tables.entries, Contribution(terms.id)));
            && (w.record.status == Funded <==> Received(paid) >= Expected(terms))
            && (w.record.status == Funded ==> own == multiset(InboundFeeLegs(terms.potId, terms.intended)))
            && (w.record.status != Funded ==>
                  own == multiset{} && w.record.payments == paid && Received(paid) < Expected(terms))
  {
    hide Books, HasAccounts, Usable, Expected, InboundFeeLegs, Apart;
    RunStaysAgreed(terms, s, events);
    RunRecords(terms, World(s, NEW), events);
    RecordFundedIff(terms, DeliveriesOf(events));
    RecordAwaits(terms, DeliveriesOf(events));
    LegsOnRecord(Run(terms, World(s, NEW), events).tables, Contribution(terms.id));
    hide Run, AcceptAll, Distinct;
  }

  lemma RecordAwaits(terms: Terms, ds: seq<Delivery>)
    ensures AcceptAll(terms, NEW, ds).status == Funded || Awaiting(AcceptAll(terms, NEW, ds).status)
  {
    FundedIffFrom(terms, NEW, ds);
  }

  /** The same payments, in any order and with any repetitions, whatever else happens among them and on whatever
      ledgers, fund the contribution alike and leave the same legs in the log. */
  lemma OrderAndRepetitionDoNotMatter(terms: Terms, s: Tables, events: seq<Event>, s': Tables, events': seq<Event>)
    requires Books(s) && HasAccounts(s, terms.potId) && Contribution(terms.id) !in s.transactions
    requires Books(s') && HasAccounts(s', terms.potId) && Contribution(terms.id) !in s'.transactions
    requires terms.intended > 0 && PaymentsAmong(terms, events) && PaymentsAmong(terms, events')
    requires OneAmountEach(DeliveriesOf(events))
    requires forall p :: Offered(DeliveriesOf(events), p) <==> Offered(DeliveriesOf(events'), p)
    ensures var w, w' := Run(terms, World(s, NEW), events), Run(terms, World(s', NEW), events');
            && (w.record.status == Funded <==> w'.record.status == Funded)
            && multiset(EntriesOf(w.tables.entries, Contribution(terms.id)))
               == multiset(EntriesOf(w'.tables.entries, Contribution(terms.id)))
  {
    hide Books, HasAccounts, Usable, Expected, InboundFeeLegs, Apart, Run, Distinct, Offered;
    FundedIff(terms, s, events);
    FundedIff(terms, s', events');
    RecordIgnoresOrder(terms, DeliveriesOf(events), DeliveriesOf(events'));
  }

  lemma LegsOnRecord(s: Tables, r: Reference)
    requires Books(s) && !r.Reversal?
    ensures multiset(EntriesOf(s.entries, r))
            == if r in s.transactions then multiset(LegsFor(r, s.transactions[r])) else multiset{}
  {
    assert Shaped(s, r);
    if r !in s.transactions {
      EntriesOfAbsent(s.entries, r);
    }
  }

  // ----- the service ---------------------------------------------------------------------------------------

  /** One contribution's row and its payments, with the ledger it posts to. */
  class ContributionRow {
    const terms: Terms
    const ledger: LedgerService
    var status: FundingStatus
    var payments: seq<Payment>

    ghost function Abs(): World
      reads this, ledger
    {
      World(ledger.State(), Record(status, payments))
    }

    constructor (terms: Terms, ledger: LedgerService)
      ensures this.terms == terms && this.ledger == ledger && Abs() == World(ledger.State(), NEW)
    {
      this.terms, this.ledger, status, payments := terms, ledger, Pending, [];
    }

    method IsRecorded(transactionId: nat) returns (found: bool)
      ensures found == Recorded(payments, transactionId)
    {
      var i := 0;
      while i < |payments|
        invariant 0 <= i <= |payments|
        invariant forall j :: 0 <= j < i ==> payments[j].transactionId != transactionId
      {
        if payments[i].transactionId == transactionId {
          return true;
        }
        i := i + 1;
      }
      found := false;
    }

    method ReceivedTotal() returns (total: int)
      ensures total == Received(payments)
    {
      total := 0;
      var i := |payments|;
      while i > 0
        invariant 0 <= i <= |payments| && total == Received(payments[i..])
      {
        i := i - 1;
        total := payments[i].amount + total;
      }
    }

    /** confirmFunding. `sentBack` is the amount handed to the provider as an overpayment refund. */
    method ConfirmFunding(d: Delivery) returns (sentBack: Option<int>)
      modifies this, ledger
      ensures Abs() == Confirm(terms, old(Abs()), d)
      ensures var w := old(Abs());
              var own := OwnExcess(terms, w.record, d.payment);
              var credit := Move(w.tables, Fund(terms.id, terms.potId, terms.intended));
              var refund := RefundOverpayment(d.payment.transactionId, terms.potId, own - OUTBOUND_FEE);
              sentBack == if && Counts(w.record, d)
                             && Received(w.record.payments) + d.payment.amount >= Expected(terms)
                             && credit.result.Success? && own > OUTBOUND_FEE
                             && Move(credit.state, refund).result.Success?
                          then Some(own - OUTBOUND_FEE) else None
    {
      CountsIff(Record(status, payments), d);
      UsableIff(d);
      TotalPush(payments, d.payment);
      hide Move, InputOf, Post, Recorded, RefundOverpaymentAmount, Expected, Counts;
      hide Money.NairaStringToKobo, Money.KoboToNairaString;
      sentBack := None;
      if !Awaiting(status) || !d.hasSender {
        return;
      }
      var amount := Money.NairaStringToKobo(Money.KoboToNairaString(d.payment.amount));
      if amount.Failure? {
        return;
      }
      var recorded := IsRecorded(d.payment.transactionId);
      if recorded {
        return;
      }
      payments := payments + [d.payment];
      var receivedTotal := ReceivedTotal();
      if receivedTotal < Expected(terms) {
        status := Underpaid;
        return;
      }
      var credited := PostMovement(Fund(terms.id, terms.potId, terms.intended));
      if !credited {
        return;
      }
      status := Funded;
      sentBack := RefundExcess(d.payment, receivedTotal - Expected(terms));
    }

    method PostMovement(m: Movement) returns (accepted: bool)
      requires Posts(m)
      modifies ledger
      ensures var p := Move(old(ledger.State()), m);
              ledger.State() == p.state && accepted == p.result.Success?
    {
      hide Post, InputOf;
      var r := ledger.PostTransaction(InputOf(m));
      accepted := r.Success?;
    }

    /** The tail of confirmFunding: nothing is sent unless its posting was accepted. */
    method RefundExcess(payment: Payment, excess: int) returns (sentBack: Option<int>)
      requires excess == Received(payments) - Expected(terms) && payment.amount >= 0
      modifies ledger
      ensures match RefundDue(terms, Record(status, payments), payment)
              case None => sentBack == None && ledger.State() == old(ledger.State())
              case Some(refund) =>
                var p := Move(old(ledger.State()), RefundOverpayment(payment.transactionId, terms.potId, refund));
                && ledger.State() == p.state
                && sentBack == if p.result.Failure? then None else Some(refund)
    {
      hide Move, Expected, RefundOverpaymentAmount;
      if excess <= 0 {
        return None;
      }
      var thisPaymentNeeded := if payment.amount - excess > 0 then payment.amount - excess else 0;
      var thisPaymentExcess := payment.amount - thisPaymentNeeded;
      if thisPaymentExcess <= OUTBOUND_FEE {
        return None;
      }
      var refundAmount := thisPaymentExcess - OUTBOUND_FEE;
      var posted := PostMovement(RefundOverpayment(payment.transactionId, terms.potId, refundAmount));
      if !posted {
        return None;
      }
      SentBackAmount(payment.amount, thisPaymentNeeded);
      var feeAdjustedExpected := thisPaymentNeeded + OUTBOUND_FEE;
      sentBack := RefundOverpaymentAmount(Money.KoboToNairaString(payment.amount),
                                          Money.KoboToNairaString(feeAdjustedExpected));
    }

    /** reverseFunding; `lockHeld` is the pot's pendingOperation. */
    method ReverseFunding(lockHeld: bool)
      modifies this, ledger
      ensures Abs() == Step(terms, old(Abs()), ReversePayment(lockHeld))
    {
      hide Confirm;
      if status != Funded || lockHeld {
        return;
      }
      var r := ledger.ReverseTransaction(Contribution(terms.id), Reversal(Contribution(terms.id)));
      if r.Success? {
        status := FundingStatus.Reversed;
      }
    }
  }
}
