/** Nightly reconciliation: paging through the provider's transactions, classifying each against the local
    record, and rolling the line items up per customer. All amounts in kobo. */
module Reconciliation {
  import opened Wrappers
  import Money

  const MAX_RECONCILE_PAGES: nat := 10_000

  /** A provider transaction; an absent reference is the empty string. */
  datatype ProviderTransaction = ProviderTransaction(
    merchantTxRef: string,
    virtualAccountReference: string,
    amount: int)

  /** A page of them; the empty cursor means there are no more. */
  datatype Page = Page(results: seq<ProviderTransaction>, cursor: string)

  datatype LocalRecord = LocalRecord(amount: int, customerId: Option<string>)

  datatype LineStatus = Orphan | Matched | Overpaid | Underpaid | MissingOnNomba

  datatype LineItem = LineItem(
    status: LineStatus,
    correlatingRef: string,
    customerId: Option<string>,
    nombaAmount: Option<int>,
    localAmount: Option<int>,
    difference: Option<int>)

  datatype Summary = Summary(
    customerId: string,
    expectedTotal: int,
    receivedTotal: int,
    overpaidTotal: int,
    underpaidTotal: int,
    lineItems: seq<LineItem>)

  datatype Report = Report(
    totalChecked: nat,
    matchedCount: nat,
    overpaidCount: nat,
    underpaidCount: nat,
    orphanCount: nat,
    missingOnNombaCount: nat,
    lineItems: seq<LineItem>,
    byCustomer: seq<Summary>)

  datatype ReconcileError = TooManyPages

  // ----- one line item -------------------------------------------------------------------------------------

  /** An amount of naira to two decimals, signed, read back as kobo: the sign is peeled off first. */
  function NairaToKoboExact(amount: int): int {
    var magnitude := Money.NairaStringToKobo(Money.KoboToNairaString(if amount < 0 then -amount else amount));
    if magnitude.Failure? then 0 else if amount < 0 then -magnitude.value else magnitude.value
  }

  lemma ExactIsExact(amount: int)
    ensures NairaToKoboExact(amount) == amount
  {
    Money.PrintThenParse(if amount < 0 then -amount else amount);
    hide Money.KoboToNairaString, Money.NairaStringToKobo;
  }

  function CorrelatingRef(tx: ProviderTransaction): string {
    if tx.merchantTxRef != "" then tx.merchantTxRef else tx.virtualAccountReference
  }

  function BuildLineItem(ref: string, tx: ProviderTransaction, local: Option<LocalRecord>): LineItem {
    match local
    case None => LineItem(Orphan, ref, None, Some(tx.amount), None, None)
    case Some(record) =>
      var difference := NairaToKoboExact(tx.amount) - NairaToKoboExact(record.amount);
      LineItem(if difference == 0 then Matched else if difference > 0 then Overpaid else Underpaid,
               ref, record.customerId, Some(tx.amount), Some(record.amount), Some(difference))
  }

  function MissingItem(ref: string, local: Option<LocalRecord>): LineItem {
    match local
    case None => LineItem(MissingOnNomba, ref, None, None, None, None)
    case Some(record) => LineItem(MissingOnNomba, ref, record.customerId, None, Some(record.amount), None)
  }

  // ----- the pages -----------------------------------------------------------------------------------------

  /** Every transaction from page n on, or the abort after too many pages. The provider may answer each request
      as it likes: `fetch` takes the request's number and cursor. */
  function PagesFrom(fetch: (nat, string) -> Page, n: nat, cursor: string)
    : Result<seq<ProviderTransaction>, ReconcileError>
    decreases MAX_RECONCILE_PAGES + 1 - n
  {
    var page := fetch(n, cursor);
    if n + 1 > MAX_RECONCILE_PAGES then Failure(TooManyPages)
    else if page.cursor == "" then Success(page.results)
    else
      Prepend(page.results, PagesFrom(fetch, n + 1, page.cursor))
  }

  function Prepend(txs: seq<ProviderTransaction>, rest: Result<seq<ProviderTransaction>, ReconcileError>)
    : Result<seq<ProviderTransaction>, ReconcileError>
  {
    match rest
    case Failure(error) => Failure(error)
    case Success(more) => Success(txs + more)
  }

  lemma PrependTwice(xs: seq<ProviderTransaction>, ys: seq<ProviderTransaction>,
                     rest: Result<seq<ProviderTransaction>, ReconcileError>)
    ensures Prepend(xs, Prepend(ys, rest)) == Prepend(xs + ys, rest)
    ensures Prepend([], rest) == rest
  {
    if rest.Success? {
      assert xs + (ys + rest.value) == xs + ys + rest.value;
      assert [] + rest.value == rest.value;
    }
  }

  /** The cursor the n-th request is made with, if every page before it gave one. */
  function CursorAt(fetch: (nat, string) -> Page, n: nat): string {
    if n == 0 then "" else fetch(n - 1, CursorAt(fetch, n - 1)).cursor
  }

  lemma {:induction false} AbortsIffFrom(fetch: (nat, string) -> Page, n: nat)
    requires n <= MAX_RECONCILE_PAGES
    ensures PagesFrom(fetch, n, CursorAt(fetch, n)).Failure?
            <==> forall k: nat :: n < k <= MAX_RECONCILE_PAGES ==> CursorAt(fetch, k) != ""
    decreases MAX_RECONCILE_PAGES - n
  {
    if n < MAX_RECONCILE_PAGES {
      AbortsIffFrom(fetch, n + 1);
      assert CursorAt(fetch, n + 1) == fetch(n, CursorAt(fetch, n)).cursor;
    }
  }

  /** The loop ends whatever the provider's cursors do, and it aborts exactly when each of the first ten thousand
      pages names another. */
  lemma AbortsIff(fetch: (nat, string) -> Page)
    ensures PagesFrom(fetch, 0, "").Failure?
            <==> forall k: nat :: 0 < k <= MAX_RECONCILE_PAGES ==> CursorAt(fetch, k) != ""
  {
    AbortsIffFrom(fetch, 0);
  }

  /** What the first n requests returned, page after page. */
  function Fetched(fetch: (nat, string) -> Page, n: nat): seq<ProviderTransaction> {
    if n == 0 then [] else Fetched(fetch, n - 1) + fetch(n - 1, CursorAt(fetch, n - 1)).results
  }

  lemma {:induction false} PagesAreFetchedFrom(fetch: (nat, string) -> Page, k: nat, n: nat)
    requires k < n <= MAX_RECONCILE_PAGES && CursorAt(fetch, n) == ""
    requires forall j: nat :: 0 < j < n ==> CursorAt(fetch, j) != ""
    ensures Prepend(Fetched(fetch, k), PagesFrom(fetch, k, CursorAt(fetch, k))) == Success(Fetched(fetch, n))
    decreases n - k
  {
    var page := fetch(k, CursorAt(fetch, k));
    assert CursorAt(fetch, k + 1) == page.cursor;
    if k + 1 < n {
      PagesAreFetchedFrom(fetch, k + 1, n);
      PrependTwice(Fetched(fetch, k), page.results, PagesFrom(fetch, k + 1, page.cursor));
    }
  }

  /** A run that does not abort reads every page up to the first that names no other, in order and no more. */
  lemma PagesAreFetched(fetch: (nat, string) -> Page, n: nat)
    requires 0 < n <= MAX_RECONCILE_PAGES && CursorAt(fetch, n) == ""
    requires forall j: nat :: 0 < j < n ==> CursorAt(fetch, j) != ""
    ensures PagesFrom(fetch, 0, "") == Success(Fetched(fetch, n))
  {
    PagesAreFetchedFrom(fetch, 0, n);
    PrependTwice([], [], PagesFrom(fetch, 0, ""));
  }

  // ----- the line items ------------------------------------------------------------------------------------

  type Lookup = string -> Option<LocalRecord>

  function ItemsOf(txs: seq<ProviderTransaction>, findLocal: Lookup): seq<LineItem> {
    if txs == [] then []
    else
      var ref := CorrelatingRef(txs[0]);
      (if ref == "" then [] else [BuildLineItem(ref, txs[0], findLocal(ref))]) + ItemsOf(txs[1..], findLocal)
  }

  function RefsOf(txs: seq<ProviderTransaction>): set<string> {
    set tx <- txs | CorrelatingRef(tx) != "" :: CorrelatingRef(tx)
  }

  function MissingItems(expected: seq<string>, seen: set<string>, findLocal: Lookup): seq<LineItem> {
    if expected == [] then []
    else
      (if expected[0] in seen then [] else [MissingItem(expected[0], findLocal(expected[0]))])
      + MissingItems(expected[1..], seen, findLocal)
  }

  lemma {:induction false} ItemsAppend(xs: seq<ProviderTransaction>, ys: seq<ProviderTransaction>, findLocal: Lookup)
    ensures ItemsOf(xs + ys, findLocal) == ItemsOf(xs, findLocal) + ItemsOf(ys, findLocal)
  {
    if xs == [] {
      assert xs + ys == ys;
    } else {
      assert (xs + ys)[1..] == xs[1..] + ys;
      ItemsAppend(xs[1..], ys, findLocal);
    }
  }

  lemma {:induction false} MissingAppend(xs: seq<string>, ys: seq<string>, seen: set<string>, findLocal: Lookup)
    ensures MissingItems(xs + ys, seen, findLocal)
            == MissingItems(xs, seen, findLocal) + MissingItems(ys, seen, findLocal)
  {
    if xs == [] {
      assert xs + ys == ys;
    } else {
      assert (xs + ys)[1..] == xs[1..] + ys;
      MissingAppend(xs[1..], ys, seen, findLocal);
    }
  }

  /** What every line item is: built from a transaction, or a missing expectation. */
  ghost predicate WellMade(item: LineItem) {
    match item.status
    case Orphan => item.nombaAmount.Some? && item.localAmount.None? && item.difference.None?
    case MissingOnNomba => item.nombaAmount.None? && item.difference.None?
    case _ =>
      && item.nombaAmount.Some? && item.localAmount.Some? && item.difference.Some?
      && item.difference.value == item.nombaAmount.value - item.localAmount.value
      && (item.status == Matched <==> item.difference.value == 0)
      && (item.status == Overpaid <==> item.difference.value > 0)
      && (item.status == Underpaid <==> item.difference.value < 0)
  }

  lemma BuiltWellMade(ref: string, tx: ProviderTransaction, local: Option<LocalRecord>)
    ensures WellMade(BuildLineItem(ref, tx, local))
  {
    hide Money.KoboToNairaString, Money.NairaStringToKobo, NairaToKoboExact;
    ExactIsExact(tx.amount);
    if local.Some? {
      ExactIsExact(local.value.amount);
    }
    hide NairaToKoboExact;
  }

  lemma {:induction false} ItemsWellMade(txs: seq<ProviderTransaction>, findLocal: Lookup)
    ensures forall item <- ItemsOf(txs, findLocal) :: WellMade(item)
  {
    if txs != [] {
      ItemsWellMade(txs[1..], findLocal);
      var ref := CorrelatingRef(txs[0]);
      BuiltWellMade(ref, txs[0], findLocal(ref));
      hide BuildLineItem, WellMade;
    }
  }

  lemma {:induction false} MissingWellMade(expected: seq<string>, seen: set<string>, findLocal: Lookup)
    ensures forall item <- MissingItems(expected, seen, findLocal) :: WellMade(item)
  {
    if expected != [] {
      MissingWellMade(expected[1..], seen, findLocal);
      assert WellMade(MissingItem(expected[0], findLocal(expected[0])));
      hide WellMade, MissingItem;
    }
  }

  /** A line item of a transaction carries its reference and amount, and the local record's amount and
      customer. */
  ghost predicate TracesTo(item: LineItem, tx: ProviderTransaction, findLocal: Lookup) {
    var local := findLocal(item.correlatingRef);
    && item.correlatingRef != "" && item.correlatingRef in {tx.merchantTxRef, tx.virtualAccountReference}
    && (tx.merchantTxRef != "" ==> item.correlatingRef == tx.merchantTxRef)
    && item.nombaAmount == Some(tx.amount)
    && (item.status == Orphan <==> local.None?)
    && item.localAmount == (if local.Some? then Some(local.value.amount) else None)
    && item.customerId == (if local.Some? then local.value.customerId else None)
  }

  /** Every transaction with a reference gives one line item, in order, that traces back to it. */
  lemma {:induction false} ItemsTraceBack(txs: seq<ProviderTransaction>, findLocal: Lookup, k: nat)
    requires k < |txs|
    ensures CorrelatingRef(txs[k]) == "" <==> txs[k].merchantTxRef == "" && txs[k].virtualAccountReference == ""
    ensures CorrelatingRef(txs[k]) != "" ==>
              && |ItemsOf(txs[..k], findLocal)| < |ItemsOf(txs, findLocal)|
              && TracesTo(ItemsOf(txs, findLocal)[|ItemsOf(txs[..k], findLocal)|], txs[k], findLocal)
    ensures |ItemsOf(txs[..k + 1], findLocal)|
            == |ItemsOf(txs[..k], findLocal)| + if CorrelatingRef(txs[k]) == "" then 0 else 1
    ensures forall tx <- txs :: CorrelatingRef(tx) == "" ==> |ItemsOf(txs, findLocal)| < |txs|
  {
    assert txs == txs[..k] + ([txs[k]] + txs[k + 1..]);
    ItemsAppend(txs[..k], [txs[k]] + txs[k + 1..], findLocal);
    assert txs[..k + 1] == txs[..k] + [txs[k]] && [txs[k]][1..] == [];
    ItemsAppend(txs[..k], [txs[k]], findLocal);
    assert ([txs[k]] + txs[k + 1..])[1..] == txs[k + 1..];
    forall j: nat | j < |txs| && CorrelatingRef(txs[j]) == "" ensures |ItemsOf(txs, findLocal)| < |txs| {
      ItemsFewer(txs, findLocal, j);
    }
    hide NairaToKoboExact;
  }

  lemma {:induction false} ItemsNoMore(txs: seq<ProviderTransaction>, findLocal: Lookup)
    ensures |ItemsOf(txs, findLocal)| <= |txs|
  {
    if txs != [] {
      ItemsNoMore(txs[1..], findLocal);
    }
  }

  lemma {:induction false} ItemsFewer(txs: seq<ProviderTransaction>, findLocal: Lookup, j: nat)
    requires j < |txs| && CorrelatingRef(txs[j]) == ""
    ensures |ItemsOf(txs, findLocal)| < |txs|
  {
    ItemsNoMore(txs[1..], findLocal);
    if j > 0 {
      ItemsFewer(txs[1..], findLocal, j - 1);
    }
  }

  /** An expected reference is reported missing exactly when no transaction carries it. */
  lemma {:induction false} MissingIff(expected: seq<string>, seen: set<string>, findLocal: Lookup, ref: string)
    ensures (exists item <- MissingItems(expected, seen, findLocal) :: item.correlatingRef == ref)
            <==> ref in expected && ref !in seen
  {
    if expected != [] {
      MissingIff(expected[1..], seen, findLocal, ref);
      var rest := MissingItems(expected[1..], seen, findLocal);
      var all := MissingItems(expected, seen, findLocal);
      assert forall item :: item in rest ==> item in all;
      if ref == expected[0] && ref !in seen {
        assert all[0] in all;
      }
      assert forall item :: item in all ==> item in rest || item == MissingItem(expected[0], findLocal(expected[0]));
    }
  }

  predicate Carries(tx: ProviderTransaction, ref: string) {
    tx.merchantTxRef == ref || (tx.merchantTxRef == "" && tx.virtualAccountReference == ref)
  }

  /** An expectation is reported missing exactly when no transaction carries its reference; an expected empty
      reference, which nothing can carry, always is. */
  lemma MissingIffNotCarried(txs: seq<ProviderTransaction>, expected: seq<string>, findLocal: Lookup, ref: string)
    ensures (exists item <- MissingItems(expected, RefsOf(txs), findLocal) :: item.correlatingRef == ref)
            <==> ref in expected && (ref == "" || forall tx <- txs :: !Carries(tx, ref))
  {
    MissingIff(expected, RefsOf(txs), findLocal, ref);
    hide MissingItems;
    assert ref in RefsOf(txs) <==> ref != "" && exists tx <- txs :: Carries(tx, ref);
  }

  /** Each expectation no transaction carried gives one line item, in order, with its reference and the local
      record's amount and customer. */
  lemma MissingTracesBack(expected: seq<string>, seen: set<string>, findLocal: Lookup, k: nat)
    requires k < |expected|
    ensures var (before, local) := (MissingItems(expected[..k], seen, findLocal), findLocal(expected[k]));
            && |MissingItems(expected[..k + 1], seen, findLocal)|
               == |before| + (if expected[k] in seen then 0 else 1)
            && (expected[k] !in seen ==>
                  && |before| < |MissingItems(expected, seen, findLocal)|
                  && var item := MissingItems(expected, seen, findLocal)[|before|];
                     && item.status == MissingOnNomba && item.correlatingRef == expected[k]
                     && item.localAmount == (if local.Some? then Some(local.value.amount) else None)
                     && item.customerId == (if local.Some? then local.value.customerId else None)
                     && item.nombaAmount == None && item.difference == None)
  {
    assert expected == expected[..k] + ([expected[k]] + expected[k + 1..]);
    MissingAppend(expected[..k], [expected[k]] + expected[k + 1..], seen, findLocal);
    assert ([expected[k]] + expected[k + 1..])[1..] == expected[k + 1..];
    assert expected[..k + 1] == expected[..k] + [expected[k]] && [expected[k]][1..] == [];
    MissingAppend(expected[..k], [expected[k]], seen, findLocal);
  }

  // ----- the report ----------------------------------------------------------------------------------------

  function KeyOf(item: LineItem): string {
    if item.customerId.Some? then item.customerId.value else "unknown"
  }

  function Bucket(items: seq<LineItem>, key: string): seq<LineItem> {
    if items == [] then []
    else (if KeyOf(items[0]) == key then [items[0]] else []) + Bucket(items[1..], key)
  }

  function ValueOr(amount: Option<int>): int {
    if amount.Some? then amount.value else 0
  }

  /** One line item added to a customer's running totals. */
  function AddItem(s: Summary, item: LineItem): Summary {
    Summary(s.customerId,
            s.expectedTotal + ValueOr(item.localAmount),
            s.receivedTotal + ValueOr(item.nombaAmount),
            s.overpaidTotal + (if item.status == Overpaid then ValueOr(item.difference) else 0),
            s.underpaidTotal + (if item.status == Underpaid then -ValueOr(item.difference) else 0),
            s.lineItems + [item])
  }

  function Tally(key: string, items: seq<LineItem>): Summary {
    if items == [] then Summary(key, 0, 0, 0, 0, [])
    else AddItem(Tally(key, items[..|items| - 1]), items[|items| - 1])
  }

  function AmountWith(items: seq<LineItem>, status: LineStatus): int {
    if items == [] then 0
    else
      AmountWith(items[..|items| - 1], status) + Share(items[|items| - 1], status)
  }

  ghost predicate AllWellMade(items: seq<LineItem>) {
    forall i :: 0 <= i < |items| ==> WellMade(items[i])
  }

  /** A customer's totals balance: what was received beyond what was expected is what was overpaid less what was
      underpaid, plus what arrived unannounced, less what never came. */
  lemma {:induction false} TallyBalances(key: string, items: seq<LineItem>)
    requires AllWellMade(items)
    ensures var t := Tally(key, items);
            && t.lineItems == items && t.customerId == key
            && t.receivedTotal - t.expectedTotal
               == t.overpaidTotal - t.underpaidTotal + AmountWith(items, Orphan) - AmountWith(items, MissingOnNomba)
            && t.overpaidTotal >= 0 && t.underpaidTotal >= 0
  {
    if items != [] {
      var rest, last := items[..|items| - 1], items[|items| - 1];
      assert items == rest + [last];
      assert Tally(key, items) == AddItem(Tally(key, rest), last);
      AmountStep(items, Orphan);
      AmountStep(items, MissingOnNomba);
      ItemBalances(last);
      TallyBalances(key, rest);
      hide Tally, AmountWith, WellMade, ValueOr, AllWellMade;
    }
  }

  /** What an item adds to the amounts under a status. */
  function Share(item: LineItem, status: LineStatus): int {
    if item.status != status then 0 else ValueOr(item.nombaAmount) + ValueOr(item.localAmount)
  }

  lemma AmountStep(items: seq<LineItem>, status: LineStatus)
    requires items != []
    ensures AmountWith(items, status) == AmountWith(items[..|items| - 1], status) + Share(items[|items| - 1], status)
  {}

  lemma ItemBalances(item: LineItem)
    requires WellMade(item)
    ensures var extra := ValueOr(item.nombaAmount) - ValueOr(item.localAmount);
            match item.status
            case Matched => extra == 0
            case Overpaid => extra == ValueOr(item.difference) && extra > 0
            case Underpaid => extra == ValueOr(item.difference) && extra < 0
            case Orphan => ValueOr(item.localAmount) == 0
            case MissingOnNomba => ValueOr(item.nombaAmount) == 0
  {}

  /** Each customer has one bucket, holding that customer's items in order with their totals, and every item is
      in one. */
  ghost predicate Rolled(items: seq<LineItem>, buckets: seq<Summary>) {
    && (forall i, j :: 0 <= i < j < |buckets| ==> buckets[i].customerId != buckets[j].customerId)
    && (forall i :: 0 <= i < |buckets| ==>
          buckets[i] == Tally(buckets[i].customerId, Bucket(items, buckets[i].customerId)))
    && (forall key :: Bucket(items, key) != [] ==> HasBucket(buckets, key))
  }

  ghost predicate HasBucket(buckets: seq<Summary>, key: string) {
    exists i :: 0 <= i < |buckets| && buckets[i].customerId == key
  }

  /** Where a customer's first item is, or how many items there are if they have none. */
  function FirstAt(items: seq<LineItem>, key: string): (n: nat)
    ensures n <= |items|
  {
    if items == [] || KeyOf(items[0]) == key then 0 else 1 + FirstAt(items[1..], key)
  }

  /** Buckets come in the order in which their customers first appear. */
  ghost predicate InOrder(items: seq<LineItem>, buckets: seq<Summary>) {
    && (forall i :: 0 <= i < |buckets| ==> FirstAt(items, buckets[i].customerId) < |items|)
    && (forall i, j :: 0 <= i < j < |buckets| ==>
          FirstAt(items, buckets[i].customerId) < FirstAt(items, buckets[j].customerId))
  }

  lemma {:induction false} FirstAtPush(items: seq<LineItem>, item: LineItem, key: string)
    ensures FirstAt(items, key) < |items| ==> FirstAt(items + [item], key) == FirstAt(items, key)
    ensures FirstAt(items, key) == |items| && KeyOf(item) == key ==> FirstAt(items + [item], key) == |items|
    ensures Bucket(items, key) == [] <==> FirstAt(items, key) == |items|
  {
    hide KeyOf;
    if items != [] {
      assert (items + [item])[1..] == items[1..] + [item];
      FirstAtPush(items[1..], item, key);
    }
  }

  /** FirstAt is the first: no item before it is the customer's, and the one there is. */
  lemma {:induction false} FirstAtIsFirst(items: seq<LineItem>, key: string, i: nat)
    requires i < |items|
    ensures KeyOf(items[i]) == key ==> FirstAt(items, key) <= i
    ensures FirstAt(items, key) == i ==> KeyOf(items[i]) == key
  {
    hide KeyOf;
    if i > 0 {
      FirstAtIsFirst(items[1..], key, i - 1);
    }
  }

  lemma PlacedFirst(items: seq<LineItem>, buckets: seq<Summary>, item: LineItem, at: nat, i: nat)
    requires InOrder(items, buckets) && at <= |buckets|
    requires at < |buckets| ==> buckets[at].customerId == KeyOf(item)
    requires i < |Placed(buckets, item, at)|
    requires at == |buckets| ==> FirstAt(items, KeyOf(item)) == |items|
    ensures FirstAt(items + [item], Placed(buckets, item, at)[i].customerId)
            == if i < |buckets| then FirstAt(items, buckets[i].customerId) else |items|
    ensures i < |buckets| ==> FirstAt(items, buckets[i].customerId) < |items|
  {
    hide KeyOf, FirstAt, Bucket, AddItem;
    FirstAtPush(items, item, Placed(buckets, item, at)[i].customerId);
  }

  lemma PlacedInOrder(items: seq<LineItem>, buckets: seq<Summary>, item: LineItem, at: nat)
    requires InOrder(items, buckets) && at <= |buckets|
    requires at < |buckets| ==> buckets[at].customerId == KeyOf(item)
    requires at == |buckets| ==> Bucket(items, KeyOf(item)) == []
    ensures InOrder(items + [item], Placed(buckets, item, at))
  {
    hide KeyOf, FirstAt, Bucket, Placed;
    var next := Placed(buckets, item, at);
    FirstAtPush(items, item, KeyOf(item));
    forall i | 0 <= i < |next| ensures FirstAt(items + [item], next[i].customerId) <= |items| {
      PlacedFirst(items, buckets, item, at, i);
    }
    forall i, j | 0 <= i < j < |next|
      ensures FirstAt(items + [item], next[i].customerId) < FirstAt(items + [item], next[j].customerId)
    {
      PlacedFirst(items, buckets, item, at, i);
      PlacedFirst(items, buckets, item, at, j);
    }
  }

  lemma BucketStep(items: seq<LineItem>, key: string)
    requires items != []
    ensures Bucket(items, key) == (if KeyOf(items[0]) == key then [items[0]] else []) + Bucket(items[1..], key)
  {}

  lemma {:induction false} BucketAppend(xs: seq<LineItem>, ys: seq<LineItem>, key: string)
    ensures Bucket(xs + ys, key) == Bucket(xs, key) + Bucket(ys, key)
  {
    hide KeyOf;
    if xs == [] {
      assert xs + ys == ys;
    } else {
      hide Bucket;
      assert (xs + ys)[1..] == xs[1..] + ys;
      BucketStep(xs, key);
      BucketStep(xs + ys, key);
      BucketAppend(xs[1..], ys, key);
      assert Bucket(xs + ys, key) == Bucket(xs, key) + Bucket(ys, key);
    }
  }

  lemma BucketPush(items: seq<LineItem>, item: LineItem, key: string)
    ensures Bucket(items + [item], key) == Bucket(items, key) + if KeyOf(item) == key then [item] else []
  {
    hide KeyOf;
    BucketAppend(items, [item], key);
    assert [item][1..] == [];
  }

  lemma TallyPush(key: string, items: seq<LineItem>, item: LineItem)
    ensures Tally(key, items + [item]) == AddItem(Tally(key, items), item)
  {
    assert (items + [item])[..|items|] == items;
  }

  /** The buckets after an item is placed: in the bucket at `at`, or in a new one at the end. */
  function Placed(buckets: seq<Summary>, item: LineItem, at: nat): (next: seq<Summary>)
    requires at <= |buckets|
    requires at < |buckets| ==> buckets[at].customerId == KeyOf(item)
    ensures at < |next| && |buckets| <= |next| <= |buckets| + 1
    ensures next[at] == AddItem(if at < |buckets| then buckets[at] else Summary(KeyOf(item), 0, 0, 0, 0, []), item)
    ensures next[at].customerId == KeyOf(item)
    ensures forall i :: 0 <= i < |next| && i != at ==> i < |buckets| && next[i] == buckets[i]
  {
    if at < |buckets| then buckets[at := AddItem(buckets[at], item)]
    else buckets + [AddItem(Summary(KeyOf(item), 0, 0, 0, 0, []), item)]
  }

  lemma PlacedTally(items: seq<LineItem>, buckets: seq<Summary>, item: LineItem, at: nat, i: nat)
    requires Rolled(items, buckets) && at <= |buckets|
    requires forall k :: 0 <= k < |buckets| && k != at ==> buckets[k].customerId != KeyOf(item)
    requires at < |buckets| ==> buckets[at].customerId == KeyOf(item)
    requires i < |Placed(buckets, item, at)|
    ensures var b := Placed(buckets, item, at)[i]; b == Tally(b.customerId, Bucket(items + [item], b.customerId))
  {
    assert at == |buckets| ==> Bucket(items, KeyOf(item)) == [];
    hide KeyOf, AddItem, Bucket, Tally, Placed;
    var b := Placed(buckets, item, at)[i];
    BucketPush(items, item, b.customerId);
    if i == at {
      TallyPush(KeyOf(item), Bucket(items, KeyOf(item)), item);
      TallyNil(KeyOf(item));
    } else {
      assert Bucket(items, b.customerId) + [] == Bucket(items, b.customerId);
    }
  }

  lemma PlacedHouses(items: seq<LineItem>, buckets: seq<Summary>, item: LineItem, at: nat, key: string)
    requires Rolled(items, buckets) && at <= |buckets|
    requires at < |buckets| ==> buckets[at].customerId == KeyOf(item)
    requires Bucket(items + [item], key) != []
    ensures HasBucket(Placed(buckets, item, at), key)
  {
    hide AddItem, Tally, Placed, Bucket;
    BucketPush(items, item, key);
    var next := Placed(buckets, item, at);
    if key == KeyOf(item) {
      assert next[at].customerId == key;
    } else {
      assert HasBucket(buckets, key);
      var i :| 0 <= i < |buckets| && buckets[i].customerId == key;
      assert next[i].customerId == key;
    }
  }

  lemma RolledPush(items: seq<LineItem>, buckets: seq<Summary>, item: LineItem, at: nat)
    requires Rolled(items, buckets) && at <= |buckets|
    requires forall i :: 0 <= i < |buckets| && i != at ==> buckets[i].customerId != KeyOf(item)
    requires at < |buckets| ==> buckets[at].customerId == KeyOf(item)
    ensures Rolled(items + [item], Placed(buckets, item, at))
  {
    hide KeyOf, AddItem, Bucket, Tally, Placed, HasBucket;
    var next := Placed(buckets, item, at);
    BucketsApart(items, buckets);
    forall i: nat | i < |next|
      ensures next[i] == Tally(next[i].customerId, Bucket(items + [item], next[i].customerId))
    {
      PlacedTally(items, buckets, item, at, i);
    }
    forall key | Bucket(items + [item], key) != [] ensures HasBucket(next, key) {
      PlacedHouses(items, buckets, item, at, key);
    }
  }

  lemma TallyNil(key: string)
    ensures Tally(key, []) == Summary(key, 0, 0, 0, 0, [])
  {}

  function Count(items: seq<LineItem>, status: LineStatus): nat {
    if items == [] then 0
    else Count(items[..|items| - 1], status) + if items[|items| - 1].status == status then 1 else 0
  }

  /** Every line item is counted under exactly one status. */
  lemma {:induction false} CountsAddUp(items: seq<LineItem>)
    ensures Count(items, Matched) + Count(items, Overpaid) + Count(items, Underpaid) + Count(items, Orphan)
            + Count(items, MissingOnNomba) == |items|
  {
    if items != [] {
      CountsAddUp(items[..|items| - 1]);
    }
  }

  lemma {:induction false} InBucket(items: seq<LineItem>, item: LineItem, key: string)
    ensures item in Bucket(items, key) <==> item in items && KeyOf(item) == key
  {
    if items != [] {
      InBucket(items[1..], item, key);
      assert items == [items[0]] + items[1..];
    }
  }

  lemma {:induction false} BucketWellMade(items: seq<LineItem>, key: string)
    requires AllWellMade(items)
    ensures AllWellMade(Bucket(items, key))
  {
    hide WellMade, KeyOf;
    if items != [] {
      BucketWellMade(items[1..], key);
    }
  }

  /** A customer's bucket holds that customer's items alone, each once, in the order of the report. */
  lemma BucketInOrder(items: seq<LineItem>, key: string, k: nat)
    requires k < |items|
    ensures |Bucket(items[..k + 1], key)| == |Bucket(items[..k], key)| + if KeyOf(items[k]) == key then 1 else 0
    ensures KeyOf(items[k]) == key ==>
              && |Bucket(items[..k], key)| < |Bucket(items, key)|
              && Bucket(items, key)[|Bucket(items[..k], key)|] == items[k]
  {
    hide KeyOf;
    assert items == items[..k] + ([items[k]] + items[k + 1..]);
    BucketAppend(items[..k], [items[k]] + items[k + 1..], key);
    assert items[..k + 1] == items[..k] + [items[k]];
    BucketPush(items[..k], items[k], key);
  }

  /** A line item lands in exactly one customer's bucket: its own, or the one for unknown customers. */
  lemma OneBucketEach(items: seq<LineItem>, buckets: seq<Summary>, item: LineItem)
    requires Rolled(items, buckets) && item in items && AllWellMade(items)
    ensures exists i :: 0 <= i < |buckets| && item in buckets[i].lineItems
    ensures forall i, j :: 0 <= i < j < |buckets| ==> !(item in buckets[i].lineItems && item in buckets[j].lineItems)
    ensures forall i :: 0 <= i < |buckets| && item in buckets[i].lineItems ==>
              (item.customerId == None && buckets[i].customerId == "unknown")
              || item.customerId == Some(buckets[i].customerId)
  {
    forall i | 0 <= i < |buckets| ensures buckets[i].lineItems == Bucket(items, buckets[i].customerId) {
      BucketWellMade(items, buckets[i].customerId);
      TallyBalances(buckets[i].customerId, Bucket(items, buckets[i].customerId));
    }
    forall key ensures item in Bucket(items, key) <==> KeyOf(item) == key {
      InBucket(items, item, key);
    }
    hide Bucket, Tally;
    assert Bucket(items, KeyOf(item)) != [];
    assert HasBucket(buckets, KeyOf(item));
  }

  /** Every customer's line of the report balances, over exactly that customer's items. */
  lemma EveryCustomerBalances(items: seq<LineItem>, buckets: seq<Summary>, i: nat)
    requires Rolled(items, buckets) && AllWellMade(items) && i < |buckets|
    ensures var b := buckets[i];
            && b.lineItems == Bucket(items, b.customerId)
            && b.receivedTotal - b.expectedTotal
               == b.overpaidTotal - b.underpaidTotal
                  + AmountWith(b.lineItems, Orphan) - AmountWith(b.lineItems, MissingOnNomba)
  {
    hide Bucket, Tally, AllWellMade, AmountWith;
    var own := Bucket(items, buckets[i].customerId);
    BucketWellMade(items, buckets[i].customerId);
    TallyBalances(buckets[i].customerId, own);
  }

  // ----- the totals ----------------------------------------------------------------------------------------

  /** The figures a report totals per customer. */
  datatype Figure = ExpectedFigure | ReceivedFigure | OverpaidFigure | UnderpaidFigure

  /** What one line item contributes to a figure, read off its two amounts alone. */
  function Worth(item: LineItem, figure: Figure): int {
    var (received, expected) := (ValueOr(item.nombaAmount), ValueOr(item.localAmount));
    match figure
    case ExpectedFigure => expected
    case ReceivedFigure => received
    case OverpaidFigure =>
      if item.nombaAmount.Some? && item.localAmount.Some? && received > expected then received - expected else 0
    case UnderpaidFigure =>
      if item.nombaAmount.Some? && item.localAmount.Some? && received < expected then expected - received else 0
  }

  function SumOf(items: seq<LineItem>, figure: Figure): int {
    if items == [] then 0 else Worth(items[0], figure) + SumOf(items[1..], figure)
  }

  function FigureOf(b: Summary, figure: Figure): int {
    match figure
    case ExpectedFigure => b.expectedTotal
    case ReceivedFigure => b.receivedTotal
    case OverpaidFigure => b.overpaidTotal
    case UnderpaidFigure => b.underpaidTotal
  }

  lemma {:induction false} SumOfPush(items: seq<LineItem>, item: LineItem, figure: Figure)
    ensures SumOf(items + [item], figure) == SumOf(items, figure) + Worth(item, figure)
  {
    hide Worth;
    if items == [] {
      assert items + [item] == [item];
    } else {
      assert (items + [item])[1..] == items[1..] + [item];
      SumOfPush(items[1..], item, figure);
    }
  }

  lemma AddsWorth(s: Summary, item: LineItem, figure: Figure)
    requires WellMade(item)
    ensures FigureOf(AddItem(s, item), figure) == FigureOf(s, figure) + Worth(item, figure)
  {}

  lemma {:induction false} TallyIsSum(key: string, items: seq<LineItem>, figure: Figure)
    requires AllWellMade(items)
    ensures FigureOf(Tally(key, items), figure) == SumOf(items, figure)
  {
    if items != [] {
      var rest, last := items[..|items| - 1], items[|items| - 1];
      TallyIsSum(key, rest, figure);
      AddsWorth(Tally(key, rest), last, figure);
      assert items == rest + [last];
      SumOfPush(rest, last, figure);
      hide FigureOf, AddItem, WellMade, SumOf, Worth;
    }
  }

  function OverBuckets(buckets: seq<Summary>, figure: Figure): int {
    if buckets == [] then 0 else FigureOf(buckets[0], figure) + OverBuckets(buckets[1..], figure)
  }

  function SumUnder(items: seq<LineItem>, keys: seq<string>, figure: Figure): int {
    if keys == [] then 0 else SumOf(Bucket(items, keys[0]), figure) + SumUnder(items, keys[1..], figure)
  }

  lemma {:induction false} SumUnderPush(items: seq<LineItem>, item: LineItem, keys: seq<string>, figure: Figure)
    requires forall i, j :: 0 <= i < j < |keys| ==> keys[i] != keys[j]
    ensures SumUnder(items + [item], keys, figure)
            == SumUnder(items, keys, figure) + if KeyOf(item) in keys then Worth(item, figure) else 0
  {
    hide Worth, KeyOf, SumOf, Bucket;
    if keys != [] {
      SumUnderPush(items, item, keys[1..], figure);
      BucketPush(items, item, keys[0]);
      var own := Bucket(items, keys[0]);
      SumOfPush(own, item, figure);
      assert own + [] == own;
      assert KeyOf(item) in keys <==> KeyOf(item) == keys[0] || KeyOf(item) in keys[1..];
    }
  }

  lemma {:induction false} SumUnderNone(keys: seq<string>, figure: Figure)
    ensures SumUnder([], keys, figure) == 0
  {
    if keys != [] {
      SumUnderNone(keys[1..], figure);
    }
  }

  lemma {:induction false} SumUnderAll(items: seq<LineItem>, keys: seq<string>, figure: Figure)
    requires forall i, j :: 0 <= i < j < |keys| ==> keys[i] != keys[j]
    requires forall item <- items :: KeyOf(item) in keys
    ensures SumUnder(items, keys, figure) == SumOf(items, figure)
  {
    hide Worth, KeyOf, Bucket;
    if items == [] {
      SumUnderNone(keys, figure);
    } else {
      var rest, last := items[..|items| - 1], items[|items| - 1];
      assert items == rest + [last];
      SumUnderAll(rest, keys, figure);
      SumUnderPush(rest, last, keys, figure);
      SumOfPush(rest, last, figure);
      hide SumUnder, SumOf;
    }
  }

  function KeysOf(buckets: seq<Summary>): (keys: seq<string>)
    ensures |keys| == |buckets| && forall i :: 0 <= i < |keys| ==> keys[i] == buckets[i].customerId
  {
    if buckets == [] then [] else [buckets[0].customerId] + KeysOf(buckets[1..])
  }

  lemma {:induction false} OverBucketsIsSum(items: seq<LineItem>, buckets: seq<Summary>, figure: Figure)
    requires AllWellMade(items)
    requires forall b <- buckets :: b == Tally(b.customerId, Bucket(items, b.customerId))
    ensures OverBuckets(buckets, figure) == SumUnder(items, KeysOf(buckets), figure)
  {
    hide Tally, Bucket, AllWellMade, FigureOf, SumOf;
    if buckets != [] {
      var b := buckets[0];
      assert b in buckets;
      BucketWellMade(items, b.customerId);
      TallyIsSum(b.customerId, Bucket(items, b.customerId), figure);
      OverBucketsIsSum(items, buckets[1..], figure);
      assert KeysOf(buckets)[1..] == KeysOf(buckets[1..]);
    }
  }

  /** Each figure of a customer's line is the sum over that customer's items of what the two amounts say, and over
      all customers it comes to the sum over all items: nothing is counted twice and nothing is left out. */
  lemma FiguresAddUp(items: seq<LineItem>, buckets: seq<Summary>, figure: Figure)
    requires Rolled(items, buckets) && AllWellMade(items)
    ensures forall b <- buckets :: FigureOf(b, figure) == SumOf(b.lineItems, figure)
    ensures OverBuckets(buckets, figure) == SumOf(items, figure)
  {
    hide Tally, Bucket, AllWellMade, FigureOf, SumOf, KeyOf;
    forall b | b in buckets ensures FigureOf(b, figure) == SumOf(b.lineItems, figure) {
      var own := Bucket(items, b.customerId);
      BucketWellMade(items, b.customerId);
      TallyIsSum(b.customerId, own, figure);
      TallyBalances(b.customerId, own);
    }
    OverBucketsIsSum(items, buckets, figure);
    var keys := KeysOf(buckets);
    forall item | item in items ensures KeyOf(item) in keys {
      InBucket(items, item, KeyOf(item));
      assert HasBucket(buckets, KeyOf(item));
      var i :| 0 <= i < |buckets| && buckets[i].customerId == KeyOf(item);
      assert keys[i] == KeyOf(item);
    }
    BucketsApart(items, buckets);
    hide Rolled;
    SumUnderAll(items, keys, figure);
  }

  method CountOf(items: seq<LineItem>, status: LineStatus) returns (n: nat)
    ensures n == Count(items, status)
  {
    n := 0;
    var i := 0;
    while i < |items|
      invariant 0 <= i <= |items| && n == Count(items[..i], status)
    {
      assert items[..i + 1][..i] == items[..i];
      if items[i].status == status {
        n := n + 1;
      }
      i := i + 1;
    }
    assert items[..|items|] == items;
  }

  /** Adds one item to its customer's bucket, opening it if need be. */
  method PlaceItem(buckets: seq<Summary>, item: LineItem, ghost items: seq<LineItem>) returns (next: seq<Summary>)
    requires Rolled(items, buckets) && InOrder(items, buckets)
    ensures Rolled(items + [item], next) && InOrder(items + [item], next)
  {
    hide Rolled, AddItem, KeyOf, InOrder, Bucket;
    var at := 0;
    while at < |buckets| && buckets[at].customerId != KeyOf(item)
      invariant 0 <= at <= |buckets|
      invariant forall j :: 0 <= j < at ==> buckets[j].customerId != KeyOf(item)
    {
      at := at + 1;
    }
    BucketsApart(items, buckets);
    RolledPush(items, buckets, item, at);
    NoBucketYet(items, buckets, KeyOf(item), at);
    PlacedInOrder(items, buckets, item, at);
    if at < |buckets| {
      next := buckets[at := AddItem(buckets[at], item)];
    } else {
      next := buckets + [AddItem(Summary(KeyOf(item), 0, 0, 0, 0, []), item)];
    }
  }

  lemma NoBucketYet(items: seq<LineItem>, buckets: seq<Summary>, key: string, at: nat)
    requires Rolled(items, buckets) && at <= |buckets|
    requires forall j :: 0 <= j < at ==> buckets[j].customerId != key
    ensures at == |buckets| ==> Bucket(items, key) == []
  {
    hide Bucket, Tally;
  }

  lemma BucketsApart(items: seq<LineItem>, buckets: seq<Summary>)
    requires Rolled(items, buckets)
    ensures forall i, j :: 0 <= i < j < |buckets| ==> buckets[i].customerId != buckets[j].customerId
  {}

  method RollUp(items: seq<LineItem>) returns (buckets: seq<Summary>)
    ensures Rolled(items, buckets) && InOrder(items, buckets)
  {
    buckets := [];
    var i := 0;
    while i < |items|
      invariant 0 <= i <= |items| && Rolled(items[..i], buckets) && InOrder(items[..i], buckets)
    {
      hide Rolled, InOrder;
      assert items[..i + 1] == items[..i] + [items[i]];
      buckets := PlaceItem(buckets, items[i], items[..i]);
      i := i + 1;
    }
    assert items[..|items|] == items;
  }

  method BuildReport(items: seq<LineItem>) returns (report: Report)
    ensures report.lineItems == items && Rolled(items, report.byCustomer) && InOrder(items, report.byCustomer)
    ensures report.totalChecked == |items|
    ensures report.matchedCount + report.overpaidCount + report.underpaidCount + report.orphanCount
            + report.missingOnNombaCount == report.totalChecked
    ensures report.matchedCount == Count(items, Matched) && report.overpaidCount == Count(items, Overpaid)
            && report.underpaidCount == Count(items, Underpaid) && report.orphanCount == Count(items, Orphan)
            && report.missingOnNombaCount == Count(items, MissingOnNomba)
  {
    hide Rolled, InOrder;
    var byCustomer := RollUp(items);
    var matched := CountOf(items, Matched);
    var overpaid := CountOf(items, Overpaid);
    var underpaid := CountOf(items, Underpaid);
    var orphan := CountOf(items, Orphan);
    var missing := CountOf(items, MissingOnNomba);
    CountsAddUp(items);
    report := Report(|items|, matched, overpaid, underpaid, orphan, missing, items, byCustomer);
  }

  // ----- the whole run -------------------------------------------------------------------------------------

  /** One page's transactions, classified. */
  method ClassifyPage(results: seq<ProviderTransaction>, findLocal: Lookup)
    returns (items: seq<LineItem>, seen: set<string>)
    ensures items == ItemsOf(results, findLocal) && seen == RefsOf(results)
  {
    hide BuildLineItem, CorrelatingRef;
    items, seen := [], {};
    var i := 0;
    while i < |results|
      invariant 0 <= i <= |results|
      invariant items == ItemsOf(results[..i], findLocal) && seen == RefsOf(results[..i])
    {
      var tx := results[i];
      assert results[..i + 1] == results[..i] + [tx];
      ItemsAppend(results[..i], [tx], findLocal);
      assert [tx][1..] == [];
      var ref := CorrelatingRef(tx);
      if ref != "" {
        seen := seen + {ref};
        items := items + [BuildLineItem(ref, tx, findLocal(ref))];
      }
      i := i + 1;
    }
    assert results[..|results|] == results;
  }

  /** reconcile: every page is classified, or the run aborts; then expectations no page mentioned. */
  method Reconcile(fetch: (nat, string) -> Page, findLocal: Lookup, expectedRefs: Option<seq<string>>)
    returns (r: Result<Report, ReconcileError>)
    ensures match PagesFrom(fetch, 0, "")
            case Failure(error) => r == Failure(error)
            case Success(txs) =>
              var expected := if expectedRefs.Some? then expectedRefs.value else [];
              var items := ItemsOf(txs, findLocal) + MissingItems(expected, RefsOf(txs), findLocal);
              && r.Success? && r.value.lineItems == items && r.value.totalChecked == |items|
              && Rolled(items, r.value.byCustomer) && InOrder(items, r.value.byCustomer) && AllWellMade(items)
  {
    hide ItemsOf, MissingItems, RefsOf, Rolled, InOrder, WellMade;
    ghost var txs: seq<ProviderTransaction> := [];
    var lineItems, seenRefs := [], {};
    NothingYet(findLocal);
    var cursor, pageCount := "", 0;
    var more := true;
    PrependTwice([], [], PagesFrom(fetch, 0, ""));
    while more
      invariant lineItems == ItemsOf(txs, findLocal) && seenRefs == RefsOf(txs)
      invariant pageCount <= MAX_RECONCILE_PAGES
      invariant more ==> PagesFrom(fetch, 0, "")
                         == Prepend(txs, PagesFrom(fetch, pageCount, cursor))
      invariant !more ==> PagesFrom(fetch, 0, "") == Success(txs)
      decreases more, MAX_RECONCILE_PAGES - pageCount
    {
      var page := fetch(pageCount, cursor);
      var items, seen := ClassifyPage(page.results, findLocal);
      PageAdds(txs, page.results, findLocal);
      PrependTwice(txs, page.results, PagesFrom(fetch, pageCount + 1, page.cursor));
      lineItems, seenRefs := lineItems + items, seenRefs + seen;
      txs := txs + page.results;
      cursor, pageCount := page.cursor, pageCount + 1;
      if pageCount > MAX_RECONCILE_PAGES {
        return Failure(TooManyPages);
      }
      more := cursor != "";
    }
    var missing := ReportMissing(if expectedRefs.Some? then expectedRefs.value else [], seenRefs, findLocal);
    ItemsWellMade(txs, findLocal);
    MissingWellMade(if expectedRefs.Some? then expectedRefs.value else [], seenRefs, findLocal);
    forall i | 0 <= i < |lineItems + missing| ensures WellMade((lineItems + missing)[i]) {
      assert if i < |lineItems| then lineItems[i] in lineItems else missing[i - |lineItems|] in missing;
    }
    var report := BuildReport(lineItems + missing);
    r := Success(report);
  }

  lemma NothingYet(findLocal: Lookup)
    ensures ItemsOf([], findLocal) == [] && RefsOf([]) == {}
  {}

  lemma PageAdds(txs: seq<ProviderTransaction>, results: seq<ProviderTransaction>, findLocal: Lookup)
    ensures ItemsOf(txs + results, findLocal) == ItemsOf(txs, findLocal) + ItemsOf(results, findLocal)
    ensures RefsOf(txs + results) == RefsOf(txs) + RefsOf(results)
  {
    ItemsAppend(txs, results, findLocal);
  }

  method ReportMissing(expected: seq<string>, seen: set<string>, findLocal: Lookup) returns (items: seq<LineItem>)
    ensures items == MissingItems(expected, seen, findLocal)
  {
    items := [];
    var i := 0;
    while i < |expected|
      invariant 0 <= i <= |expected| && items == MissingItems(expected[..i], seen, findLocal)
    {
      assert expected[..i + 1] == expected[..i] + [expected[i]];
      MissingAppend(expected[..i], [expected[i]], seen, findLocal);
      assert [expected[i]][1..] == [];
      if expected[i] !in seen {
        items := items + [MissingItem(expected[i], findLocal(expected[i]))];
      }
      i := i + 1;
    }
    assert expected[..|expected|] == expected;
  }
}
