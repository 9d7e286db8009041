/** The double-entry ledger: the account table, the posting rules as functions on a ledger state,
    and the class whose methods carry them out row by row. */
module Ledger {
  import opened Wrappers

  datatype Direction = Debit | Credit {
    function Flipped(): Direction {
      if Debit? then Credit else Debit
    }
  }

  /** An account, named by the (owner_type, owner_id) pair the accounts table keeps unique. */
  datatype Account =
    | Pot(potId: nat)
    | PlatformRevenue
    | PlatformFloat
    | ProviderSettlement
    | Suspense
    | NombaFeeExpense
    | NombaClearing

  function NormalBalance(a: Account): Direction {
    match a
    case Pot(_) => Credit
    case PlatformRevenue => Credit
    case PlatformFloat => Debit
    case ProviderSettlement => Debit
    case Suspense => Debit
    case NombaFeeExpense => Debit
    case NombaClearing => Credit
  }

  datatype EntryInput = EntryInput(account: Account, direction: Direction, amount: int) {
    /** The change the entry makes to its account, relative to the account's normal balance. */
    function Signed(): int {
      if direction == NormalBalance(account) then amount else -amount
    }

    function Flipped(): EntryInput {
      this.(direction := direction.Flipped())
    }
  }

  /** The idempotency keys the backend builds; each constructor is one of its string formats. */
  datatype Reference =
    | Contribution(contributionId: nat)
    | Disbursement(jobId: nat)
    | OverpaymentRefund(paymentId: nat)
    | ExpiryRefund(paymentId: nat)
    | Reversal(original: Reference)

  datatype Kind = ContributionKind | PayoutKind | RefundKind | ReversalKind

  datatype Status = Processing | Completed | Reversed

  /** `potId` is the pot named in the transaction's metadata, if any. */
  datatype Transaction = Transaction(kind: Kind, status: Status, amount: int, potId: Option<nat>)

  /** One immutable row of the entry log. */
  datatype Entry = Entry(reference: Reference, input: EntryInput, balanceAfter: int)

  datatype PostInput = PostInput(
    kind: Kind,
    reference: Reference,
    entries: seq<EntryInput>,
    amount: int,
    status: Status,
    potId: Option<nat>)

  datatype LedgerError =
    | EmptyTransaction
    | NonPositiveAmount
    | Unbalanced
    | AccountDoesNotExist
    | InsufficientBalance(account: Account)
    | TransactionDoesNotExist

  type Balances = map<Account, int>

  /** The ledger's tables. `ids` is the accounts table: the order of the id column, per account. */
  datatype Tables = Tables(
    ids: map<Account, nat>,
    balances: Balances,
    entries: seq<Entry>,
    transactions: map<Reference, Transaction>)

  datatype Posting = Posting(state: Tables, result: Result<Transaction, LedgerError>)

  /** An account with no balance row yet reads as zero. */
  function BalanceIn(balances: Balances, a: Account): int {
    if a in balances then balances[a] else 0
  }

  function Total(entries: seq<EntryInput>, direction: Direction): int {
    if entries == [] then 0
    else (if entries[0].direction == direction then entries[0].amount else 0) + Total(entries[1..], direction)
  }

  /** assertBalanced: the error raised, if any. */
  function BalanceError(entries: seq<EntryInput>): Option<LedgerError> {
    if entries == [] then Some(EmptyTransaction)
    else if exists i :: 0 <= i < |entries| && entries[i].amount <= 0 then Some(NonPositiveAmount)
    else if Total(entries, Debit) != Total(entries, Credit) then Some(Unbalanced)
    else None
  }

  function Insert(e: EntryInput, sorted: seq<EntryInput>, ids: map<Account, nat>): seq<EntryInput>
    requires e.account in ids && forall x <- sorted :: x.account in ids
  {
    if sorted == [] || ids[e.account] <= ids[sorted[0].account] then [e] + sorted
    else [sorted[0]] + Insert(e, sorted[1..], ids)
  }

  /** The stable sort by account id that fixes the order in which balance rows are locked. */
  function SortById(entries: seq<EntryInput>, ids: map<Account, nat>): (r: seq<EntryInput>)
    requires forall x <- entries :: x.account in ids
    ensures forall x <- r :: x.account in ids
    ensures multiset(r) == multiset(entries)
  {
    if entries == [] then []
    else
      var rest := SortById(entries[1..], ids);
      InsertKeeps(entries[0], rest, ids);
      assert entries == [entries[0]] + entries[1..];
      Insert(entries[0], rest, ids)
  }

  lemma {:induction false} InsertKeeps(e: EntryInput, sorted: seq<EntryInput>, ids: map<Account, nat>)
    requires e.account in ids && forall x <- sorted :: x.account in ids
    ensures multiset(Insert(e, sorted, ids)) == multiset{e} + multiset(sorted)
    ensures forall x <- Insert(e, sorted, ids) :: x.account in ids
  {
    if sorted == [] || ids[e.account] <= ids[sorted[0].account] {
    } else {
      InsertKeeps(e, sorted[1..], ids);
      assert sorted == [sorted[0]] + sorted[1..];
    }
  }

  /** Applies entries to a balance map in order; the first that would go negative rejects them all. */
  function ApplyAll(balances: Balances, entries: seq<EntryInput>): Result<Balances, LedgerError>
    decreases |entries|
  {
    if entries == [] then Success(balances)
    else
      var next := BalanceIn(balances, entries[0].account) + entries[0].Signed();
      if next < 0 then Failure(InsufficientBalance(entries[0].account))
      else ApplyAll(balances[entries[0].account := next], entries[1..])
  }

  /** The log rows an accepted posting appends. */
  function RowsFor(reference: Reference, balances: Balances, entries: seq<EntryInput>): (rows: seq<Entry>)
    ensures |rows| == |entries|
    decreases |entries|
  {
    if entries == [] then []
    else
      var next := BalanceIn(balances, entries[0].account) + entries[0].Signed();
      [Entry(reference, entries[0], next)]
      + RowsFor(reference, balances[entries[0].account := next], entries[1..])
  }

  /** postTransaction on the tables: validation, idempotency by reference, then all entries or none. */
  function Post(s: Tables, input: PostInput): Posting {
    match BalanceError(input.entries)
    case Some(error) => Posting(s, Failure(error))
    case None =>
      if input.reference in s.transactions then Posting(s, Success(s.transactions[input.reference]))
      else if exists i :: 0 <= i < |input.entries| && input.entries[i].account !in s.ids then
        Posting(s, Failure(AccountDoesNotExist))
      else
        var sorted := SortById(input.entries, s.ids);
        match ApplyAll(s.balances, sorted)
        case Failure(error) => Posting(s, Failure(error))
        case Success(balances) =>
          var t := Transaction(input.kind, input.status, input.amount, input.potId);
          Posting(s.(balances := balances,
                     entries := s.entries + RowsFor(input.reference, s.balances, sorted),
                     transactions := s.transactions[input.reference := t]),
                  Success(t))
  }

  /** The entries of one transaction, in log order. */
  function EntriesOf(entries: seq<Entry>, reference: Reference): seq<EntryInput> {
    if entries == [] then []
    else (if entries[0].reference == reference then [entries[0].input] else []) + EntriesOf(entries[1..], reference)
  }

  function FlipAll(entries: seq<EntryInput>): (r: seq<EntryInput>)
    ensures |r| == |entries|
    ensures forall i :: 0 <= i < |r| ==> r[i] == entries[i].Flipped()
  {
    if entries == [] then [] else [entries[0].Flipped()] + FlipAll(entries[1..])
  }

  /** The posting reverseTransaction makes: every entry of the original with its direction flipped. */
  function ReversalInput(s: Tables, original: Reference, reference: Reference): PostInput
    requires original in s.transactions
  {
    PostInput(ReversalKind, reference, FlipAll(EntriesOf(s.entries, original)),
              s.transactions[original].amount, Completed, None)
  }

  function SetStatus(s: Tables, reference: Reference, status: Status): Tables
    requires reference in s.transactions
  {
    s.(transactions := s.transactions[reference := s.transactions[reference].(status := status)])
  }

  /** reverseTransaction: the reversing posting and the status update commit together or not at all. */
  function Reverse(s: Tables, original: Reference, reference: Reference): Posting {
    if original !in s.transactions then Posting(s, Failure(TransactionDoesNotExist))
    else
      var p := Post(s, ReversalInput(s, original, reference));
      if p.result.Failure? then Posting(s, p.result)
      else Posting(SetStatus(p.state, original, Reversed), p.result)
  }

  // ----- the class that carries these out ---------------------------------------------------

  class LedgerService {
    var ids: map<Account, nat>
    var balances: Balances
    var entries: seq<Entry>
    var transactions: map<Reference, Transaction>

    ghost function State(): Tables
      reads this
    {
      Tables(ids, balances, entries, transactions)
    }

    constructor (ids: map<Account, nat>)
      ensures State() == Tables(ids, map[], [], map[])
    {
      this.ids := ids;
      balances, entries, transactions := map[], [], map[];
    }

    method GetBalance(a: Account) returns (balance: int)
      ensures balance == BalanceIn(balances, a)
    {
      balance := if a in balances then balances[a] else 0;
    }

    /** Locks and updates one balance row; an entry that would go negative leaves the row alone. */
    method ApplyEntryToBalance(entry: EntryInput) returns (r: Result<int, LedgerError>)
      modifies this`balances
      ensures var next := BalanceIn(old(balances), entry.account) + entry.Signed();
              if next < 0 then r == Failure(InsufficientBalance(entry.account)) && balances == old(balances)
              else r == Success(next) && balances == old(balances)[entry.account := next]
    {
      var current := GetBalance(entry.account);
      var signedDelta := if entry.direction == NormalBalance(entry.account) then entry.amount else -entry.amount;
      var next := current + signedDelta;
      if next < 0 {
        return Failure(InsufficientBalance(entry.account));
      }
      balances := balances[entry.account := next];
      r := Success(next);
    }

    method PostTransaction(input: PostInput) returns (r: Result<Transaction, LedgerError>)
      modifies this
      ensures Posting(State(), r) == Post(old(State()), input)
    {
      var unbalanced := AssertBalanced(input.entries);
      if unbalanced.Some? {
        return Failure(unbalanced.value);
      }
      if input.reference in transactions {
        return Success(transactions[input.reference]);
      }
      var i := 0;
      while i < |input.entries|
        invariant 0 <= i <= |input.entries|
        invariant forall j :: 0 <= j < i ==> input.entries[j].account in ids
      {
        if input.entries[i].account !in ids {
          return Failure(AccountDoesNotExist);
        }
        i := i + 1;
      }
      var created := Transaction(input.kind, input.status, input.amount, input.potId);
      r := PostSorted(input.reference, created, SortById(input.entries, ids));
    }

    /** The database transaction around the sorted entries: every row is written, or none is. */
    method PostSorted(reference: Reference, created: Transaction, sorted: seq<EntryInput>)
      returns (r: Result<Transaction, LedgerError>)
      modifies this
      ensures ids == old(ids)
      ensures match ApplyAll(old(balances), sorted)
              case Failure(error) => r == Failure(error) && State() == old(State())
              case Success(applied) =>
                && r == Success(created)
                && balances == applied
                && entries == old(entries) + RowsFor(reference, old(balances), sorted)
                && transactions == old(transactions)[reference := created]
    {
      var savepoint := balances;
      var rows: seq<Entry> := [];
      var i := 0;
      while i < |sorted|
        invariant 0 <= i <= |sorted|
        invariant ids == old(ids) && entries == old(entries) && transactions == old(transactions)
        invariant ApplyAll(old(balances), sorted) == ApplyAll(balances, sorted[i..])
        invariant RowsFor(reference, old(balances), sorted) == rows + RowsFor(reference, balances, sorted[i..])
      {
        var applied := ApplyEntryToBalance(sorted[i]);
        assert sorted[i..][1..] == sorted[i + 1..];
        if applied.Failure? {
          balances := savepoint;
          return Failure(applied.error);
        }
        rows := rows + [Entry(reference, sorted[i], applied.value)];
        i := i + 1;
      }
      transactions := transactions[reference := created];
      entries := entries + rows;
      r := Success(created);
    }

    method ReverseTransaction(original: Reference, reference: Reference) returns (r: Result<Transaction, LedgerError>)
      modifies this
      ensures Posting(State(), r) == Reverse(old(State()), original, reference)
    {
      if original !in transactions {
        return Failure(TransactionDoesNotExist);
      }
      var flipped := ReadFlipped(original);
      r := PostTransaction(PostInput(ReversalKind, reference, flipped, transactions[original].amount, Completed, None));
      if r.Success? {
        transactions := transactions[original := transactions[original].(status := Reversed)];
      }
    }

    /** Reads the original's log rows and flips each direction. */
    method ReadFlipped(original: Reference) returns (flipped: seq<EntryInput>)
      ensures flipped == FlipAll(EntriesOf(entries, original))
    {
      flipped := [];
      var i := |entries|;
      while i > 0
        invariant 0 <= i <= |entries|
        invariant flipped == FlipAll(EntriesOf(entries[i..], original))
      {
        i := i - 1;
        assert entries[i..][1..] == entries[i + 1..];
        if entries[i].reference == original {
          flipped := [entries[i].input.Flipped()] + flipped;
        }
      }
      assert entries[0..] == entries;
    }

    method MarkCompleted(reference: Reference) returns (r: Result<Transaction, LedgerError>)
      modifies this`transactions
      ensures reference !in old(transactions) ==> r == Failure(TransactionDoesNotExist) && State() == old(State())
      ensures reference in old(transactions) ==>
                State() == SetStatus(old(State()), reference, Completed) && r == Success(transactions[reference])
    {
      if reference !in transactions {
        return Failure(TransactionDoesNotExist);
      }
      transactions := transactions[reference := transactions[reference].(status := Completed)];
      r := Success(transactions[reference]);
    }
  }

  method AssertBalanced(entries: seq<EntryInput>) returns (error: Option<LedgerError>)
    ensures error == BalanceError(entries)
  {
    if |entries| == 0 {
      return Some(EmptyTransaction);
    }
    var debitTotal, creditTotal := 0, 0;
    var i := 0;
    while i < |entries|
      invariant 0 <= i <= |entries|
      invariant forall j :: 0 <= j < i ==> entries[j].amount > 0
      invariant debitTotal + Total(entries[i..], Debit) == Total(entries, Debit)
      invariant creditTotal + Total(entries[i..], Credit) == Total(entries, Credit)
    {
      if entries[i].amount <= 0 {
        return Some(NonPositiveAmount);
      }
      assert entries[i..][1..] == entries[i + 1..];
      if entries[i].direction == Debit {
        debitTotal := debitTotal + entries[i].amount;
      } else {
        creditTotal := creditTotal + entries[i].amount;
      }
      i := i + 1;
    }
    error := if debitTotal != creditTotal then Some(Unbalanced) else None;
  }
}
