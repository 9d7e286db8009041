/** What every run of the ledger keeps: the materialised balances are the fold of the log, no prefix
    of the log is negative for any account, and debit-normal accounts balance credit-normal ones. */
module LedgerFacts {
  import opened Wrappers
  import opened Ledger

  /** The net change a list of entries makes to one account. */
  function Net(entries: seq<EntryInput>, a: Account): int {
    if entries == [] then 0
    else (if entries[0].account == a then entries[0].Signed() else 0) + Net(entries[1..], a)
  }

  /** The balance the log gives an account. */
  function Fold(entries: seq<Entry>, a: Account): int {
    if entries == [] then 0
    else (if entries[0].input.account == a then entries[0].input.Signed() else 0) + Fold(entries[1..], a)
  }

  ghost predicate RowsAgree(entries: seq<Entry>) {
    forall i :: 0 <= i < |entries| ==>
      entries[i].balanceAfter == Fold(entries[..i + 1], entries[i].input.account)
  }

  ghost predicate NeverNegative(entries: seq<Entry>) {
    forall k, a :: 0 <= k <= |entries| ==> Fold(entries[..k], a) >= 0
  }

  ghost predicate Consistent(s: Tables) {
    && s.balances.Keys <= s.ids.Keys
    && (forall e <- s.entries :: e.input.account in s.ids && e.reference in s.transactions && e.input.amount > 0)
    && (forall a :: BalanceIn(s.balances, a) == Fold(s.entries, a))
    && RowsAgree(s.entries)
    && NeverNegative(s.entries)
    && (forall r <- s.transactions :: BalanceError(EntriesOf(s.entries, r)) == None)
  }

  // ----- folds over appended and sorted lists -----------------------------------------------

  lemma {:induction false} FoldAppend(xs: seq<Entry>, ys: seq<Entry>, a: Account)
    ensures Fold(xs + ys, a) == Fold(xs, a) + Fold(ys, a)
  {
    if xs == [] {
      assert xs + ys == ys;
    } else {
      assert (xs + ys)[1..] == xs[1..] + ys;
      FoldAppend(xs[1..], ys, a);
    }
  }

  lemma {:induction false} NetAppend(xs: seq<EntryInput>, ys: seq<EntryInput>, a: Account)
    ensures Net(xs + ys, a) == Net(xs, a) + Net(ys, a)
  {
    if xs == [] {
      assert xs + ys == ys;
    } else {
      assert (xs + ys)[1..] == xs[1..] + ys;
      NetAppend(xs[1..], ys, a);
    }
  }

  lemma EntriesOfStep(xs: seq<Entry>, r: Reference)
    requires xs != []
    ensures EntriesOf(xs, r) == (if xs[0].reference == r then [xs[0].input] else []) + EntriesOf(xs[1..], r)
  {}

  lemma {:induction false} EntriesOfAppend(xs: seq<Entry>, ys: seq<Entry>, r: Reference)
    ensures EntriesOf(xs + ys, r) == EntriesOf(xs, r) + EntriesOf(ys, r)
  {
    if xs == [] {
      assert xs + ys == ys;
    } else {
      hide EntriesOf;
      assert (xs + ys)[1..] == xs[1..] + ys;
      EntriesOfStep(xs, r);
      EntriesOfStep(xs + ys, r);
      EntriesOfAppend(xs[1..], ys, r);
      assert EntriesOf(xs + ys, r) == EntriesOf(xs, r) + EntriesOf(ys, r);
    }
  }

  lemma {:induction false} EntriesOfAbsent(xs: seq<Entry>, r: Reference)
    requires forall e <- xs :: e.reference != r
    ensures EntriesOf(xs, r) == []
  {
    if xs != [] {
      EntriesOfAbsent(xs[1..], r);
    }
  }

  lemma {:induction false} InsertFacts(e: EntryInput, sorted: seq<EntryInput>, ids: map<Account, nat>,
                                       a: Account, d: Direction)
    requires e.account in ids && forall x <- sorted :: x.account in ids
    ensures Net(Insert(e, sorted, ids), a) == Net([e], a) + Net(sorted, a)
    ensures Total(Insert(e, sorted, ids), d) == Total([e], d) + Total(sorted, d)
  {
    if sorted == [] || ids[e.account] <= ids[sorted[0].account] {
      assert ([e] + sorted)[1..] == sorted;
    } else {
      InsertFacts(e, sorted[1..], ids, a, d);
      var r := Insert(e, sorted, ids);
      assert r[1..] == Insert(e, sorted[1..], ids);
    }
  }

  /** Sorting by account id changes the order of the entries and nothing they add up to. */
  lemma {:induction false} SortFacts(entries: seq<EntryInput>, ids: map<Account, nat>, a: Account, d: Direction)
    requires forall x <- entries :: x.account in ids
    ensures Net(SortById(entries, ids), a) == Net(entries, a)
    ensures Total(SortById(entries, ids), d) == Total(entries, d)
  {
    if entries != [] {
      SortFacts(entries[1..], ids, a, d);
      InsertFacts(entries[0], SortById(entries[1..], ids), ids, a, d);
      assert Net([entries[0]], a) + Net(entries[1..], a) == Net(entries, a);
    }
  }

  ghost predicate SortedById(entries: seq<EntryInput>, ids: map<Account, nat>)
    requires forall x <- entries :: x.account in ids
  {
    forall i, j :: 0 <= i < j < |entries| ==> ids[entries[i].account] <= ids[entries[j].account]
  }

  lemma {:induction false} InsertSorted(e: EntryInput, sorted: seq<EntryInput>, ids: map<Account, nat>)
    requires e.account in ids && forall x <- sorted :: x.account in ids
    requires SortedById(sorted, ids)
    ensures forall x <- Insert(e, sorted, ids) :: x == e || x in sorted
    ensures forall x <- Insert(e, sorted, ids) :: x.account in ids
    ensures SortedById(Insert(e, sorted, ids), ids)
  {
    if sorted == [] || ids[e.account] <= ids[sorted[0].account] {
    } else {
      InsertSorted(e, sorted[1..], ids);
      var rest := Insert(e, sorted[1..], ids);
      forall x | x in rest ensures ids[sorted[0].account] <= ids[x.account] {
        if x != e {
          assert x in sorted[1..];
        }
      }
    }
  }

  /** The rows of a posting are locked in ascending id order. */
  lemma {:induction false} SortSorts(entries: seq<EntryInput>, ids: map<Account, nat>)
    requires forall x <- entries :: x.account in ids
    ensures SortedById(SortById(entries, ids), ids)
  {
    if entries != [] {
      SortSorts(entries[1..], ids);
      InsertSorted(entries[0], SortById(entries[1..], ids), ids);
    }
  }

  lemma SortKeepsBalance(entries: seq<EntryInput>, ids: map<Account, nat>)
    requires forall x <- entries :: x.account in ids
    requires BalanceError(entries) == None
    ensures BalanceError(SortById(entries, ids)) == None
  {
    SortFacts(entries, ids, Suspense, Debit);
    SortFacts(entries, ids, Suspense, Credit);
    var sorted := SortById(entries, ids);
    assert |multiset(sorted)| == |multiset(entries)|;
    forall i | 0 <= i < |sorted| ensures sorted[i].amount > 0 {
      assert sorted[i] in multiset(sorted);
      assert sorted[i] in entries;
    }
  }

  // ----- when a list of entries is accepted ---------------------------------------------------

  lemma {:induction false} ApplyAllNet(b: Balances, entries: seq<EntryInput>, a: Account)
    requires ApplyAll(b, entries).Success?
    ensures BalanceIn(ApplyAll(b, entries).value, a) == BalanceIn(b, a) + Net(entries, a)
    ensures forall x <- ApplyAll(b, entries).value :: x in b || exists e <- entries :: e.account == x
    decreases |entries|
  {
    if entries != [] {
      var next := BalanceIn(b, entries[0].account) + entries[0].Signed();
      ApplyAllNet(b[entries[0].account := next], entries[1..], a);
    }
  }

  /** A list of entries is accepted exactly when no account goes negative after any prefix of it. */
  lemma {:induction false} AcceptedIff(b: Balances, entries: seq<EntryInput>)
    requires forall a :: BalanceIn(b, a) >= 0
    ensures ApplyAll(b, entries).Success?
            <==> forall k, a :: 0 <= k <= |entries| ==> BalanceIn(b, a) + Net(entries[..k], a) >= 0
    decreases |entries|
  {
    if entries == [] {
    } else {
      var e := entries[0];
      var next := BalanceIn(b, e.account) + e.Signed();
      var b' := b[e.account := next];
      forall k, a | 1 <= k <= |entries|
        ensures BalanceIn(b, a) + Net(entries[..k], a) == BalanceIn(b', a) + Net(entries[1..][..k - 1], a)
      {
        assert entries[..k][1..] == entries[1..][..k - 1];
      }
      if next < 0 {
        assert BalanceIn(b, e.account) + Net(entries[..1], e.account) < 0;
      } else {
        AcceptedIff(b', entries[1..]);
        if ApplyAll(b, entries).Success? {
          forall k, a | 0 <= k <= |entries| ensures BalanceIn(b, a) + Net(entries[..k], a) >= 0 {
            if k > 0 {
              assert BalanceIn(b', a) + Net(entries[1..][..k - 1], a) >= 0;
            }
          }
        } else {
          var k, a :| 0 <= k <= |entries[1..]| && BalanceIn(b', a) + Net(entries[1..][..k], a) < 0;
          assert BalanceIn(b, a) + Net(entries[..k + 1], a) < 0;
        }
      }
    }
  }

  /** Entry k takes its account below zero, counting every entry up to it. */
  ghost predicate Short(b: Balances, entries: seq<EntryInput>, k: nat)
    requires k < |entries|
  {
    BalanceIn(b, entries[k].account) + Net(entries[..k + 1], entries[k].account) < 0
  }

  ghost predicate FirstShort(b: Balances, entries: seq<EntryInput>, k: nat)
    requires k < |entries|
  {
    Short(b, entries, k) && forall j: nat :: j < k ==> !Short(b, entries, j)
  }

  /** Account a is the first to go below zero as the entries are applied in order. */
  ghost predicate ShortFirst(b: Balances, entries: seq<EntryInput>, a: Account) {
    exists k: nat :: k < |entries| && FirstShort(b, entries, k) && entries[k].account == a
  }

  lemma ShortLater(b: Balances, entries: seq<EntryInput>, k: nat)
    requires 1 <= k < |entries|
    ensures var e := entries[0];
            Short(b, entries, k)
            <==> Short(b[e.account := BalanceIn(b, e.account) + e.Signed()], entries[1..], k - 1)
  {
    var e := entries[0];
    assert entries[..k + 1] == [e] + entries[1..][..k];
    NetAppend([e], entries[1..][..k], entries[k].account);
    assert [e][1..] == [];
    assert entries[1..][k - 1] == entries[k];
  }

  /** The refusal names the account of the first entry that falls short, in the order they are applied. */
  lemma {:induction false} RefusalNamesFirstShort(b: Balances, entries: seq<EntryInput>)
    ensures match ApplyAll(b, entries)
            case Success(_) => forall k: nat :: k < |entries| ==> !Short(b, entries, k)
            case Failure(error) =>
              exists k: nat :: k < |entries| && FirstShort(b, entries, k)
                               && error == InsufficientBalance(entries[k].account)
    decreases |entries|
  {
    if entries != [] {
      var e := entries[0];
      var next := BalanceIn(b, e.account) + e.Signed();
      var b' := b[e.account := next];
      assert entries[..1] == [e] && [e][1..] == [];
      assert Net([e], e.account) == e.Signed();
      assert Short(b, entries, 0) <==> next < 0;
      if next < 0 {
        assert FirstShort(b, entries, 0);
      } else {
        RefusalNamesFirstShort(b', entries[1..]);
        forall k: nat | 1 <= k < |entries| ensures Short(b, entries, k) <==> Short(b', entries[1..], k - 1) {
          ShortLater(b, entries, k);
        }
        hide Short, Net;
        if ApplyAll(b', entries[1..]).Failure? {
          var k: nat :| && k < |entries[1..]| && FirstShort(b', entries[1..], k)
                        && ApplyAll(b', entries[1..]).error == InsufficientBalance(entries[1..][k].account);
          assert Short(b, entries, k + 1);
          assert entries[1..][k] == entries[k + 1];
          forall j: nat | j < k + 1 ensures !Short(b, entries, j) {
            assert j > 0 ==> !Short(b', entries[1..], j - 1);
          }
          assert FirstShort(b, entries, k + 1);
        }
      }
    }
  }

  ghost predicate DistinctAccounts(entries: seq<EntryInput>) {
    forall i, j :: 0 <= i < j < |entries| ==> entries[i].account != entries[j].account
  }

  /** With one entry per account the order is irrelevant: each entry must be covered on its own. */
  lemma {:induction false} DistinctAcceptedIff(b: Balances, entries: seq<EntryInput>)
    requires DistinctAccounts(entries)
    ensures ApplyAll(b, entries).Success?
            <==> forall i :: 0 <= i < |entries| ==> BalanceIn(b, entries[i].account) + entries[i].Signed() >= 0
    decreases |entries|
  {
    if entries != [] {
      var e := entries[0];
      var next := BalanceIn(b, e.account) + e.Signed();
      var b' := b[e.account := next];
      DistinctAcceptedIff(b', entries[1..]);
      forall i | 1 <= i < |entries|
        ensures BalanceIn(b', entries[i].account) == BalanceIn(b, entries[i].account)
        ensures entries[i] == entries[1..][i - 1]
      {}
    }
  }

  lemma SortDistinct(entries: seq<EntryInput>, ids: map<Account, nat>)
    requires forall x <- entries :: x.account in ids
    requires DistinctAccounts(entries)
    ensures DistinctAccounts(SortById(entries, ids))
  {
    var sorted := SortById(entries, ids);
    forall i, j | 0 <= i < j < |sorted| ensures sorted[i].account != sorted[j].account {
      if sorted[i].account == sorted[j].account {
        assert sorted[i] in multiset(sorted) && sorted[j] in multiset(sorted);
        assert sorted[i] in entries && sorted[j] in entries;
        assert sorted[i] == sorted[j];
        AppearsOnce(entries, sorted[i]);
        AppearsTwice(sorted, i, j);
      }
    }
  }

  lemma {:induction false} AppearsOnce(entries: seq<EntryInput>, e: EntryInput)
    requires DistinctAccounts(entries)
    ensures multiset(entries)[e] <= 1
    ensures (forall x <- entries :: x.account != e.account) ==> multiset(entries)[e] == 0
  {
    if entries != [] {
      AppearsOnce(entries[1..], e);
      assert entries == [entries[0]] + entries[1..];
    }
  }

  lemma AppearsTwice(s: seq<EntryInput>, i: nat, j: nat)
    requires i < j < |s| && s[i] == s[j]
    ensures multiset(s)[s[i]] >= 2
  {
    assert s == s[..i] + [s[i]] + s[i + 1..j] + [s[j]] + s[j + 1..];
  }

  // ----- the log rows of a posting ------------------------------------------------------------

  lemma {:induction false} RowsForFacts(r: Reference, b: Balances, entries: seq<EntryInput>)
    ensures forall i :: 0 <= i < |entries| ==>
              && RowsFor(r, b, entries)[i].reference == r
              && RowsFor(r, b, entries)[i].input == entries[i]
    ensures EntriesOf(RowsFor(r, b, entries), r) == entries
    ensures forall q :: q != r ==> EntriesOf(RowsFor(r, b, entries), q) == []
    decreases |entries|
  {
    if entries != [] {
      var next := BalanceIn(b, entries[0].account) + entries[0].Signed();
      var b' := b[entries[0].account := next];
      RowsForFacts(r, b', entries[1..]);
      assert RowsFor(r, b, entries)[1..] == RowsFor(r, b', entries[1..]);
    }
  }

  lemma {:induction false} RowsForFold(r: Reference, b: Balances, entries: seq<EntryInput>, k: nat, a: Account)
    requires k <= |entries|
    ensures Fold(RowsFor(r, b, entries)[..k], a) == Net(entries[..k], a)
    decreases |entries|
  {
    if k > 0 {
      var next := BalanceIn(b, entries[0].account) + entries[0].Signed();
      var b' := b[entries[0].account := next];
      var rows := RowsFor(r, b, entries);
      assert rows[1..] == RowsFor(r, b', entries[1..]);
      RowsForFold(r, b', entries[1..], k - 1, a);
      assert rows[..k][1..] == rows[1..][..k - 1];
      assert entries[..k][1..] == entries[1..][..k - 1];
    }
  }

  lemma {:induction false} RowsForBalance(r: Reference, b: Balances, entries: seq<EntryInput>, i: nat)
    requires i < |entries|
    ensures RowsFor(r, b, entries)[i].balanceAfter
            == BalanceIn(b, entries[i].account) + Net(entries[..i + 1], entries[i].account)
    decreases |entries|
  {
    var next := BalanceIn(b, entries[0].account) + entries[0].Signed();
    var b' := b[entries[0].account := next];
    assert entries[..i + 1][1..] == entries[1..][..i];
    if i > 0 {
      RowsForBalance(r, b', entries[1..], i - 1);
      assert entries[i] == entries[1..][i - 1];
    } else {
      assert Net(entries[1..][..0], entries[0].account) == 0;
    }
  }

  // ----- every posting keeps the ledger consistent --------------------------------------------

  /** The accepted posting of a fresh reference, spelled out. */
  ghost predicate Appends(s: Tables, input: PostInput, s': Tables) {
    && input.reference !in s.transactions
    && BalanceError(input.entries) == None
    && (forall x <- input.entries :: x.account in s.ids)
    && var sorted := SortById(input.entries, s.ids);
       && ApplyAll(s.balances, sorted).Success?
       && s' == s.(balances := ApplyAll(s.balances, sorted).value,
                   entries := s.entries + RowsFor(input.reference, s.balances, sorted),
                   transactions := s.transactions[input.reference :=
                     Transaction(input.kind, input.status, input.amount, input.potId)])
  }

  lemma PostCases(s: Tables, input: PostInput)
    ensures var p := Post(s, input);
            || (p.state == s && (p.result.Success? ==> input.reference in s.transactions))
            || (p.result.Success? && Appends(s, input, p.state))
  {}

  /** In order but for its accounts and balances: there is something to post, every amount is positive and debits
      equal credits. */
  ghost predicate WellFormed(entries: seq<EntryInput>) {
    && entries != [] && (forall e <- entries :: e.amount > 0)
    && Total(entries, Debit) == Total(entries, Credit)
  }

  /** Account a is the first, by id, that the entries would take below zero. */
  ghost predicate FallsShort(s: Tables, entries: seq<EntryInput>, a: Account) {
    && (forall e <- entries :: e.account in s.ids)
    && ShortFirst(s.balances, SortById(entries, s.ids), a)
  }

  /** Which answer a posting gets. A malformed one is refused before the reference is looked at, a repeated one is
      answered with the transaction on record, an unknown account comes before any balance, and a refusal for
      want of funds names the account that falls short first. Nothing refused changes anything. */
  lemma PostAnswers(s: Tables, input: PostInput)
    ensures var (es, p) := (input.entries, Post(s, input));
            && (p.result.Failure? ==> p.state == s)
            && (p.result == Failure(EmptyTransaction) <==> es == [])
            && (p.result == Failure(NonPositiveAmount) <==> exists e <- es :: e.amount <= 0)
            && (p.result == Failure(Unbalanced)
                <==> es != [] && (forall e <- es :: e.amount > 0) && Total(es, Debit) != Total(es, Credit))
            && (WellFormed(es) && input.reference in s.transactions ==>
                  p == Posting(s, Success(s.transactions[input.reference])))
            && (p.result == Failure(AccountDoesNotExist)
                <==> && WellFormed(es) && input.reference !in s.transactions
                     && exists e <- es :: e.account !in s.ids)
            && (forall a :: p.result == Failure(InsufficientBalance(a))
                            <==> && WellFormed(es) && input.reference !in s.transactions
                                 && FallsShort(s, es, a))
  {
    hide ShortFirst, Total, RowsFor;
    var es := input.entries;
    assert WellFormed(es) <==> BalanceError(es) == None;
    if WellFormed(es) && forall e <- es :: e.account in s.ids {
      FundsDecide(s.balances, SortById(es, s.ids));
    }
  }

  lemma FundsDecide(b: Balances, entries: seq<EntryInput>)
    ensures match ApplyAll(b, entries)
            case Success(_) => forall a :: !ShortFirst(b, entries, a)
            case Failure(error) =>
              error.InsufficientBalance? && forall a :: error == InsufficientBalance(a) <==> ShortFirst(b, entries, a)
  {
    hide Short, ApplyAll;
    RefusalNamesFirstShort(b, entries);
  }

  /** After a posting, a prefix of the log reaching into the new rows folds to the old balance plus
      the entries applied so far. */
  lemma PrefixFold(s: Tables, input: PostInput, s': Tables, k: nat, a: Account)
    requires Consistent(s) && Appends(s, input, s') && k <= |input.entries|
    ensures |SortById(input.entries, s.ids)| == |input.entries|
    ensures |s'.entries| == |s.entries| + |input.entries|
    ensures Fold(s'.entries[..|s.entries| + k], a)
            == BalanceIn(s.balances, a) + Net(SortById(input.entries, s.ids)[..k], a)
  {
    var sorted := SortById(input.entries, s.ids);
    assert |multiset(sorted)| == |multiset(input.entries)|;
    var rows := RowsFor(input.reference, s.balances, sorted);
    assert s'.entries[..|s.entries| + k] == s.entries + rows[..k];
    FoldAppend(s.entries, rows[..k], a);
    RowsForFold(input.reference, s.balances, sorted, k, a);
  }

  lemma AppendKeepsFold(s: Tables, input: PostInput, s': Tables)
    requires Consistent(s) && Appends(s, input, s')
    ensures forall a :: BalanceIn(s'.balances, a) == Fold(s'.entries, a)
  {
    hide ApplyAll, SortById, BalanceError, Fold, RowsFor, EntriesOf, NeverNegative, RowsAgree;
    var sorted := SortById(input.entries, s.ids);
    forall a ensures BalanceIn(s'.balances, a) == Fold(s'.entries, a) {
      ApplyAllNet(s.balances, sorted, a);
      PrefixFold(s, input, s', |input.entries|, a);
      assert sorted[..|input.entries|] == sorted && s'.entries[..|s'.entries|] == s'.entries;
    }
  }

  lemma AppendNeverNegative(s: Tables, input: PostInput, s': Tables)
    requires Consistent(s) && Appends(s, input, s')
    ensures NeverNegative(s'.entries)
  {
    hide ApplyAll, SortById, BalanceError, Fold, RowsFor, EntriesOf, RowsAgree;
    var sorted, n := SortById(input.entries, s.ids), |s.entries|;
    forall x ensures BalanceIn(s.balances, x) >= 0 {
      assert Fold(s.entries[..n], x) >= 0;
      assert s.entries[..n] == s.entries;
    }
    AcceptedIff(s.balances, sorted);
    PrefixFold(s, input, s', 0, Suspense);
    forall k, a | 0 <= k <= |s'.entries| ensures Fold(s'.entries[..k], a) >= 0 {
      if k <= n {
        assert s'.entries[..k] == s.entries[..k];
      } else {
        PrefixFold(s, input, s', k - n, a);
        assert BalanceIn(s.balances, a) + Net(sorted[..k - n], a) >= 0;
      }
    }
  }

  lemma AppendRowsAgree(s: Tables, input: PostInput, s': Tables)
    requires Consistent(s) && Appends(s, input, s')
    ensures RowsAgree(s'.entries)
  {
    hide ApplyAll, SortById, BalanceError, Fold, RowsFor, EntriesOf, NeverNegative;
    var sorted, n := SortById(input.entries, s.ids), |s.entries|;
    forall i | 0 <= i < |s'.entries|
      ensures s'.entries[i].balanceAfter == Fold(s'.entries[..i + 1], s'.entries[i].input.account)
    {
      if i < n {
        assert s'.entries[..i + 1] == s.entries[..i + 1];
        assert s'.entries[i] == s.entries[i];
      } else {
        RowsForBalance(input.reference, s.balances, sorted, i - n);
        RowsForFacts(input.reference, s.balances, sorted);
        PrefixFold(s, input, s', 0, Suspense);
        PrefixFold(s, input, s', i - n + 1, s'.entries[i].input.account);
      }
    }
  }

  lemma AppendEntriesOf(s: Tables, input: PostInput, s': Tables)
    requires Consistent(s) && Appends(s, input, s')
    ensures EntriesOf(s'.entries, input.reference) == SortById(input.entries, s.ids)
    ensures forall r :: r != input.reference ==> EntriesOf(s'.entries, r) == EntriesOf(s.entries, r)
  {
    var sorted := SortById(input.entries, s.ids);
    var rows := RowsFor(input.reference, s.balances, sorted);
    RowsForFacts(input.reference, s.balances, sorted);
    EntriesOfAppend(s.entries, rows, input.reference);
    EntriesOfAbsent(s.entries, input.reference);
    forall r | r != input.reference ensures EntriesOf(s'.entries, r) == EntriesOf(s.entries, r) {
      EntriesOfAppend(s.entries, rows, r);
    }
  }

  lemma AppendKeepsRows(s: Tables, input: PostInput, s': Tables)
    requires Consistent(s) && Appends(s, input, s')
    ensures s'.balances.Keys <= s'.ids.Keys
    ensures forall e <- s'.entries :: e.input.account in s'.ids && e.reference in s'.transactions && e.input.amount > 0
  {
    hide ApplyAll, SortById, Fold, RowsFor, EntriesOf, NeverNegative, RowsAgree;
    var sorted := SortById(input.entries, s.ids);
    ApplyAllNet(s.balances, sorted, Suspense);
    RowsForFacts(input.reference, s.balances, sorted);
    SortKeepsBalance(input.entries, s.ids);
    var n := |s.entries|;
    forall i | 0 <= i < |s'.entries|
      ensures s'.entries[i].input.account in s'.ids
      ensures s'.entries[i].reference in s'.transactions && s'.entries[i].input.amount > 0
    {
      if i >= n {
        assert s'.entries[i].input == sorted[i - n];
      } else {
        assert s'.entries[i] in s.entries;
      }
    }
  }

  lemma AppendKeeps(s: Tables, input: PostInput, s': Tables)
    requires Consistent(s) && Appends(s, input, s')
    ensures Consistent(s')
  {
    AppendKeepsFold(s, input, s');
    AppendNeverNegative(s, input, s');
    AppendRowsAgree(s, input, s');
    AppendKeepsRows(s, input, s');
    AppendEntriesOf(s, input, s');
    SortKeepsBalance(input.entries, s.ids);
    forall r | r in s'.transactions ensures BalanceError(EntriesOf(s'.entries, r)) == None {
      if r != input.reference {
        assert r in s.transactions;
      }
    }
  }

  /** Posting keeps balance rows equal to the log, whatever the input; a rejected one changes nothing
      and a repeated reference is a no-op that returns the transaction already on file. */
  lemma PostKeeps(s: Tables, input: PostInput)
    requires Consistent(s)
    ensures Consistent(Post(s, input).state)
    ensures Post(s, input).result.Failure? ==> Post(s, input).state == s
    ensures BalanceError(input.entries) == None && input.reference in s.transactions ==>
              Post(s, input) == Posting(s, Success(s.transactions[input.reference]))
    ensures Post(Post(s, input).state, input).state == Post(s, input).state
  {
    PostCases(s, input);
    if Appends(s, input, Post(s, input).state) {
      AppendKeeps(s, input, Post(s, input).state);
    }
  }

  lemma ReverseKeeps(s: Tables, original: Reference, reference: Reference)
    requires Consistent(s)
    ensures Consistent(Reverse(s, original, reference).state)
    ensures Reverse(s, original, reference).result.Failure? ==> Reverse(s, original, reference).state == s
  {
    if original in s.transactions {
      PostKeeps(s, ReversalInput(s, original, reference));
    }
  }

  // ----- runs -----------------------------------------------------------------------------------

  datatype Call =
    | PostCall(input: PostInput)
    | ReverseCall(original: Reference, reference: Reference)
    | CompleteCall(reference: Reference)

  function Perform(s: Tables, call: Call): Tables {
    match call
    case PostCall(input) => Post(s, input).state
    case ReverseCall(original, reference) => Reverse(s, original, reference).state
    case CompleteCall(reference) => if reference in s.transactions then SetStatus(s, reference, Completed) else s
  }

  function PerformAll(s: Tables, calls: seq<Call>): Tables
    decreases |calls|
  {
    if calls == [] then s else PerformAll(Perform(s, calls[0]), calls[1..])
  }

  function EmptyTables(ids: map<Account, nat>): Tables {
    Tables(ids, map[], [], map[])
  }

  lemma {:induction false} RunsKeep(s: Tables, calls: seq<Call>)
    requires Consistent(s)
    ensures Consistent(PerformAll(s, calls))
    decreases |calls|
  {
    if calls != [] {
      match calls[0] {
        case PostCall(input) => PostKeeps(s, input);
        case ReverseCall(original, reference) => ReverseKeeps(s, original, reference);
        case CompleteCall(_) =>
      }
      RunsKeep(Perform(s, calls[0]), calls[1..]);
    }
  }

  /** In every state any run of calls can reach, the balance cache agrees with the log, each row's
      running balance is the fold of the prefix ending there, and no prefix was ever negative. */
  lemma CacheAgreesWithLog(ids: map<Account, nat>, calls: seq<Call>)
    ensures Consistent(PerformAll(EmptyTables(ids), calls))
  {
    RunsKeep(EmptyTables(ids), calls);
  }

  // ----- the trial balance ----------------------------------------------------------------------

  /** The sum of the balances of a set of accounts. */
  ghost function SumOf(b: Balances, accounts: set<Account>): int {
    if accounts == {} then 0
    else
      var a :| a in accounts;
      BalanceIn(b, a) + SumOf(b, accounts - {a})
  }

  lemma {:induction false} SumOfPick(b: Balances, accounts: set<Account>, a: Account)
    requires a in accounts
    ensures SumOf(b, accounts) == BalanceIn(b, a) + SumOf(b, accounts - {a})
    decreases accounts
  {
    var c :| c in accounts && SumOf(b, accounts) == BalanceIn(b, c) + SumOf(b, accounts - {c});
    if c != a {
      SumOfPick(b, accounts - {c}, a);
      SumOfPick(b, accounts - {a}, c);
      assert accounts - {c} - {a} == accounts - {a} - {c};
    }
  }

  lemma {:induction false} SumOfShift(b: Balances, b': Balances, accounts: set<Account>, a: Account, delta: int)
    requires forall x :: BalanceIn(b', x) == BalanceIn(b, x) + (if x == a then delta else 0)
    ensures SumOf(b', accounts) == SumOf(b, accounts) + (if a in accounts then delta else 0)
    decreases accounts
  {
    if accounts != {} {
      var c :| c in accounts;
      SumOfPick(b, accounts, c);
      SumOfPick(b', accounts, c);
      SumOfShift(b, b', accounts - {c}, a, delta);
    }
  }

  ghost function WithNormal(s: Tables, d: Direction): set<Account> {
    set a <- s.ids.Keys | NormalBalance(a) == d
  }

  /** Applying entries moves the debit-normal and credit-normal totals apart by debits minus credits. */
  lemma {:induction false} ApplyAllTrial(b: Balances, entries: seq<EntryInput>, ds: set<Account>, cs: set<Account>)
    requires ApplyAll(b, entries).Success?
    requires forall e <- entries :: e.account in (if NormalBalance(e.account).Debit? then ds else cs)
    requires forall a <- ds :: NormalBalance(a).Debit?
    requires forall a <- cs :: NormalBalance(a).Credit?
    ensures var b' := ApplyAll(b, entries).value;
            SumOf(b', ds) - SumOf(b', cs)
            == SumOf(b, ds) - SumOf(b, cs) + Total(entries, Debit) - Total(entries, Credit)
    decreases |entries|
  {
    if entries != [] {
      var e := entries[0];
      var next := BalanceIn(b, e.account) + e.Signed();
      var b1 := b[e.account := next];
      SumOfShift(b, b1, ds, e.account, e.Signed());
      SumOfShift(b, b1, cs, e.account, e.Signed());
      ApplyAllTrial(b1, entries[1..], ds, cs);
    }
  }

  ghost predicate TrialBalances(s: Tables) {
    SumOf(s.balances, WithNormal(s, Debit)) == SumOf(s.balances, WithNormal(s, Credit))
  }

  lemma PostKeepsTrialBalance(s: Tables, input: PostInput)
    requires TrialBalances(s)
    ensures TrialBalances(Post(s, input).state)
  {
    hide SortById, ApplyAll, RowsFor, SumOf, Net;
    PostCases(s, input);
    var s' := Post(s, input).state;
    hide Post;
    if Appends(s, input, s') {
      var sorted := SortById(input.entries, s.ids);
      SortFacts(input.entries, s.ids, Suspense, Debit);
      SortFacts(input.entries, s.ids, Suspense, Credit);
      ApplyAllTrial(s.balances, sorted, WithNormal(s, Debit), WithNormal(s, Credit));
      assert WithNormal(s', Debit) == WithNormal(s, Debit) && WithNormal(s', Credit) == WithNormal(s, Credit);
    }
  }

  lemma {:induction false} RunsKeepTrialBalance(s: Tables, calls: seq<Call>)
    requires TrialBalances(s)
    ensures TrialBalances(PerformAll(s, calls))
    decreases |calls|
  {
    if calls != [] {
      var s' := Perform(s, calls[0]);
      match calls[0] {
        case PostCall(input) => PostKeepsTrialBalance(s, input);
        case ReverseCall(original, reference) =>
          if original in s.transactions {
            PostKeepsTrialBalance(s, ReversalInput(s, original, reference));
          }
        case CompleteCall(_) =>
      }
      RunsKeepTrialBalance(s', calls[1..]);
    }
  }

  lemma {:induction false} EmptySum(accounts: set<Account>)
    ensures SumOf(map[], accounts) == 0
    decreases accounts
  {
    if accounts != {} {
      var a :| a in accounts;
      SumOfPick(map[], accounts, a);
      EmptySum(accounts - {a});
    }
  }

  /** Money is conserved over every run: debit-normal balances always equal credit-normal ones. */
  lemma TrialBalance(ids: map<Account, nat>, calls: seq<Call>)
    ensures TrialBalances(PerformAll(EmptyTables(ids), calls))
  {
    var s := EmptyTables(ids);
    EmptySum(WithNormal(s, Debit));
    EmptySum(WithNormal(s, Credit));
    RunsKeepTrialBalance(s, calls);
  }
}
