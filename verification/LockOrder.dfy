/** The row locks concurrent postings take, and why taking balance rows in account order cannot deadlock. */
module LockOrder {
  import opened Wrappers
  import opened Ledger
  import opened LedgerFacts
  import opened Fees
  import opened Identity

  /** What a posting waits for: the unique reference it inserts, each balance row it updates, and, for a
      reversal, the original's row. */
  datatype Resource =
    | ReferenceKey(reference: Reference)
    | BalanceRow(id: nat)
    | TransactionRow(original: Reference)

  function Level(r: Resource): int {
    match r
    case ReferenceKey(_) => 0
    case BalanceRow(_) => 1
    case TransactionRow(_) => 2
  }

  function Key(r: Resource): int {
    if r.BalanceRow? then r.id else 0
  }

  predicate Less(a: (int, int), b: (int, int)) {
    a.0 < b.0 || (a.0 == b.0 && a.1 < b.1)
  }

  function Rank(r: Resource): (int, int) {
    (Level(r), Key(r))
  }

  /** The locks of one posting in the order it takes them, how many it has, and whether it has ended, by commit
      or by rolling back. A lock it already has is granted again. */
  datatype Session = Session(plan: seq<Resource>, taken: nat, ended: bool)

  predicate Holds(t: Session, r: Resource) {
    !t.ended && t.taken <= |t.plan| && r in t.plan[..t.taken]
  }

  datatype Act = Advance(i: nat) | Abort(i: nat)

  /** The next lock is free for the taking, or none is left and the posting can commit. */
  predicate CanAdvance(ts: seq<Session>, i: nat) {
    && i < |ts| && !ts[i].ended
    && (ts[i].taken < |ts[i].plan| ==>
          forall j :: 0 <= j < |ts| && j != i ==> !Holds(ts[j], ts[i].plan[ts[i].taken]))
  }

  function Next(ts: seq<Session>, act: Act): seq<Session> {
    match act
    case Advance(i) =>
      if !CanAdvance(ts, i) then ts
      else if ts[i].taken < |ts[i].plan| then ts[i := ts[i].(taken := ts[i].taken + 1)]
      else ts[i := ts[i].(ended := true)]
    case Abort(i) => if i < |ts| then ts[i := ts[i].(ended := true)] else ts
  }

  function Run(ts: seq<Session>, acts: seq<Act>): seq<Session>
    decreases |acts|
  {
    if acts == [] then ts else Run(Next(ts, acts[0]), acts[1..])
  }

  function Started(plans: seq<seq<Resource>>): seq<Session> {
    seq(|plans|, i requires 0 <= i < |plans| => Session(plans[i], 0, false))
  }

  /** Locks are taken in rank order, repeats aside. */
  ghost predicate Ascending(plan: seq<Resource>) {
    forall i, j :: 0 <= i < j < |plan| ==> plan[i] == plan[j] || Less(Rank(plan[i]), Rank(plan[j]))
  }

  ghost predicate AllAscending(plans: seq<seq<Resource>>) {
    forall p <- plans :: Ascending(p)
  }

  // ----- what every run keeps ------------------------------------------------------------------------------

  ghost predicate Exclusive(ts: seq<Session>) {
    && (forall i :: 0 <= i < |ts| ==> ts[i].taken <= |ts[i].plan| && Ascending(ts[i].plan))
    && forall i, j, r :: 0 <= i < |ts| && 0 <= j < |ts| && i != j && Holds(ts[i], r) ==> !Holds(ts[j], r)
  }

  lemma AdvanceHolds(t: Session, r: Resource)
    requires t.taken < |t.plan|
    ensures Holds(t.(taken := t.taken + 1), r) ==> Holds(t, r) || r == t.plan[t.taken]
  {
    assert t.plan[..t.taken + 1] == t.plan[..t.taken] + [t.plan[t.taken]];
  }

  lemma NextExclusive(ts: seq<Session>, act: Act)
    requires Exclusive(ts)
    ensures Exclusive(Next(ts, act))
  {
    var ts' := Next(ts, act);
    if act.Advance? && CanAdvance(ts, act.i) && ts[act.i].taken < |ts[act.i].plan| {
      forall i, j, r | 0 <= i < |ts| && 0 <= j < |ts| && i != j && Holds(ts'[i], r) ensures !Holds(ts'[j], r) {
        AdvanceHolds(ts[act.i], r);
      }
    }
  }

  lemma {:induction false} RunExclusive(ts: seq<Session>, acts: seq<Act>)
    requires Exclusive(ts)
    ensures Exclusive(Run(ts, acts)) && |Run(ts, acts)| == |ts|
    decreases |acts|
  {
    if acts != [] {
      NextExclusive(ts, acts[0]);
      hide Exclusive;
      RunExclusive(Next(ts, acts[0]), acts[1..]);
    }
  }

  // ----- someone can always move ---------------------------------------------------------------------------

  /** The rank of the last lock a posting has. */
  function Top(t: Session): (int, int) {
    if t.ended || t.taken == 0 || t.taken > |t.plan| then (-1, 0) else Rank(t.plan[t.taken - 1])
  }

  lemma {:induction false} Highest(ts: seq<Session>, n: nat) returns (i: nat)
    requires n <= |ts| && exists k :: 0 <= k < n && !ts[k].ended
    ensures i < n && !ts[i].ended
    ensures forall j :: 0 <= j < n && !ts[j].ended ==> !Less(Top(ts[i]), Top(ts[j]))
  {
    if exists k :: 0 <= k < n - 1 && !ts[k].ended {
      i := Highest(ts, n - 1);
      if !ts[n - 1].ended && Less(Top(ts[i]), Top(ts[n - 1])) {
        i := n - 1;
      }
    } else {
      i := n - 1;
    }
  }

  /** A posting blocked by another waits for one that is further along. */
  lemma BlockerIsHigher(ts: seq<Session>, i: nat, j: nat)
    requires Exclusive(ts) && i < |ts| && j < |ts| && i != j
    requires !ts[i].ended && ts[i].taken < |ts[i].plan| && Holds(ts[j], ts[i].plan[ts[i].taken])
    ensures !ts[j].ended && Less(Top(ts[i]), Top(ts[j]))
  {
    var t, u := ts[i], ts[j];
    var r := t.plan[t.taken];
    assert !Holds(t, r);
    var k :| 0 <= k < u.taken && u.plan[..u.taken][k] == r;
    assert u.plan[k] == r;
    if t.taken > 0 {
      assert t.plan[..t.taken][t.taken - 1] == t.plan[t.taken - 1];
    }
  }

  /** In every reachable state of any number of concurrent postings with one unfinished, some posting can take
      its next step. */
  lemma NoDeadlock(plans: seq<seq<Resource>>, acts: seq<Act>)
    requires AllAscending(plans)
    ensures var ts := Run(Started(plans), acts);
            (exists k :: 0 <= k < |ts| && !ts[k].ended) ==> exists i :: 0 <= i < |ts| && CanAdvance(ts, i)
  {
    assert Exclusive(Started(plans));
    RunExclusive(Started(plans), acts);
    var ts := Run(Started(plans), acts);
    if exists k :: 0 <= k < |ts| && !ts[k].ended {
      var i := Mover(ts);
    }
  }

  lemma Mover(ts: seq<Session>) returns (i: nat)
    requires Exclusive(ts) && exists k :: 0 <= k < |ts| && !ts[k].ended
    ensures CanAdvance(ts, i)
  {
    i := Highest(ts, |ts|);
    if !CanAdvance(ts, i) {
      var j :| 0 <= j < |ts| && j != i && Holds(ts[j], ts[i].plan[ts[i].taken]);
      BlockerIsHigher(ts, i, j);
    }
  }

  // ----- and everyone finishes -----------------------------------------------------------------------------

  function Remaining(ts: seq<Session>): nat {
    if ts == [] then 0
    else (if ts[0].ended then 0 else 1 + if ts[0].taken < |ts[0].plan| then |ts[0].plan| - ts[0].taken else 0)
         + Remaining(ts[1..])
  }

  lemma {:induction false} RemainingUpdate(ts: seq<Session>, i: nat, t: Session)
    requires i < |ts|
    ensures Remaining(ts[i := t]) == Remaining(ts) - Remaining([ts[i]]) + Remaining([t])
  {
    assert [t][1..] == [] && [ts[i]][1..] == [];
    if i == 0 {
      assert ts[0 := t][1..] == ts[1..];
    } else {
      assert ts[i := t][1..] == ts[1..][i - 1 := t];
      RemainingUpdate(ts[1..], i - 1, t);
    }
  }

  lemma AdvanceRemaining(ts: seq<Session>, i: nat)
    requires CanAdvance(ts, i)
    ensures Remaining(Next(ts, Advance(i))) < Remaining(ts)
  {
    var t := Next(ts, Advance(i))[i];
    RemainingUpdate(ts, i, t);
    assert [t][1..] == [] && [ts[i]][1..] == [];
    assert Remaining([]) == 0;
  }

  /** Whatever has happened, every posting still open can be brought to its end without aborting any. */
  lemma {:induction false} AllCanFinish(ts: seq<Session>) returns (acts: seq<Act>)
    requires Exclusive(ts)
    ensures forall a <- acts :: a.Advance?
    ensures forall t <- Run(ts, acts) :: t.ended
    decreases Remaining(ts)
  {
    if exists k :: 0 <= k < |ts| && !ts[k].ended {
      var i := Mover(ts);
      AdvanceRemaining(ts, i);
      NextExclusive(ts, Advance(i));
      var rest := AllCanFinish(Next(ts, Advance(i)));
      acts := [Advance(i)] + rest;
      assert acts[1..] == rest;
    } else {
      acts := [];
    }
  }

  // ----- the plans postings have ---------------------------------------------------------------------------

  function BalanceRows(entries: seq<EntryInput>, ids: map<Account, nat>): (r: seq<Resource>)
    requires forall x <- entries :: x.account in ids
    ensures |r| == |entries|
    ensures forall i :: 0 <= i < |r| ==> r[i] == BalanceRow(ids[entries[i].account])
  {
    seq(|entries|, i requires 0 <= i < |entries| => BalanceRow(ids[entries[i].account]))
  }

  /** The locks of a posting, and of the reversal around it if there is one, with entries in the given order. */
  function PlanOf(reference: Reference, entries: seq<EntryInput>, original: Option<Reference>, ids: map<Account, nat>)
    : seq<Resource>
    requires forall x <- entries :: x.account in ids
  {
    [ReferenceKey(reference)] + BalanceRows(entries, ids)
    + (if original.Some? then [TransactionRow(original.value)] else [])
  }

  lemma PlanAscends(reference: Reference, entries: seq<EntryInput>, original: Option<Reference>, ids: map<Account, nat>)
    requires forall x <- entries :: x.account in ids
    requires SortedById(entries, ids)
    ensures Ascending(PlanOf(reference, entries, original, ids))
  {
    var plan := PlanOf(reference, entries, original, ids);
    var rows := BalanceRows(entries, ids);
    forall i, j | 0 <= i < j < |plan| ensures plan[i] == plan[j] || Less(Rank(plan[i]), Rank(plan[j])) {
      assert i == 0 || plan[i] == rows[i - 1];
      assert j == |rows| + 1 || plan[j] == rows[j - 1];
    }
  }

  /** Sorting the entries by account id is what makes the plan ascend. */
  lemma SortedPlanAscends(input: PostInput, original: Option<Reference>, ids: map<Account, nat>)
    requires forall x <- input.entries :: x.account in ids
    ensures Ascending(PlanOf(input.reference, SortById(input.entries, ids), original, ids))
  {
    SortSorts(input.entries, ids);
    hide SortById;
    PlanAscends(input.reference, SortById(input.entries, ids), original, ids);
  }

  /** In the order the leg builders list them, a funding and a payout of the same pot can deadlock: one takes
      the float before the pot, the other the pot before the float. */
  lemma UnsortedLegsDeadlock(potId: nat, intended: int, amount: int, ids: map<Account, nat>)
    requires HasAccounts(EmptyTables(ids), potId) && ids[Pot(potId)] != ids[PlatformFloat]
    ensures var funding := PlanOf(Contribution(0), InboundFeeLegs(potId, intended), None, ids);
            var payout := PlanOf(Disbursement(0), OutboundFeeLegs(potId, amount), None, ids);
            var ts := Run(Started([funding, payout]), [Advance(0), Advance(0), Advance(1), Advance(1)]);
            (forall t <- ts :: !t.ended) && forall i :: !CanAdvance(ts, i)
  {
    var funding := PlanOf(Contribution(0), InboundFeeLegs(potId, intended), None, ids);
    var payout := PlanOf(Disbursement(0), OutboundFeeLegs(potId, amount), None, ids);
    var pot, float := BalanceRow(ids[Pot(potId)]), BalanceRow(ids[PlatformFloat]);
    assert funding[..3] == [ReferenceKey(Contribution(0)), float, pot];
    assert payout[..3] == [ReferenceKey(Disbursement(0)), pot, float];
    hide PlanOf;
    TwoDeadlock(funding, payout, pot, float);
  }

  lemma TwoDeadlock(p: seq<Resource>, q: seq<Resource>, pot: Resource, float: Resource)
    requires |p| >= 3 && |q| >= 3 && pot != float && pot.BalanceRow? && float.BalanceRow?
    requires p[0].ReferenceKey? && q[0].ReferenceKey? && p[0] != q[0]
    requires p[1] == float && p[2] == pot && q[1] == pot && q[2] == float
    ensures var ts := Run(Started([p, q]), [Advance(0), Advance(0), Advance(1), Advance(1)]);
            (forall t <- ts :: !t.ended) && forall i :: !CanAdvance(ts, i)
  {
    var s0 := Started([p, q]);
    var s1, s2 := [Session(p, 1, false), Session(q, 0, false)], [Session(p, 2, false), Session(q, 0, false)];
    var s3, s4 := [Session(p, 2, false), Session(q, 1, false)], [Session(p, 2, false), Session(q, 2, false)];
    assert p[..2] == [p[0], float] && p[..1] == [p[0]] && q[..2] == [q[0], pot] && q[..1] == [q[0]];
    assert Next(s0, Advance(0)) == s1;
    assert Next(s1, Advance(0)) == s2;
    assert Next(s2, Advance(1)) == s3;
    assert Next(s3, Advance(1)) == s4;
    RunFour(s0, s1, s2, s3, s4);
    assert Holds(s4[0], float) && Holds(s4[1], pot);
    forall i ensures !CanAdvance(s4, i) {
      if i == 0 {
        assert Holds(s4[1], s4[0].plan[2]);
      } else if i == 1 {
        assert Holds(s4[0], s4[1].plan[2]);
      }
    }
  }

  lemma RunFour(s0: seq<Session>, s1: seq<Session>, s2: seq<Session>, s3: seq<Session>, s4: seq<Session>)
    requires Next(s0, Advance(0)) == s1 && Next(s1, Advance(0)) == s2
    requires Next(s2, Advance(1)) == s3 && Next(s3, Advance(1)) == s4
    ensures Run(s0, [Advance(0), Advance(0), Advance(1), Advance(1)]) == s4
  {
    hide Next;
    var acts := [Advance(0), Advance(0), Advance(1), Advance(1)];
    assert acts[1..] == [Advance(0), Advance(1), Advance(1)];
    assert acts[1..][1..] == [Advance(1), Advance(1)];
    assert acts[1..][1..][1..] == [Advance(1)] && acts[1..][1..][1..][1..] == [];
    assert Run(s3, [Advance(1)]) == s4;
    assert Run(s2, [Advance(1), Advance(1)]) == s4;
    assert Run(s1, [Advance(0), Advance(1), Advance(1)]) == s4;
  }
}
