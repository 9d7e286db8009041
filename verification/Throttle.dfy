/** The per-recipient transfer throttle: a pruned list of grant times per recipient, and what it guarantees
    about every window of time. */
module Throttle {
  /** One call: whom it is for, and the two readings of the clock it makes, in milliseconds. */
  datatype Call = Call(recipient: nat, first: int, second: int)

  /** Grant times per recipient, oldest first. */
  type Recent = map<nat, seq<int>>

  function Times(recent: Recent, recipient: nat): seq<int> {
    if recipient in recent then recent[recipient] else []
  }

  function After(times: seq<int>, start: int): (r: seq<int>)
    ensures forall t <- r :: t > start && t in times
  {
    if times == [] then [] else (if times[0] > start then [times[0]] else []) + After(times[1..], start)
  }

  // ----- the throttle --------------------------------------------------------------------------------------

  class InMemoryTransferThrottle {
    const limit: nat
    const windowSeconds: nat
    var recent: Recent

    constructor (limit: nat, windowSeconds: nat)
      ensures this.limit == limit && this.windowSeconds == windowSeconds && recent == map[]
    {
      this.limit, this.windowSeconds, recent := limit, windowSeconds, map[];
    }

    method Filter(times: seq<int>, windowStart: int) returns (kept: seq<int>)
      ensures kept == After(times, windowStart)
    {
      kept := [];
      var i := |times|;
      while i > 0
        invariant 0 <= i <= |times| && kept == After(times[i..], windowStart)
      {
        i := i - 1;
        if times[i] > windowStart {
          kept := [times[i]] + kept;
        }
      }
    }

    method Reserve(call: Call) returns (granted: bool)
      modifies this
      ensures (recent, granted) == Reserved(old(recent), call, limit, windowSeconds)
    {
      var windowStart := call.first - windowSeconds * 1000;
      var timestamps := Filter(if call.recipient in recent then recent[call.recipient] else [], windowStart);
      if |timestamps| >= limit {
        recent := recent[call.recipient := timestamps];
        return false;
      }
      timestamps := timestamps + [call.second];
      recent := recent[call.recipient := timestamps];
      granted := true;
    }
  }

  /** reserve, as a function of the stored lists. */
  function Reserved(recent: Recent, call: Call, limit: nat, windowSeconds: nat): (Recent, bool) {
    var timestamps := After(Times(recent, call.recipient), call.first - windowSeconds * 1000);
    if |timestamps| >= limit then (recent[call.recipient := timestamps], false)
    else (recent[call.recipient := timestamps + [call.second]], true)
  }

  /** The script Redis runs: evict, count, and add only below the limit; there the clock is read once. A call
      that adds nothing keeps the evicted list too. */
  function ReservedByScript(recent: Recent, recipient: nat, now: int, limit: nat, windowSeconds: nat): (Recent, bool) {
    var kept := After(Times(recent, recipient), now - windowSeconds * 1000);
    if |kept| < limit then (recent[recipient := kept + [now]], true) else (recent[recipient := kept], false)
  }

  lemma ScriptAgrees(recent: Recent, recipient: nat, now: int, limit: nat, windowSeconds: nat)
    ensures ReservedByScript(recent, recipient, now, limit, windowSeconds)
            == Reserved(recent, Call(recipient, now, now), limit, windowSeconds)
  {}

  // ----- the specification: nothing is ever pruned ---------------------------------------------------------

  /** Every grant so far, oldest first, with its recipient. */
  datatype Grant = Grant(recipient: nat, time: int)

  function GrantsTo(history: seq<Grant>, recipient: nat): seq<int> {
    if history == [] then []
    else (if history[0].recipient == recipient then [history[0].time] else []) + GrantsTo(history[1..], recipient)
  }

  /** Grant the call if fewer than `limit` grants to its recipient, of all there ever were, fall in the window. */
  function Decide(history: seq<Grant>, call: Call, limit: nat, windowSeconds: nat): (seq<Grant>, bool) {
    if |After(GrantsTo(history, call.recipient), call.first - windowSeconds * 1000)| < limit
    then (history + [Grant(call.recipient, call.second)], true)
    else (history, false)
  }

  function RunPruned(recent: Recent, calls: seq<Call>, limit: nat, windowSeconds: nat): (Recent, seq<bool>)
    decreases |calls|
  {
    if calls == [] then (recent, [])
    else
      var r := Reserved(recent, calls[0], limit, windowSeconds);
      var rest := RunPruned(r.0, calls[1..], limit, windowSeconds);
      (rest.0, [r.1] + rest.1)
  }

  function RunFull(history: seq<Grant>, calls: seq<Call>, limit: nat, windowSeconds: nat): (seq<Grant>, seq<bool>)
    decreases |calls|
  {
    if calls == [] then (history, [])
    else
      var r := Decide(history, calls[0], limit, windowSeconds);
      var rest := RunFull(r.0, calls[1..], limit, windowSeconds);
      (rest.0, [r.1] + rest.1)
  }

  /** The clock never runs backwards, within a call or from one to the next. */
  ghost predicate ClockForward(calls: seq<Call>, now: int) {
    && (forall i :: 0 <= i < |calls| ==> now <= calls[i].first <= calls[i].second)
    && (forall i, j :: 0 <= i < j < |calls| ==> calls[i].second <= calls[j].first)
  }

  // ----- pruning changes nothing ---------------------------------------------------------------------------

  lemma {:induction false} AfterAppend(xs: seq<int>, ys: seq<int>, start: int)
    ensures After(xs + ys, start) == After(xs, start) + After(ys, start)
  {
    if xs == [] {
      assert xs + ys == ys;
    } else {
      assert (xs + ys)[1..] == xs[1..] + ys;
      AfterAppend(xs[1..], ys, start);
    }
  }

  lemma {:induction false} AfterAfter(xs: seq<int>, earlier: int, later: int)
    requires earlier <= later
    ensures After(After(xs, earlier), later) == After(xs, later)
  {
    if xs != [] {
      AfterAfter(xs[1..], earlier, later);
      AfterAppend(if xs[0] > earlier then [xs[0]] else [], After(xs[1..], earlier), later);
      assert [xs[0]][1..] == [];
    }
  }

  lemma {:induction false} GrantsToPush(history: seq<Grant>, g: Grant, recipient: nat)
    ensures GrantsTo(history + [g], recipient)
            == GrantsTo(history, recipient) + if g.recipient == recipient then [g.time] else []
  {
    if history == [] {
      assert history + [g] == [g];
    } else {
      assert (history + [g])[1..] == history[1..] + [g];
      GrantsToPush(history[1..], g, recipient);
      var head := if history[0].recipient == recipient then [history[0].time] else [];
      var last := if g.recipient == recipient then [g.time] else [];
      assert GrantsTo(history, recipient) == head + GrantsTo(history[1..], recipient);
      assert GrantsTo(history + [g], recipient) == head + GrantsTo(history[1..] + [g], recipient);
      hide GrantsTo;
      assert head + (GrantsTo(history[1..], recipient) + last) == head + GrantsTo(history[1..], recipient) + last;
    }
  }

  /** Each stored list is the recipient's history with a part pruned that no window from `start` on reaches. */
  ghost predicate Prunes(recent: Recent, history: seq<Grant>, start: int) {
    forall r: nat :: After(Times(recent, r), start) == After(GrantsTo(history, r), start)
  }

  lemma PrunesLater(recent: Recent, history: seq<Grant>, earlier: int, later: int)
    requires Prunes(recent, history, earlier) && earlier <= later
    ensures Prunes(recent, history, later)
  {
    forall r: nat ensures After(Times(recent, r), later) == After(GrantsTo(history, r), later) {
      AfterAfter(Times(recent, r), earlier, later);
      AfterAfter(GrantsTo(history, r), earlier, later);
    }
  }

  lemma StepPrunesOne(recent: Recent, history: seq<Grant>, call: Call, limit: nat, windowSeconds: nat, r: nat)
    requires Prunes(recent, history, call.first - windowSeconds * 1000)
    ensures var p, f := Reserved(recent, call, limit, windowSeconds), Decide(history, call, limit, windowSeconds);
            var start := call.first - windowSeconds * 1000;
            p.1 == f.1 && After(Times(p.0, r), start) == After(GrantsTo(f.0, r), start)
  {
    hide Prunes, After, GrantsTo;
    var start := call.first - windowSeconds * 1000;
    PrunesAt(recent, history, start, call.recipient);
    PrunesAt(recent, history, start, r);
    GrantsToPush(history, Grant(call.recipient, call.second), r);
    var times, all := Times(recent, call.recipient), GrantsTo(history, call.recipient);
    var kept := After(times, start);
    if r != call.recipient {
      assert GrantsTo(history, r) + [] == GrantsTo(history, r);
    } else if |kept| < limit {
      KeptThenPushed(times, all, call.second, start);
    } else {
      AfterAfter(times, start, start);
    }
  }

  lemma PrunesAt(recent: Recent, history: seq<Grant>, start: int, r: nat)
    requires Prunes(recent, history, start)
    ensures After(Times(recent, r), start) == After(GrantsTo(history, r), start)
  {}

  lemma KeptThenPushed(times: seq<int>, all: seq<int>, t: int, start: int)
    requires After(times, start) == After(all, start)
    ensures After(After(times, start) + [t], start) == After(all + [t], start)
  {
    AfterAfter(times, start, start);
    AfterAppend(After(times, start), [t], start);
    AfterAppend(all, [t], start);
  }

  lemma StepPrunes(recent: Recent, history: seq<Grant>, call: Call, limit: nat, windowSeconds: nat)
    requires Prunes(recent, history, call.first - windowSeconds * 1000)
    ensures var p, f := Reserved(recent, call, limit, windowSeconds), Decide(history, call, limit, windowSeconds);
            p.1 == f.1 && Prunes(p.0, f.0, call.first - windowSeconds * 1000)
  {
    StepPrunesOne(recent, history, call, limit, windowSeconds, call.recipient);
    forall r: nat {
      StepPrunesOne(recent, history, call, limit, windowSeconds, r);
    }
    hide Reserved, Decide, After, GrantsTo;
  }

  lemma {:induction false} RunPrunes(recent: Recent, history: seq<Grant>, calls: seq<Call>, limit: nat,
                                     windowSeconds: nat, now: int)
    requires ClockForward(calls, now) && Prunes(recent, history, now - windowSeconds * 1000)
    ensures RunPruned(recent, calls, limit, windowSeconds).1 == RunFull(history, calls, limit, windowSeconds).1
    decreases |calls|
  {
    hide Prunes, Reserved, Decide;
    if calls != [] {
      PrunesLater(recent, history, now - windowSeconds * 1000, calls[0].first - windowSeconds * 1000);
      StepPrunes(recent, history, calls[0], limit, windowSeconds);
      RunPrunes(Reserved(recent, calls[0], limit, windowSeconds).0, Decide(history, calls[0], limit, windowSeconds).0,
                calls[1..], limit, windowSeconds, calls[0].first);
    }
  }

  /** The pruned lists answer every call as the full history of grants would. */
  lemma PruningChangesNothing(calls: seq<Call>, limit: nat, windowSeconds: nat, now: int)
    requires ClockForward(calls, now)
    ensures RunPruned(map[], calls, limit, windowSeconds).1 == RunFull([], calls, limit, windowSeconds).1
  {
    RunPrunes(map[], [], calls, limit, windowSeconds, now);
  }

  // ----- no window holds more than the limit ---------------------------------------------------------------

  /** The times in the half-open window that starts at `from`. */
  function Within(times: seq<int>, from: int, windowSeconds: nat): seq<int> {
    if times == [] then []
    else
      (if from <= times[0] < from + windowSeconds * 1000 then [times[0]] else [])
      + Within(times[1..], from, windowSeconds)
  }

  lemma {:induction false} WithinPush(times: seq<int>, t: int, from: int, windowSeconds: nat)
    ensures Within(times + [t], from, windowSeconds)
            == Within(times, from, windowSeconds) + if from <= t < from + windowSeconds * 1000 then [t] else []
  {
    if times == [] {
      assert times + [t] == [t] && [t][1..] == [];
    } else {
      assert (times + [t])[1..] == times[1..] + [t];
      WithinPush(times[1..], t, from, windowSeconds);
    }
  }

  lemma {:induction false} WithinIsAfter(times: seq<int>, from: int, windowSeconds: nat, start: int)
    requires start < from
    ensures |Within(times, from, windowSeconds)| <= |After(times, start)|
  {
    if times != [] {
      WithinIsAfter(times[1..], from, windowSeconds, start);
    }
  }

  ghost predicate WithinLimit(history: seq<Grant>, limit: nat, windowSeconds: nat) {
    forall r: nat, from: int :: |Within(GrantsTo(history, r), from, windowSeconds)| <= limit
  }

  lemma DecideWithinLimit(history: seq<Grant>, call: Call, limit: nat, windowSeconds: nat)
    requires WithinLimit(history, limit, windowSeconds) && call.first <= call.second
    ensures WithinLimit(Decide(history, call, limit, windowSeconds).0, limit, windowSeconds)
  {
    var f := Decide(history, call, limit, windowSeconds);
    forall r: nat, from: int ensures |Within(GrantsTo(f.0, r), from, windowSeconds)| <= limit {
      var times := GrantsTo(history, r);
      assert |Within(times, from, windowSeconds)| <= limit;
      if f.1 {
        GrantsToPush(history, Grant(call.recipient, call.second), r);
        if r != call.recipient {
          assert times + [] == times;
        } else {
          WithinPush(times, call.second, from, windowSeconds);
          if from <= call.second < from + windowSeconds * 1000 {
            WithinIsAfter(times, from, windowSeconds, call.first - windowSeconds * 1000);
          }
        }
      }
    }
  }

  lemma {:induction false} RunWithinLimit(history: seq<Grant>, calls: seq<Call>, limit: nat, windowSeconds: nat)
    requires WithinLimit(history, limit, windowSeconds) && forall c <- calls :: c.first <= c.second
    ensures WithinLimit(RunFull(history, calls, limit, windowSeconds).0, limit, windowSeconds)
    decreases |calls|
  {
    if calls != [] {
      DecideWithinLimit(history, calls[0], limit, windowSeconds);
      hide WithinLimit, Decide;
      RunWithinLimit(Decide(history, calls[0], limit, windowSeconds).0, calls[1..], limit, windowSeconds);
    }
  }

  /** What was granted, call by call, going by the answers given. */
  function GrantedBy(calls: seq<Call>, answers: seq<bool>): seq<Grant>
    requires |answers| == |calls|
  {
    if calls == [] then []
    else (if answers[0] then [Grant(calls[0].recipient, calls[0].second)] else []) + GrantedBy(calls[1..], answers[1..])
  }

  lemma {:induction false} FullRecordsGrants(history: seq<Grant>, calls: seq<Call>, limit: nat, windowSeconds: nat)
    ensures var r := RunFull(history, calls, limit, windowSeconds);
            |r.1| == |calls| && r.0 == history + GrantedBy(calls, r.1)
    decreases |calls|
  {
    if calls != [] {
      var d := Decide(history, calls[0], limit, windowSeconds);
      FullRecordsGrants(d.0, calls[1..], limit, windowSeconds);
      var r := RunFull(history, calls, limit, windowSeconds);
      assert r.1[1..] == RunFull(d.0, calls[1..], limit, windowSeconds).1;
    }
  }

  /** On a clock that never runs back, whatever the mix of recipients, the throttle as it prunes grants each
      recipient at most `limit` transfers in every half-open window. */
  lemma EveryWindowWithinLimit(calls: seq<Call>, limit: nat, windowSeconds: nat, now: int, recipient: nat, from: int)
    requires ClockForward(calls, now)
    ensures var answers := RunPruned(map[], calls, limit, windowSeconds).1;
            |answers| == |calls|
            && |Within(GrantsTo(GrantedBy(calls, answers), recipient), from, windowSeconds)| <= limit
  {
    PruningChangesNothing(calls, limit, windowSeconds, now);
    FullRecordsGrants([], calls, limit, windowSeconds);
    assert WithinLimit([], limit, windowSeconds);
    RunWithinLimit([], calls, limit, windowSeconds);
    var full := RunFull([], calls, limit, windowSeconds);
    hide RunFull, RunPruned, Within, GrantsTo, GrantedBy;
    assert full.0 == [] + GrantedBy(calls, full.1) == GrantedBy(calls, full.1);
    assert |Within(GrantsTo(full.0, recipient), from, windowSeconds)| <= limit;
  }
}
