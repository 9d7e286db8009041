/** The provider's webhook handler over every interleaving of deliveries of one event: select, insert, claim,
    dispatch, and release or mark processed, one database statement at a time. */
module Webhooks {
  datatype EventRow = Absent | EventRow(claimed: bool, processed: bool)

  /** Where a delivery stands. From Dispatching to Marking it holds the claim; Gone is one that died or whose
      last statement failed. */
  datatype Phase =
    | Selecting
    | Inserting
    | Claiming
    | Dispatching
    | Releasing
    | Marking
    | Skipped
    | Failed
    | Finished
    | Gone

  /** `dispatched` and `succeeded` count dispatches begun and those whose handler returned normally. */
  datatype World = World(row: EventRow, deliveries: seq<Phase>, dispatched: nat, succeeded: nat)

  datatype Choice = Proceed | HandlerThrows | Crash

  datatype Step = Step(i: nat, choice: Choice)

  predicate Over(p: Phase) {
    p.Skipped? || p.Failed? || p.Finished? || p.Gone?
  }

  function At(w: World, i: nat, p: Phase): World
    requires i < |w.deliveries|
  {
    w.(deliveries := w.deliveries[i := p])
  }

  function Next(w: World, step: Step): World {
    if step.i >= |w.deliveries| || Over(w.deliveries[step.i]) then w
    else if step.choice.Crash? then At(w, step.i, Gone)
    else
      match w.deliveries[step.i]
      case Selecting =>
        At(w, step.i, if w.row.Absent? then Inserting else if w.row.processed then Skipped else Claiming)
      case Inserting =>
        if w.row.Absent? then At(w, step.i, Claiming).(row := EventRow(false, false)) else At(w, step.i, Skipped)
      case Claiming =>
        if w.row.Absent? || w.row.claimed then At(w, step.i, Skipped)
        else At(w, step.i, Dispatching).(row := w.row.(claimed := true), dispatched := w.dispatched + 1)
      case Dispatching =>
        if step.choice.HandlerThrows? then At(w, step.i, Releasing)
        else At(w, step.i, Marking).(succeeded := w.succeeded + 1)
      case Releasing =>
        if w.row.Absent? then At(w, step.i, Failed) else At(w, step.i, Failed).(row := w.row.(claimed := false))
      case Marking =>
        if w.row.Absent? then At(w, step.i, Finished) else At(w, step.i, Finished).(row := w.row.(processed := true))
      case _ => w
  }

  function Run(w: World, steps: seq<Step>): World
    decreases |steps|
  {
    if steps == [] then w else Run(Next(w, steps[0]), steps[1..])
  }

  function Fresh(n: nat): World {
    World(Absent, seq(n, _ => Selecting), 0, 0)
  }

  // ----- what every interleaving keeps ---------------------------------------------------------------------

  predicate Claims(p: Phase) {
    p.Dispatching? || p.Releasing? || p.Marking?
  }

  predicate Claimed(w: World) {
    exists i :: 0 <= i < |w.deliveries| && Claims(w.deliveries[i])
  }

  /** One delivery at most has the claim, and the row says so. The row is there for whoever is past inserting. */
  ghost predicate OneClaim(w: World) {
    && (forall i, j :: 0 <= i < j < |w.deliveries| ==> !(Claims(w.deliveries[i]) && Claims(w.deliveries[j])))
    && (forall i :: 0 <= i < |w.deliveries| && Claims(w.deliveries[i]) ==> w.row == EventRow(true, false))
    && (forall i :: 0 <= i < |w.deliveries| && w.deliveries[i].Claiming? ==> w.row.EventRow?)
  }

  predicate Succeeding(w: World) {
    exists i :: 0 <= i < |w.deliveries| && w.deliveries[i].Marking?
  }

  /** At most one dispatch has succeeded, and then the claim is never given back. */
  ghost predicate Counted(w: World) {
    && w.succeeded <= 1
    && (w.succeeded == 1 ==> w.row.EventRow? && w.row.claimed && (Claimed(w) ==> Succeeding(w)))
    && (Succeeding(w) ==> w.succeeded == 1)
    && (w.row.EventRow? && w.row.processed ==> w.succeeded == 1)
  }

  ghost predicate Guarded(w: World) {
    OneClaim(w) && Counted(w)
  }

  lemma StepOneClaim(w: World, step: Step)
    requires Guarded(w)
    ensures OneClaim(Next(w, step))
  {}

  lemma StepCounted(w: World, step: Step)
    requires Guarded(w)
    ensures Counted(Next(w, step))
  {
    var t := Next(w, step);
    if step.i < |w.deliveries| && t != w {
      var i := step.i;
      var before, after := w.deliveries[i], t.deliveries[i];
      assert forall j :: 0 <= j < |w.deliveries| && j != i ==> t.deliveries[j] == w.deliveries[j];
      assert Claims(before) ==>
          Claimed(w) && forall j :: 0 <= j < |w.deliveries| && j != i ==> !Claims(w.deliveries[j]);
      assert Claims(after) ==> Claimed(t);
      assert after.Marking? ==> Succeeding(t);
      assert before.Marking? ==> Succeeding(w);
    }
  }

  lemma {:induction false} RunGuarded(w: World, steps: seq<Step>)
    requires Guarded(w)
    ensures Guarded(Run(w, steps))
    decreases |steps|
  {
    if steps != [] {
      StepOneClaim(w, steps[0]);
      StepCounted(w, steps[0]);
      hide Guarded, Next;
      RunGuarded(Next(w, steps[0]), steps[1..]);
    }
  }

  predicate IsDispatching(w: World, d: nat) {
    d < |w.deliveries| && w.deliveries[d].Dispatching?
  }

  /** However deliveries of one event interleave, and whichever of them die, at most one dispatch is in progress
      and at most one ever succeeds. */
  lemma AtMostOneDispatch(n: nat, steps: seq<Step>)
    ensures var w := Run(Fresh(n), steps);
            && (forall c: nat, d: nat :: IsDispatching(w, c) && IsDispatching(w, d) ==> c == d)
            && w.succeeded <= 1
            && (w.row.EventRow? && w.row.processed ==> w.succeeded == 1)
  {
    assert Guarded(Fresh(n));
    RunGuarded(Fresh(n), steps);
  }

  // ----- when another dispatch can start -------------------------------------------------------------------

  predicate Waiting(p: Phase) {
    p.Selecting? || p.Inserting? || p.Claiming?
  }

  /** Delivery c could still come to dispatch, were nobody else to move: it is past inserting or finds no row
      to collide with. */
  predicate Ready(w: World, c: nat) {
    && c < |w.deliveries| && Waiting(w.deliveries[c])
    && (w.deliveries[c].Inserting? ==> w.row.Absent?)
  }

  /** The claim is free, or its holder may yet release it. */
  predicate Obtainable(w: World) {
    || w.row.Absent? || (!w.row.claimed && !w.row.processed)
    || exists i :: 0 <= i < |w.deliveries| && (w.deliveries[i].Dispatching? || w.deliveries[i].Releasing?)
  }

  /** From any reachable state another dispatch can begin if and only if some delivery is ready and the claim is
      obtainable. A delivery that died holding the claim therefore ends the event for good, and so does one
      that died before marking it. */
  lemma CanDispatchIff(w: World)
    requires Guarded(w)
    ensures (exists steps :: Run(w, steps).dispatched > w.dispatched) <==> Obtainable(w) && exists c :: Ready(w, c)
  {
    if Obtainable(w) && exists c :: Ready(w, c) {
      var c :| Ready(w, c);
      var free := Freed(w, c);
      var steps := Reach(w, free, c);
      assert Run(w, steps).dispatched > w.dispatched;
    } else {
      forall steps ensures Run(w, steps).dispatched <= w.dispatched {
        StaysShut(w, steps);
      }
    }
  }

  ghost predicate Shut(w: World) {
    !Obtainable(w) || !exists c :: Ready(w, c)
  }

  lemma StepStaysShut(w: World, step: Step)
    requires Guarded(w) && Shut(w)
    ensures Shut(Next(w, step)) && Next(w, step).dispatched == w.dispatched
  {
    var t := Next(w, step);
    if step.i < |w.deliveries| && t != w {
      var i := step.i;
      assert forall j :: 0 <= j < |w.deliveries| && j != i ==> t.deliveries[j] == w.deliveries[j];
      if !exists c :: Ready(w, c) {
        assert !Ready(w, i);
        forall c ensures !Ready(t, c) {
          assert !Ready(w, c);
        }
      }
    }
  }

  lemma {:induction false} StaysShut(w: World, steps: seq<Step>)
    requires Guarded(w) && Shut(w)
    ensures Run(w, steps).dispatched == w.dispatched
    decreases |steps|
  {
    if steps != [] {
      StepStaysShut(w, steps[0]);
      StepOneClaim(w, steps[0]);
      StepCounted(w, steps[0]);
      hide Guarded, Next, Shut;
      StaysShut(Next(w, steps[0]), steps[1..]);
    }
  }

  lemma {:induction false} RunThen(w: World, steps: seq<Step>, last: Step)
    ensures Run(w, steps + [last]) == Next(Run(w, steps), last)
    decreases |steps|
  {
    hide Next;
    if steps == [] {
      assert [last][1..] == [];
      assert Run(w, [last]) == Run(Next(w, last), []);
    } else {
      assert (steps + [last])[1..] == steps[1..] + [last];
      RunThen(Next(w, steps[0]), steps[1..], last);
    }
  }

  /** The holder's handler throws and it releases the claim, if there is a holder. */
  lemma Freed(w: World, c: nat) returns (steps: seq<Step>)
    requires Guarded(w) && Obtainable(w) && Ready(w, c)
    ensures var t := Run(w, steps);
            && Guarded(t) && Ready(t, c) && t.dispatched == w.dispatched
            && (t.row.Absent? || (!t.row.claimed && !t.row.processed))
  {
    if w.row.Absent? || (!w.row.claimed && !w.row.processed) {
      steps := [];
    } else {
      var i :| 0 <= i < |w.deliveries| && (w.deliveries[i].Dispatching? || w.deliveries[i].Releasing?);
      assert Claims(w.deliveries[i]);
      steps := if w.deliveries[i].Dispatching? then [Step(i, HandlerThrows)] else [];
      RunThen(w, [], Step(i, HandlerThrows));
      RunThen(w, steps, Step(i, Proceed));
      steps := steps + [Step(i, Proceed)];
      RunGuarded(w, steps);
    }
  }

  function StepsToClaim(p: Phase): nat {
    if p.Selecting? then 2 else if p.Inserting? then 1 else 0
  }

  /** A ready delivery, left alone, gets to dispatch. */
  lemma Reach(w: World, before: seq<Step>, c: nat) returns (steps: seq<Step>)
    requires var t := Run(w, before);
             && Ready(t, c) && (t.row.Absent? || (!t.row.claimed && !t.row.processed))
             && (t.deliveries[c].Claiming? ==> t.row.EventRow?)
    ensures Run(w, steps).dispatched > Run(w, before).dispatched
    decreases StepsToClaim(Run(w, before).deliveries[c])
  {
    hide Run;
    RunThen(w, before, Step(c, Proceed));
    steps := before + [Step(c, Proceed)];
    if !Run(w, before).deliveries[c].Claiming? {
      steps := Reach(w, steps, c);
    }
  }

  // ----- how a dispatch ends -------------------------------------------------------------------------------

  /** Nobody takes the claim while delivery i holds it, whatever the others do. */
  lemma {:induction false} HolderUndisturbed(w: World, i: nat, others: seq<Step>)
    requires Guarded(w) && i < |w.deliveries| && Claims(w.deliveries[i])
    requires forall step <- others :: step.i != i
    ensures var t := Run(w, others);
            && Guarded(t) && |t.deliveries| == |w.deliveries| && t.deliveries[i] == w.deliveries[i]
            && t.row == EventRow(true, false) && t.dispatched == w.dispatched && t.succeeded == w.succeeded
    decreases |others|
  {
    if others != [] {
      assert others[0] in others;
      StepOneClaim(w, others[0]);
      StepCounted(w, others[0]);
      HolderStep(w, i, others[0]);
      hide Guarded, Next;
      HolderUndisturbed(Next(w, others[0]), i, others[1..]);
    }
  }

  lemma HolderStep(w: World, i: nat, step: Step)
    requires Guarded(w) && i < |w.deliveries| && Claims(w.deliveries[i]) && step.i != i
    ensures var t := Next(w, step);
            && |t.deliveries| == |w.deliveries| && t.deliveries[i] == w.deliveries[i]
            && t.dispatched == w.dispatched && t.succeeded == w.succeeded
  {}

  /** The claim is held for good: the row has it, and no delivery does. */
  predicate Held(w: World) {
    w.row.EventRow? && w.row.claimed && !Claimed(w)
  }

  lemma HeldStep(w: World, step: Step)
    requires Held(w)
    ensures var t := Next(w, step); Held(t) && t.row == w.row && t.dispatched == w.dispatched
  {
    var t := Next(w, step);
    assert forall i :: 0 <= i < |w.deliveries| ==> !Claims(w.deliveries[i]);
    assert |t.deliveries| == |w.deliveries|;
    assert forall i :: 0 <= i < |t.deliveries| ==> !Claims(t.deliveries[i]);
  }

  lemma {:induction false} HeldForGood(w: World, steps: seq<Step>)
    requires Held(w)
    ensures Run(w, steps).row == w.row && Run(w, steps).dispatched == w.dispatched
    decreases |steps|
  {
    if steps != [] {
      HeldStep(w, steps[0]);
      hide Next, Held;
      HeldForGood(Next(w, steps[0]), steps[1..]);
    }
  }

  /** After a handler that throws, and whatever the others do meanwhile, the release leaves the event unclaimed and
      unprocessed; another dispatch can then begin if and only if a delivery is ready. */
  lemma ThrowGivesTheClaimBack(w: World, i: nat, others: seq<Step>)
    requires Guarded(w) && IsDispatching(w, i) && forall step <- others :: step.i != i
    ensures var t := Run(Next(w, Step(i, HandlerThrows)), others);
            && |t.deliveries| == |w.deliveries| && t.deliveries[i].Releasing?
            && var u := Next(t, Step(i, Proceed));
               && u.row == EventRow(false, false) && u.deliveries[i].Failed?
               && u.dispatched == w.dispatched && u.succeeded == w.succeeded
               && ((exists steps :: Run(u, steps).dispatched > u.dispatched) <==> exists c :: Ready(u, c))
  {
    var thrown := Next(w, Step(i, HandlerThrows));
    StepOneClaim(w, Step(i, HandlerThrows));
    StepCounted(w, Step(i, HandlerThrows));
    HolderUndisturbed(thrown, i, others);
    var t := Run(thrown, others);
    StepOneClaim(t, Step(i, Proceed));
    StepCounted(t, Step(i, Proceed));
    CanDispatchIff(Next(t, Step(i, Proceed)));
  }

  /** After a handler that returns, the event is marked processed and stays so: nothing is dispatched again. */
  lemma SuccessIsMarked(w: World, i: nat, others: seq<Step>, after: seq<Step>)
    requires Guarded(w) && IsDispatching(w, i) && forall step <- others :: step.i != i
    ensures var t := Run(Next(w, Step(i, Proceed)), others);
            && |t.deliveries| == |w.deliveries| && t.deliveries[i].Marking?
            && var u := Next(t, Step(i, Proceed));
               && u.row == EventRow(true, true) && u.deliveries[i].Finished?
               && u.dispatched == w.dispatched && u.succeeded == w.succeeded + 1
               && Run(u, after).row == u.row && Run(u, after).dispatched == u.dispatched
  {
    var returned := Next(w, Step(i, Proceed));
    StepOneClaim(w, Step(i, Proceed));
    StepCounted(w, Step(i, Proceed));
    HolderUndisturbed(returned, i, others);
    var t := Run(returned, others);
    LetsGo(t, i, Proceed);
    HeldForGood(Next(t, Step(i, Proceed)), after);
  }

  /** A delivery that dies between claiming and its last statement leaves the event claimed and unprocessed for
      good, its handler having run to the end or not. */
  lemma DeathHoldsTheClaim(w: World, i: nat, after: seq<Step>)
    requires Guarded(w) && i < |w.deliveries| && Claims(w.deliveries[i])
    ensures var u := Run(Next(w, Step(i, Crash)), after);
            u.row == EventRow(true, false) && u.dispatched == w.dispatched
  {
    LetsGo(w, i, Crash);
    HeldForGood(Next(w, Step(i, Crash)), after);
  }

  lemma LetsGo(w: World, i: nat, choice: Choice)
    requires Guarded(w) && i < |w.deliveries| && Claims(w.deliveries[i])
    requires choice.Crash? || w.deliveries[i].Marking?
    ensures Held(Next(w, Step(i, choice)))
  {
    var t := Next(w, Step(i, choice));
    assert forall j :: 0 <= j < |w.deliveries| && j != i ==> t.deliveries[j] == w.deliveries[j];
  }

  predicate IsFinished(w: World, d: nat) {
    d < |w.deliveries| && w.deliveries[d].Finished?
  }

  /** The row says processed exactly when a delivery has finished, and that delivery is the only one. */
  ghost predicate Settled(w: World) {
    && (forall d: nat :: IsFinished(w, d) ==> w.row == EventRow(true, true))
    && (w.row.EventRow? && w.row.processed ==> exists d :: IsFinished(w, d))
    && (forall c: nat, d: nat :: IsFinished(w, c) && IsFinished(w, d) ==> c == d)
  }

  lemma StepSettled(w: World, step: Step)
    requires Guarded(w) && Settled(w)
    ensures Settled(Next(w, step))
  {
    var t := Next(w, step);
    if step.i < |w.deliveries| && t != w {
      var i := step.i;
      assert forall d: nat :: d != i ==> (IsFinished(t, d) <==> IsFinished(w, d));
      assert !IsFinished(w, i);
      assert Claims(w.deliveries[i]) ==> w.row == EventRow(true, false);
      if IsFinished(t, i) {
        assert t.row == EventRow(true, true);
      }
    }
  }

  lemma {:induction false} RunSettled(w: World, steps: seq<Step>)
    requires Guarded(w) && Settled(w)
    ensures Settled(Run(w, steps))
    decreases |steps|
  {
    if steps != [] {
      StepOneClaim(w, steps[0]);
      StepCounted(w, steps[0]);
      StepSettled(w, steps[0]);
      hide Guarded, Next, Settled;
      RunSettled(Next(w, steps[0]), steps[1..]);
    }
  }

  /** Over every run: the event is marked processed if and only if some delivery got through to the end, and at
      most one ever does. */
  lemma ProcessedIffFinished(n: nat, steps: seq<Step>)
    ensures var w := Run(Fresh(n), steps);
            && (w.row.EventRow? && w.row.processed <==> exists d :: IsFinished(w, d))
            && (forall c: nat, d: nat :: IsFinished(w, c) && IsFinished(w, d) ==> c == d)
  {
    assert Guarded(Fresh(n)) && Settled(Fresh(n));
    hide Run;
    RunSettled(Fresh(n), steps);
  }
}
