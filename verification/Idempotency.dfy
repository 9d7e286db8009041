/** withIdempotencyKey over every interleaving of callers on one key, one database statement at a time. */
module Idempotency {
  type Response = nat

  datatype KeyStatus = InProgress | Completed(response: Response) | FailedIndeterminate

  /** The row of the key, if there is one. */
  datatype KeyRow = Absent | KeyRow(requestHash: nat, status: KeyStatus)

  datatype Answer = Returned(response: Response) | KeyReuse | StillInProgress | Indeterminate | Threw

  /** Where a caller stands. From Running to Marking it owns the key; Gone is a caller that died or whose last
      statement failed, leaving the row as it was. */
  datatype Phase =
    | Inserting
    | Reading
    | Running
    | Saving(response: Response)
    | Deleting
    | Marking
    | Done(answer: Answer)
    | Gone

  datatype Caller = Caller(requestHash: nat, phase: Phase)

  /** `started` counts the runs of fn begun, `unsaved` the results whose saving threw, and `lost` those of them that
      were saved all the same; `results` is what runs have returned, in order. */
  datatype World = World(
    row: KeyRow,
    callers: seq<Caller>,
    started: nat,
    results: seq<Response>,
    unsaved: nat,
    lost: nat)

  /** What the environment decides in a step. `AnswerLost` is a statement that is carried out and then throws. */
  datatype Choice =
    | Proceed
    | FnReturns(response: Response)
    | FnThrows(indeterminate: bool)
    | SaveFails
    | AnswerLost
    | Crash

  datatype Step = Step(i: nat, choice: Choice)

  function At(w: World, i: nat, phase: Phase): World
    requires i < |w.callers|
  {
    w.(callers := w.callers[i := w.callers[i].(phase := phase)])
  }

  function AnswerFor(row: KeyRow, requestHash: nat): Answer {
    if row.Absent? || row.requestHash != requestHash then KeyReuse
    else
      match row.status
      case InProgress => StillInProgress
      case FailedIndeterminate => Indeterminate
      case Completed(response) => Returned(response)
  }

  function SetStatus(row: KeyRow, status: KeyStatus): KeyRow {
    if row.Absent? then row else row.(status := status)
  }

  function Next(w: World, step: Step): World {
    if step.i >= |w.callers| || w.callers[step.i].phase.Done? then w
    else if step.choice.Crash? then At(w, step.i, Gone)
    else
      var caller := w.callers[step.i];
      match caller.phase
      case Inserting =>
        if w.row.KeyRow? then At(w, step.i, Reading)
        else if step.choice.AnswerLost? then At(w, step.i, Gone).(row := KeyRow(caller.requestHash, InProgress))
        else At(w, step.i, Running).(row := KeyRow(caller.requestHash, InProgress), started := w.started + 1)
      case Reading => At(w, step.i, Done(AnswerFor(w.row, caller.requestHash)))
      case Running =>
        if step.choice.FnReturns? then
          At(w, step.i, Saving(step.choice.response)).(results := w.results + [step.choice.response])
        else if step.choice.FnThrows? then At(w, step.i, if step.choice.indeterminate then Marking else Deleting)
        else w
      case Saving(response) =>
        if step.choice.SaveFails? then At(w, step.i, Deleting).(unsaved := w.unsaved + 1)
        else if step.choice.AnswerLost? then
          At(w, step.i, Deleting).(row := SetStatus(w.row, Completed(response)),
                                   unsaved := w.unsaved + 1,
                                   lost := w.lost + 1)
        else At(w, step.i, Done(Returned(response))).(row := SetStatus(w.row, Completed(response)))
      case Deleting => At(w, step.i, Done(Threw)).(row := Absent)
      case Marking => At(w, step.i, Done(Threw)).(row := SetStatus(w.row, FailedIndeterminate))
      case _ => w
  }

  function Run(w: World, steps: seq<Step>): World
    decreases |steps|
  {
    if steps == [] then w else Run(Next(w, steps[0]), steps[1..])
  }

  function Fresh(hashes: seq<nat>): World {
    World(Absent, seq(|hashes|, i requires 0 <= i < |hashes| => Caller(hashes[i], Inserting)), 0, [], 0, 0)
  }

  // ----- what every interleaving keeps ---------------------------------------------------------------------

  predicate Owns(c: Caller) {
    c.phase.Running? || c.phase.Saving? || c.phase.Deleting? || c.phase.Marking?
  }

  /** The owner's row is its own, and in progress unless its result was saved and it does not know. */
  predicate OwnRow(row: KeyRow, c: Caller) {
    && row.KeyRow? && row.requestHash == c.requestHash
    && (row.status.InProgress? || (row.status.Completed? && c.phase.Deleting?))
  }

  /** One caller at most owns the key. */
  ghost predicate OneOwner(w: World) {
    && (forall i, j :: 0 <= i < |w.callers| && 0 <= j < |w.callers| && Owns(w.callers[i]) && Owns(w.callers[j]) ==>
          i == j)
    && (forall i :: 0 <= i < |w.callers| && Owns(w.callers[i]) ==> OwnRow(w.row, w.callers[i]))
    && (w.lost == 0 && Owned(w) ==> w.row.status.InProgress?)
  }

  /** A caller that got a result got what some run returned, and while no answer to a save was lost, the one on
      record, under its own request. What is on record or being saved is what the last run returned. */
  ghost predicate SameResult(w: World) {
    && (forall i :: 0 <= i < |w.callers| && Answered(w.callers[i]) ==>
          && w.callers[i].phase.answer.response in w.results
          && (w.lost == 0 ==>
                w.row == KeyRow(w.callers[i].requestHash, Completed(w.callers[i].phase.answer.response))))
    && (forall i :: 0 <= i < |w.callers| && w.callers[i].phase.Saving? ==> IsLast(w, w.callers[i].phase.response))
    && (w.row.KeyRow? && w.row.status.Completed? ==> IsLast(w, w.row.status.response))
  }

  predicate Answered(c: Caller) {
    c.phase.Done? && c.phase.answer.Returned?
  }

  predicate IsLast(w: World, response: Response) {
    w.results != [] && w.results[|w.results| - 1] == response
  }

  predicate Owned(w: World) {
    exists i :: 0 <= i < |w.callers| && Owns(w.callers[i])
  }

  /** A result is held by the caller saving it or by the row, or lost with a caller that died. */
  predicate ResultPending(w: World) {
    exists i :: 0 <= i < |w.callers| && w.callers[i].phase.Saving?
  }

  /** Beyond those whose saving failed, at most one run has returned, and then nothing can start another. */
  ghost predicate Counted(w: World) {
    && w.unsaved <= |w.results| <= w.unsaved + 1
    && (|w.results| == w.unsaved + 1 ==> !w.row.Absent? && (Owned(w) ==> ResultPending(w)))
    && (ResultPending(w) ==> |w.results| == w.unsaved + 1)
  }

  ghost predicate Guarded(w: World) {
    OneOwner(w) && SameResult(w) && Counted(w)
  }

  lemma StepOneOwner(w: World, step: Step)
    requires Guarded(w)
    ensures OneOwner(Next(w, step)) && SameResult(Next(w, step))
  {
    StepKeepsOwner(w, step);
    StepKeepsResult(w, step);
  }

  /** A step moves its own caller only; a row that changes was free or its own. */
  lemma StepFacts(w: World, step: Step)
    requires OneOwner(w) && step.i < |w.callers|
    ensures var t := Next(w, step);
            var before, after := w.callers[step.i], t.callers[step.i];
            && |t.callers| == |w.callers|
            && (forall j :: 0 <= j < |w.callers| && j != step.i ==> t.callers[j] == w.callers[j])
            && (t.row != w.row ==> Owns(before) || (w.row.Absent? && !Owned(w)))
            && (Owns(after) ==> OwnRow(t.row, after) && (Owns(before) || (w.row.Absent? && !Owned(w))))
            && (t.lost == 0 && Owns(after) ==> w.lost == 0 && t.row.status.InProgress?)
  {
    if Owned(w) {
      var i :| 0 <= i < |w.callers| && Owns(w.callers[i]);
      assert OwnRow(w.row, w.callers[i]);
    }
  }

  lemma StepKeepsOwner(w: World, step: Step)
    requires OneOwner(w)
    ensures OneOwner(Next(w, step))
  {
    if step.i < |w.callers| {
      StepFacts(w, step);
      hide Next;
    }
  }

  lemma StepKeepsResult(w: World, step: Step)
    requires OneOwner(w) && SameResult(w)
    ensures SameResult(Next(w, step))
  {}

  lemma StepCounted(w: World, step: Step)
    requires Guarded(w)
    ensures Counted(Next(w, step))
  {
    var t := Next(w, step);
    if step.i < |w.callers| && t != w {
      var i := step.i;
      var before, after := w.callers[i], t.callers[i];
      assert forall j :: 0 <= j < |w.callers| && j != i ==> t.callers[j] == w.callers[j];
      assert Owns(before) ==> forall j :: 0 <= j < |w.callers| && j != i ==> !Owns(w.callers[j]);
      assert Owns(after) ==> Owned(t);
      assert Owns(before) ==> Owned(w);
      assert after.phase.Saving? ==> ResultPending(t);
      assert before.phase.Saving? ==> ResultPending(w);
    }
  }

  lemma {:induction false} RunGuarded(w: World, steps: seq<Step>)
    requires Guarded(w)
    ensures Guarded(Run(w, steps))
    decreases |steps|
  {
    if steps != [] {
      StepOneOwner(w, steps[0]);
      StepCounted(w, steps[0]);
      hide Guarded, Next;
      RunGuarded(Next(w, steps[0]), steps[1..]);
    }
  }

  lemma FreshGuarded(hashes: seq<nat>)
    ensures Guarded(Fresh(hashes))
  {}

  predicate IsRunning(w: World, c: nat) {
    c < |w.callers| && w.callers[c].phase.Running?
  }

  predicate HasResult(w: World, c: nat) {
    c < |w.callers| && Answered(w.callers[c])
  }

  /** fn never runs twice at once, and at most one run returns, but for one more per result whose saving threw.
      Everyone who gets a result gets what a run returned and, unless a result was saved and its caller not told,
      what the last one returned, under the same request. */
  lemma AtMostOneRun(hashes: seq<nat>, steps: seq<Step>)
    ensures var w := Run(Fresh(hashes), steps);
            && (forall c: nat, d: nat :: IsRunning(w, c) && IsRunning(w, d) ==> c == d)
            && |w.results| <= w.unsaved + 1
            && (forall c: nat :: HasResult(w, c) ==> w.callers[c].phase.answer.response in w.results)
            && (w.lost == 0 ==>
                  && (forall c: nat :: HasResult(w, c) ==> IsLast(w, w.callers[c].phase.answer.response))
                  && (forall c: nat, d: nat :: HasResult(w, c) && HasResult(w, d) ==>
                        w.callers[c].requestHash == w.callers[d].requestHash))
  {
    FreshGuarded(hashes);
    RunGuarded(Fresh(hashes), steps);
  }

  // ----- when a run can still start ------------------------------------------------------------------------

  /** Some caller is still to come, and the key is free or its owner may yet give it up. */
  predicate Open(w: World) {
    && (exists i :: 0 <= i < |w.callers| && w.callers[i].phase.Inserting?)
    && (w.row.Absent? || exists i :: 0 <= i < |w.callers| && Owns(w.callers[i]) && !w.callers[i].phase.Marking?)
  }

  lemma StepStaysShut(w: World, step: Step)
    requires Guarded(w) && !Open(w)
    ensures !Open(Next(w, step)) && Next(w, step).started == w.started
  {
    var t := Next(w, step);
    if step.i < |w.callers| && t != w {
      var i := step.i;
      assert forall j :: 0 <= j < |w.callers| && j != i ==> t.callers[j] == w.callers[j];
      assert !t.callers[i].phase.Inserting?;
    }
  }

  lemma {:induction false} StaysShut(w: World, steps: seq<Step>)
    requires Guarded(w) && !Open(w)
    ensures Run(w, steps).started == w.started
    decreases |steps|
  {
    if steps != [] {
      StepStaysShut(w, steps[0]);
      StepOneOwner(w, steps[0]);
      StepCounted(w, steps[0]);
      hide Guarded, Next, Open;
      StaysShut(Next(w, steps[0]), steps[1..]);
    }
  }

  /** The owner lets go: fn throws, or its result cannot be saved, and the row is deleted. */
  function LetGo(w: World, i: nat): seq<Step>
    requires i < |w.callers|
  {
    if w.callers[i].phase.Running? then [Step(i, FnThrows(false)), Step(i, Proceed)]
    else if w.callers[i].phase.Saving? then [Step(i, SaveFails), Step(i, Proceed)]
    else [Step(i, Proceed)]
  }

  lemma LetGoFrees(w: World, i: nat)
    requires i < |w.callers| && Owns(w.callers[i]) && !w.callers[i].phase.Marking?
    ensures var t := Run(w, LetGo(w, i));
            && t.row.Absent? && t.started == w.started && |t.callers| == |w.callers|
            && forall j :: 0 <= j < |w.callers| && j != i ==> t.callers[j] == w.callers[j]
  {
    var steps := LetGo(w, i);
    var w1 := Next(w, steps[0]);
    assert Run(w, steps) == Run(w1, steps[1..]);
    if w.callers[i].phase.Deleting? {
      assert steps[1..] == [];
    } else {
      assert steps[1..] == [Step(i, Proceed)] && [Step(i, Proceed)][1..] == [];
      assert Run(w1, steps[1..]) == Run(Next(w1, Step(i, Proceed)), []);
    }
  }

  lemma {:induction false} RunAppend(w: World, steps: seq<Step>, more: seq<Step>)
    ensures Run(w, steps + more) == Run(Run(w, steps), more)
    decreases |steps|
  {
    if steps == [] {
      assert steps + more == more;
    } else {
      hide Next;
      assert (steps + more)[1..] == steps[1..] + more;
      RunAppend(Next(w, steps[0]), steps[1..], more);
    }
  }

  /** From any reachable state another run can start if and only if the key is open. In particular nothing ever
      runs after a result is on record, after an indeterminate failure, or once the owner has died. */
  lemma CanStartIff(w: World)
    requires Guarded(w)
    ensures (exists steps :: Run(w, steps).started > w.started) <==> Open(w)
  {
    if Open(w) {
      var c :| 0 <= c < |w.callers| && w.callers[c].phase.Inserting?;
      var free: seq<Step> := [];
      if !w.row.Absent? {
        var i :| 0 <= i < |w.callers| && Owns(w.callers[i]) && !w.callers[i].phase.Marking?;
        free := LetGo(w, i);
        LetGoFrees(w, i);
      }
      var t := Run(w, free);
      assert t.row.Absent? && t.callers[c].phase.Inserting?;
      RunAppend(w, free, [Step(c, Proceed)]);
      assert [Step(c, Proceed)][1..] == [];
      assert Run(t, [Step(c, Proceed)]) == Run(Next(t, Step(c, Proceed)), []);
      assert Run(w, free + [Step(c, Proceed)]).started > w.started;
    } else {
      forall steps ensures Run(w, steps).started <= w.started {
        StaysShut(w, steps);
      }
    }
  }

  /** A row that has no owner left is final: nothing runs any more, and the row stays as it is. */
  lemma {:induction false} OwnerlessIsFinal(w: World, steps: seq<Step>)
    requires w.row.KeyRow? && !Owned(w)
    ensures Run(w, steps).row == w.row && Run(w, steps).started == w.started && !Open(Run(w, steps))
    decreases |steps|
  {
    if steps != [] {
      StepLeavesOwnerless(w, steps[0]);
      hide Next;
      OwnerlessIsFinal(Next(w, steps[0]), steps[1..]);
    }
  }

  lemma StepLeavesOwnerless(w: World, step: Step)
    requires w.row.KeyRow? && !Owned(w)
    ensures var t := Next(w, step);
            t.row == w.row && t.started == w.started && !Owned(t)
  {}

  /** Once fn has returned, it can run again if and only if its result is still to be saved, so that saving may
      fail, and another caller is still to come. */
  lemma SecondRunIff(w: World)
    requires Guarded(w) && |w.results| > w.unsaved
    ensures (exists steps :: Run(w, steps).started > w.started)
            <==> ResultPending(w) && exists i :: 0 <= i < |w.callers| && w.callers[i].phase.Inserting?
  {
    CanStartIff(w);
    hide Run;
    if ResultPending(w) {
      var i :| 0 <= i < |w.callers| && w.callers[i].phase.Saving?;
      assert Owns(w.callers[i]);
    }
  }

  // ----- what a failure of fn leaves behind ------------------------------------------------------------------

  /** Caller i's run has failed indeterminately: the row is in progress until i marks it, and no longer owned by
      anybody once it has, or has died before. */
  ghost predicate Lost(w: World, i: nat, hash: nat) {
    && Guarded(w) && i < |w.callers|
    && w.row.KeyRow? && w.row.requestHash == hash
    && match w.callers[i].phase
       case Marking => w.callers[i].requestHash == hash && w.row.status == InProgress
       case Done(answer) => answer == Threw && w.row.status == FailedIndeterminate && !Owned(w)
       case Gone => w.row.status == InProgress && !Owned(w)
       case _ => false
  }

  lemma StepLost(w: World, i: nat, hash: nat, step: Step)
    requires Lost(w, i, hash)
    ensures Lost(Next(w, step), i, hash) && Next(w, step).started == w.started
  {
    StepOneOwner(w, step);
    StepCounted(w, step);
    assert w.callers[i].phase.Marking? ==> Owns(w.callers[i]);
    hide Counted, SameResult;
  }

  lemma {:induction false} RunLost(w: World, i: nat, hash: nat, steps: seq<Step>)
    requires Lost(w, i, hash)
    ensures Lost(Run(w, steps), i, hash) && Run(w, steps).started == w.started
    decreases |steps|
  {
    if steps != [] {
      StepLost(w, i, hash, steps[0]);
      hide Lost, Next;
      RunLost(Next(w, steps[0]), i, hash, steps[1..]);
    }
  }

  /** When fn fails in a way that may have gone through, nothing ever runs under the key again, whatever the
      callers do; and once the caller has marked the row, it stays marked. */
  lemma IndeterminateIsFinal(w: World, i: nat, steps: seq<Step>)
    requires Guarded(w) && IsRunning(w, i)
    ensures var failed := Next(w, Step(i, FnThrows(true)));
            var t := Run(failed, steps);
            && t.started == w.started && !t.row.Absent? && i < |t.callers|
            && (t.callers[i].phase.Done? ==>
                  t.row == KeyRow(w.callers[i].requestHash, FailedIndeterminate) && t.callers[i].phase.answer == Threw)
            && Next(failed, Step(i, Proceed)).callers[i].phase == Done(Threw)
  {
    var failed := Next(w, Step(i, FnThrows(true)));
    StepOneOwner(w, Step(i, FnThrows(true)));
    StepCounted(w, Step(i, FnThrows(true)));
    assert Owns(w.callers[i]);
    hide Counted, SameResult;
    RunLost(failed, i, w.callers[i].requestHash, steps);
    hide Run, Guarded;
  }

  /** When it fails plainly the key is given up: the row is gone, and fn can run again if and only if a caller is
      still to come. */
  lemma PlainFailureFreesTheKey(w: World, i: nat)
    requires Guarded(w) && IsRunning(w, i)
    ensures var t := Run(w, [Step(i, FnThrows(false)), Step(i, Proceed)]);
            && t.row.Absent? && t.started == w.started && i < |t.callers| && t.callers[i].phase == Done(Threw)
            && ((exists steps :: Run(t, steps).started > t.started)
                <==> exists j :: 0 <= j < |t.callers| && t.callers[j].phase.Inserting?)
  {
    var steps := [Step(i, FnThrows(false)), Step(i, Proceed)];
    RunGuarded(w, steps);
    TwoMore(w, steps[0], steps[1]);
    CanStartIff(Run(w, steps));
    hide Guarded;
  }

  /** What a caller that finds a row is told: key reuse for another request, and for its own what the row says. */
  lemma AnsweredByTheRow(w: World, i: nat)
    requires i < |w.callers| && w.callers[i].phase.Inserting? && w.row.KeyRow?
    ensures var t := Run(w, [Step(i, Proceed), Step(i, Proceed)]);
            var own := w.row.requestHash == w.callers[i].requestHash;
            && t.row == w.row && i < |t.callers| && t.callers[i].phase.Done?
            && var answer := t.callers[i].phase.answer;
               && (answer == KeyReuse <==> !own)
               && (answer == StillInProgress <==> own && w.row.status == InProgress)
               && (answer == Indeterminate <==> own && w.row.status == FailedIndeterminate)
               && forall response ::
                    answer == Returned(response) <==> own && w.row.status == Completed(response)
  {
    TwoMore(w, Step(i, Proceed), Step(i, Proceed));
  }

  /** A caller that comes to read, whatever has become of the row meanwhile: with the row gone it is told key reuse. */
  lemma AnsweredAsRead(w: World, i: nat)
    requires i < |w.callers| && w.callers[i].phase.Reading?
    ensures var t := Next(w, Step(i, Proceed));
            var own := w.row.KeyRow? && w.row.requestHash == w.callers[i].requestHash;
            && t == w.(callers := t.callers) && |t.callers| == |w.callers| && t.callers[i].phase.Done?
            && (forall j :: 0 <= j < |w.callers| && j != i ==> t.callers[j] == w.callers[j])
            && var answer := t.callers[i].phase.answer;
               && (answer == KeyReuse <==> !own)
               && (answer == StillInProgress <==> own && w.row.status == InProgress)
               && (answer == Indeterminate <==> own && w.row.status == FailedIndeterminate)
               && forall response ::
                    answer == Returned(response) <==> own && w.row.status == Completed(response)
  {}

  // ----- whether a result given out stands -----------------------------------------------------------------

  predicate NewlyGiven(w: World, t: World, d: nat, response: Response) {
    HasResult(t, d) && !HasResult(w, d) && t.callers[d].phase.answer.response == response
  }

  /** Caller i is about to return or to save a result, or to read one, other than this. */
  predicate Brings(w: World, i: nat, response: Response)
    requires i < |w.callers|
  {
    var c := w.callers[i];
    || c.phase.Running?
    || (c.phase.Saving? && c.phase.response != response)
    || (&& (c.phase.Inserting? || c.phase.Reading?)
        && w.row.KeyRow? && w.row.requestHash == c.requestHash
        && w.row.status.Completed? && w.row.status.response != response)
  }

  /** Some other result can come of a run in progress, of the record, or of another run. */
  predicate AnotherInSight(w: World, response: Response) {
    Open(w) || exists i :: 0 <= i < |w.callers| && Brings(w, i, response)
  }

  /** Nobody can be given anything but this response any more. */
  ghost predicate Standing(w: World, response: Response) {
    Guarded(w) && !AnotherInSight(w, response)
  }

  lemma StepStanding(w: World, step: Step, response: Response)
    requires Standing(w, response)
    ensures var t := Next(w, step);
            && Standing(t, response)
            && forall d: nat, other :: NewlyGiven(w, t, d, other) ==> other == response
  {
    StepOneOwner(w, step);
    StepCounted(w, step);
    StepStaysShut(w, step);
    StepBringsNothing(w, step, response);
    hide Guarded, Open, Next;
  }

  lemma StepBringsNothing(w: World, step: Step, response: Response)
    requires OneOwner(w) && !AnotherInSight(w, response)
    ensures var t := Next(w, step);
            && (forall i :: 0 <= i < |t.callers| ==> !Brings(t, i, response))
            && forall d: nat, other :: NewlyGiven(w, t, d, other) ==> other == response
  {
    var t := Next(w, step);
    if step.i < |w.callers| && t != w {
      var i := step.i;
      assert !Brings(w, i, response);
      assert w.callers[i].phase.Inserting? ==> w.row.KeyRow?;
      assert Owns(w.callers[i]) ==> OwnRow(w.row, w.callers[i]);
      forall j | 0 <= j < |t.callers| ensures !Brings(t, j, response) {
        assert !Brings(w, j, response);
        if j != i {
          assert t.callers[j] == w.callers[j];
          assert Owns(w.callers[i]) && Owns(w.callers[j]) ==> i == j;
        }
      }
    }
  }

  lemma {:induction false} RunStanding(w: World, steps: seq<Step>, response: Response)
    requires Standing(w, response)
    ensures forall d: nat, other :: NewlyGiven(w, Run(w, steps), d, other) ==> other == response
    decreases |steps|
  {
    if steps != [] {
      var next := Next(w, steps[0]);
      StepStanding(w, steps[0], response);
      RunStanding(next, steps[1..], response);
      hide Standing, Next;
      forall d: nat, other | NewlyGiven(w, Run(w, steps), d, other) ensures other == response {
        if HasResult(next, d) {
          StaysAnswered(next, steps[1..], d);
          assert NewlyGiven(w, next, d, other);
        } else {
          assert NewlyGiven(next, Run(next, steps[1..]), d, other);
        }
      }
    }
  }

  lemma {:induction false} StaysAnswered(w: World, steps: seq<Step>, d: nat)
    requires HasResult(w, d)
    ensures HasResult(Run(w, steps), d) && Run(w, steps).callers[d] == w.callers[d]
    decreases |steps|
  {
    if steps != [] {
      StaysAnswered(Next(w, steps[0]), steps[1..], d);
    }
  }

  /** The steps by which a caller that finds the key free runs fn and has its result saved. */
  function RunToEnd(c: nat, response: Response): seq<Step> {
    [Step(c, Proceed), Step(c, FnReturns(response)), Step(c, Proceed)]
  }

  lemma RunsToEnd(w: World, c: nat, response: Response)
    requires c < |w.callers| && w.callers[c].phase.Inserting? && w.row.Absent?
    ensures var t := Run(w, RunToEnd(c, response));
            HasResult(t, c) && t.callers[c].phase.answer.response == response
  {
    var steps := RunToEnd(c, response);
    var w1 := Next(w, steps[0]);
    var w2 := Next(w1, steps[1]);
    assert Run(w, steps) == Run(w1, steps[1..]) == Run(w2, steps[1..][1..]);
    assert steps[1..][1..] == [steps[2]] && [steps[2]][1..] == [];
    assert Run(w2, [steps[2]]) == Run(Next(w2, steps[2]), []);
  }

  lemma OpenGivesAnother(w: World, response: Response) returns (steps: seq<Step>, d: nat)
    requires Open(w)
    ensures NewlyGiven(w, Run(w, steps), d, response)
  {
    hide Next, LetGo, RunToEnd;
    d :| d < |w.callers| && w.callers[d].phase.Inserting?;
    var free: seq<Step> := [];
    if w.row.KeyRow? {
      var i: nat :| i < |w.callers| && Owns(w.callers[i]) && !w.callers[i].phase.Marking?;
      free := LetGo(w, i);
      LetGoFrees(w, i);
    }
    var t := Run(w, free);
    RunAppend(w, free, RunToEnd(d, response));
    RunsToEnd(t, d, response);
    steps := free + RunToEnd(d, response);
  }

  lemma TwoMore(w: World, a: Step, b: Step)
    ensures Run(w, [a]) == Next(w, a) && Run(w, [a, b]) == Next(Next(w, a), b)
  {
    hide Next;
    assert [a][1..] == [] && [a, b][1..] == [b] && [b][1..] == [];
    assert Run(Next(w, a), [b]) == Run(Next(Next(w, a), b), []);
  }

  /** The caller that brings another result gets it, or gives it. */
  lemma BringsAnother(w: World, i: nat, response: Response) returns (steps: seq<Step>)
    requires i < |w.callers| && Brings(w, i, response)
    ensures HasResult(Run(w, steps), i) && !HasResult(w, i)
    ensures Run(w, steps).callers[i].phase.answer.response != response
  {
    var go := Step(i, Proceed);
    TwoMore(w, Step(i, FnReturns(response + 1)), go);
    TwoMore(w, go, go);
    steps := if w.callers[i].phase.Running? then [Step(i, FnReturns(response + 1)), go]
             else if w.callers[i].phase.Inserting? then [go, go] else [go];
    hide Run;
  }

  /** From any reachable state somebody can yet be given another result than this one if and only if one is in
      sight: the key is open, or a run is in progress, or another result is being saved, or is on record with a
      caller of the same request still to read it. */
  lemma AnotherGivenIff(w: World, response: Response)
    requires Guarded(w)
    ensures (exists steps, d: nat, other :: NewlyGiven(w, Run(w, steps), d, other) && other != response)
            <==> AnotherInSight(w, response)
  {
    hide Run, Next, Counted;
    if Open(w) {
      var steps, d := OpenGivesAnother(w, response + 1);
    } else if i: nat :| i < |w.callers| && Brings(w, i, response) {
      var steps := BringsAnother(w, i, response);
      assert NewlyGiven(w, Run(w, steps), i, Run(w, steps).callers[i].phase.answer.response);
    } else {
      forall steps, d: nat, other | NewlyGiven(w, Run(w, steps), d, other) ensures other == response {
        RunStanding(w, steps, response);
      }
    }
  }

  /** So a result a caller has been given can be contradicted by a later one: while it is on record, if and only if
      the key is open again, its owner, not told that the save went through, being about to delete the row (while
      no answer is lost this never happens); once the row is gone, if and only if a caller is still to come. */
  lemma ContradictedIff(w: World, c: nat)
    requires Guarded(w) && HasResult(w, c)
    ensures var response := w.callers[c].phase.answer.response;
            var contradicted := exists steps, d: nat, other ::
                                  NewlyGiven(w, Run(w, steps), d, other) && other != response;
            && (contradicted <==> AnotherInSight(w, response))
            && (w.row == KeyRow(w.callers[c].requestHash, Completed(response)) ==>
                  (contradicted <==> Open(w)) && (contradicted ==> w.lost > 0))
            && (w.row.Absent? ==> (contradicted <==> exists i :: 0 <= i < |w.callers| && w.callers[i].phase.Inserting?))
  {
    var response := w.callers[c].phase.answer.response;
    AnotherGivenIff(w, response);
    hide Run, Next, Counted, NewlyGiven;
    if i: nat :| i < |w.callers| && Brings(w, i, response) {
      if Owns(w.callers[i]) {
        assert OwnRow(w.row, w.callers[i]);
      }
    }
  }

  /** And it can come to that: the first caller's result is saved, it is not told, the second one is given that
      result, and a third can still be given another. */
  lemma LostAnswerGivesTwoResults(hash: nat, response: Response)
    ensures var w := Run(Fresh([hash, hash, hash]), LoseAnswer(response));
            && HasResult(w, 1) && w.callers[1].phase.answer.response == response
            && exists steps, d: nat, other :: NewlyGiven(w, Run(w, steps), d, other) && other != response
  {
    var w0 := Fresh([hash, hash, hash]);
    var steps := LoseAnswer(response);
    FreshGuarded([hash, hash, hash]);
    RunGuarded(w0, steps);
    var w2 := Next(Next(w0, steps[0]), steps[1]);
    assert Run(w0, steps) == Run(w2, steps[1..][1..]);
    assert steps[1..][1..] == [steps[2], steps[3], steps[4]];
    var w3 := Next(w2, steps[2]);
    assert Run(w2, [steps[2], steps[3], steps[4]]) == Run(w3, [steps[3], steps[4]]) by {
      assert [steps[2], steps[3], steps[4]][1..] == [steps[3], steps[4]];
    }
    assert [steps[3], steps[4]][1..] == [steps[4]] && [steps[4]][1..] == [];
    var w := Next(Next(w3, steps[3]), steps[4]);
    assert Run(w3, [steps[3], steps[4]]) == Run(Next(w3, steps[3]), [steps[4]]) == Run(w, []) == w;
    assert w.callers[2].phase.Inserting? && Owns(w.callers[0]) && Open(w);
    ContradictedIff(w, 1);
  }

  function LoseAnswer(response: Response): seq<Step> {
    [Step(0, Proceed), Step(0, FnReturns(response)), Step(0, AnswerLost), Step(1, Proceed), Step(1, Proceed)]
  }
}
