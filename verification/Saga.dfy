// internal/platform/saga/saga.go: steps run in order, and compensated in reverse when one fails or the
// context is cancelled.

module Saga {
  import opened Workflow

  /** A step acts on the outside world `W`.  Execute takes the data of the step before and returns
      new data or an error; Compensate, which may be missing, takes what Execute returned. */
  datatype Step<!W, !D> = Step(execute: (W, D) -> Attempt<W, D>, compensate: Option<(W, D) -> Undone<W>>)

  datatype Attempt<W, D> = Attempt(world: W, result: Option<D>)

  datatype Undone<W> = Undone(world: W, ok: bool)

  datatype StepStatus = Pending | Running | Completed | StepFailed | Compensated

  datatype SagaStatus = SagaPending | SagaRunning | SagaCompleted | SagaCompensating | SagaCompensated

  datatype SagaError = NoError | Broke(step: nat) | CompensationsFailed(steps: seq<nat>)

  datatype Answer = Finished | Cancelled | Failed(step: nat)

  /** A call to a step's Execute or Compensate. */
  datatype Effect<D> = Did(step: nat, data: D) | Undid(step: nat, result: D)

  datatype Progress<W, D> = Progress(world: W, data: D, results: seq<D>)

  /** Where the first `n` steps lead if they all succeed. */
  function Upto<W, D>(steps: seq<Step<W, D>>, w: W, d: D, n: nat): (r: Option<Progress<W, D>>)
    requires n <= |steps|
    ensures r.Some? ==> |r.value.results| == n
  {
    if n == 0 then Some(Progress(w, d, []))
    else
      var before := Upto(steps, w, d, n - 1);
      if before.None? then None
      else
        var a := steps[n - 1].execute(before.value.world, before.value.data);
        if a.result.None? then None
        else Some(Progress(a.world, a.result.value, before.value.results + [a.result.value]))
  }

  function Undo<W, D>(step: Step<W, D>, result: D, w: W): W {
    if step.compensate.None? then w else step.compensate.value(w, result).world
  }

  /** The world once the completed steps from the last down to `i` have been compensated. */
  function Back<W, D>(steps: seq<Step<W, D>>, results: seq<D>, w: W, i: nat): W
    requires i <= |results| <= |steps|
    decreases |results| - i
  {
    if i == |results| then w else Undo(steps[i], results[i], Back(steps, results, w, i + 1))
  }

  predicate UndoFails<W, D>(steps: seq<Step<W, D>>, results: seq<D>, w: W, i: nat)
    requires i < |results| <= |steps|
  {
    steps[i].compensate.Some? && !steps[i].compensate.value(Back(steps, results, w, i + 1), results[i]).ok
  }

  function Undos<W, D>(steps: seq<Step<W, D>>, results: seq<D>, i: nat): seq<Effect<D>>
    requires i <= |results| <= |steps|
    decreases |results| - i
  {
    if i == |results| then []
    else Undos(steps, results, i + 1) + if steps[i].compensate.Some? then [Undid(i, results[i])] else []
  }

  function FailedUndos<W, D>(steps: seq<Step<W, D>>, results: seq<D>, w: W, i: nat): seq<nat>
    requires i <= |results| <= |steps|
    decreases |results| - i
  {
    if i == |results| then []
    else FailedUndos(steps, results, w, i + 1) + if UndoFails(steps, results, w, i) then [i] else []
  }

  /** The data step `i` was given. */
  function Input<D>(d: D, results: seq<D>, i: nat): D
    requires i <= |results|
  {
    if i == 0 then d else results[i - 1]
  }

  function Dids<D>(d: D, results: seq<D>, n: nat): (r: seq<Effect<D>>)
    requires n <= |results| + 1
    ensures |r| == n
  {
    seq(n, i requires 0 <= i < n => Did(i, Input(d, results, i)))
  }

  ghost predicate UndoesStep<W, D>(steps: seq<Step<W, D>>, results: seq<D>, i: nat, e: Effect<D>) {
    e.Undid? && i <= e.step < |results| <= |steps| && steps[e.step].compensate.Some? && e.result == results[e.step]
  }

  /** Compensation runs through the completed steps in exact reverse order, skipping only those
      without a Compensate. */
  lemma {:induction false} UndosReverse<W, D>(steps: seq<Step<W, D>>, results: seq<D>, i: nat) returns (u: seq<Effect<D>>)
    requires i <= |results| <= |steps|
    ensures u == Undos(steps, results, i)
    ensures forall a :: 0 <= a < |u| ==> UndoesStep(steps, results, i, u[a])
    ensures forall a, b :: 0 <= a < b < |u| ==> u[a].step > u[b].step
    ensures forall j :: i <= j < |results| && steps[j].compensate.Some? ==> Undid(j, results[j]) in u
    decreases |results| - i
  {
    if i == |results| {
      u := [];
    } else {
      var rest := UndosReverse(steps, results, i + 1);
      var last := if steps[i].compensate.Some? then [Undid(i, results[i])] else [];
      u := rest + last;
      forall a | 0 <= a < |u| ensures UndoesStep(steps, results, i, u[a]) {
        assert a < |rest| ==> UndoesStep(steps, results, i + 1, rest[a]);
      }
      forall j | i <= j < |results| && steps[j].compensate.Some? ensures Undid(j, results[j]) in u {
        assert Undid(j, results[j]) in if j == i then last else rest;
      }
    }
  }

  lemma {:induction false} FailedUndosDescend<W, D>(steps: seq<Step<W, D>>, results: seq<D>, w: W, i: nat) returns (failed: seq<nat>)
    requires i <= |results| <= |steps|
    ensures failed == FailedUndos(steps, results, w, i) && forall a :: 0 <= a < |failed| ==> failed[a] >= i
    ensures forall a, b :: 0 <= a < b < |failed| ==> failed[a] > failed[b]
    decreases |results| - i
  {
    failed := [];
    if i < |results| {
      failed := FailedUndosDescend(steps, results, w, i + 1);
      failed := failed + if UndoFails(steps, results, w, i) then [i] else [];
    }
  }

  lemma {:induction false} FailedUndosMember<W, D>(steps: seq<Step<W, D>>, results: seq<D>, w: W, i: nat, j: nat)
    requires i <= |results| <= |steps|
    ensures j in FailedUndos(steps, results, w, i) <==> i <= j < |results| && UndoFails(steps, results, w, j)
    decreases |results| - i
  {
    if i < |results| {
      FailedUndosMember(steps, results, w, i + 1, j);
    }
  }

  /** The steps reported as failed are those whose compensation, in the world the later ones left, fails,
      in the order in which they are tried. */
  lemma FailedUndosAre<W, D>(steps: seq<Step<W, D>>, results: seq<D>, w: W) returns (failed: seq<nat>)
    requires |results| <= |steps|
    ensures failed == FailedUndos(steps, results, w, 0)
    ensures forall j: nat :: j in failed <==>
              && j < |results| && steps[j].compensate.Some?
              && !steps[j].compensate.value(Back(steps, results, w, j + 1), results[j]).ok
    ensures forall a, b :: 0 <= a < b < |failed| ==> failed[a] > failed[b]
  {
    failed := FailedUndosDescend(steps, results, w, 0);
    forall j: nat ensures j in failed <==> j < |results| && UndoFails(steps, results, w, j) {
      FailedUndosMember(steps, results, w, 0, j);
    }
  }

  /** The worlds a completed stretch of steps goes through: each step executes in the one its predecessor
      left, on its predecessor's result, the first on the data given. */
  lemma {:induction false} EachOnLast<W(!new), D(!new)>(steps: seq<Step<W, D>>, w: W, d: D, n: nat) returns (worlds: seq<W>)
    requires n <= |steps| && Upto(steps, w, d, n).Some?
    ensures var p := Upto(steps, w, d, n).value;
            && |worlds| == n + 1 && worlds[0] == w && worlds[n] == p.world && p.data == (if n == 0 then d else p.results[n - 1])
            && forall i :: 0 <= i < n ==>
                 steps[i].execute(worlds[i], if i == 0 then d else p.results[i - 1]) == Attempt(worlds[i + 1], Some(p.results[i]))
  {
    if n == 0 {
      worlds := [w];
    } else {
      worlds := EachOnLast(steps, w, d, n - 1);
      var q := Upto(steps, w, d, n - 1).value;
      worlds := worlds + [Upto(steps, w, d, n).value.world];
    }
  }

  /** The stretch is not completed exactly when some step of it, reached so, breaks. */
  lemma {:induction false} SomeStepBreaks<W(!new), D(!new)>(steps: seq<Step<W, D>>, w: W, d: D, n: nat)
    requires n <= |steps|
    ensures Upto(steps, w, d, n).None? <==>
            exists i :: 0 <= i < n && Upto(steps, w, d, i).Some?
                        && steps[i].execute(Upto(steps, w, d, i).value.world, Upto(steps, w, d, i).value.data).result.None?
  {
    if n > 0 {
      SomeStepBreaks(steps, w, d, n - 1);
      if Upto(steps, w, d, n).Some? {
        forall i | 0 <= i < n && Upto(steps, w, d, i).Some?
          ensures steps[i].execute(Upto(steps, w, d, i).value.world, Upto(steps, w, d, i).value.data).result.Some?
        {
          UptoEarlier(steps, w, d, n, i + 1);
        }
      }
    }
  }

  /** The step's compensation takes back its effect, a step without one has none, and a failing
      execution leaves the world alone. */
  ghost predicate Reversible<W(!new), D(!new)>(step: Step<W, D>) {
    forall w, d ::
      var a := step.execute(w, d);
      w == match a.result
           case None => a.world
           case Some(x) => if step.compensate.Some? then step.compensate.value(a.world, x).world else a.world
  }

  ghost predicate AllReversible<W(!new), D(!new)>(steps: seq<Step<W, D>>) {
    forall i :: 0 <= i < |steps| ==> Reversible(steps[i])
  }

  lemma {:induction false} UptoEarlier<W, D>(steps: seq<Step<W, D>>, w: W, d: D, n: nat, i: nat)
    requires i <= n <= |steps| && Upto(steps, w, d, n).Some?
    ensures Upto(steps, w, d, i).Some? && Upto(steps, w, d, i).value.results == Upto(steps, w, d, n).value.results[..i]
  {
    if i < n {
      UptoEarlier(steps, w, d, n - 1, i);
    }
  }

  /** Undoing down to step `i` leads back to where the first `i` steps had led. */
  lemma {:induction false} BackUndoes<W(!new), D(!new)>(steps: seq<Step<W, D>>, w: W, d: D, n: nat, i: nat)
    requires i <= n <= |steps| && Upto(steps, w, d, n).Some? && AllReversible(steps)
    ensures var p := Upto(steps, w, d, n).value;
            Upto(steps, w, d, i).Some? && Back(steps, p.results, p.world, i) == Upto(steps, w, d, i).value.world
    decreases n - i
  {
    if i < n {
      BackUndoes(steps, w, d, n, i + 1);
      UptoEarlier(steps, w, d, n, i + 1);
      var p, q := Upto(steps, w, d, i + 1).value, Upto(steps, w, d, i).value;
      var a := steps[i].execute(q.world, q.data);
      assert Reversible(steps[i]);
      assert Upto(steps, w, d, n).value.results[i] == p.results[i] == a.result.value;
    }
  }

  /** How one call of Execute ends. */
  datatype Report<W, D> = Report(answer: Answer, completed: nat, world: W, log: seq<Effect<D>>)

  /** The world the compensations start from: after the completed steps, and the failing one if any. */
  function Stopped<W, D>(steps: seq<Step<W, D>>, p: Progress<W, D>, answer: Answer): W
    requires |p.results| <= |steps| && (answer.Failed? ==> |p.results| < |steps|)
  {
    if answer.Failed? then steps[|p.results|].execute(p.world, p.data).world else p.world
  }

  /** The run `r` made: as far as nothing is cancelled and no step fails, then back. */
  ghost predicate Tells<W, D>(steps: seq<Step<W, D>>, cancelled: nat -> bool, w: W, d: D, r: Report<W, D>) {
    var n := r.completed;
    && n <= |steps| && Upto(steps, w, d, n).Some? && (forall i :: 0 <= i < n ==> !cancelled(i))
    && match r.answer
       case Finished => n == |steps|
       case Cancelled => n < |steps| && cancelled(n)
       case Failed(step) => step == n < |steps| && !cancelled(n) && Upto(steps, w, d, n + 1).None?
  }

  /** Every such call logs the completed steps in order, then a failing one, then the compensations;
      its world is the compensated one. */
  ghost predicate Logs<W, D>(steps: seq<Step<W, D>>, w: W, d: D, r: Report<W, D>)
    requires r.completed <= |steps| && Upto(steps, w, d, r.completed).Some? && (r.answer.Failed? ==> r.completed < |steps|)
  {
    var p := Upto(steps, w, d, r.completed).value;
    if r.answer.Finished? then r.log == Dids(d, p.results, r.completed) && r.world == p.world
    else
      && r.log == Dids(d, p.results, if r.answer.Failed? then r.completed + 1 else r.completed) + Undos(steps, p.results, 0)
      && r.world == Back(steps, p.results, Stopped(steps, p, r.answer), 0)
  }

  /** A saga that does not finish leaves the world as it found it. */
  lemma Restored<W(!new), D(!new)>(steps: seq<Step<W, D>>, cancelled: nat -> bool, w: W, d: D, r: Report<W, D>)
    requires AllReversible(steps) && Tells(steps, cancelled, w, d, r) && Logs(steps, w, d, r) && !r.answer.Finished?
    ensures r.world == w
  {
    var p := Upto(steps, w, d, r.completed).value;
    if r.answer.Failed? {
      assert Reversible(steps[r.completed]);
      assert steps[r.completed].execute(p.world, p.data).result.None?;
    }
    BackUndoes(steps, w, d, r.completed, 0);
  }

  /** There is one way a call can go. */
  lemma OneReport<W(!new), D(!new)>(steps: seq<Step<W, D>>, cancelled: nat -> bool, w: W, d: D, r: Report<W, D>, s: Report<W, D>)
    requires Tells(steps, cancelled, w, d, r) && Tells(steps, cancelled, w, d, s)
    requires Logs(steps, w, d, r) && Logs(steps, w, d, s)
    ensures r == s
  {
    if r.completed < s.completed {
      UptoEarlier(steps, w, d, s.completed, r.completed + 1);
    } else if s.completed < r.completed {
      UptoEarlier(steps, w, d, r.completed, s.completed + 1);
    }
  }

  class Saga<W(!new), D(!new)> {
    const steps: seq<Step<W, D>>
    var statuses: seq<StepStatus>
    var results: seq<Option<D>>
    var status: SagaStatus
    var data: Option<D>
    var error: SagaError

    constructor (steps: seq<Step<W, D>>)
      ensures this.steps == steps && Valid() && status == SagaPending && error == NoError
      ensures forall i :: 0 <= i < |steps| ==> statuses[i] == Pending
    {
      this.steps := steps;
      statuses := seq(|steps|, i => Pending);
      results := seq(|steps|, i => None);
      status, data, error := SagaPending, None, NoError;
    }

    ghost predicate Valid()
      reads this
    {
      |statuses| == |results| == |steps|
    }

    /** The results the completed steps have stored. */
    ghost predicate Stored(rs: seq<D>)
      requires Valid() && |rs| <= |steps|
      reads this
    {
      forall i :: 0 <= i < |rs| ==> results[i] == Some(rs[i])
    }

    method Execute(cancelled: nat -> bool, world: W, initialData: D) returns (r: Report<W, D>)
      requires Valid()
      modifies this
      ensures Valid() && Tells(steps, cancelled, world, initialData, r) && Logs(steps, world, initialData, r)
      ensures status == if r.answer.Finished? then SagaCompleted else SagaCompensated
      ensures r.answer.Finished? ==> data == Some(Upto(steps, world, initialData, |steps|).value.data) && error == old(error)
      ensures r.answer.Finished? ==> forall i :: 0 <= i < |steps| ==> statuses[i] == Completed
      ensures !r.answer.Finished? ==>
                var p := Upto(steps, world, initialData, r.completed).value;
                var failed := FailedUndos(steps, p.results, Stopped(steps, p, r.answer), 0);
                && data == Some(initialData)
                && error == (if |failed| > 0 then CompensationsFailed(failed)
                             else if r.answer.Failed? then Broke(r.completed) else old(error))
                && (forall i :: 0 <= i < r.completed ==>
                      statuses[i] == if steps[i].compensate.Some? && !UndoFails(steps, p.results, Stopped(steps, p, r.answer), i)
                                     then Compensated else Completed)
                && (forall i :: r.completed < i < |steps| ==> statuses[i] == old(statuses)[i])
                && (r.completed < |steps| ==>
                      statuses[r.completed] == if r.answer.Failed? then StepFailed else old(statuses)[r.completed])
    {
      status, data := SagaRunning, Some(initialData);
      var answer, completed, w, log, last, p := RunSteps(cancelled, world, initialData);
      if answer.Finished? {
        status, data := SagaCompleted, Some(last);
      } else {
        w, log := Compensate(completed as int - 1, p.results, w, log);
      }
      r := Report(answer, completed, w, log);
    }

    /** Execute's loop over the steps, up to its end or the first cancellation or failure. */
    method RunSteps(cancelled: nat -> bool, world: W, initialData: D)
        returns (answer: Answer, i: nat, w: W, log: seq<Effect<D>>, currentData: D, ghost p: Progress<W, D>)
      requires Valid()
      modifies this`statuses, this`results, this`error
      ensures Valid() && i <= |steps| && Upto(steps, world, initialData, i) == Some(p) && currentData == p.data
      ensures Stored(p.results)
      ensures forall j :: 0 <= j < i ==> !cancelled(j) && statuses[j] == Completed
      ensures forall j :: i < j < |steps| ==> statuses[j] == old(statuses)[j]
      ensures match answer
              case Finished => i == |steps| && log == Dids(initialData, p.results, i) && w == p.world && error == old(error)
              case Cancelled => i < |steps| && cancelled(i) && log == Dids(initialData, p.results, i) && w == p.world
                                && error == old(error) && statuses[i] == old(statuses)[i]
              case Failed(n) => n == i < |steps| && !cancelled(i) && Upto(steps, world, initialData, i + 1).None?
                                && log == Dids(initialData, p.results, i + 1) && w == Stopped(steps, p, answer)
                                && error == Broke(i) && statuses[i] == StepFailed
    {
      currentData, w, i, log := initialData, world, 0, [];
      p := Progress(world, initialData, []);
      while i < |steps|
        invariant Valid() && i <= |steps| && error == old(error)
        invariant Upto(steps, world, initialData, i) == Some(p) && w == p.world && currentData == p.data
        invariant Stored(p.results) && log == Dids(initialData, p.results, i) && currentData == Input(initialData, p.results, i)
        invariant forall j :: 0 <= j < i ==> !cancelled(j) && statuses[j] == Completed
        invariant forall j :: i <= j < |steps| ==> statuses[j] == old(statuses)[j]
      {
        if cancelled(i) {
          return Cancelled, i, w, log, currentData, p;
        }
        statuses := statuses[i := Running];
        var a := steps[i].execute(w, currentData);
        log := log + [Did(i, currentData)];
        assert log == Dids(initialData, p.results, i + 1);
        w := a.world;
        if a.result.None? {
          statuses := statuses[i := StepFailed];
          error := Broke(i);
          return Failed(i), i, w, log, currentData, p;
        }
        statuses := statuses[i := Completed];
        results := results[i := a.result];
        currentData := a.result.value;
        p := Progress(w, currentData, p.results + [currentData]);
        i := i + 1;
        assert log == Dids(initialData, p.results, i);
      }
      answer := Finished;
    }

    /** Compensates the steps that gave `rs`, last to first; a compensation that fails is noted and passed over. */
    method Compensate(last: int, ghost rs: seq<D>, world: W, logged: seq<Effect<D>>) returns (w: W, log: seq<Effect<D>>)
      requires Valid() && |rs| == last + 1 <= |steps| && Stored(rs)
      modifies this`statuses, this`status, this`error
      ensures Valid() && status == SagaCompensated
      ensures w == Back(steps, rs, world, 0) && log == logged + Undos(steps, rs, 0)
      ensures error == if |FailedUndos(steps, rs, world, 0)| > 0 then CompensationsFailed(FailedUndos(steps, rs, world, 0)) else old(error)
      ensures forall j :: 0 <= j < |rs| ==>
                statuses[j] == if steps[j].compensate.Some? && !UndoFails(steps, rs, world, j) then Compensated else old(statuses)[j]
      ensures forall j :: |rs| <= j < |steps| ==> statuses[j] == old(statuses)[j]
    {
      status := SagaCompensating;
      w, log := world, logged;
      var i, failed: seq<nat> := last, [];
      while i >= 0
        invariant Valid() && -1 <= i <= last && Stored(rs) && error == old(error)
        invariant w == Back(steps, rs, world, i + 1) && log == logged + Undos(steps, rs, i + 1)
        invariant failed == FailedUndos(steps, rs, world, i + 1)
        invariant forall j :: i < j <= last ==>
                    statuses[j] == if steps[j].compensate.Some? && !UndoFails(steps, rs, world, j) then Compensated else old(statuses)[j]
        invariant forall j :: 0 <= j < |steps| && !(i < j <= last) ==> statuses[j] == old(statuses)[j]
      {
        if steps[i].compensate.Some? {
          var u := steps[i].compensate.value(w, results[i].value);
          log := log + [Undid(i, results[i].value)];
          w := u.world;
          if !u.ok {
            failed := failed + [i];
          } else {
            statuses := statuses[i := Compensated];
          }
        }
        i := i - 1;
      }
      if |failed| > 0 {
        error := CompensationsFailed(failed);
      }
      status := SagaCompensated;
    }
  }
}
