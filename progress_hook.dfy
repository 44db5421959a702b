/**
 * The progress hook the pipeline calls as it works. It counts processing
 * stages from changes of the step name and maps the completion of the
 * current stage onto the whole run, scaled back by one percentage point so
 * that ELAN never sees 100% before the output file exists.
 */
module ProgressHook {
  import opened Wrappers
  import opened Text

  /** A number of stages: never zero, since the report divides by it. */
  type StageCount = n: nat | n > 0 witness 1

  /** Number of stages of a run: four for speaker diarization, one otherwise. */
  function StagesFor(mode: string): (n: StageCount)
    ensures n == 4 || n == 1
    ensures n == 4 <==> mode == "Diarization"
  {
    if mode == "Diarization" then 4 else 1
  }

  function MinReal(a: real, b: real): real { if a <= b then a else b }
  function MaxReal(a: real, b: real): real { if a >= b then a else b }

  /**
   * The fraction reported at `stage` of `numStages` when `fraction` of the
   * current stage is done:
   * max(0, min(1, fraction) / numStages + (stage - 1) / numStages - 0.01).
   */
  function Progress(stage: int, numStages: StageCount, fraction: real): (p: real)
    ensures p >= 0.0
  {
    var n := numStages as real;
    MaxReal(0.0, MinReal(1.0, fraction) / n + (stage - 1) as real / n - 0.01)
  }

  /** `a / n` grows with `a` for a positive `n`. */
  lemma DivideMonotone(a: real, b: real, n: real)
    requires a <= b && n > 0.0
    ensures a / n <= b / n
  {
    assert b / n - a / n == (b - a) / n;
  }

  /** While a run has not passed its last stage, the report stays at or below 0.99. */
  lemma ProgressBelowDone(stage: int, numStages: StageCount, fraction: real)
    requires stage <= numStages
    ensures Progress(stage, numStages, fraction) <= 0.99
  {
    var n := numStages as real;
    DivideMonotone(MinReal(1.0, fraction), 1.0, n);
    DivideMonotone((stage - 1) as real, n - 1.0, n);
    assert 1.0 / n + (n - 1.0) / n == 1.0;
  }

  /** Within a stage the report does not go down as more of the stage is done. */
  lemma ProgressMonotone(stage: int, numStages: StageCount, f1: real, f2: real)
    requires f1 <= f2
    ensures Progress(stage, numStages, f1) <= Progress(stage, numStages, f2)
  {
    DivideMonotone(MinReal(1.0, f1), MinReal(1.0, f2), numStages as real);
  }

  /** For a fixed positive total, more completed items never lower the report. */
  lemma ProgressMonotoneInCompleted(stage: int, numStages: StageCount, c1: int, c2: int, total: int)
    requires 0 < total && c1 <= c2
    ensures Progress(stage, numStages, c1 as real / total as real) <= Progress(stage, numStages, c2 as real / total as real)
  {
    DivideMonotone(c1 as real, c2 as real, total as real);
    ProgressMonotone(stage, numStages, c1 as real / total as real, c2 as real / total as real);
  }

  /**
   * Moving on to the next stage never makes the report go down: anything
   * reported during one stage is at most anything reported during the next.
   */
  lemma ProgressAcrossStages(stage: int, numStages: StageCount, f1: real, f2: real)
    requires f2 >= 0.0
    ensures Progress(stage, numStages, f1) <= Progress(stage + 1, numStages, f2)
  {
    var n := numStages as real;
    DivideMonotone(MinReal(1.0, f1), 1.0, n);
    DivideMonotone(0.0, MinReal(1.0, f2), n);
    assert 1.0 / n + (stage - 1) as real / n == stage as real / n;
  }

  /** The end of one stage and the start of the next are reported alike. */
  lemma ProgressContinuous(stage: int, numStages: StageCount)
    ensures Progress(stage, numStages, 1.0) == Progress(stage + 1, numStages, 0.0)
  {
    var n := numStages as real;
    assert 1.0 / n + (stage - 1) as real / n == 0.0 / n + stage as real / n;
  }

  /** `completed / total` on two ints, with the exceptions Python raises. */
  datatype HookError = TypeError | ZeroDivisionError

  /** One `PROGRESS:` line: fraction, capitalised step name, completed and total counts. */
  datatype Report = Report(progress: real, step: string, completed: int, total: int)

  class ElanProgressHook {
    var stage: int
    /** The step seen last; None until the first call (the attribute does not exist yet). */
    var stepName: Option<string>
    const numStages: StageCount

    constructor(mode: string)
      ensures stage == 0 && stepName == None
      ensures numStages == StagesFor(mode)
    {
      stage := 0;
      stepName := None;
      numStages := StagesFor(mode);
    }

    /**
     * One call from the pipeline. A missing `completed` counts as one of one;
     * a missing `total` beside a given `completed`, or a zero `total`, makes
     * the division raise, after the stage has been counted.
     */
    method Call(name: string, total: Option<int>, completed: Option<int>) returns (r: Result<Report, HookError>)
        modifies this
      ensures stepName == Some(name)
      ensures stage == if old(stepName) == Some(name) then old(stage) else old(stage) + 1
      ensures completed.None? ==>
        r == Ok(Report(Progress(stage, numStages, 1.0), Capitalize(name), 1, 1))
      ensures completed.Some? && total.None? ==> r == Err(TypeError)
      ensures completed.Some? && total == Some(0) ==> r == Err(ZeroDivisionError)
      ensures completed.Some? && total.Some? && total.value != 0 ==>
        r == Ok(Report(Progress(stage, numStages, completed.value as real / total.value as real),
                       Capitalize(name), completed.value, total.value))
    {
      var done, all: int;
      if completed.None? {
        done, all := 1, 1;
      } else if total.None? {
        done, all := completed.value, 0;
      } else {
        done, all := completed.value, total.value;
      }
      if stepName.None? || stepName.value != name {
        stepName := Some(name);
        stage := stage + 1;
      }
      if completed.Some? && total.None? {
        return Err(TypeError);
      }
      if all == 0 {
        return Err(ZeroDivisionError);
      }
      var progress := Progress(stage, numStages, done as real / all as real);
      r := Ok(Report(progress, Capitalize(name), done, all));
    }
  }
}
