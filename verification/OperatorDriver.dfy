/**
  Operator.Check and the exchange it drives: PD sends the first unfinished step, the region
  carries it out and reports back.
*/
module OperatorDriver {
  import opened Options
  import opened OperatorSteps

  /** A safe step that is finished already changes nothing. */
  lemma FinishedIsNoop(p: Placement, step: Step)
    requires Allowed(p, step) && IsFinish(step, p)
    ensures Apply(p, step) == p
  {
  }

  /** What is left of a program is safe from here, and leads to the same end. */
  ghost predicate Ready(p: Placement, steps: seq<Step>, c: nat, lo: nat, hi: nat, end: Placement) {
    c <= |steps| && Runs(p, steps[c..], lo, hi) && Exec(p, steps[c..]) == end
  }

  /** Ready for the current step, or done with it and ready for the next. */
  ghost predicate OnTrack(p: Placement, steps: seq<Step>, c: nat, lo: nat, hi: nat, end: Placement) {
    || Ready(p, steps, c, lo, hi, end)
    || (c < |steps| && IsFinish(steps[c], p) && Ready(p, steps, c + 1, lo, hi, end))
  }

  lemma NextReady(p: Placement, steps: seq<Step>, c: nat, lo: nat, hi: nat, end: Placement)
    requires c < |steps| && Ready(p, steps, c, lo, hi, end)
    ensures Allowed(p, steps[c]) && Ready(Apply(p, steps[c]), steps, c + 1, lo, hi, end)
  {
    assert steps[c..][0] == steps[c] && steps[c..][1..] == steps[c + 1..];
  }

  /** Skipping finished steps loses nothing. */
  lemma {:induction false} SkipFinished(p: Placement, steps: seq<Step>, c: nat, d: nat, lo: nat, hi: nat,
                                        end: Placement)
    requires OnTrack(p, steps, c, lo, hi, end) && c <= d <= |steps|
    requires forall n :: c <= n < d ==> IsFinish(steps[n], p)
    ensures OnTrack(p, steps, d, lo, hi, end)
    decreases d - c
  {
    if c < d {
      if Ready(p, steps, c, lo, hi, end) {
        NextReady(p, steps, c, lo, hi, end);
        FinishedIsNoop(p, steps[c]);
      }
      SkipFinished(p, steps, c + 1, d, lo, hi, end);
    }
  }

  class Operator {
    const steps: seq<Step>
    var currentStep: nat

    constructor (steps: seq<Step>)
      ensures this.steps == steps && currentStep == 0
    {
      this.steps, currentStep := steps, 0;
    }

    /** Check: the first step from the current one on that is not finished, whatever the region looks like. */
    method Check(p: Placement) returns (step: Option<Step>)
      modifies this
      ensures old(currentStep) <= currentStep && (currentStep <= |steps| || currentStep == old(currentStep))
      ensures forall n :: old(currentStep) <= n < currentStep && n < |steps| ==> IsFinish(steps[n], p)
      ensures match step
              case None => currentStep >= |steps|
              case Some(s) => currentStep < |steps| && s == steps[currentStep] && !IsFinish(s, p)
    {
      while currentStep < |steps|
        invariant old(currentStep) <= currentStep && (currentStep <= |steps| || currentStep == old(currentStep))
        invariant forall n :: old(currentStep) <= n < currentStep && n < |steps| ==> IsFinish(steps[n], p)
      {
        if IsFinish(steps[currentStep], p) {
          currentStep := currentStep + 1;
        } else {
          return Some(steps[currentStep]);
        }
      }
      return None;
    }

    /** The whole exchange: a safe program is sent step by step, every step in a region where it is safe, to its end. */
    method Drive(start: Placement, ghost lo: nat, ghost hi: nat) returns (p: Placement, sent: seq<Step>)
      requires currentStep == 0 && Runs(start, steps, lo, hi)
      modifies this
      ensures p == Exec(start, steps) && currentStep == |steps|
      ensures Runs(start, sent, lo, hi) && Exec(start, sent) == p
    {
      ghost var end := Exec(start, steps);
      assert steps[0..] == steps;
      p, sent := start, [];
      ghost var finished := false;
      while true
        invariant finished ==> currentStep < |steps| && IsFinish(steps[currentStep], p)
        invariant currentStep <= |steps| && OnTrack(p, steps, currentStep, lo, hi, end)
        invariant lo <= |Voters(p)| && |Holders(p)| <= hi
        invariant Runs(start, sent, lo, hi) && Exec(start, sent) == p
        decreases |steps| - currentStep, !finished
      {
        ghost var was := currentStep;
        var step := Check(p);
        SkipFinished(p, steps, was, currentStep, lo, hi, end);
        if step.None? {
          assert steps[|steps|..] == [];
          return;
        }
        NextReady(p, steps, currentStep, lo, hi, end);
        AllowedFinishes(p, step.value);
        SentOne(start, sent, step.value, lo, hi);
        sent := sent + [step.value];
        p := Apply(p, step.value);
        finished := true;
      }
    }
  }

  lemma SentOne(start: Placement, sent: seq<Step>, step: Step, lo: nat, hi: nat)
    requires Runs(start, sent, lo, hi) && Allowed(Exec(start, sent), step)
    requires var p := Apply(Exec(start, sent), step); lo <= |Voters(p)| && |Holders(p)| <= hi
    requires lo <= |Voters(Exec(start, sent))| && |Holders(Exec(start, sent))| <= hi
    ensures Runs(start, sent + [step], lo, hi) && Exec(start, sent + [step]) == Apply(Exec(start, sent), step)
  {
    RunsConcat(start, sent, [step], lo, hi);
    ExecConcat(start, sent, [step]);
    assert [step][1..] == [];
  }
}
