/**
 * The onboarding progress bar: steps 1..totalSteps, each completed, active
 * or pending relative to the current step, with a label under each and a
 * connector between neighbours.
 */
module StepIndicator {
  import opened Options
  import opened JsMath
  import opened JsNumber

  datatype Status = Completed | Active | Pending

  /** `Array.from({ length: totalSteps }, (_, i) => i + 1)`; a length below 1 gives no steps. */
  function Steps(total: int): (r: seq<int>)
    ensures |r| == if total <= 0 then 0 else total
    ensures forall i :: 0 <= i < |r| ==> r[i] == i + 1
  {
    if total <= 0 then [] else seq(total, i => i + 1)
  }

  /** Steps are listed in increasing order, each of 1..totalSteps exactly once. */
  lemma StepsIncreasing(total: int)
    ensures forall i, j :: 0 <= i < j < |Steps(total)| ==> Steps(total)[i] < Steps(total)[j]
    ensures forall k :: 1 <= k <= total ==> k in Steps(total)
  {
    var r := Steps(total);
    forall k | 1 <= k <= total ensures k in r {
      assert r[k - 1] == k;
    }
  }

  /** Before the current step, completed; equal to it, active; after it (or a NaN current step), pending. */
  function StepStatus(step: int, current: Number): (r: Status)
    ensures current.NaN? ==> r == Pending
    ensures current.Num? ==>
      (r == Completed <==> step < current.value) && (r == Active <==> step == current.value) &&
      (r == Pending <==> step > current.value)
  {
    if Less(Num(step), current) then Completed
    else if Num(step) == current then Active
    else Pending
  }

  /** The status of every step, in step order. */
  function Statuses(total: int, current: Number): (r: seq<Status>)
    ensures |r| == |Steps(total)|
    ensures forall i :: 0 <= i < |r| ==> r[i] == StepStatus(Steps(total)[i], current)
  {
    seq(|Steps(total)|, i requires 0 <= i < |Steps(total)| => StepStatus(Steps(total)[i], current))
  }

  /** The statuses a step number receives, as a relation on integers. */
  lemma StatusMeaning(step: int, current: int)
    ensures StepStatus(step, Num(current)) == Completed <==> step < current
    ensures StepStatus(step, Num(current)) == Active <==> step == current
    ensures StepStatus(step, Num(current)) == Pending <==> step > current
  {
  }

  /** A NaN current step leaves every step pending. */
  lemma NaNStepAllPending(total: int)
    ensures forall i :: 0 <= i < |Statuses(total, NaN)| ==> Statuses(total, NaN)[i] == Pending
  {
  }

  /** The statuses of steps 1..n. */
  function StatusesUpTo(n: nat, current: int): seq<Status> {
    seq(n, i => StepStatus(i + 1, Num(current)))
  }

  /** Among steps 1..n, the completed and active ones counted for an integral current step. */
  lemma {:induction false} CountUpTo(n: nat, current: int)
    ensures multiset(StatusesUpTo(n, current))[Completed] == Max(0, Min(n, current - 1))
    ensures multiset(StatusesUpTo(n, current))[Active] == if 1 <= current <= n then 1 else 0
  {
    if n > 0 {
      CountUpTo(n - 1, current);
      assert StatusesUpTo(n, current) == StatusesUpTo(n - 1, current) + [StepStatus(n, Num(current))];
    }
  }

  /**
   * With the current step among 1..totalSteps, exactly one step is active
   * and exactly currentStep - 1 steps are completed.
   */
  lemma OneActiveStep(total: int, current: int)
    requires 1 <= current <= total
    ensures multiset(Statuses(total, Num(current)))[Active] == 1
    ensures multiset(Statuses(total, Num(current)))[Completed] == current - 1
  {
    CountUpTo(total, current);
    assert Statuses(total, Num(current)) == StatusesUpTo(total, current);
  }

  /** A step's label is highlighted iff the step is not after the current one. */
  function LabelHighlighted(step: int, current: Number): (b: bool)
    ensures b <==> StepStatus(step, current) != Pending
  {
    AtMost(Num(step), current)
  }

  /**
   * The connectors after steps 1..totalSteps-1, `true` for the success
   * colour: there is one fewer connector than steps.
   */
  function Connectors(total: int, current: Number): (r: seq<bool>)
    ensures |r| == if total <= 1 then 0 else total - 1
    ensures forall i :: 0 <= i < |r| ==> (r[i] <==> StepStatus(i + 1, current) == Completed)
  {
    var steps := Steps(total);
    seq(if total <= 1 then 0 else total - 1,
        i requires 0 <= i < (if total <= 1 then 0 else total - 1) => Less(Num(steps[i]), current))
  }

  /** The labels used when none are given. */
  const DefaultLabels: seq<string> := ["Personal Details", "Inter Details", "Scholarship Info"]

  /**
   * `stepLabels[index]`: the given labels (any array, even an empty one,
   * is used), else the defaults; `None` for an index past the end.
   */
  function StepLabel(labels: Option<seq<string>>, index: nat): (r: Option<string>)
    ensures labels.None? && index < 3 ==> r == Some(DefaultLabels[index])
    ensures labels.None? && index >= 3 ==> r.None?
    ensures labels.Some? ==> (r.Some? <==> index < |labels.value|)
    ensures labels.Some? && index < |labels.value| ==> r.value == labels.value[index]
  {
    var stepLabels := labels.GetOr(DefaultLabels);
    if index < |stepLabels| then Some(stepLabels[index]) else None
  }

  /** The onboarding screen passes three steps and no labels, so each step shows its default label. */
  lemma OnboardingLabels()
    ensures StepLabel(None, 0) == Some("Personal Details")
    ensures StepLabel(None, 1) == Some("Inter Details")
    ensures StepLabel(None, 2) == Some("Scholarship Info")
  {
  }
}
