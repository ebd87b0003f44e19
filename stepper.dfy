/** The steppers (src/components/ui/Stepper.tsx).  `Stepper` classifies each
    step against the 1-based `currentStep`; both orientations apply the same
    rules.  `ProgressSteps` draws `total` numbered dots the same way. */
module Stepper {
  import opened Wrappers
  import opened ListLayout

  datatype Status = Completed | Current | Upcoming

  /** The status of the step at 0-based `index`. */
  function StatusOf(index: int, currentStep: int): (r: Status)
    ensures r == Completed <==> index + 1 < currentStep
    ensures r == Current <==> index + 1 == currentStep
    ensures r == Upcoming <==> index + 1 > currentStep
  {
    if index + 1 < currentStep then Completed
    else if index + 1 == currentStep then Current
    else Upcoming
  }

  /** `isClickable` */
  predicate IsClickable(index: int, currentStep: int, hasHandler: bool) {
    hasHandler && (StatusOf(index, currentStep) == Completed || StatusOf(index, currentStep) == Current)
  }

  /** The step number a click on the step's button reports to `onStepClick`, if any. */
  function Click(index: int, currentStep: int, hasHandler: bool): (r: Option<int>)
    ensures r.Some? <==> hasHandler && index + 1 <= currentStep
    ensures r.Some? ==> r.value == index + 1
  {
    if IsClickable(index, currentStep, hasHandler) then Some(index + 1) else None
  }

  /** What one step renders: its status, whether its button is enabled, and
      its connector line (absent after the last step, else filled or not). */
  datatype StepView = StepView(status: Status, clickable: bool, connector: Option<bool>)

  function ViewOf(index: int, count: int, currentStep: int, hasHandler: bool): (r: StepView)
    ensures r.status == StatusOf(index, currentStep)
    ensures r.clickable <==> hasHandler && index + 1 <= currentStep
    ensures r.connector.None? <==> index >= count - 1
    ensures r.connector.Some? ==> (r.connector.value <==> index + 1 < currentStep)
  {
    StepView(StatusOf(index, currentStep), IsClickable(index, currentStep, hasHandler),
             if HasConnector(index, count) then Some(StatusOf(index, currentStep) == Completed) else None)
  }

  /** The steps as rendered: one view per step, each with the step's status, a
      button enabled exactly for a non-future step when a handler exists, and a
      connector after every step but the last, filled exactly when the step is completed. */
  function StepViews(count: nat, currentStep: int, hasHandler: bool): (r: seq<StepView>)
    ensures |r| == count
    ensures forall i :: 0 <= i < count ==> r[i].status == StatusOf(i, currentStep)
    ensures forall i :: 0 <= i < count ==> (r[i].clickable <==> hasHandler && i + 1 <= currentStep)
    ensures forall i :: 0 <= i < count ==> (r[i].connector.None? <==> i == count - 1)
    ensures forall i :: 0 <= i < count && r[i].connector.Some? ==>
                        (r[i].connector.value <==> i + 1 < currentStep)
  {
    seq(count, i => ViewOf(i, count, currentStep, hasHandler))
  }

  function Statuses(views: seq<StepView>): (r: seq<Status>)
    ensures |r| == |views| && forall i :: 0 <= i < |r| ==> r[i] == views[i].status
  {
    seq(|views|, i requires 0 <= i < |views| => views[i].status)
  }

  /** The statuses of the first `n` steps. */
  function StatusSeq(n: nat, currentStep: int): (r: seq<Status>)
    ensures |r| == n && forall i :: 0 <= i < n ==> r[i] == StatusOf(i, currentStep)
  {
    seq(n, i => StatusOf(i, currentStep))
  }

  function Clamp(x: int, lo: int, hi: int): int
    requires lo <= hi
  {
    if x < lo then lo else if x > hi then hi else x
  }

  lemma {:induction false} StatusSeqCounts(n: nat, currentStep: int)
    ensures multiset(StatusSeq(n, currentStep))[Completed] == Clamp(currentStep - 1, 0, n)
    ensures multiset(StatusSeq(n, currentStep))[Current] == (if 1 <= currentStep <= n then 1 else 0)
  {
    if n > 0 {
      StatusSeqCounts(n - 1, currentStep);
      assert StatusSeq(n, currentStep) == StatusSeq(n - 1, currentStep) + [StatusOf(n - 1, currentStep)];
    }
  }

  /** The completed steps number `currentStep - 1` (as far as there are steps),
      and exactly one step is current when `currentStep` names a step, none otherwise. */
  lemma StatusCounts(count: nat, currentStep: int, hasHandler: bool)
    ensures var s := Statuses(StepViews(count, currentStep, hasHandler));
            && multiset(s)[Completed] == Clamp(currentStep - 1, 0, count)
            && multiset(s)[Current] == (if 1 <= currentStep <= count then 1 else 0)
  {
    assert Statuses(StepViews(count, currentStep, hasHandler)) == StatusSeq(count, currentStep);
    StatusSeqCounts(count, currentStep);
  }

  /** The enabled buttons and the click handler agree: a click on an enabled
      button reports that step's number, a click on a disabled one reports
      nothing, and no future step is ever enabled. */
  lemma FutureNeverClickable(count: nat, currentStep: int, hasHandler: bool)
    ensures forall i :: 0 <= i < count && i + 1 > currentStep ==>
                        !StepViews(count, currentStep, hasHandler)[i].clickable
    ensures forall i :: 0 <= i < count ==>
                        (StepViews(count, currentStep, hasHandler)[i].clickable <==>
                         Click(i, currentStep, hasHandler).Some?)
    ensures forall i :: 0 <= i < count && StepViews(count, currentStep, hasHandler)[i].clickable ==>
                        Click(i, currentStep, hasHandler) == Some(i + 1)
  {
  }

  /** One dot of `ProgressSteps`. */
  datatype Dot = Dot(number: int, checked: bool, current: bool, whiteText: bool,
                     caption: Option<string>, connector: Option<bool>)

  /** `labels && labels[i]`: the label exists and is not empty. */
  function LabelAt(labels: Option<seq<string>>, i: int): (r: Option<string>)
    ensures r.Some? <==> labels.Some? && 0 <= i < |labels.value| && labels.value[i] != ""
    ensures r.Some? ==> r.value == labels.value[i]
  {
    if labels.Some? && 0 <= i < |labels.value| && labels.value[i] != "" then Some(labels.value[i]) else None
  }

  function DotAt(i: int, total: int, current: int, labels: Option<seq<string>>): Dot {
    Dot(i + 1, i + 1 < current, i + 1 == current, i + 1 <= current, LabelAt(labels, i),
        if HasConnector(i, total) then Some(i + 1 < current) else None)
  }

  /** `Array.from({ length: total }, ...)`: a negative length gives no dots. */
  function Dots(total: int, current: int, labels: Option<seq<string>>): (r: seq<Dot>)
    ensures |r| == if total < 0 then 0 else total
    ensures forall i :: 0 <= i < |r| ==> r[i] == DotAt(i, total, current, labels)
  {
    if total <= 0 then [] else seq(total, i => DotAt(i, total, current, labels))
  }

  /** The dots follow the stepper's classification: dot `i` is checked exactly
      when step `i` is completed, marked current exactly when it is current, has
      white text unless upcoming, is numbered `i + 1`, and has a connector, filled
      exactly when completed, unless it is the last. */
  lemma DotsFollowStepper(total: int, current: int, labels: Option<seq<string>>)
    ensures forall i :: 0 <= i < |Dots(total, current, labels)| ==>
      var d := Dots(total, current, labels)[i];
      && d.number == i + 1
      && (d.checked <==> StatusOf(i, current) == Completed)
      && (d.current <==> StatusOf(i, current) == Current)
      && (d.whiteText <==> StatusOf(i, current) != Upcoming)
      && (d.connector.None? <==> i == total - 1)
      && (d.connector.Some? ==> (d.connector.value <==> StatusOf(i, current) == Completed))
  {
  }
}
