/** The procedure schema and timeline (src/components/ui/ProcedureSchema.tsx):
    the step expander, what an expanded step shows, and the connector rules of
    both lists. */
module ProcedureSchema {
  import opened Wrappers
  import opened ListLayout
  import Disclosure

  datatype ProcedureStep = ProcedureStep(
    id: int, title: string, subtitle: Option<string>, duration: Option<string>,
    description: string, details: Option<seq<string>>, documents: Option<seq<string>>,
    warning: Option<string>, tip: Option<string>)

  /** The parts of one step's card that are rendered. */
  datatype StepView = StepView(
    chevronUp: bool, contentOpen: bool, subtitle: bool, durationBadge: bool,
    details: bool, documents: bool, warning: bool, tip: bool, connector: bool)

  /** Step `index` of `steps` under the expanded id: the chevron and the full
      height content follow the expansion, the optional parts their presence,
      and the line the position. */
  function ViewOf(steps: seq<ProcedureStep>, index: nat, expandedStep: Option<int>): (r: StepView)
    requires index < |steps|
    ensures r.chevronUp <==> expandedStep == Some(steps[index].id)
    ensures r.contentOpen == r.chevronUp
    ensures r.connector <==> index != |steps| - 1
    ensures r.subtitle <==> Present(steps[index].subtitle)
    ensures r.durationBadge <==> Present(steps[index].duration)
    ensures r.details <==> Present(steps[index].details)
    ensures r.documents <==> Present(steps[index].documents)
    ensures r.warning <==> Present(steps[index].warning)
    ensures r.tip <==> Present(steps[index].tip)
  {
    var step := steps[index];
    var expanded := expandedStep == Some(step.id);
    StepView(expanded, expanded, Present(step.subtitle), Present(step.duration),
             Present(step.details), Present(step.documents), Present(step.warning), Present(step.tip),
             HasConnector(index, |steps|))
  }

  predicate DistinctIds(steps: seq<ProcedureStep>) {
    forall i, j :: 0 <= i < j < |steps| ==> steps[i].id != steps[j].id
  }

  class Schema {
    const steps: seq<ProcedureStep>
    var expandedStep: Option<int>

    /** Initially no step is expanded. */
    constructor (steps: seq<ProcedureStep>)
      ensures this.steps == steps && expandedStep.None?
      ensures forall i :: 0 <= i < |steps| ==> !IsExpanded(i)
    {
      this.steps := steps;
      expandedStep := None;
    }

    predicate IsExpanded(index: nat)
      requires index < |steps|
      reads this
    {
      ViewOf(steps, index, expandedStep).contentOpen
    }

    /** A click on the header of step `index`: the expanded step collapses,
        any other expands in place of the previous one. */
    method ClickStep(index: nat)
      requires index < |steps|
      modifies this
      ensures expandedStep == Disclosure.Toggle(old(expandedStep), steps[index].id)
      ensures IsExpanded(index) <==> !old(IsExpanded(index))
      ensures DistinctIds(steps) ==> forall j :: 0 <= j < |steps| && j != index ==> !IsExpanded(j)
    {
      expandedStep := Disclosure.Toggle(expandedStep, steps[index].id);
    }
  }

  /** With distinct ids no two steps are expanded at once. */
  lemma AtMostOneExpanded(steps: seq<ProcedureStep>, expandedStep: Option<int>)
    requires DistinctIds(steps)
    ensures forall i, j :: 0 <= i < |steps| && 0 <= j < |steps| &&
                           ViewOf(steps, i, expandedStep).contentOpen && ViewOf(steps, j, expandedStep).contentOpen
                           ==> i == j
  {
  }

  datatype TimelineStep = TimelineStep(caption: string, date: Option<string>, duration: Option<string>)

  /** One timeline entry: its date if shown, and after it a connector (unless
      last) carrying its duration if it has one. */
  datatype TimelineView = TimelineView(date: Option<string>, connector: Option<Option<string>>)

  function TimelineViewOf(steps: seq<TimelineStep>, index: nat): (r: TimelineView)
    requires index < |steps|
    ensures r.date.Some? <==> Present(steps[index].date)
    ensures r.connector.Some? <==> index != |steps| - 1
    ensures r.connector.Some? && r.connector.value.Some? <==>
            index != |steps| - 1 && Present(steps[index].duration)
  {
    var step := steps[index];
    TimelineView(if Present(step.date) then step.date else None,
                 if HasConnector(index, |steps|)
                 then Some(if Present(step.duration) then step.duration else None)
                 else None)
  }

  function Timeline(steps: seq<TimelineStep>): (r: seq<TimelineView>)
    ensures |r| == |steps| && forall i :: 0 <= i < |steps| ==> r[i] == TimelineViewOf(steps, i)
  {
    seq(|steps|, i requires 0 <= i < |steps| => TimelineViewOf(steps, i))
  }

  /** A duration is drawn on the connector that follows its step, so the last
      step's duration is never shown and a shown duration is its step's own. */
  lemma LastDurationNeverShown(steps: seq<TimelineStep>)
    requires steps != []
    ensures Timeline(steps)[|steps| - 1].connector.None?
    ensures forall i :: 0 <= i < |steps| && Timeline(steps)[i].connector.Some? &&
                        Timeline(steps)[i].connector.value.Some? ==>
                        steps[i].duration == Timeline(steps)[i].connector.value
  {
  }
}
