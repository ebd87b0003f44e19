/** The economic-dismissal procedure page
    (src/app/procedures/licenciement-economique/page.tsx): the step cards, one
    of which is open at a time and the first initially, what an open card
    shows, and the recap timeline. */
module Licenciement {
  import opened Wrappers
  import opened ListLayout
  import Disclosure

  /** The ids of the six procedure steps, in page order. */
  const StepIds: seq<int> := [1, 2, 3, 4, 5, 6]

  /** The parts of a step a card may show. */
  datatype Step = Step(id: int, details: seq<string>, warning: Option<string>, tip: Option<string>,
                       documents: Option<seq<string>>)

  /** A card's body: nothing when closed; when open, the details and each
      optional section that is present (the documents also need a non-empty list). */
  datatype CardBody = Collapsed | Expanded(details: seq<string>, warning: Option<string>,
                                          tip: Option<string>, documents: seq<string>)

  function Card(step: Step, isOpen: bool): (r: CardBody)
    ensures r.Collapsed? <==> !isOpen
    ensures r.Expanded? ==> r.details == step.details
    ensures r.Expanded? ==> (r.warning.Some? <==> Present(step.warning)) && (r.warning.Some? ==> r.warning == step.warning)
    ensures r.Expanded? ==> (r.tip.Some? <==> Present(step.tip)) && (r.tip.Some? ==> r.tip == step.tip)
    ensures r.Expanded? ==> (r.documents != [] <==> Present(step.documents)) &&
                            (r.documents != [] ==> r.documents == step.documents.value)
  {
    if !isOpen then Collapsed
    else Expanded(step.details,
                  if Present(step.warning) then step.warning else None,
                  if Present(step.tip) then step.tip else None,
                  if Present(step.documents) then step.documents.value else [])
  }

  class Page {
    var openStep: Option<int>

    /** The first step starts open. */
    constructor ()
      ensures openStep == Some(1)
    {
      openStep := Some(1);
    }

    predicate IsOpen(id: int)
      reads this
    {
      openStep == Some(id)
    }

    /** `onToggle` of the card of step `id`: the open card closes, any other
        opens and closes the one that was open. */
    method ToggleStep(id: int)
      modifies this
      ensures openStep == Disclosure.Toggle(old(openStep), id)
      ensures IsOpen(id) <==> !old(IsOpen(id))
      ensures forall other :: other != id ==> !IsOpen(other)
    {
      openStep := Disclosure.Toggle(openStep, id);
    }
  }

  /** For each step of the page, whether its card is open. */
  function OpenFlags(openStep: Option<int>): (r: seq<bool>)
    ensures |r| == |StepIds| && forall i :: 0 <= i < |r| ==> (r[i] <==> openStep == Some(StepIds[i]))
  {
    seq(|StepIds|, i requires 0 <= i < |StepIds| => openStep == Some(StepIds[i]))
  }

  /** On a fresh page exactly the first card is open; opening the third then
      leaves it the only open card. */
  method OpenCards() returns (initially: seq<bool>, afterThird: seq<bool>)
    ensures initially == [true, false, false, false, false, false]
    ensures afterThird == [false, false, true, false, false, false]
  {
    var page := new Page();
    initially := OpenFlags(page.openStep);
    page.ToggleStep(3);
    afterThird := OpenFlags(page.openStep);
  }

  /** An entry of the recap timeline. */
  datatype RecapEntry = RecapEntry(caption: string, duration: string)

  const Recap: seq<RecapEntry> := [
    RecapEntry("Convocation", "J-5"), RecapEntry("Entretien", "J"), RecapEntry("Réflexion", "7j"),
    RecapEntry("Lettre", "J+8"), RecapEntry("Préavis", "1-3 mois"), RecapEntry("Fin", "")
  ]

  /** What entry `index` of a recap timeline draws: its duration line when the
      duration is not empty, and a connector to the next entry unless it is last. */
  datatype RecapView = RecapView(durationShown: bool, connector: bool)

  function RecapViews(entries: seq<RecapEntry>): (r: seq<RecapView>)
    ensures |r| == |entries|
    ensures forall i :: 0 <= i < |r| ==> (r[i].durationShown <==> entries[i].duration != "")
    ensures forall i :: 0 <= i < |r| ==> (r[i].connector <==> i != |entries| - 1)
  {
    seq(|entries|, i requires 0 <= i < |entries| =>
      RecapView(entries[i].duration != "", HasConnector(i, |entries|)))
  }

  /** On this page every recap entry but "Fin" shows a duration and a connector. */
  lemma RecapShape()
    ensures RecapViews(Recap) == [RecapView(true, true), RecapView(true, true), RecapView(true, true),
                                  RecapView(true, true), RecapView(true, true), RecapView(false, false)]
  {
  }
}
