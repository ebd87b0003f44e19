/** The single-selection toggle shared by the procedure step expanders:
    `setState(state === id ? null : id)`. */
module Disclosure {
  import opened Wrappers

  function Toggle(selected: Option<int>, id: int): (r: Option<int>)
    ensures selected == Some(id) ==> r.None?
    ensures selected != Some(id) ==> r == Some(id)
  {
    if selected == Some(id) then None else Some(id)
  }

  /** After a toggle the toggled entry is open exactly when it was closed, and no
      other entry is open. */
  lemma ToggleOpensOnlyClicked(selected: Option<int>, id: int, other: int)
    requires other != id
    ensures Toggle(selected, id) == Some(id) <==> selected != Some(id)
    ensures Toggle(selected, id) != Some(other)
  {
  }
}
