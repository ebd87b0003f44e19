/** The FAQ accordion (`Accordion` in src/components/ui/Accordion.tsx):
    `openItems` holds the indices of the open items. */
module Accordion {
  import opened Seqs

  /** `i => i !== index` */
  function Other(index: int): int -> bool {
    i => i != index
  }

  /** The new value `toggleItem(index)` gives `openItems`. */
  function Toggled(prev: seq<int>, index: int, allowMultiple: bool): seq<int> {
    if allowMultiple then
      if index in prev then Filter(prev, Other(index)) else prev + [index]
    else
      if index in prev then [] else [index]
  }

  /** Toggling flips the toggled index's membership; in multiple mode every
      other index keeps its membership, in single mode no other index stays open. */
  lemma ToggleMembership(prev: seq<int>, index: int, allowMultiple: bool)
    ensures index in Toggled(prev, index, allowMultiple) <==> index !in prev
    ensures allowMultiple ==>
      forall j :: j != index ==> (j in Toggled(prev, index, allowMultiple) <==> j in prev)
    ensures !allowMultiple ==>
      forall j :: j != index ==> j !in Toggled(prev, index, allowMultiple)
  {
    if allowMultiple && index !in prev {
      assert forall j :: j in prev + [index] <==> j in prev || j == index;
    }
  }

  /** In single mode at most one item is open after any toggle: none when the
      open item was toggled, only the toggled one otherwise. */
  lemma SingleModeAtMostOne(prev: seq<int>, index: int)
    ensures |Toggled(prev, index, false)| <= 1
    ensures index in prev ==> Toggled(prev, index, false) == []
    ensures index !in prev ==> Toggled(prev, index, false) == [index]
  {
  }

  /** In multiple mode the open list never holds an index twice. */
  lemma MultipleModeNoDuplicates(prev: seq<int>, index: int)
    requires NoDuplicates(prev)
    ensures NoDuplicates(Toggled(prev, index, true))
  {
    if index in prev {
      SubsequenceNoDuplicates(Filter(prev, Other(index)), prev);
    } else {
      var r := prev + [index];
      forall i, j | 0 <= i < j < |r| ensures r[i] != r[j] {
        if j == |prev| {
          assert r[i] == prev[i];
        }
      }
    }
  }

  /** Toggling the same index twice restores the set of open items (the order
      may change); in single mode this holds when nothing or only that item was open. */
  lemma ToggleTwiceRestores(prev: seq<int>, index: int, allowMultiple: bool)
    requires !allowMultiple ==> prev == [] || prev == [index]
    ensures forall j :: j in Toggled(Toggled(prev, index, allowMultiple), index, allowMultiple) <==> j in prev
  {
    var once := Toggled(prev, index, allowMultiple);
    ToggleMembership(prev, index, allowMultiple);
    ToggleMembership(once, index, allowMultiple);
  }

  class Accordion {
    const allowMultiple: bool
    var openItems: seq<int>

    /** The open list matches the mode: no duplicates, and at most one entry in single mode. */
    ghost predicate Valid()
      reads this
    {
      NoDuplicates(openItems) && (!allowMultiple ==> |openItems| <= 1)
    }

    /** Initially no item is open. */
    constructor (allowMultiple: bool)
      ensures Valid() && this.allowMultiple == allowMultiple && openItems == []
    {
      this.allowMultiple := allowMultiple;
      openItems := [];
    }

    method ToggleItem(index: int)
      requires Valid()
      modifies this
      ensures Valid()
      ensures openItems == Toggled(old(openItems), index, allowMultiple)
      ensures IsOpen(index) <==> !old(IsOpen(index))
    {
      ToggleMembership(openItems, index, allowMultiple);
      MultipleModeNoDuplicates(openItems, index);
      SingleModeAtMostOne(openItems, index);
      if allowMultiple {
        openItems := if index in openItems then Filter(openItems, Other(index)) else openItems + [index];
      } else {
        openItems := if index in openItems then [] else [index];
      }
    }

    /** The item at `index` renders open. */
    predicate IsOpen(index: int)
      reads this
    {
      index in openItems
    }
  }
}
