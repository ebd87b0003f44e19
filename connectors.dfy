/** The connector rule shared by the step lists (steppers, procedure schemas,
    timelines): a line is drawn after every entry but the last. */
module ListLayout {
  /** Entry `index` of `count` entries has a connector after it. */
  predicate HasConnector(index: int, count: int) {
    index < count - 1
  }

  /** The indices in `[0, n)`. */
  function Range(n: nat): (r: set<nat>)
    ensures forall x: nat :: x in r <==> x < n
    ensures |r| == n
  {
    if n == 0 then {} else Range(n - 1) + {n - 1}
  }

  /** The entries followed by a connector: every one but the last, so a list of
      `count` entries draws `count - 1` connectors, and none when it is empty. */
  lemma ConnectorsBetweenEntries(count: nat)
    ensures forall i :: 0 <= i < count ==> (HasConnector(i, count) <==> i != count - 1)
    ensures |set i: nat | i < count && HasConnector(i, count)| == if count == 0 then 0 else count - 1
  {
    if count == 0 {
      assert (set i: nat | i < count && HasConnector(i, count)) == {};
    } else {
      assert (set i: nat | i < count && HasConnector(i, count)) == Range(count - 1);
    }
  }
}
