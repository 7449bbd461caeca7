/**
  Worked examples of the graph actions on a three-node chain A -> B -> C,
  showing the behaviour the code has where a reader could expect otherwise.
 */
module GraphScenarios {
  import opened Wrappers
  import opened JsonValues
  import opened GraphView
  import opened GraphActions

  const A := KStr("A")
  const B := KStr("B")
  const C := KStr("C")
  const AB := Edge(KStr("ab"), Some(A), Some(B), JNull)
  const BC := Edge(KStr("bc"), Some(B), Some(C), JNull)

  /** The chain as loaded: everything visible. */
  function Chain(): View
  {
    View([Node(A, JNull), Node(B, JNull), Node(C, JNull)], [AB, BC], {A, B, C}, {KStr("ab"), KStr("bc")})
  }

  /** Within the chain, edge by edge. */
  lemma ChainWithin(vis: set<Key>)
    ensures Within([AB, BC], vis) ==
      (if Joins(AB, vis) then {KStr("ab")} else {}) + (if Joins(BC, vis) then {KStr("bc")} else {})
  {
    WithinCons(AB, [BC], vis);
    WithinCons(BC, [], vis);
    assert [AB] + [BC] == [AB, BC];
    assert [BC] + [] == [BC];
  }

  /** Removing B hides both edges that touch it. */
  lemma RemoveMiddleHidesBothEdges()
    ensures Remove(Chain(), [B]) == Done(Chain().(nodes := {A, C}, edges := {}))
  {
    assert ToSet([B]) == {B};
    assert {A, B, C} - {B} == {A, C};
    ChainWithin({A, C});
  }

  /** Expanding A after removing B brings B back (A is the source of
      A -> B), and with it both edges. */
  lemma ExpandRestoresRemovedNeighbour()
    ensures Expand(Chain().(nodes := {A, C}, edges := {}), [A]) == Done(Chain())
  {
    assert ToSet([A]) == {A};
    assert NeighbourSet([AB, BC], {A}) == {B} by {
      NeighbourSetCons(AB, [BC], {A});
      NeighbourSetCons(BC, [], {A});
      assert [AB] + [BC] == [AB, BC];
      assert [BC] + [] == [BC];
    }
    assert {A, C} + {B} == {A, B, C};
    ChainWithin({A, B, C});
  }

  /** An edge with both ends in the expanded ids adds only its target, and
      the ids need not be visible themselves. */
  lemma ExpandBothEndsAddsOnlyTarget()
    ensures
      var v := View([Node(A, JNull), Node(B, JNull)], [AB], {}, {});
      Expand(v, [A, B]) == Done(v.(nodes := {B}))
  {
    assert ToSet([A, B]) == {A, B};
    assert NeighbourSet([AB], {A, B}) == {B} by {
      NeighbourSetCons(AB, [], {A, B});
      assert [AB] + [] == [AB];
    }
    assert Within([AB], {B}) == {} by {
      WithinCons(AB, [], {B});
      assert [AB] + [] == [AB];
    }
  }

  /** An event other than "remove" or "expand" leaves the view alone. */
  lemma OtherActionsIgnored(v: View, ids: seq<Key>)
    ensures Dispatch(v, Action("select", ids)) == Done(v)
  {
  }

  /** An edge that lacks a target makes `expand` raise before any change,
      and makes `remove` raise after the node change once its source is
      still visible. */
  lemma MissingTargetRaises()
    ensures
      var broken := Edge(KStr("ax"), Some(A), None, JNull);
      var v := View([Node(A, JNull), Node(B, JNull)], [broken], {A, B}, {KStr("ax")});
      Expand(v, [B]) == Raised(v) && Remove(v, [B]) == Raised(v.(nodes := {A}))
  {
    var broken := Edge(KStr("ax"), Some(A), None, JNull);
    assert broken in [broken];
    assert ToSet([B]) == {B};
  }
}
