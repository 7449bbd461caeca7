/**
  The two user actions of the knowledge-graph widget and their dispatch
  (`remove`, `expand`, `_update_edges` of `DynamicGraph` and
  `onchange_callback` in streamlit_app.py). Each action changes the visible
  node ids and then recomputes the visible edge ids from the universe.
 */
module GraphActions {
  import opened Wrappers
  import opened JsonValues
  import opened GraphView

  /** `set(node_ids)`. */
  function ToSet(ids: seq<Key>): set<Key>
  {
    set k | k in ids
  }

  /** Both endpoints of `e` are present and visible. */
  predicate Joins(e: Edge, vis: set<Key>)
  {
    e.source.Some? && e.target.Some? && e.source.value in vis && e.target.value in vis
  }

  /** Reference definition of the visible edge ids for visible nodes `vis`:
      the ids of universe edges joining two visible nodes. */
  function Within(es: seq<Edge>, vis: set<Key>): set<Key>
  {
    set e | e in es && Joins(e, vis) :: e.id
  }

  /** The view invariant: an edge id is visible exactly when some universe
      edge with that id joins two visible nodes. */
  predicate Consistent(v: View)
  {
    v.edges == Within(v.allEdges, v.nodes)
  }

  /** The endpoint reads `_update_edges` makes on `e` succeed: it always reads
      the source, and reads the target only when the source is visible. */
  predicate Inspectable(e: Edge, vis: set<Key>)
  {
    e.source.Some? && (e.source.value in vis ==> e.target.Some?)
  }

  /** Both endpoints of `e` are present and hashable. */
  predicate Complete(e: Edge)
  {
    e.source.Some? && e.target.Some?
  }

  /** `_update_edges`, edge by edge in universe order; `None` when an
      endpoint read raises. */
  function UpdateEdges(es: seq<Edge>, vis: set<Key>): (r: Option<set<Key>>)
    ensures r.Some? <==> forall e | e in es :: Inspectable(e, vis)
    ensures r.Some? ==> r.value == Within(es, vis)
    decreases |es|
  {
    if |es| == 0 then Some({})
    else
      var e := es[0];
      assert es == [e] + es[1..];
      WithinCons(e, es[1..], vis);
      if e.source.None? then assert e in es && !Inspectable(e, vis); None
      else if e.source.value !in vis then UpdateEdges(es[1..], vis)
      else if e.target.None? then None
      else
        match UpdateEdges(es[1..], vis)
        case None => None
        case Some(rest) => Some(if e.target.value in vis then {e.id} + rest else rest)
  }

  lemma WithinCons(e: Edge, es: seq<Edge>, vis: set<Key>)
    ensures Within([e] + es, vis) == (if Joins(e, vis) then {e.id} else {}) + Within(es, vis)
  {
    assert forall x | x in [e] + es :: x == e || x in es;
  }

  /** Reference definition of what `expand(ids)` adds: the target of every
      edge whose source is in `ids`, and the source of every edge whose
      target is in `ids` while its source is not (the `elif`). */
  function NeighbourSet(es: seq<Edge>, ids: set<Key>): set<Key>
  {
    (set e | e in es && Complete(e) && e.source.value in ids :: e.target.value)
    + (set e | e in es && Complete(e) && e.source.value !in ids && e.target.value in ids :: e.source.value)
  }

  /** The loop of `expand`; `None` when an endpoint read raises. */
  function Neighbours(es: seq<Edge>, ids: set<Key>): (r: Option<set<Key>>)
    ensures r.Some? <==> forall e | e in es :: Complete(e)
    ensures r.Some? ==> r.value == NeighbourSet(es, ids)
    decreases |es|
  {
    if |es| == 0 then Some({})
    else
      var e := es[0];
      assert es == [e] + es[1..];
      if !Complete(e) then assert e in es; None
      else
        NeighbourSetCons(e, es[1..], ids);
        match Neighbours(es[1..], ids)
        case None => None
        case Some(rest) =>
          if e.source.value in ids then Some({e.target.value} + rest)
          else if e.target.value in ids then Some({e.source.value} + rest)
          else Some(rest)
  }

  lemma NeighbourSetCons(e: Edge, es: seq<Edge>, ids: set<Key>)
    requires Complete(e)
    ensures NeighbourSet([e] + es, ids) ==
      (if e.source.value in ids then {e.target.value}
       else if e.target.value in ids then {e.source.value}
       else {}) + NeighbourSet(es, ids)
  {
    assert forall x | x in [e] + es :: x == e || x in es;
  }

  /** The object after an action. `Raised` is an action that raised part
      way; its view is the object as the exception left it. */
  datatype Outcome = Done(view: View) | Raised(view: View)

  /** `remove(node_ids)`: subtract the ids, then recompute the edges. If the
      recomputation raises, the node change has already happened and the
      edge ids are stale. */
  function Remove(v: View, ids: seq<Key>): (r: Outcome)
    ensures r.view.allNodes == v.allNodes && r.view.allEdges == v.allEdges
    ensures r.view.nodes == v.nodes - ToSet(ids)
    ensures r.Done? <==> forall e | e in v.allEdges :: Inspectable(e, v.nodes - ToSet(ids))
    ensures r.Done? ==> Consistent(r.view)
    ensures r.Raised? ==> r.view.edges == v.edges
  {
    var nodes := v.nodes - ToSet(ids);
    match UpdateEdges(v.allEdges, nodes)
    case None => Raised(v.(nodes := nodes))
    case Some(edges) => Done(v.(nodes := nodes, edges := edges))
  }

  /** `expand(node_ids)`: add the neighbours of the ids in the universe,
      whether or not the ids themselves are visible, then recompute the
      edges. Only the neighbour loop can raise, and then nothing changes. */
  function Expand(v: View, ids: seq<Key>): (r: Outcome)
    ensures r.view.allNodes == v.allNodes && r.view.allEdges == v.allEdges
    ensures r.Done? <==> forall e | e in v.allEdges :: Complete(e)
    ensures r.Raised? ==> r.view == v
    ensures r.Done? ==> r.view.nodes == v.nodes + NeighbourSet(v.allEdges, ToSet(ids))
    ensures r.Done? ==> Consistent(r.view)
  {
    match Neighbours(v.allEdges, ToSet(ids))
    case None => Raised(v)
    case Some(added) =>
      var nodes := v.nodes + added;
      var edges := UpdateEdges(v.allEdges, nodes).value;
      Done(v.(nodes := nodes, edges := edges))
  }

  /** A widget event: the action name and the node ids it carries. */
  datatype Action = Action(kind: string, nodeIds: seq<Key>)

  /** `onchange_callback`: only "remove" and "expand" do anything. */
  function Dispatch(v: View, a: Action): (r: Outcome)
    ensures r.view.allNodes == v.allNodes && r.view.allEdges == v.allEdges
    ensures a.kind != "remove" && a.kind != "expand" ==> r == Done(v)
    ensures r.Done? && (a.kind == "remove" || a.kind == "expand") ==> Consistent(r.view)
    ensures r.Done? && Consistent(v) ==> Consistent(r.view)
    ensures a.kind == "remove" ==> r.view.nodes <= v.nodes
    ensures a.kind == "expand" ==> v.nodes <= r.view.nodes
  {
    if a.kind == "remove" then Remove(v, a.nodeIds)
    else if a.kind == "expand" then Expand(v, a.nodeIds)
    else Done(v)
  }

  /** A session: the object after a sequence of widget events, each applied
      to the object the previous one left, whether or not it raised. */
  function Replay(v: View, actions: seq<Action>): View
    decreases |actions|
  {
    if |actions| == 0 then v else Replay(Dispatch(v, actions[0]).view, actions[1..])
  }

  /** Removing the same ids a second time changes nothing; when the first
      call raised, the second raises the same way on the same object. */
  lemma RemoveIdempotent(v: View, ids: seq<Key>)
    ensures Remove(Remove(v, ids).view, ids) == Remove(v, ids)
  {
  }

  /** Expanding the same ids a second time changes nothing: the neighbours
      depend only on the universe and the ids, and are already visible. A
      raising expand leaves the object as it was, so it raises again. */
  lemma ExpandIdempotent(v: View, ids: seq<Key>)
    ensures Expand(Expand(v, ids).view, ids) == Expand(v, ids)
  {
    if Expand(v, ids).Done? {
      var w := Expand(v, ids).view;
      assert w.nodes + NeighbourSet(w.allEdges, ToSet(ids)) == w.nodes;
    }
  }

  /** More visible nodes never hide an edge. */
  lemma WithinMonotone(es: seq<Edge>, small: set<Key>, large: set<Key>)
    requires small <= large
    ensures Within(es, small) <= Within(es, large)
  {
    forall k | k in Within(es, small) ensures k in Within(es, large) {
      var e :| e in es && Joins(e, small) && e.id == k;
      assert Joins(e, large);
    }
  }

  /** On a consistent view, removing only hides edges and expanding only
      shows more. */
  lemma ActionsMoveEdgesMonotonically(v: View, ids: seq<Key>)
    requires Consistent(v)
    ensures Remove(v, ids).Done? ==> Remove(v, ids).view.edges <= v.edges
    ensures Expand(v, ids).Done? ==> v.edges <= Expand(v, ids).view.edges
  {
    WithinMonotone(v.allEdges, v.nodes - ToSet(ids), v.nodes);
    if Expand(v, ids).Done? {
      WithinMonotone(v.allEdges, v.nodes, Expand(v, ids).view.nodes);
    }
  }

  /** When every universe edge has both endpoints, neither action raises,
      and either one establishes the invariant, even on a freshly loaded view
      that shows dangling edges. */
  lemma FirstActionEstablishesInvariant(v: View, a: Action)
    requires forall e | e in v.allEdges :: Complete(e)
    requires a.kind == "remove" || a.kind == "expand"
    ensures Dispatch(v, a).Done? && Consistent(Dispatch(v, a).view)
  {
  }

  /** Whatever a session does, the universe stays the one loaded. */
  lemma {:induction false} ReplayKeepsUniverse(v: View, actions: seq<Action>)
    ensures Replay(v, actions).allNodes == v.allNodes
    ensures Replay(v, actions).allEdges == v.allEdges
    decreases |actions|
  {
    if |actions| > 0 {
      ReplayKeepsUniverse(Dispatch(v, actions[0]).view, actions[1..]);
    }
  }

  /** Once the invariant holds on a universe whose edges all have both
      endpoints, every later sequence of events keeps it. */
  lemma {:induction false} ReplayKeepsInvariant(v: View, actions: seq<Action>)
    requires forall e | e in v.allEdges :: Complete(e)
    requires Consistent(v)
    ensures Consistent(Replay(v, actions))
    decreases |actions|
  {
    if |actions| > 0 {
      var w := Dispatch(v, actions[0]);
      if actions[0].kind == "remove" || actions[0].kind == "expand" {
        FirstActionEstablishesInvariant(v, actions[0]);
      }
      ReplayKeepsInvariant(w.view, actions[1..]);
    }
  }
}
