/**
  The knowledge-graph view model of the Streamlit front end (class
  `DynamicGraph` in streamlit_app.py): an immutable universe of node and edge
  records read from the formatter's JSON, a visible subset of node ids and
  edge ids, the loader that builds both, and the filter that hands the
  visible records to the graph widget.
 */
module GraphView {
  import opened Wrappers
  import opened JsonValues

  /** A universe node: the id read from `record["data"]["id"]` and the record
      itself, which is what the widget receives. Ids need not be unique. */
  datatype Node = Node(id: Key, record: Json)

  /** A universe edge. The loader only reads the id, so an endpoint is `None`
      when `record["data"]` has no such key or holds a list or a dict there;
      reading such an endpoint later raises. */
  datatype Edge = Edge(id: Key, source: Option<Key>, target: Option<Key>, record: Json)

  /** The state of a `DynamicGraph`: the universe (`all_nodes`, `all_edges`)
      and the visible ids (`nodes`, `edges`). */
  datatype View = View(allNodes: seq<Node>, allEdges: seq<Edge>, nodes: set<Key>, edges: set<Key>)

  /** What the loader is handed: either a text that does not parse as JSON,
      or an already parsed value (a dict passed directly, or the result of
      parsing a string). */
  datatype Raw = Unparsable | Parsed(value: Json)

  /** The result of `get_elements`. */
  datatype Elements = Elements(nodes: seq<Node>, edges: seq<Edge>)

  /** The state the loader falls back to when anything raises. */
  const Empty: View := View([], [], {}, {})

  function NodeId(n: Node): Key { n.id }

  function EdgeId(e: Edge): Key { e.id }

  /** The set of ids of a universe sequence, as `set([x["data"]["id"] for x in xs])`. */
  function Ids<T(==)>(xs: seq<T>, key: T -> Key): set<Key>
  {
    set x | x in xs :: key(x)
  }

  function NodeRecords(ns: seq<Node>): seq<Json>
  {
    seq(|ns|, i requires 0 <= i < |ns| => ns[i].record)
  }

  function EdgeRecords(es: seq<Edge>): seq<Json>
  {
    seq(|es|, i requires 0 <= i < |es| => es[i].record)
  }

  /** `x["data"][name]` as a set member; `None` when a lookup or the hash raises. */
  function DataKey(x: Json, name: string): Option<Key>
  {
    match Get(x, "data")
    case None => None
    case Some(data) =>
      match Get(data, name)
      case None => None
      case Some(f) => KeyOf(f)
  }

  function NodeOf(x: Json): (r: Option<Node>)
    ensures r.Some? <==> DataKey(x, "id").Some?
    ensures r.Some? ==> r.value.record == x
  {
    match DataKey(x, "id")
    case None => None
    case Some(k) => Some(Node(k, x))
  }

  function EdgeOf(x: Json): (r: Option<Edge>)
    ensures r.Some? <==> DataKey(x, "id").Some?
    ensures r.Some? ==> r.value.record == x
  {
    match DataKey(x, "id")
    case None => None
    case Some(k) => Some(Edge(k, DataKey(x, "source"), DataKey(x, "target"), x))
  }

  /** Decodes every item, or fails as soon as one item fails, as the list
      comprehensions of the loader do. */
  function DecodeAll<T>(xs: seq<Json>, decode: Json -> Option<T>): (r: Option<seq<T>>)
    ensures r.Some? <==> forall i | 0 <= i < |xs| :: decode(xs[i]).Some?
    ensures r.Some? ==> |r.value| == |xs| && forall i | 0 <= i < |xs| :: decode(xs[i]) == Some(r.value[i])
    decreases |xs|
  {
    if |xs| == 0 then Some([])
    else
      match decode(xs[0])
      case None => None
      case Some(x) =>
        match DecodeAll(xs[1..], decode)
        case None => None
        case Some(rest) => Some([x] + rest)
  }

  /** `elements[name]`, or the empty list the loader puts there when the key is absent. */
  function Section(top: map<string, Json>, name: string): Json
  {
    if name in top then top[name] else JArr([])
  }

  /** The items of section `name` of a parsed object, or `[]` for any other input. */
  function Listed(raw: Raw, name: string): seq<Json>
  {
    if raw.Parsed? && raw.value.JObj? then
      match Members(Section(raw.value.fields, name))
      case None => []
      case Some(xs) => xs
    else []
  }

  /** The inputs the loader accepts without raising: a parsed dict whose two
      sections (defaulted when absent) can be iterated and whose every item
      has a hashable `["data"]["id"]`. */
  predicate Loadable(raw: Raw)
  {
    && raw.Parsed?
    && raw.value.JObj?
    && Members(Section(raw.value.fields, "nodes")).Some?
    && Members(Section(raw.value.fields, "edges")).Some?
    && (forall x | x in Listed(raw, "nodes") :: DataKey(x, "id").Some?)
    && (forall x | x in Listed(raw, "edges") :: DataKey(x, "id").Some?)
  }

  /** `load_data`: on success every node id and every edge id is visible,
      dangling edges included; on any caught error everything is empty. */
  function Load(raw: Raw): (v: View)
    ensures Loadable(raw) ==>
      && |v.allNodes| == |Listed(raw, "nodes")|
      && (forall i | 0 <= i < |v.allNodes| :: NodeOf(Listed(raw, "nodes")[i]) == Some(v.allNodes[i]))
      && |v.allEdges| == |Listed(raw, "edges")|
      && (forall i | 0 <= i < |v.allEdges| :: EdgeOf(Listed(raw, "edges")[i]) == Some(v.allEdges[i]))
      && v.nodes == Ids(v.allNodes, NodeId)
      && v.edges == Ids(v.allEdges, EdgeId)
    ensures !Loadable(raw) ==> v == Empty
  {
    if !(raw.Parsed? && raw.value.JObj?) then Empty
    else
      var top := raw.value.fields;
      match (Members(Section(top, "nodes")), Members(Section(top, "edges")))
      case (Some(nodeItems), Some(edgeItems)) =>
        (match (DecodeAll(nodeItems, NodeOf), DecodeAll(edgeItems, EdgeOf))
         case (Some(ns), Some(es)) => View(ns, es, Ids(ns, NodeId), Ids(es, EdgeId))
         case _ => Empty)
      case _ => Empty
  }

  /** The entries of `xs` whose id is in `vis`, in order, duplicates kept. */
  function Select<T(==)>(xs: seq<T>, key: T -> Key, vis: set<Key>): (r: seq<T>)
    ensures |r| <= |xs|
    ensures forall x | x in xs :: x in r <==> key(x) in vis
    ensures forall x | x in r :: x in xs
    decreases |xs|
  {
    if |xs| == 0 then []
    else if key(xs[0]) in vis then [xs[0]] + Select(xs[1..], key, vis)
    else Select(xs[1..], key, vis)
  }

  /** `get_elements`: the universe records whose id is visible. */
  function GetElements(v: View): (r: Elements)
    ensures |r.nodes| <= |v.allNodes| && |r.edges| <= |v.allEdges|
    ensures forall n | n in v.allNodes :: n in r.nodes <==> n.id in v.nodes
    ensures forall e | e in v.allEdges :: e in r.edges <==> e.id in v.edges
    ensures forall n | n in r.nodes :: n in v.allNodes
    ensures forall e | e in r.edges :: e in v.allEdges
  {
    Elements(Select(v.allNodes, NodeId, v.nodes), Select(v.allEdges, EdgeId, v.edges))
  }

  /** Selection distributes over concatenation: it keeps universe order and
      every duplicate, deciding entry by entry. */
  lemma {:induction false} SelectAppend<T>(a: seq<T>, b: seq<T>, key: T -> Key, vis: set<Key>)
    ensures Select(a + b, key, vis) == Select(a, key, vis) + Select(b, key, vis)
    decreases |a|
  {
    if |a| == 0 {
      assert a + b == b;
    } else {
      assert (a + b)[0] == a[0];
      assert (a + b)[1..] == a[1..] + b;
      SelectAppend(a[1..], b, key, vis);
    }
  }

  /** With every id visible, selection returns the whole sequence. */
  lemma {:induction false} SelectAll<T>(xs: seq<T>, key: T -> Key, vis: set<Key>)
    requires forall x | x in xs :: key(x) in vis
    ensures Select(xs, key, vis) == xs
    decreases |xs|
  {
    if |xs| > 0 {
      assert forall x | x in xs[1..] :: x in xs;
      SelectAll(xs[1..], key, vis);
    }
  }

  /** Right after a successful load, `get_elements` hands back exactly the
      records of the input, in order; after a failed load it hands back nothing. */
  lemma LoadThenGetElements(raw: Raw)
    ensures Loadable(raw) ==>
      && NodeRecords(GetElements(Load(raw)).nodes) == Listed(raw, "nodes")
      && EdgeRecords(GetElements(Load(raw)).edges) == Listed(raw, "edges")
    ensures !Loadable(raw) ==> GetElements(Load(raw)) == Elements([], [])
  {
    var v := Load(raw);
    if Loadable(raw) {
      SelectAll(v.allNodes, NodeId, v.nodes);
      SelectAll(v.allEdges, EdgeId, v.edges);
      var xs := Listed(raw, "nodes");
      forall i | 0 <= i < |xs| ensures NodeRecords(v.allNodes)[i] == xs[i] {
        assert NodeOf(xs[i]) == Some(v.allNodes[i]);
      }
      var ys := Listed(raw, "edges");
      forall i | 0 <= i < |ys| ensures EdgeRecords(v.allEdges)[i] == ys[i] {
        assert EdgeOf(ys[i]) == Some(v.allEdges[i]);
      }
    }
  }

  lemma IdsOfOne<T>(xs: seq<T>, key: T -> Key)
    requires |xs| == 1
    ensures Ids(xs, key) == {key(xs[0])}
  {
    assert forall x | x in xs :: x == xs[0];
  }

  /** Absent sections default to empty lists rather than failing the load:
      whether the load succeeds then depends on the other section alone. */
  lemma MissingSectionsDefault(m: map<string, Json>)
    ensures "edges" !in m ==>
      && Load(Parsed(JObj(m))).allEdges == []
      && (Loadable(Parsed(JObj(m))) <==>
            Members(Section(m, "nodes")).Some? && forall x | x in Listed(Parsed(JObj(m)), "nodes") :: DataKey(x, "id").Some?)
    ensures "nodes" !in m ==>
      && Load(Parsed(JObj(m))).allNodes == []
      && (Loadable(Parsed(JObj(m))) <==>
            Members(Section(m, "edges")).Some? && forall x | x in Listed(Parsed(JObj(m)), "edges") :: DataKey(x, "id").Some?)
    ensures "nodes" !in m && "edges" !in m ==> Loadable(Parsed(JObj(m))) && Load(Parsed(JObj(m))) == Empty
  {
  }

  /** Each failure the loader catches leaves the empty view. */
  lemma LoadFailures(v: Json, m: map<string, Json>, bad: Json)
    ensures Load(Unparsable) == Empty
    ensures !v.JObj? ==> Load(Parsed(v)) == Empty
    ensures bad in Listed(Parsed(JObj(m)), "nodes") && Get(bad, "data").None? ==> Load(Parsed(JObj(m))) == Empty
    ensures bad in Listed(Parsed(JObj(m)), "edges") && DataKey(bad, "id").None? ==> Load(Parsed(JObj(m))) == Empty
  {
  }

  /** Right after a load, an edge whose endpoints are not node ids is still
      visible: the loader does not check endpoints. */
  lemma DanglingEdgeVisibleAfterLoad()
    ensures
      var a := JObj(map["data" := JObj(map["id" := JStr("A")])]);
      var e := JObj(map["data" := JObj(map["id" := JStr("e"), "source" := JStr("A"), "target" := JStr("Z")])]);
      var v := Load(Parsed(JObj(map["nodes" := JArr([a]), "edges" := JArr([e])])));
      v.nodes == {KStr("A")} && v.edges == {KStr("e")}
  {
    var a := JObj(map["data" := JObj(map["id" := JStr("A")])]);
    var e := JObj(map["data" := JObj(map["id" := JStr("e"), "source" := JStr("A"), "target" := JStr("Z")])]);
    var raw := Parsed(JObj(map["nodes" := JArr([a]), "edges" := JArr([e])]));
    assert DataKey(a, "id") == Some(KStr("A"));
    assert DataKey(e, "id") == Some(KStr("e"));
    assert Listed(raw, "nodes") == [a];
    assert Listed(raw, "edges") == [e];
    var v := Load(raw);
    assert v.allNodes == [Node(KStr("A"), a)];
    assert |v.allEdges| == 1 && v.allEdges[0].id == KStr("e");
    assert v.allEdges == [v.allEdges[0]];
    IdsOfOne(v.allNodes, NodeId);
    IdsOfOne(v.allEdges, EdgeId);
  }
}
