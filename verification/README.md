# University Planner Agent: the knowledge-graph view model and SQL fence cleaning

The repository is a planning pipeline whose decisions are made by a language
model. Two parts of it are plain deterministic logic, and this project models
and verifies both of them.

- **The knowledge-graph view model.** This is class `DynamicGraph` in
  `streamlit_app.py`. It keeps a fixed *universe* of node and edge records,
  read from the formatter's JSON. It also keeps a *visible view*: a set of
  node ids and a set of edge ids. The widget sends two actions:
  - `remove` subtracts ids from the visible nodes.
  - `expand` adds the universe neighbours of the given ids.

  After either action, `_update_edges` recomputes the visible edges as the
  ids of universe edges whose two endpoints are both visible.
  `get_elements` hands the visible records to the widget.
- **SQL fence cleaning.** This is `clean_sql_query` in `src/utils/tools.py`.
  It deletes every "```sql", then every "```", then strips surrounding
  whitespace.

Modules:

- `Wrappers` (`wrappers.dfy`): `Option`.
- `JsonValues` (`json.dfy`): a parsed JSON value, plus the three Python
  operations the loader applies to it:
  - `v[name]` (`Get`)
  - iteration (`Members`)
  - hashing into a set (`KeyOf`). Booleans share integer keys, because
    Python has `True == 1`.
- `GraphView` (`graph_view.dfy`): `Node`, `Edge`, `View`, and the loader
  input `Raw`. Also `Load` for `load_data` and `GetElements` for
  `get_elements`.
- `GraphActions` (`graph_actions.dfy`): `UpdateEdges`, `Remove`, `Expand`,
  the `Dispatch` of `onchange_callback`, and `Replay` for a sequence of
  widget events.
- `GraphScenarios` (`graph_scenarios.dfy`): worked examples on a chain
  A → B → C.
- `SqlClean` (`sql_clean.dfy`): `DeleteAll` for `str.replace(p, "")`,
  `Strip` for `str.strip()`, and `Clean` for `clean_sql_query`.

How Python's exceptions are modelled:

- **The loader catches every error.** `JSONDecodeError`, `KeyError` and
  `TypeError` are all caught. So `Load` is total and falls back to the empty
  view `Empty`. `Loadable` states exactly which inputs load without raising.
- **Edge endpoints can be bad.** The loader reads only `["data"]["id"]` of
  each edge. A source or target can therefore be missing, or be a list or a
  dict. Such an endpoint is `None` in `Edge`.
- **`remove` and `expand` can raise.** They raise when they touch a bad
  endpoint, and nothing catches that exception. An action's result is an
  `Outcome`:
  - `Done(view)`: the action completed.
  - `Raised(view)`: the object as the exception left it. For `remove`, the
    node subtraction has already happened and the edge ids are stale. For
    `expand`, nothing has changed.

Where a reader could expect otherwise, the model follows what the code does:

- **Expanding after a removal.** On A → B → C, `remove({B})` then
  `expand({A})` could be expected to leave {A, C}, since B was removed on
  purpose. The code re-adds B, because A is the source of A → B, and then
  both edges come back (`ExpandRestoresRemovedNeighbour`).
- **Which endpoint `expand` adds.** One could expect an endpoint to be added
  only when exactly one end of the edge is in the id set. The code adds the
  target of every edge whose source is in the set, and the source of every
  edge whose target is in the set when the source is not. An edge with both
  ends in the set therefore adds only its target. The ids in the set need
  not be visible (`ExpandBothEndsAddsOnlyTarget`).
- **The invariant after a load.** One could expect every visible edge to
  join two visible nodes at all times. Right after a load, the code makes
  every edge id visible, including edges whose endpoints are not nodes
  (`DanglingEdgeVisibleAfterLoad`). The invariant is only established by
  the first `remove` or `expand` (`FirstActionEstablishesInvariant`).
- **Unique ids.** Nothing in the code checks that ids are unique, and
  nothing relies on it. The model allows duplicate ids and filters by id.

## Model

| member | source | states |
|---|---|---|
| `JsonValues.KeyOf` | streamlit_app.py:97-98 | a JSON value can be put in an id set exactly when it is not a list or a dict |
| `JsonValues.Members` | streamlit_app.py:97-98 | iterating a section succeeds exactly for a list, an empty dict or an empty string; the last two yield nothing |
| `GraphView.DecodeAll` | streamlit_app.py:97-98 | the id comprehension succeeds exactly when every item decodes; the decoded universe then matches the input item for item |
| `GraphView.Load` | streamlit_app.py:78-104 | on a loadable input the universe is the input's records in order, every node id and every edge id is visible, and dangling edges are included; on any caught failure everything is empty |
| `GraphView.LoadThenGetElements` | streamlit_app.py:95-110 | `get_elements` right after a load returns exactly the input's node and edge records, in order; after a failed load it returns nothing |
| `GraphView.MissingSectionsDefault` | streamlit_app.py:89-92 | a missing "nodes" key gives an empty node universe and a missing "edges" key an empty edge universe; either way, whether the load succeeds depends only on the section that is present; with both keys missing the load succeeds with an empty graph |
| `GraphView.LoadFailures` | streamlit_app.py:81-104 | the empty view results from an unparsable text, a non-dict value, a node without "data", or an edge without a hashable id |
| `GraphView.DanglingEdgeVisibleAfterLoad` | streamlit_app.py:97-98 | right after a load, an edge to a non-existent node is visible |
| `GraphView.GetElements` | streamlit_app.py:106-110 | the returned nodes are exactly the universe nodes whose id is visible, and the returned edges exactly the universe edges whose id is visible; nothing outside the universe is returned and neither list is longer than the universe's |
| `GraphView.Select` | streamlit_app.py:106-110 | the filter keeps exactly the entries whose id is visible and never lengthens the sequence |
| `GraphView.SelectAppend` | streamlit_app.py:108-109 | the filter decides entry by entry, keeping universe order and duplicates |
| `GraphView.SelectAll` | streamlit_app.py:108-109 | when every id is visible, the filter returns the whole universe |
| `GraphActions.UpdateEdges` | streamlit_app.py:127-132 | succeeds exactly when the endpoints it reads are present; the result is then exactly the ids of universe edges joining two visible nodes |
| `GraphActions.Neighbours` | streamlit_app.py:117-123 | succeeds exactly when every universe edge has both endpoints; the result is then the targets of edges leaving the ids plus the sources of edges entering them from outside |
| `GraphActions.Remove` | streamlit_app.py:112-114 | the visible nodes become the old ones minus the ids; the universe is unchanged; on success the edge invariant holds; on a raise the edge ids are stale |
| `GraphActions.Expand` | streamlit_app.py:116-125 | the visible nodes grow by exactly the neighbour set, whether or not the ids are visible; the universe is unchanged; on success the edge invariant holds; on a raise nothing changes |
| `GraphActions.Dispatch` | streamlit_app.py:164-169 | only "remove" and "expand" act; every other action leaves the view as it is; the universe never changes; a completed action establishes the invariant |
| `GraphActions.RemoveIdempotent` | streamlit_app.py:112-114 | removing the same ids twice gives the same outcome as removing them once, for every view; a remove that raised raises again on the object it left |
| `GraphActions.ExpandIdempotent` | streamlit_app.py:116-125 | expanding the same ids twice gives the same outcome as expanding them once, for every view; an expand that raised raises again on the unchanged object |
| `GraphActions.WithinMonotone` | streamlit_app.py:127-132 | more visible nodes never hide an edge |
| `GraphActions.ActionsMoveEdgesMonotonically` | streamlit_app.py:112-125 | on a consistent view, `remove` only hides edges and `expand` only shows more |
| `GraphActions.FirstActionEstablishesInvariant` | streamlit_app.py:112-132 | when every edge has both endpoints, a remove or an expand cannot raise and leaves the invariant holding, even on a freshly loaded view |
| `GraphActions.ReplayKeepsUniverse` | streamlit_app.py:164-169 | no sequence of widget events changes the universe |
| `GraphActions.ReplayKeepsInvariant` | streamlit_app.py:164-169 | once the invariant holds and every edge has both endpoints, every later sequence of events keeps it |
| `GraphScenarios.RemoveMiddleHidesBothEdges` | streamlit_app.py:112-114 | on A → B → C, removing B leaves {A, C} and no edges |
| `GraphScenarios.ExpandRestoresRemovedNeighbour` | streamlit_app.py:116-125 | expanding A then brings back B and both edges |
| `GraphScenarios.ExpandBothEndsAddsOnlyTarget` | streamlit_app.py:120-123 | for an edge with both ends in the ids, only its target is added, and the ids need not be visible |
| `GraphScenarios.OtherActionsIgnored` | streamlit_app.py:166-169 | an action other than "remove" or "expand" changes nothing |
| `GraphScenarios.MissingTargetRaises` | streamlit_app.py:119-125 | with an edge that lacks a target, expand raises before any change, and remove raises after it has subtracted the ids |
| `SqlClean.DeleteAll` | src/utils/tools.py:23 | `replace(p, "")` only deletes characters: the result is a subsequence of the input and never longer |
| `SqlClean.LeadingSpace` | src/utils/tools.py:25 | `strip` removes the longest whitespace prefix |
| `SqlClean.TrailingSpace` | src/utils/tools.py:25 | `strip` removes the longest whitespace suffix |
| `SqlClean.Strip` | src/utils/tools.py:25 | the result is a slice with no whitespace at either end, and only whitespace lies outside it |
| `SqlClean.Clean` | src/utils/tools.py:20-26 | the result has no surrounding whitespace, contains no "```", and is the input with some characters deleted |
| `SqlClean.NoFenceAfterDelete` | src/utils/tools.py:23 | deleting every "```" leaves no "```", even though deletions join the text around them |
| `SqlClean.DeleteAllWithoutOccurrence` | src/utils/tools.py:23 | where the pattern does not occur, the text is unchanged |
| `SqlClean.CleanFixedPoint` | src/utils/tools.py:23-25 | the input comes back unchanged exactly when it has no "```" and no surrounding whitespace |
| `SqlClean.CleanIdempotent` | src/utils/tools.py:20-26 | cleaning twice is the same as cleaning once |
| `SqlClean.DeleteAllCounts` | src/utils/tools.py:23 | `replace(p, "")` deletes whole copies of `p` and nothing else, counted character by character |
| `SqlClean.CleanKeepsOtherCharacters` | src/utils/tools.py:23-25 | every character other than a backtick, s, q, l or whitespace keeps its count |
| `SqlClean.CleanRemovesTagLettersTogether` | src/utils/tools.py:23 | s, q and l disappear only together, one of each per deleted "```sql" tag |
| `SqlClean.UpperCaseTagKeepsLetters` | src/utils/tools.py:23 | "```SQL" becomes "SQL" |
| `SqlClean.PlainSqliteSurvives` | src/utils/tools.py:23 | "sqlite" that does not follow a fence is kept |
| `SqlClean.TagMatchedInsideWord` | src/utils/tools.py:23 | "```sqlite" becomes "ite", because the tag is matched as text |

## Left out

- JSON parsing (`json.loads`): the loader's input is a value that is already parsed, or `Unparsable`.
- Non-integer JSON numbers: ids that are floats, such as `1.0 == 1` in Python, are not modelled.
- The loader writes the defaulted `[]` back into the caller's dict (streamlit_app.py:89-92). This side effect on the caller's data is not modelled.
- The loader keeps `all_nodes` as the original Python value. That value can be an empty dict or an empty string, which iterate as nothing. The model stores the empty sequence, which gives the same `get_elements` result.
- Exceptions the loader does not catch are not modelled. An example is a recursion error on deeply nested JSON.
- The warning shown on a failed load is not modelled, and neither is the rest of the Streamlit UI: layout, `st.session_state`, the `st_link_analysis` widget, and `create_dynamic_node_styles`/`create_dynamic_edge_styles`. The styles depend on set iteration order.
- GraphActions.Dispatch: takes an already decoded `Action`. A payload without `["data"]["node_ids"]`, which would raise `KeyError` in the callback, is not modelled.
- GraphActions.Dispatch: applies the action the widget sends. As written, the callback reads that value from `st.session_state` under `COMPONENT_KEY`, which is `"NODE_ACTIONS"` (streamlit_app.py:134, 165), while the widget is registered under `"NODE_ACTIONS_<n>"` (streamlit_app.py:173, 179), with `n` at least 1 once a search has completed (streamlit_app.py:48). Read as text, the lookup at line 165 would raise `KeyError` before the dispatch at lines 166-169 runs. How the external widget stores its value is not part of this model, so the model does not decide this and applies the action as if the lookup succeeded.
- The LLM-driven agents (src/agents/), the pipeline wiring (src/graph/) and the shared client (src/utils/shared_llm.py) are not part of this model. Their behaviour is whatever text an external model returns.
- Strings are Dafny `string`s, whose characters are Unicode scalar values. A Python `str` can also hold lone surrogates; these are not modelled. They are not whitespace in Python, so `IsSpace` would treat them correctly.
- The rest of src/utils/tools.py is not modelled. It consists of SQLite access, web search and LLM formatting, which are I/O.
