# Houdini node-graph accumulator, modelled in Dafny

The Houdini_llm agent builds a Houdini node network with three tools. They
are `create_node`, `wiring_nodes` and `parameter_update`. All three edit one
shared list of node records, `final_data` in `graph.py`. Each record has:

- a `name`
- a `type`
- a `path`, which is `{location}/{name}`
- `inputs`, a list of `{index, path}` wiring records
- `parameters`, a map from parameter name to value

The list is created empty once, when `graph.py` is loaded. When an agent
session ends normally, `run_agent` returns a copy of the list and clears
it. A session that raises an exception skips that step, so its records
stay in the list for the next session (see "## Left out").

This project models that list and its operations:

- `session.dfy` (module `Session`): the list is the field `nodes: seq<Node>`
  of the class `NodeGraph`. There is one method per tool, plus the helper
  `append_input` and the end of a session. Each method states its new
  state as a function of the old state.
- `graph_model.dfy` (module `GraphModel`): the records as datatypes. It also
  holds the first-match lookup by name (`FirstIndexOf`, `PathOf`, and
  `GetPathByName`, the search loop of `get_path_by_name`), the two record
  edits as functions (`WithInput`, `WithParameter`), and the lemmas about them.
- `catalog.dfy` (module `Catalog`): the node-type catalogue. It covers the
  `allowed_type` list and `accepted_parms`, which keeps only the catalogue
  items whose type occurs in the graph.

Properties proved:

- `create_node` appends exactly one record. Its path is `location + "/" + name`.
  All earlier records are unchanged.
- A lookup finds the first record with the given name. It returns None when
  there is none.
- Wiring appends to the inputs of the first record named as the target.
  It never replaces an earlier record with the same index. A missing target
  leaves the list unchanged.
- `parameter_update` upserts one key on the first matching record. It is
  idempotent. A missing node leaves the list unchanged and gets the
  not-found reply.
- `NodeGraph.Valid()` holds through every tool call. It combines two invariants:
  - every record's path ends in `/` plus its own name;
  - every wiring path that is present is the path of some record.
- `accepted_parms` keeps, in catalogue order and with multiplicity, exactly
  the catalogue items whose type occurs among the records.

Where the code departs from what a node-graph user would expect (unique
names, checked types, reported failures), the model follows the code:

- `create_node` checks neither the name nor the type. A second record with
  an existing name is appended, but no lookup can ever reach it
  (`CreateDuplicateIsShadowed`).
- Wiring to a missing target does nothing, yet still gives the same "wired"
  reply.
- Wiring from a missing source records a wire whose path is None. Creating
  the source later does not fill that path in (`WireBeforeCreate`).
- Rewiring an index appends a second record for it; nothing is replaced.

## Model

| member | source | states |
|---|---|---|
| GraphModel.FirstIndexOf | graph.py:41-51 | the index found holds the wanted name and every earlier record has another name; None exactly when no record has the name |
| GraphModel.PathOf | graph.py:47-51 | returns the path of the first record with the name; None exactly when no record has it |
| GraphModel.GetPathByName | graph.py:47-51 | the search loop returns exactly the first-match path, or None |
| GraphModel.WithInput | graph.py:41-45 | the first record with the target name gets the wire appended to its inputs; every other record is unchanged; the list is unchanged when no record matches |
| GraphModel.WithParameter | graph.py:146-150 | the first record with the name gets `parameters[key] := v`; every other record is unchanged; the list is unchanged when no record matches |
| GraphModel.NewNodeNamedPath | graph.py:90-94 | a created record's path ends in `/` followed by its name |
| GraphModel.FirstIndexOfAppend | graph.py:98 | after a record is appended, a lookup finds the earlier match if there is one, otherwise the new record if its name matches |
| GraphModel.CreateThenLookup | graph.py:89-98 | creating a node with an unused name makes the lookup of that name return `location + "/" + name` |
| GraphModel.CreateDuplicateIsShadowed | graph.py:89-98 | creating a node with a name already in use leaves that name's lookup result unchanged |
| GraphModel.WithInputKeepsSkeleton | graph.py:41-45 | wiring changes no record's name, type or path, and no record's position |
| GraphModel.WithParameterKeepsSkeleton | graph.py:146-149 | a parameter update changes no record's name, type or path, and no record's position |
| GraphModel.WithParameterIdempotent | graph.py:146-149 | applying the same parameter update twice gives the same list as applying it once |
| GraphModel.WithInputKeepsPaths | graph.py:41-45 | wiring preserves the invariant that every path ends in its record's name |
| GraphModel.WithParameterKeepsPaths | graph.py:146-149 | a parameter update preserves the invariant that every path ends in its record's name |
| GraphModel.WithInputKeepsPathSet | graph.py:41-45 | wiring leaves the set of record paths unchanged |
| GraphModel.WithParameterKeepsPathSet | graph.py:146-149 | a parameter update leaves the set of record paths unchanged |
| GraphModel.PathOfInPathSet | graph.py:47-51 | a path found by name is the path of a record in the list |
| GraphModel.WithInputKeepsWiresResolved | graph.py:121-127 | appending a wire whose path is absent or names a record keeps every wiring path resolvable |
| GraphModel.WithParameterKeepsWiresResolved | graph.py:146-149 | a parameter update keeps every wiring path resolvable |
| GraphModel.AppendKeepsWiresResolved | graph.py:95-98 | appending a record with no inputs keeps every wiring path resolvable |
| Catalog.AllowedTypes | graph.py:36-38 | the result lists the type of every catalogue item, in order, one per item |
| Catalog.FilterCatalog | graph.py:64-68 | every item kept is a catalogue item with a present type; every catalogue item with a present type is kept |
| Catalog.FilterCatalogConcat | graph.py:64-68 | filtering keeps catalogue order: filtering a concatenation concatenates the filtered parts |
| Catalog.FilterCatalogCount | graph.py:64-68 | each item is kept as many times as the catalogue lists it if its type is present, and dropped otherwise |
| Catalog.AcceptedParms | graph.py:59-69 | the loop returns exactly the catalogue items whose type occurs among the records' types, in catalogue order |
| Catalog.AcceptedExactlyPresentTypes | graph.py:60-65 | a catalogue item is kept if and only if some record has its type |
| Session.NodeGraph.constructor | graph.py:22 | the list is created empty, once, when the module is loaded, and satisfies both invariants |
| Session.NodeGraph.CreateNode | graph.py:74-100 | the new list is the old list plus `NewNode` (name, type, `location + "/" + name`, no inputs, no parameters) at the end; the reply carries that path; both invariants are kept |
| Session.NodeGraph.AppendInput | graph.py:41-45 | the new list is the old list with the input appended to the first record with the target name; given an input whose path is absent or names a record, both invariants are kept |
| Session.NodeGraph.WiringNodes | graph.py:104-128 | appends `{index, path of source or None}` to the first target record; a missing target changes nothing; the reply is always "wired" |
| Session.NodeGraph.ParameterUpdate | graph.py:131-150 | upserts the key on the first matching record and replies "updated"; with no match, the list is unchanged and the reply is not-found |
| Session.NodeGraph.TakeSnapshotAndClear | graph.py:342-345 | returns the list as it was and leaves it empty, for the next session |
| Session.BoxIntoTransform | graph.py:89-149 | box1 and xform1 under /obj/geo1, wired at 0, with scale 2: the snapshot is exactly those two records, and xform1's inputs are `[{0, "/obj/geo1/box1"}]` |
| Session.WireBeforeCreate | graph.py:121-127 | wiring from a not-yet-created source records a wire with no path, and it stays without a path after the source is created |

## Left out

- Model construction, the prompt texts and the react-agent invocations in `run_agent`: these are calls into a language model through foreign libraries. `run_agent` is modelled only at its end, the copy-then-clear.
- `graph_structure_rem`: it returns its argument unchanged and only feeds a prompt.
- Loading the catalogue from `houdini_node_docs_all.json`: the catalogue is a parameter, a sequence of `(type, parameters)` items. The parameter descriptions are modelled as strings, because they are only passed through.
- The text of the tools' reply messages: a `Reply` datatype carries the same facts (name, type, path, index, value). The Python formatting of values is not modelled.
- Parameter values outside number, boolean, string and numeric tuple: the tool accepts any value. Python ints and floats are both modelled as one `real` number.
- Python dict key order: `parameters` is a Dafny `map`, so the insertion order of keys is not modelled.
- Sessions that end in an exception: if `node_agent.invoke` or `parameter_agent.invoke` (graph.py:327, graph.py:340) raises, the copy-and-clear at graph.py:342-343 is skipped. The records then stay in `final_data` and the next `run_agent` starts with them. The model only has the normal end of a session, `TakeSnapshotAndClear`. `Valid()` still holds in the carried-over list, but the model does not say that every session starts empty.
- Concurrent tool calls: the react agent's tool node may run the several tool calls of one model reply concurrently (a thread pool in the agent library, outside `graph.py`). The model runs each tool as one atomic step, in call order. It does not capture interleavings inside a tool. For example, `wiring_nodes("s", 0, "t")` can do its lookup (graph.py:122) before concurrent `create_node("s")` and `create_node("t")` calls, and its append (graph.py:127) after them. That yields `[s, t with {0, None}]`, which no sequential order of the three calls produces.
- Aliasing: the list returned at the end of a session shares its record objects with the list that is cleared. No code edits them afterwards, so the records are modelled as values.
- `main.py` (Neo4j projection, HTTP endpoint, question answering) and `houdini.py` (scene extraction and materialisation through the Houdini host module) are not part of this model.
