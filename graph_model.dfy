/** The node records that the agent's tools accumulate, the first-match
    lookup by name that every tool uses, and the two record edits
    (append a wiring record, upsert a parameter) as functions on the list. */
module GraphModel {

  datatype Option<+T> = None | Some(value: T)

  /** A parameter value. The tools accept any value; the ones a scene
      parameter can hold are a number, a boolean, a string or a numeric tuple. */
  datatype Value =
    | Number(x: real)
    | Boolean(b: bool)
    | Text(s: string)
    | NumTuple(xs: seq<real>)

  /** One wiring record `{index, path}`; `path` is None when the source
      node was not found at wiring time. */
  datatype Wire = Wire(index: int, path: Option<string>)

  /** One node record `{name, type, path, inputs, parameters}`. */
  datatype Node = Node(
    name: string,
    nodeType: string,
    path: string,
    inputs: seq<Wire>,
    parameters: map<string, Value>)

  /** What each tool answers its caller (the text of the message is not modelled). */
  datatype Reply =
    | Created(name: string, nodeType: string, path: string)
    | Wired(source: string, target: string, index: int)
    | Updated(parameter: string, node: string, value: Value)
    | NotFound(node: string)

  /** The path every created node receives: `{location}/{name}`. */
  function ChildPath(location: string, name: string): string {
    location + "/" + name
  }

  /** The record `create_node` appends: given name and type, derived path,
      no inputs, no parameters. */
  function NewNode(name: string, nodeType: string, location: string): Node {
    Node(name, nodeType, ChildPath(location, name), [], map[])
  }

  /** The position of the first record whose name is `name`, if any. */
  function FirstIndexOf(nodes: seq<Node>, name: string): (r: Option<nat>)
    ensures r.None? <==> forall i :: 0 <= i < |nodes| ==> nodes[i].name != name
    ensures r.Some? ==>
      && r.value < |nodes|
      && nodes[r.value].name == name
      && forall j :: 0 <= j < r.value ==> nodes[j].name != name
  {
    if nodes == [] then None
    else if nodes[0].name == name then Some(0)
    else match FirstIndexOf(nodes[1..], name)
      case None => None
      case Some(k) => Some(k + 1)
  }

  /** The path of the first record named `name`, or None. */
  function PathOf(nodes: seq<Node>, name: string): (r: Option<string>)
    ensures r.None? <==> forall i :: 0 <= i < |nodes| ==> nodes[i].name != name
    ensures r.Some? ==> exists i ::
      && 0 <= i < |nodes|
      && nodes[i].name == name
      && r.value == nodes[i].path
      && forall j :: 0 <= j < i ==> nodes[j].name != name
  {
    match FirstIndexOf(nodes, name)
    case None => None
    case Some(k) => Some(nodes[k].path)
  }

  /** `get_path_by_name`: scan the records in order and return the path of
      the first one with the wanted name. */
  method GetPathByName(data: seq<Node>, targetName: string) returns (path: Option<string>)
    ensures path == PathOf(data, targetName)
  {
    var i := 0;
    while i < |data|
      invariant 0 <= i <= |data|
      invariant forall j :: 0 <= j < i ==> data[j].name != targetName
    {
      if data[i].name == targetName {
        return Some(data[i].path);
      }
      i := i + 1;
    }
    return None;
  }

  /** The list after `w` is appended to the inputs of the first record
      named `target`. */
  function WithInput(nodes: seq<Node>, target: string, w: Wire): (r: seq<Node>)
    ensures |r| == |nodes|
    ensures FirstIndexOf(nodes, target).None? ==> r == nodes
    ensures FirstIndexOf(nodes, target).Some? ==>
      var k := FirstIndexOf(nodes, target).value;
      && r[k] == nodes[k].(inputs := nodes[k].inputs + [w])
      && forall j :: 0 <= j < |nodes| && j != k ==> r[j] == nodes[j]
  {
    if nodes == [] then []
    else if nodes[0].name == target then [nodes[0].(inputs := nodes[0].inputs + [w])] + nodes[1..]
    else [nodes[0]] + WithInput(nodes[1..], target, w)
  }

  /** The list after `parameters[key] := v` on the first record named `name`. */
  function WithParameter(nodes: seq<Node>, name: string, key: string, v: Value): (r: seq<Node>)
    ensures |r| == |nodes|
    ensures FirstIndexOf(nodes, name).None? ==> r == nodes
    ensures FirstIndexOf(nodes, name).Some? ==>
      var k := FirstIndexOf(nodes, name).value;
      && r[k] == nodes[k].(parameters := nodes[k].parameters[key := v])
      && forall j :: 0 <= j < |nodes| && j != k ==> r[j] == nodes[j]
  {
    if nodes == [] then []
    else if nodes[0].name == name then [nodes[0].(parameters := nodes[0].parameters[key := v])] + nodes[1..]
    else [nodes[0]] + WithParameter(nodes[1..], name, key, v)
  }

  /** Names, types and paths of the records, in order: the part of the
      list that neither wiring nor parameter updates may touch. */
  function Skeleton(nodes: seq<Node>): seq<(string, string, string)> {
    seq(|nodes|, i requires 0 <= i < |nodes| => (nodes[i].name, nodes[i].nodeType, nodes[i].path))
  }

  /** A path ends in `/` followed by the record's own name. */
  predicate NamedPath(n: Node) {
    |n.path| > |n.name| && n.path[|n.path| - |n.name| - 1..] == "/" + n.name
  }

  /** Every record's path ends in its own name: true of every record
      `create_node` makes, and no other tool changes names or paths. */
  ghost predicate PathsEndInNames(nodes: seq<Node>) {
    forall i :: 0 <= i < |nodes| ==> NamedPath(nodes[i])
  }

  /** The set of paths the records carry. */
  function PathSet(nodes: seq<Node>): set<string> {
    set i | 0 <= i < |nodes| :: nodes[i].path
  }

  /** Every wiring record that names a source path names the path of a
      record in the list. */
  ghost predicate WiresResolve(nodes: seq<Node>) {
    forall i, j ::
      0 <= i < |nodes| && 0 <= j < |nodes[i].inputs| && nodes[i].inputs[j].path.Some? ==>
        nodes[i].inputs[j].path.value in PathSet(nodes)
  }

  /** A created record's path ends in `/` followed by its name. */
  lemma NewNodeNamedPath(name: string, nodeType: string, location: string)
    ensures NamedPath(NewNode(name, nodeType, location))
  {
  }

  /** Looking a name up after a record is appended: an earlier record with
      that name still wins; otherwise the new record is found. */
  lemma {:induction false} FirstIndexOfAppend(nodes: seq<Node>, n: Node, name: string)
    ensures FirstIndexOf(nodes + [n], name) ==
      if FirstIndexOf(nodes, name).Some? then FirstIndexOf(nodes, name)
      else if n.name == name then Some(|nodes|)
      else None
  {
    if nodes != [] {
      assert (nodes + [n])[1..] == nodes[1..] + [n];
      FirstIndexOfAppend(nodes[1..], n, name);
    }
  }

  /** A freshly created node, whose name was unused, is found by name at
      exactly `{location}/{name}`. */
  lemma CreateThenLookup(nodes: seq<Node>, name: string, nodeType: string, location: string)
    requires forall i :: 0 <= i < |nodes| ==> nodes[i].name != name
    ensures PathOf(nodes + [NewNode(name, nodeType, location)], name) == Some(location + "/" + name)
  {
    FirstIndexOfAppend(nodes, NewNode(name, nodeType, location), name);
  }

  /** Creating a node whose name is already taken does not change what the
      name resolves to: the new record can never be found by name. */
  lemma CreateDuplicateIsShadowed(nodes: seq<Node>, name: string, nodeType: string, location: string)
    requires exists i :: 0 <= i < |nodes| && nodes[i].name == name
    ensures PathOf(nodes + [NewNode(name, nodeType, location)], name) == PathOf(nodes, name)
  {
    FirstIndexOfAppend(nodes, NewNode(name, nodeType, location), name);
  }

  /** Wiring and parameter edits never change a record's name, type or path. */
  lemma WithInputKeepsSkeleton(nodes: seq<Node>, target: string, w: Wire)
    ensures Skeleton(WithInput(nodes, target, w)) == Skeleton(nodes)
  {
  }

  lemma WithParameterKeepsSkeleton(nodes: seq<Node>, name: string, key: string, v: Value)
    ensures Skeleton(WithParameter(nodes, name, key, v)) == Skeleton(nodes)
  {
  }

  /** `parameter_update` is idempotent: applying it twice with the same
      arguments gives the same list as applying it once. */
  lemma {:induction false} WithParameterIdempotent(nodes: seq<Node>, name: string, key: string, v: Value)
    ensures WithParameter(WithParameter(nodes, name, key, v), name, key, v) == WithParameter(nodes, name, key, v)
  {
    if nodes != [] && nodes[0].name != name {
      var r := WithParameter(nodes, name, key, v);
      WithParameterIdempotent(nodes[1..], name, key, v);
      assert r[1..] == WithParameter(nodes[1..], name, key, v);
    } else if nodes != [] {
      var n := nodes[0].(parameters := nodes[0].parameters[key := v]);
      assert n.parameters[key := v] == n.parameters;
      assert WithParameter(nodes, name, key, v) == [n] + nodes[1..];
    }
  }

  /** Every record keeps the path suffix invariant under wiring. */
  lemma WithInputKeepsPaths(nodes: seq<Node>, target: string, w: Wire)
    requires PathsEndInNames(nodes)
    ensures PathsEndInNames(WithInput(nodes, target, w))
  {
  }

  lemma WithParameterKeepsPaths(nodes: seq<Node>, name: string, key: string, v: Value)
    requires PathsEndInNames(nodes)
    ensures PathsEndInNames(WithParameter(nodes, name, key, v))
  {
  }

  /** Records with equal skeletons carry the same set of paths. */
  lemma SameSkeletonSamePaths(a: seq<Node>, b: seq<Node>)
    requires Skeleton(a) == Skeleton(b)
    ensures PathSet(a) == PathSet(b)
  {
    assert |a| == |Skeleton(a)| == |b|;
    forall p | p in PathSet(a) ensures p in PathSet(b) {
      var i :| 0 <= i < |a| && a[i].path == p;
      assert Skeleton(a)[i] == Skeleton(b)[i];
    }
    forall p | p in PathSet(b) ensures p in PathSet(a) {
      var i :| 0 <= i < |b| && b[i].path == p;
      assert Skeleton(a)[i] == Skeleton(b)[i];
    }
  }

  /** Wiring leaves the set of record paths unchanged, so a wiring path
      that resolved before still resolves afterwards. */
  lemma WithInputKeepsPathSet(nodes: seq<Node>, target: string, w: Wire)
    ensures PathSet(WithInput(nodes, target, w)) == PathSet(nodes)
  {
    WithInputKeepsSkeleton(nodes, target, w);
    SameSkeletonSamePaths(WithInput(nodes, target, w), nodes);
  }

  /** A parameter update leaves the set of record paths unchanged. */
  lemma WithParameterKeepsPathSet(nodes: seq<Node>, name: string, key: string, v: Value)
    ensures PathSet(WithParameter(nodes, name, key, v)) == PathSet(nodes)
  {
    WithParameterKeepsSkeleton(nodes, name, key, v);
    SameSkeletonSamePaths(WithParameter(nodes, name, key, v), nodes);
  }

  /** The path `PathOf` finds is the path of a record in the list. */
  lemma PathOfInPathSet(nodes: seq<Node>, name: string)
    requires PathOf(nodes, name).Some?
    ensures PathOf(nodes, name).value in PathSet(nodes)
  {
  }

  /** Wiring with a source path that is absent or resolves keeps every
      wiring record resolvable. */
  lemma WithInputKeepsWiresResolved(nodes: seq<Node>, target: string, w: Wire)
    requires WiresResolve(nodes)
    requires w.path.Some? ==> w.path.value in PathSet(nodes)
    ensures WiresResolve(WithInput(nodes, target, w))
  {
    var r := WithInput(nodes, target, w);
    WithInputKeepsPathSet(nodes, target, w);
    var k := FirstIndexOf(nodes, target);
    forall i, j | 0 <= i < |r| && 0 <= j < |r[i].inputs| && r[i].inputs[j].path.Some?
      ensures r[i].inputs[j].path.value in PathSet(r)
    {
      if k.Some? && i == k.value && j == |nodes[i].inputs| {
        assert r[i].inputs[j] == w;
      } else if k.Some? && i == k.value {
        assert r[i].inputs[j] == nodes[i].inputs[j];
      } else {
        assert r[i] == nodes[i];
      }
    }
  }

  lemma WithParameterKeepsWiresResolved(nodes: seq<Node>, name: string, key: string, v: Value)
    requires WiresResolve(nodes)
    ensures WiresResolve(WithParameter(nodes, name, key, v))
  {
    var r := WithParameter(nodes, name, key, v);
    WithParameterKeepsPathSet(nodes, name, key, v);
    forall i, j | 0 <= i < |r| && 0 <= j < |r[i].inputs| && r[i].inputs[j].path.Some?
      ensures r[i].inputs[j].path.value in PathSet(r)
    {
      assert r[i].inputs == nodes[i].inputs;
    }
  }

  lemma AppendKeepsWiresResolved(nodes: seq<Node>, n: Node)
    requires WiresResolve(nodes)
    requires n.inputs == []
    ensures WiresResolve(nodes + [n])
  {
    var r := nodes + [n];
    assert PathSet(nodes) <= PathSet(r) by {
      forall p | p in PathSet(nodes) ensures p in PathSet(r) {
        var i :| 0 <= i < |nodes| && nodes[i].path == p;
        assert r[i] == nodes[i];
      }
    }
    forall i, j | 0 <= i < |r| && 0 <= j < |r[i].inputs| && r[i].inputs[j].path.Some?
      ensures r[i].inputs[j].path.value in PathSet(r)
    {
      assert i < |nodes| && r[i] == nodes[i];
    }
  }
}
