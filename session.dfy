/** The shared node list that the agent's tools edit during one session,
    and the end of a session, which hands the list over and empties it. */
module Session {
  import opened GraphModel

  class NodeGraph {
    /** The accumulated node records, in creation order. */
    var nodes: seq<Node>

    /** Every record's path ends in its own name, and every wiring record
        that names a source path names the path of a record in the list. */
    ghost predicate Valid()
      reads this
    {
      PathsEndInNames(nodes) && WiresResolve(nodes)
    }

    /** The list as the module creates it: no records. */
    constructor ()
      ensures Valid() && nodes == []
    {
      nodes := [];
    }

    /** `create_node`: append a record with the given name and type, path
        `{location}/{name}`, no inputs and no parameters. Neither the name
        nor the type is checked. */
    method CreateNode(nodeName: string, nodeType: string, location: string) returns (reply: Reply)
      requires Valid()
      modifies this
      ensures Valid()
      ensures nodes == old(nodes) + [NewNode(nodeName, nodeType, location)]
      ensures reply == Created(nodeName, nodeType, NewNode(nodeName, nodeType, location).path)
    {
      var path := location + "/" + nodeName;
      var temp := Node(nodeName, nodeType, path, [], map[]);
      NewNodeNamedPath(nodeName, nodeType, location);
      AppendKeepsWiresResolved(nodes, temp);
      nodes := nodes + [temp];
      reply := Created(nodeName, nodeType, path);
    }

    /** `append_input`: append `input` to the inputs of the first record
        named `targetName`; nothing changes when there is none. */
    method AppendInput(targetName: string, input: Wire)
      requires Valid()
      requires input.path.Some? ==> input.path.value in PathSet(nodes)
      modifies this
      ensures Valid()
      ensures nodes == WithInput(old(nodes), targetName, input)
    {
      WithInputKeepsPaths(nodes, targetName, input);
      WithInputKeepsWiresResolved(nodes, targetName, input);
      var i := 0;
      while i < |nodes|
        invariant 0 <= i <= |nodes|
        invariant nodes == old(nodes)
        invariant forall j :: 0 <= j < i ==> nodes[j].name != targetName
      {
        if nodes[i].name == targetName {
          nodes := nodes[i := nodes[i].(inputs := nodes[i].inputs + [input])];
          assert nodes == WithInput(old(nodes), targetName, input);
          return;
        }
        i := i + 1;
      }
    }

    /** `wiring_nodes`: record `{index, path of the source}` on the target.
        A missing source gives a record with no path; a missing target
        changes nothing; the reply is the same either way. */
    method WiringNodes(sourceNode: string, inputIndex: int, targetNode: string) returns (reply: Reply)
      requires Valid()
      modifies this
      ensures Valid()
      ensures nodes == WithInput(old(nodes), targetNode, Wire(inputIndex, PathOf(old(nodes), sourceNode)))
      ensures reply == Wired(sourceNode, targetNode, inputIndex)
    {
      var path := GetPathByName(nodes, sourceNode);
      var temp := Wire(inputIndex, path);
      if path.Some? {
        PathOfInPathSet(nodes, sourceNode);
      }
      AppendInput(targetNode, temp);
      reply := Wired(sourceNode, targetNode, inputIndex);
    }

    /** `parameter_update`: set `parameters[parameterName] := value` on the
        first record named `nodeName`, or report that there is none. */
    method ParameterUpdate(nodeName: string, parameterName: string, value: Value) returns (reply: Reply)
      requires Valid()
      modifies this
      ensures Valid()
      ensures nodes == WithParameter(old(nodes), nodeName, parameterName, value)
      ensures reply == if FirstIndexOf(old(nodes), nodeName).Some?
        then Updated(parameterName, nodeName, value)
        else NotFound(nodeName)
    {
      WithParameterKeepsPaths(nodes, nodeName, parameterName, value);
      WithParameterKeepsWiresResolved(nodes, nodeName, parameterName, value);
      var i := 0;
      while i < |nodes|
        invariant 0 <= i <= |nodes|
        invariant nodes == old(nodes)
        invariant forall j :: 0 <= j < i ==> nodes[j].name != nodeName
      {
        if nodeName == nodes[i].name {
          nodes := nodes[i := nodes[i].(parameters := nodes[i].parameters[parameterName := value])];
          assert nodes == WithParameter(old(nodes), nodeName, parameterName, value);
          return Updated(parameterName, nodeName, value);
        }
        i := i + 1;
      }
      return NotFound(nodeName);
    }

    /** The end of `run_agent`: hand back a copy of the records and clear
        the shared list for the next session. */
    method TakeSnapshotAndClear() returns (snapshot: seq<Node>)
      modifies this
      ensures snapshot == old(nodes)
      ensures nodes == [] && Valid()
    {
      snapshot := nodes;
      nodes := [];
    }
  }

  /** A session that creates `box1` and `xform1` under `/obj/geo1`, wires
      `box1` into input 0 of `xform1` and sets `xform1.scale` to 2 hands
      back exactly these two records. */
  method BoxIntoTransform() returns (snapshot: seq<Node>)
    ensures snapshot == [
      Node("box1", "box", "/obj/geo1/box1", [], map[]),
      Node("xform1", "xform", "/obj/geo1/xform1",
        [Wire(0, Some("/obj/geo1/box1"))], map["scale" := Number(2.0)])]
  {
    var box := Node("box1", "box", "/obj/geo1/box1", [], map[]);
    var xform := Node("xform1", "xform", "/obj/geo1/xform1", [], map[]);
    assert ChildPath("/obj/geo1", "box1") == box.path;
    assert ChildPath("/obj/geo1", "xform1") == xform.path;
    var g := new NodeGraph();
    var _ := g.CreateNode("box1", "box", "/obj/geo1");
    assert g.nodes == [box];
    var _ := g.CreateNode("xform1", "xform", "/obj/geo1");
    assert g.nodes == [box, xform];
    assert PathOf([box, xform], "box1") == Some("/obj/geo1/box1");
    assert FirstIndexOf([box, xform], "xform1") == Some(1);
    var _ := g.WiringNodes("box1", 0, "xform1");
    var wired := xform.(inputs := [Wire(0, Some("/obj/geo1/box1"))]);
    assert |g.nodes| == 2 && g.nodes[0] == box;
    assert xform.inputs + [Wire(0, Some("/obj/geo1/box1"))] == wired.inputs;
    assert g.nodes[1] == wired;
    assert g.nodes == [box, wired];
    assert FirstIndexOf([box, wired], "xform1") == Some(1);
    var _ := g.ParameterUpdate("xform1", "scale", Number(2.0));
    snapshot := g.TakeSnapshotAndClear();
  }

  /** Wiring from a source that does not exist yet records no path, and
      creating the source afterwards does not fill it in. */
  method WireBeforeCreate() returns (snapshot: seq<Node>)
    ensures snapshot == [
      Node("xform1", "xform", "/obj/geo1/xform1", [Wire(0, None)], map[]),
      Node("box1", "box", "/obj/geo1/box1", [], map[])]
  {
    var box := Node("box1", "box", "/obj/geo1/box1", [], map[]);
    var xform := Node("xform1", "xform", "/obj/geo1/xform1", [], map[]);
    assert ChildPath("/obj/geo1", "box1") == box.path;
    assert ChildPath("/obj/geo1", "xform1") == xform.path;
    var g := new NodeGraph();
    var _ := g.CreateNode("xform1", "xform", "/obj/geo1");
    assert g.nodes == [xform];
    assert PathOf([xform], "box1") == None;
    assert FirstIndexOf([xform], "xform1") == Some(0);
    var _ := g.WiringNodes("box1", 0, "xform1");
    assert xform.inputs + [Wire(0, None)] == [Wire(0, None)];
    assert g.nodes == [xform.(inputs := [Wire(0, None)])];
    var _ := g.CreateNode("box1", "box", "/obj/geo1");
    snapshot := g.TakeSnapshotAndClear();
  }
}
