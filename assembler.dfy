/** `build_graph` and its three node builders, as the step-by-step
    procedures the source runs: tables filled row by row, a graph and a
    diagnostics stream appended to as the loops go. Each procedure is proved
    to produce exactly what the functions of `SphinxGraph` describe. */
module Assembler {
  import opened Collections
  import opened Strings
  import opened HtmlLike
  import opened Graphviz
  import opened SphinxGraph

  /** `graph.node(id, label=html.html(str(table)), ...)`: the node labelled
      with the table as it stands. */
  method AddLabelNode(id: string, table: Table, graph: Digraph)
    requires table.attrs == LabelTableAttrs
    modifies graph
    ensures graph.nodes == old(graph.nodes) + [LabelNode(id, table.rows)]
    ensures graph.edges == old(graph.edges)
  {
    graph.AddNode(id, TableLabel(table.attrs, table.rows));
  }

  // ---------------------------------------------------------------------
  // An object's calls

  /** The row a call that is not an `exit` adds to the table: its text,
      indented and decorated by kind, in a cell that takes port `port`. */
  method AddCallRow(data: Data, call: Call, indent: int, port: nat, table: Table)
    requires call.kind != Exit
    modifies table
    ensures table.rows == old(table.rows) + [[CallCell(data.objects, call, indent, port)]]
  {
    var isRef := if call.isRef.Some? then call.isRef.value else call.kind == Standard;
    var text := call.text;
    if isRef {
      var objType := call.objType;
      var obj := Get(data.objects, call.text);
      if obj.Some? {
        objType := Some(obj.value.kind);
      }
      text := Path2Name(call.text, objType);
    }
    var indentStr := Spaces(indent * 4);
    var cellAttrs: seq<Attr> := [];
    if call.kind == Enter {
      text := ContextName(call.context) + " " + text + ":";
    } else if call.kind == Emit {
      text := "emit " + text;
      cellAttrs := [("bgcolor", Str("lightblue"))];
    }
    if call.kind == ApplyTransforms {
      cellAttrs := [("bgcolor", Str("lightyellow"))];
    }
    if call.kind == ApplyPostTransforms {
      cellAttrs := [("bgcolor", Str("lightyellow"))];
    }
    text := indentStr + text;
    var cell := Cell(text, [("align", Str("LEFT")), ("port", Str(IntToString(port))), ("border", Int(1))] + cellAttrs);
    assert cell == CallCell(data.objects, call, indent, port);
    table.AddRow([cell]);
  }

  /** The edge from a call's port, or the warning when its target is
      missing, for a call that is not an `exit`. */
  method AddCallLink(data: Data, path: string, call: Call, port: nat, graph: Digraph, diag: Diagnostics)
    requires call.kind != Exit
    modifies graph, diag
    ensures graph.edges == old(graph.edges) + CallEdges(data, path, call, port)
    ensures graph.nodes == old(graph.nodes)
    ensures diag.lines == old(diag.lines) + CallWarnings(data, path, call)
  {
    var isRef := if call.isRef.Some? then call.isRef.value else call.kind == Standard;
    var src := PortRef(path, IntToString(port));
    if call.kind == Standard || call.kind == Enter {
      if isRef {
        if call.text !in Keys(data.objects) {
          if call.warnNoObject {
            diag.Warning(PyRepr(call.text) + " not found, called from " + PyRepr(path));
          }
        } else {
          graph.AddEdge(src, call.text, false);
        }
      }
    } else if call.kind == Emit {
      if call.text !in Keys(data.events) {
        diag.Warning(PyRepr(call.text) + " event not found, called from " + PyRepr(path));
      } else {
        graph.AddEdge(src, call.text, false);
      }
    } else if call.kind == ApplyTransforms {
      graph.AddEdge(src, TransformsId, true);
    } else {
      graph.AddEdge(src, PostTransformsId, true);
    }
  }

  /** One pass of the call loop of `build_graph`: an `exit` only lowers
      `indent`; any other call adds its row, then its edge or warning.
      Returns the new `indent` and `port_num`. */
  method AddCall(data: Data, path: string, call: Call, indent: int, portNum: nat,
                 table: Table, graph: Digraph, diag: Diagnostics)
    returns (indent': int, portNum': nat)
    modifies table, graph, diag
    ensures var out := CallOutput(data, path, call, indent, portNum + 1);
      && table.rows == old(table.rows) + out.rows
      && graph.edges == old(graph.edges) + out.edges
      && graph.nodes == old(graph.nodes)
      && diag.lines == old(diag.lines) + out.warnings
    ensures indent' == indent + (if call.kind == Enter then 1 else if call.kind == Exit then -1 else 0)
    ensures portNum' == portNum + (if call.kind == Exit then 0 else 1)
  {
    if call.kind == Exit {
      return indent - 1, portNum;
    }
    indent' := if call.kind == Enter then indent + 1 else indent;
    portNum' := portNum + 1;
    AddCallRow(data, call, indent, portNum', table);
    AddCallLink(data, path, call, portNum', graph, diag);
  }

  /** The state the call loop keeps: the table rows, edges and warnings
      are what they were before the loop (`before`), then what the first `k`
      calls add. */
  predicate CallsAdded(data: Data, path: string, calls: seq<Call>, k: nat, before: Output,
                       rows: seq<seq<Cell>>, edges: seq<Edge>, lines: seq<string>)
    requires k <= |calls|
  {
    var out := CallsOutput(data, path, calls, k);
    rows == before.rows + out.rows && edges == before.edges + out.edges && lines == before.warnings + out.warnings
  }

  /** One pass of the call loop, in the terms of the loop's state: call `k`
      is added at the depth and port the earlier calls leave. */
  method AddCallAt(data: Data, path: string, calls: seq<Call>, k: nat, indent: int, portNum: nat,
                   ghost before: Output, table: Table, graph: Digraph, diag: Diagnostics)
    returns (indent': int, portNum': nat)
    requires k < |calls| && indent == Indent(calls, k) && portNum == PortCount(calls, k)
    requires CallsAdded(data, path, calls, k, before, table.rows, graph.edges, diag.lines)
    modifies table, graph, diag
    ensures indent' == Indent(calls, k + 1) && portNum' == PortCount(calls, k + 1)
    ensures CallsAdded(data, path, calls, k + 1, before, table.rows, graph.edges, diag.lines)
    ensures graph.nodes == old(graph.nodes)
  {
    CallsOutputStep(data, path, calls, k);
    ThenAppend(before.rows, before.edges, before.warnings,
               CallsOutput(data, path, calls, k), CallOutput(data, path, calls[k], indent, portNum + 1));
    indent', portNum' := AddCall(data, path, calls[k], indent, portNum, table, graph, diag);
  }

  /** The call loop of `build_graph`: `indent` and `port_num` start at 0;
      an `exit` only lowers `indent`. Returns the final `port_num`. */
  method AddCallRows(data: Data, path: string, calls: seq<Call>, table: Table, graph: Digraph, diag: Diagnostics)
    returns (portNum: nat)
    modifies table, graph, diag
    ensures var out := CallsOutput(data, path, calls, |calls|);
      && table.rows == old(table.rows) + out.rows
      && graph.edges == old(graph.edges) + out.edges
      && graph.nodes == old(graph.nodes)
      && diag.lines == old(diag.lines) + out.warnings
    ensures portNum == PortCount(calls, |calls|)
  {
    ghost var before := Output(table.rows, graph.edges, diag.lines);
    var indent := 0;
    portNum := 0;
    var k := 0;
    while k < |calls|
      invariant 0 <= k <= |calls|
      invariant indent == Indent(calls, k) && portNum == PortCount(calls, k)
      invariant CallsAdded(data, path, calls, k, before, table.rows, graph.edges, diag.lines)
      invariant graph.nodes == old(graph.nodes)
    {
      indent, portNum := AddCallAt(data, path, calls, k, indent, portNum, before, table, graph, diag);
      k := k + 1;
    }
  }

  // ---------------------------------------------------------------------
  // An object's overrides

  /** One pass of the override loop of `build_graph`: the row, then the
      edge or warning. Returns the new `port_num`. */
  method AddOverrideRow(data: Data, path: string, kind: ObjType, override: string, portNum: nat,
                        table: Table, graph: Digraph, diag: Diagnostics)
    returns (portNum': nat)
    modifies table, graph, diag
    ensures var out := OverrideOutput(data, path, kind, override, portNum + 1);
      && table.rows == old(table.rows) + out.rows
      && graph.edges == old(graph.edges) + out.edges
      && graph.nodes == old(graph.nodes)
      && diag.lines == old(diag.lines) + out.warnings
    ensures portNum' == portNum + 1
  {
    portNum' := portNum + 1;
    table.AddRow([Cell(Path2Name(override, Some(kind)), [("align", Str("LEFT")), ("border", Int(1)), ("port", Str(IntToString(portNum')))])]);
    assert table.rows == old(table.rows) + [[OverrideCell(kind, override, portNum')]];
    if override !in Keys(data.objects) {
      diag.Warning(PyRepr(override) + " not found, override of " + PyRepr(path));
    } else {
      graph.AddEdge(PortRef(path, IntToString(portNum')), override, true);
    }
  }

  /** The state the override loop keeps: what was there before the loop
      (`before`), then what the first `k` overrides add. */
  predicate OverridesAdded(data: Data, path: string, kind: ObjType, overrides: seq<string>, start: nat, k: nat,
                           before: Output, rows: seq<seq<Cell>>, edges: seq<Edge>, lines: seq<string>)
    requires k <= |overrides|
  {
    var out := OverridesOutput(data, path, kind, overrides, start, k);
    rows == before.rows + out.rows && edges == before.edges + out.edges && lines == before.warnings + out.warnings
  }

  /** One pass of the override loop, in the terms of the loop's state. */
  method AddOverrideAt(data: Data, path: string, kind: ObjType, overrides: seq<string>, start: nat, k: nat,
                       ghost before: Output, table: Table, graph: Digraph, diag: Diagnostics)
    returns (portNum': nat)
    requires k < |overrides|
    requires OverridesAdded(data, path, kind, overrides, start, k, before, table.rows, graph.edges, diag.lines)
    modifies table, graph, diag
    ensures portNum' == start + k + 1
    ensures OverridesAdded(data, path, kind, overrides, start, k + 1, before, table.rows, graph.edges, diag.lines)
    ensures graph.nodes == old(graph.nodes)
  {
    OverridesOutputStep(data, path, kind, overrides, start, k);
    ThenAppend(before.rows, before.edges, before.warnings,
               OverridesOutput(data, path, kind, overrides, start, k),
               OverrideOutput(data, path, kind, overrides[k], start + k + 1));
    portNum' := AddOverrideRow(data, path, kind, overrides[k], start + k, table, graph, diag);
  }

  /** The override loop of `build_graph`, entered with `port_num` at
      `start`. Returns the final `port_num`. */
  method AddOverrideRows(data: Data, path: string, kind: ObjType, overrides: seq<string>, start: nat,
                         table: Table, graph: Digraph, diag: Diagnostics)
    returns (portNum: nat)
    modifies table, graph, diag
    ensures var out := OverridesOutput(data, path, kind, overrides, start, |overrides|);
      && table.rows == old(table.rows) + out.rows
      && graph.edges == old(graph.edges) + out.edges
      && graph.nodes == old(graph.nodes)
      && diag.lines == old(diag.lines) + out.warnings
    ensures portNum == start + |overrides|
  {
    ghost var before := Output(table.rows, graph.edges, diag.lines);
    portNum := start;
    var k := 0;
    while k < |overrides|
      invariant 0 <= k <= |overrides|
      invariant portNum == start + k
      invariant OverridesAdded(data, path, kind, overrides, start, k, before, table.rows, graph.edges, diag.lines)
      invariant graph.nodes == old(graph.nodes)
    {
      portNum := AddOverrideAt(data, path, kind, overrides, start, k, before, table, graph, diag);
      k := k + 1;
    }
  }

  // ---------------------------------------------------------------------
  // An object's node

  /** The name row and, when the object has a description, the description row. */
  method AddHeaderRows(path: string, obj: Object, table: Table)
    modifies table
    ensures table.rows == old(table.rows) + HeaderRows(path, obj)
  {
    table.AddRow([Cell(U(Path2Name(path, Some(obj.kind))), [("align", Str("CENTER"))])]);
    if obj.description != "" {
      table.AddRow([Cell(DocText(obj.description), [("align", Str("LEFT")), ("cellpadding", Int(10))])]);
    }
  }

  /** The call loop, entered only when the object has calls; `port_num`
      keeps the value `portIn` left by the previous objects otherwise. */
  method AddObjectCalls(data: Data, path: string, obj: Object, portIn: PortNum,
                        table: Table, graph: Digraph, diag: Diagnostics)
    returns (port: PortNum)
    modifies table, graph, diag
    ensures var out := CallsOutput(data, path, obj.calls, |obj.calls|);
      && table.rows == old(table.rows) + out.rows
      && graph.edges == old(graph.edges) + out.edges
      && graph.nodes == old(graph.nodes)
      && diag.lines == old(diag.lines) + out.warnings
    ensures port == PortAfterCalls(obj, portIn)
  {
    if |obj.calls| > 0 {
      var portNum := AddCallRows(data, path, obj.calls, table, graph, diag);
      port := Bound(portNum);
    } else {
      port := portIn;
    }
  }

  /** An object's table up to its Overridable row: the header, the calls
      and, when the object has overrides or is overridable, that row. */
  method AddObjectHead(data: Data, path: string, obj: Object, portIn: PortNum,
                       table: Table, graph: Digraph, diag: Diagnostics)
    returns (port: PortNum)
    modifies table, graph, diag
    ensures var out := ObjectHead(data, path, obj);
      && table.rows == old(table.rows) + out.rows
      && graph.edges == old(graph.edges) + out.edges
      && graph.nodes == old(graph.nodes)
      && diag.lines == old(diag.lines) + out.warnings
    ensures port == PortAfterCalls(obj, portIn)
  {
    AddHeaderRows(path, obj, table);
    port := AddObjectCalls(data, path, obj, portIn, table, graph, diag);
    if |obj.overrides| > 0 || obj.overridable {
      table.AddRow(OverridableRow);
    }
    ghost var calls := CallsOutput(data, path, obj.calls, |obj.calls|);
    ConcatAssoc(old(table.rows), HeaderRows(path, obj), calls.rows);
    ConcatAssoc(old(table.rows), HeaderRows(path, obj) + calls.rows, OverridableRows(obj));
  }

  /** The rest of an object's node once `port_num` is bound, or the
      object has no overrides: the override rows, then the node whose label
      is the finished table. Returns `port_num` afterwards. */
  method AddObjectTail(data: Data, path: string, obj: Object, port: PortNum,
                       table: Table, graph: Digraph, diag: Diagnostics)
    returns (portOut: PortNum)
    requires |obj.overrides| == 0 || port.Bound?
    requires table.attrs == LabelTableAttrs
    modifies table, graph, diag
    ensures var start := port.ValueOr0();
      var ovs := OverridesOutput(data, path, obj.kind, obj.overrides, start, |obj.overrides|);
      && graph.nodes == old(graph.nodes) + [LabelNode(path, old(table.rows) + ovs.rows)]
      && graph.edges == old(graph.edges) + ovs.edges
      && diag.lines == old(diag.lines) + ovs.warnings
      && portOut == if |obj.overrides| > 0 then Bound(start + |obj.overrides|) else port
  {
    var start := port.ValueOr0();
    var portNum := AddOverrideRows(data, path, obj.kind, obj.overrides, start, table, graph, diag);
    portOut := if |obj.overrides| > 0 then Bound(portNum) else port;
    AddLabelNode(path, table, graph);
  }

  /** One pass of the object loop of `build_graph`. `portIn` is the value
      `port_num` has on entry (`Unbound`: not yet assigned); the value it has on
      exit is returned, with whether `UnboundLocalError` was raised. */
  method AddObjectNode(data: Data, path: string, obj: Object, portIn: PortNum, graph: Digraph, diag: Diagnostics)
    returns (portOut: PortNum, failed: bool)
    modifies graph, diag
    ensures var r := ObjectOutput(data, path, obj, portIn);
      && graph.nodes == old(graph.nodes) + r.nodes
      && graph.edges == old(graph.edges) + r.edges
      && diag.lines == old(diag.lines) + r.warnings
      && portOut == r.port && failed == r.failed
  {
    ObjectOutputPort(data, path, obj, portIn);
    var table := new Table([], LabelTableAttrs);
    var port := AddObjectHead(data, path, obj, portIn, table, graph, diag);
    ghost var head := ObjectHead(data, path, obj);
    ConcatEmpty(head.rows);
    if |obj.overrides| > 0 && port.Unbound? {
      assert graph.nodes == old(graph.nodes) + [];
      return Unbound, true;
    }
    ghost var ovs := OverridesOutput(data, path, obj.kind, obj.overrides, port.ValueOr0(), |obj.overrides|);
    ConcatAssoc(old(graph.edges), head.edges, ovs.edges);
    ConcatAssoc(old(diag.lines), head.warnings, ovs.warnings);
    portOut := AddObjectTail(data, path, obj, port, table, graph, diag);
    failed := false;
  }

  // ---------------------------------------------------------------------
  // Event, transform and post-transform nodes

  /** One pass of the callback loop of `add_event_node`. */
  method AddCallbackRows(cb: (string, EventCallback), table: Table)
    modifies table
    ensures table.rows == old(table.rows) + CallbackRows(cb)
  {
    var (callbackName, callback) := cb;
    if !callback.hide {
      table.AddRow([NameCell(callbackName), Cell(IntToString(callback.priority), [("align", Str("CENTER")), ("border", Int(1))])]);
      if callback.doc != "" {
        table.AddRow([Cell(DocText(callback.doc), [("align", Str("LEFT")), ("colspan", Int(2))])]);
      }
    }
  }

  /** `add_event_node`. */
  method AddEventNode(name: string, ev: Event, graph: Digraph)
    modifies graph
    ensures graph.nodes == old(graph.nodes) + [EventNode(name, ev)]
    ensures graph.edges == old(graph.edges)
  {
    var table := new Table([], LabelTableAttrs);
    table.AddRow(EventHeaderRow(name));
    var k := 0;
    while k < |ev.callbacks|
      invariant 0 <= k <= |ev.callbacks|
      invariant table.rows == [EventHeaderRow(name)] + FlatMap(CallbackRows, ev.callbacks[..k])
      invariant graph.nodes == old(graph.nodes) && graph.edges == old(graph.edges)
    {
      FlatMapSnoc(CallbackRows, ev.callbacks, k);
      ConcatAssoc([EventHeaderRow(name)], FlatMap(CallbackRows, ev.callbacks[..k]), CallbackRows(ev.callbacks[k]));
      AddCallbackRows(ev.callbacks[k], table);
      k := k + 1;
    }
    assert ev.callbacks[..k] == ev.callbacks;
    AddLabelNode(name, table, graph);
  }

  /** One pass of the loop of `add_transforms_node`: the rows, and the edge
      to the emitted event. */
  method AddTransformRows(nodeId: string, tr: (string, Transform), table: Table, graph: Digraph)
    modifies table, graph
    ensures table.rows == old(table.rows) + TransformRows(tr)
    ensures graph.edges == old(graph.edges) + EmitEdges(nodeId, tr.0, tr.1.hide, tr.1.emit)
    ensures graph.nodes == old(graph.nodes)
  {
    var (trName, trData) := tr;
    if !trData.hide {
      table.AddRow([NameCell(trName), Cell(IntToString(trData.priority), [("align", Str("CENTER")), ("border", Int(1)), ("port", Str(trName))])]);
      if trData.emit.Some? && trData.emit.value != "" {
        graph.AddEdge(PortRef(nodeId, trName), trData.emit.value, false);
      }
      if trData.doc != "" {
        table.AddRow([Cell(DocText(trData.doc), [("align", Str("LEFT")), ("colspan", Int(2))])]);
      }
    }
  }

  /** The loop of `add_transforms_node`. */
  method AddTransformsRows(nodeId: string, trs: seq<(string, Transform)>, table: Table, graph: Digraph)
    modifies table, graph
    ensures table.rows == old(table.rows) + FlatMap(TransformRows, trs)
    ensures graph.edges == old(graph.edges) + TransformsEdges(nodeId, trs, |trs|)
    ensures graph.nodes == old(graph.nodes)
  {
    var k := 0;
    while k < |trs|
      invariant 0 <= k <= |trs|
      invariant table.rows == old(table.rows) + FlatMap(TransformRows, trs[..k])
      invariant graph.edges == old(graph.edges) + TransformsEdges(nodeId, trs, k)
      invariant graph.nodes == old(graph.nodes)
    {
      FlatMapSnoc(TransformRows, trs, k);
      ConcatAssoc(old(table.rows), FlatMap(TransformRows, trs[..k]), TransformRows(trs[k]));
      ConcatAssoc(old(graph.edges), TransformsEdges(nodeId, trs, k), EmitEdges(nodeId, trs[k].0, trs[k].1.hide, trs[k].1.emit));
      AddTransformRows(nodeId, trs[k], table, graph);
      k := k + 1;
    }
    assert trs[..k] == trs;
  }

  /** `add_transforms_node`. */
  method AddTransformsNode(data: Data, graph: Digraph, nodeId: string)
    modifies graph
    ensures graph.nodes == old(graph.nodes) + [TransformsNode(nodeId, data.transforms)]
    ensures graph.edges == old(graph.edges) + TransformsEdges(nodeId, data.transforms, |data.transforms|)
  {
    var table := new Table([], LabelTableAttrs);
    table.AddRow(TransformsHeaderRow());
    assert table.rows == [TransformsHeaderRow()];
    AddTransformsRows(nodeId, data.transforms, table, graph);
    assert table.rows == [TransformsHeaderRow()] + FlatMap(TransformRows, data.transforms);
    AddLabelNode(nodeId, table, graph);
  }


  /** One pass of the loop of `add_post_transforms_node`: the rows, and the
      edge to the emitted event. */
  method AddPostTransformRows(nodeId: string, tr: (string, PostTransform), table: Table, graph: Digraph)
    modifies table, graph
    ensures table.rows == old(table.rows) + PostTransformRows(tr)
    ensures graph.edges == old(graph.edges) + EmitEdges(nodeId, tr.0, tr.1.hide, tr.1.emit)
    ensures graph.nodes == old(graph.nodes)
  {
    var (trName, trData) := tr;
    if !trData.hide {
      table.AddRow([NameCell(trName), Cell(Join(",", trData.formats + trData.builders), [("align", Str("LEFT")), ("border", Int(1)), ("port", Str(trName))])]);
      if trData.emit.Some? && trData.emit.value != "" {
        graph.AddEdge(PortRef(nodeId, trName), trData.emit.value, false);
      }
      if trData.doc != "" {
        table.AddRow([Cell(DocText(trData.doc), [("align", Str("LEFT")), ("colspan", Int(3))])]);
      }
    }
  }

  /** The loop of `add_post_transforms_node`. */
  method AddPostTransformsRows(nodeId: string, trs: seq<(string, PostTransform)>, table: Table, graph: Digraph)
    modifies table, graph
    ensures table.rows == old(table.rows) + FlatMap(PostTransformRows, trs)
    ensures graph.edges == old(graph.edges) + PostTransformsEdges(nodeId, trs, |trs|)
    ensures graph.nodes == old(graph.nodes)
  {
    var k := 0;
    while k < |trs|
      invariant 0 <= k <= |trs|
      invariant table.rows == old(table.rows) + FlatMap(PostTransformRows, trs[..k])
      invariant graph.edges == old(graph.edges) + PostTransformsEdges(nodeId, trs, k)
      invariant graph.nodes == old(graph.nodes)
    {
      FlatMapSnoc(PostTransformRows, trs, k);
      ConcatAssoc(old(table.rows), FlatMap(PostTransformRows, trs[..k]), PostTransformRows(trs[k]));
      ConcatAssoc(old(graph.edges), PostTransformsEdges(nodeId, trs, k), EmitEdges(nodeId, trs[k].0, trs[k].1.hide, trs[k].1.emit));
      AddPostTransformRows(nodeId, trs[k], table, graph);
      k := k + 1;
    }
    assert trs[..k] == trs;
  }

  /** `add_post_transforms_node`. */
  method AddPostTransformsNode(data: Data, graph: Digraph, nodeId: string)
    modifies graph
    ensures graph.nodes == old(graph.nodes) + [PostTransformsNode(nodeId, data.postTransforms)]
    ensures graph.edges == old(graph.edges) + PostTransformsEdges(nodeId, data.postTransforms, |data.postTransforms|)
  {
    var table := new Table([], LabelTableAttrs);
    table.AddRow(PostTransformsHeaderRow());
    assert table.rows == [PostTransformsHeaderRow()];
    AddPostTransformsRows(nodeId, data.postTransforms, table, graph);
    assert table.rows == [PostTransformsHeaderRow()] + FlatMap(PostTransformRows, data.postTransforms);
    AddLabelNode(nodeId, table, graph);
  }


  // ---------------------------------------------------------------------
  // The whole graph

  /** The event loop of `build_graph`: one node per event, in order. */
  method AddEventNodes(events: seq<(string, Event)>, graph: Digraph)
    modifies graph
    ensures graph.nodes == old(graph.nodes) + EventNodes(events, |events|)
    ensures graph.edges == old(graph.edges)
  {
    var k := 0;
    while k < |events|
      invariant 0 <= k <= |events|
      invariant graph.nodes == old(graph.nodes) + EventNodes(events, k)
      invariant graph.edges == old(graph.edges)
    {
      ConcatAssoc(old(graph.nodes), EventNodes(events, k), [EventNode(events[k].0, events[k].1)]);
      AddEventNode(events[k].0, events[k].1, graph);
      k := k + 1;
    }
  }

  /** The object loop of `build_graph`. Returns whether an object raised
      `UnboundLocalError`, which ends the loop. */
  method AddObjectNodes(data: Data, graph: Digraph, diag: Diagnostics) returns (failed: bool)
    modifies graph, diag
    ensures var b := ObjectsFrom(data, data.objects, 0, Unbound);
      && graph.nodes == old(graph.nodes) + b.nodes
      && graph.edges == old(graph.edges) + b.edges
      && diag.lines == old(diag.lines) + b.warnings
      && failed == b.failed
  {
    var portNum: PortNum := Unbound;
    var objs := data.objects;
    ghost var all := ObjectsFrom(data, objs, 0, Unbound);
    var i := 0;
    while i < |objs|
      invariant 0 <= i <= |objs|
      invariant var rest := ObjectsFrom(data, objs, i, portNum);
        && graph.nodes + rest.nodes == old(graph.nodes) + all.nodes
        && graph.edges + rest.edges == old(graph.edges) + all.edges
        && diag.lines + rest.warnings == old(diag.lines) + all.warnings
        && rest.failed == all.failed
    {
      ghost var r := ObjectOutput(data, objs[i].0, objs[i].1, portNum);
      ghost var rest := ObjectsFrom(data, objs, i + 1, r.port);
      ConcatAssoc(graph.nodes, r.nodes, rest.nodes);
      ConcatAssoc(graph.edges, r.edges, rest.edges);
      ConcatAssoc(diag.lines, r.warnings, rest.warnings);
      portNum, failed := AddObjectNode(data, objs[i].0, objs[i].1, portNum, graph, diag);
      if failed {
        return;
      }
      i := i + 1;
    }
    failed := false;
  }

  /** `build_graph`: one node per object, in order, then one per event,
      then the transforms and post-transforms pseudo-nodes; warnings go to
      `diag`. */
  method BuildGraph(data: Data, diag: Diagnostics) returns (graph: Digraph, outcome: Outcome)
    modifies diag
    ensures fresh(graph)
    ensures graph.comment == data.comment && graph.graphAttr == [("rankdir", "LR")]
    ensures var b := GraphSpec(data);
      && graph.nodes == b.nodes
      && graph.edges == b.edges
      && diag.lines == old(diag.lines) + b.warnings
      && outcome == (if b.failed then UnboundLocalError("port_num") else Completed)
  {
    graph := new Digraph(data.comment, [("rankdir", "LR")]);
    var failed := AddObjectNodes(data, graph, diag);
    ghost var b := ObjectsFrom(data, data.objects, 0, Unbound);
    assert graph.nodes == b.nodes && graph.edges == b.edges;
    if failed {
      outcome := UnboundLocalError("port_num");
      return;
    }
    AddEventNodes(data.events, graph);
    AddTransformsNode(data, graph, TransformsId);
    AddPostTransformsNode(data, graph, PostTransformsId);
    outcome := Completed;
  }
}
