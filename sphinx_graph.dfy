/** The graph assembler: turns a parsed description of a Sphinx build
    (objects and the calls they make, events, transforms and post-transforms)
    into graph nodes with HTML-like labels, edges between `node:port`
    anchors and nodes, and warnings for references that do not resolve.

    The first half gives the input data model and, as functions, what the
    assembler produces; the second half is the assembler itself, written as
    the step-by-step procedure the source runs, and proved to produce
    exactly that. */
module SphinxGraph {
  import opened Collections
  import opened Strings
  import opened HtmlLike
  import opened Graphviz

  // ---------------------------------------------------------------------
  // Input data model. Every dictionary is a sequence of (key, value) pairs
  // in insertion order.

  datatype ObjType = Function | Method

  datatype CallType = Standard | Enter | Exit | Emit | ApplyTransforms | ApplyPostTransforms

  datatype Context = For | With | If | Elif | Else | Fork

  /** A call from one object to another, or a block boundary. */
  datatype Call = Call(
    text: string,
    kind: CallType,
    isRef: Option<bool>,
    context: Option<Context>,
    objType: Option<ObjType>,
    warnNoObject: bool)

  /** A Python object (function or method) and the calls in its body. */
  datatype Object = Object(
    description: string,
    kind: ObjType,
    calls: seq<Call>,
    overridable: bool,
    overrides: seq<string>)

  datatype EventCallback = EventCallback(priority: int, doc: string, hide: bool)

  datatype Event = Event(callbacks: seq<(string, EventCallback)>)

  datatype Transform = Transform(priority: int, hide: bool, doc: string, emit: Option<string>)

  datatype PostTransform = PostTransform(
    priority: int,
    formats: seq<string>,
    builders: seq<string>,
    hide: bool,
    doc: string,
    emit: Option<string>)

  datatype Data = Data(
    comment: string,
    objects: seq<(string, Object)>,
    events: seq<(string, Event)>,
    transforms: seq<(string, Transform)>,
    postTransforms: seq<(string, PostTransform)>)

  /** How `build_graph` ends: it returns the graph, or raises
      `UnboundLocalError` when an override needs `port_num` before any
      object with calls has bound it. */
  datatype Outcome = Completed | UnboundLocalError(variable: string)

  const TransformsId := "_apply_transforms"
  const PostTransformsId := "_apply_post_transforms"

  /** `html.Table(border=0, cellspacing=0)`, used for every label. */
  const LabelTableAttrs: seq<Attr> := [("border", Int(0)), ("cellspacing", Int(0))]

  // ---------------------------------------------------------------------
  // Diagnostics

  /** The line `warning(message)` writes. */
  function WarningLine(message: string): string
  {
    "Warning: " + message
  }

  /** The diagnostics stream (standard error in the source): the lines
      written so far. */
  class Diagnostics {
    var lines: seq<string>

    constructor ()
      ensures lines == []
    {
      lines := [];
    }

    /** `warning(message)`. */
    method Warning(message: string)
      modifies this
      ensures lines == old(lines) + [WarningLine(message)]
    {
      lines := lines + [WarningLine(message)];
    }
  }

  // ---------------------------------------------------------------------
  // Display names

  /** `path2name`: a method with a dotted path shows as `Class.meth()`, any
      other function or method as `name()`, anything else unchanged. */
  function Path2Name(path: string, kind: Option<ObjType>): string
  {
    var parts := Split(path, '.');
    if kind == Some(Method) && |parts| > 1 then parts[|parts| - 2] + "." + parts[|parts| - 1] + "()"
    else if kind.Some? then parts[|parts| - 1] + "()"
    else path
  }

  /** A leading `sphinx.` is dropped from displayed callback and transform names. */
  function StripSphinx(name: string): string
  {
    if StartsWith(name, "sphinx.") then name[|"sphinx."|..] else name
  }

  /** Documentation text with each newline turned into a left-aligned break. */
  function DocText(doc: string): string
  {
    ReplaceChar(doc, '\n', Br(Some(Left)))
  }

  /** `f"{node}:{port}"`: an edge end at a port of a node's label. */
  function PortRef(node: string, port: string): string
  {
    node + ":" + port
  }

  // ---------------------------------------------------------------------
  // One call

  /** The explicit `is_ref`, or by default whether the call is `standard`. */
  function EffectiveIsRef(c: Call): bool
  {
    if c.isRef.Some? then c.isRef.value else c.kind == Standard
  }

  /** The kind used to display a referenced target: a known object's own
      kind wins over the call's `obj_type` hint. */
  function TargetKind(objects: seq<(string, Object)>, c: Call): Option<ObjType>
  {
    var target := Get(objects, c.text);
    if target.Some? then Some(target.value.kind) else c.objType
  }

  /** The call's displayed text before indentation and decoration. */
  function CallName(objects: seq<(string, Object)>, c: Call): string
  {
    if EffectiveIsRef(c) then Path2Name(c.text, TargetKind(objects, c)) else c.text
  }

  /** `f"{call.context}"`; a missing context prints as `None`. */
  function ContextName(ctx: Option<Context>): string
  {
    match ctx
    case None => "None"
    case Some(For) => "for"
    case Some(With) => "with"
    case Some(If) => "if"
    case Some(Elif) => "elif"
    case Some(Else) => "else"
    case Some(Fork) => "fork"
  }

  /** The text of the row a (non-`exit`) call gets at nesting depth `indent`. */
  function CallRowText(objects: seq<(string, Object)>, c: Call, indent: int): string
  {
    var name := CallName(objects, c);
    Spaces(indent * 4) + (
      if c.kind == Enter then ContextName(c.context) + " " + name + ":"
      else if c.kind == Emit then "emit " + name
      else name)
  }

  /** The background colour keyword argument a call's cell gets, if any. */
  function CallColor(c: Call): seq<Attr>
  {
    if c.kind == Emit then [("bgcolor", Str("lightblue"))]
    else if c.kind == ApplyTransforms || c.kind == ApplyPostTransforms then [("bgcolor", Str("lightyellow"))]
    else []
  }

  /** The single cell of a call's row, anchored at port `port`. */
  function CallCell(objects: seq<(string, Object)>, c: Call, indent: int, port: nat): Cell
  {
    Cell(CallRowText(objects, c, indent),
         [("align", Str("LEFT")), ("port", Str(IntToString(port))), ("border", Int(1))] + CallColor(c))
  }

  /** What a call's table rows, edges and warnings add up to. */
  datatype Output = Output(rows: seq<seq<Cell>>, edges: seq<Edge>, warnings: seq<string>)
  {
    function Then(next: Output): Output
    {
      Output(rows + next.rows, edges + next.edges, warnings + next.warnings)
    }
  }

  const NoOutput := Output([], [], [])

  function NotFoundWarning(target: string, path: string): string
  {
    WarningLine(PyRepr(target) + " not found, called from " + PyRepr(path))
  }

  function EventNotFoundWarning(target: string, path: string): string
  {
    WarningLine(PyRepr(target) + " event not found, called from " + PyRepr(path))
  }

  /** The row a call adds at depth `indent` with port `port`: none for an
      `exit`. */
  function CallRows(objects: seq<(string, Object)>, c: Call, indent: int, port: nat): seq<seq<Cell>>
  {
    if c.kind == Exit then [] else [[CallCell(objects, c, indent, port)]]
  }

  /** The edge a call draws from its port `port`, if any. */
  function CallEdges(data: Data, path: string, c: Call, port: nat): seq<Edge>
  {
    var src := PortRef(path, IntToString(port));
    match c.kind
    case Exit => []
    case Standard | Enter =>
      if EffectiveIsRef(c) && c.text in Keys(data.objects) then [Edge(src, c.text, false)] else []
    case Emit =>
      if c.text in Keys(data.events) then [Edge(src, c.text, false)] else []
    case ApplyTransforms => [Edge(src, TransformsId, true)]
    case ApplyPostTransforms => [Edge(src, PostTransformsId, true)]
  }

  /** The warning a call gives, if any. */
  function CallWarnings(data: Data, path: string, c: Call): seq<string>
  {
    match c.kind
    case Standard | Enter =>
      if EffectiveIsRef(c) && c.text !in Keys(data.objects) && c.warnNoObject then [NotFoundWarning(c.text, path)] else []
    case Emit =>
      if c.text !in Keys(data.events) then [EventNotFoundWarning(c.text, path)] else []
    case _ => []
  }

  /** What one call contributes when it is processed at depth `indent` and,
      unless it is an `exit`, takes port `port`. */
  function CallOutput(data: Data, path: string, c: Call, indent: int, port: nat): Output
  {
    Output(CallRows(data.objects, c, indent, port), CallEdges(data, path, c, port), CallWarnings(data, path, c))
  }

  // ---------------------------------------------------------------------
  // An object's call sequence. The functions below describe the first `n`
  // elements of a sequence, so that each loop pass adds one element.

  /** How many of the first `n` calls are of kind `k`. */
  function CountKind(calls: seq<Call>, k: CallType, n: nat): (count: nat)
    requires n <= |calls|
    ensures count <= n
  {
    if n == 0 then 0 else CountKind(calls, k, n - 1) + (if calls[n - 1].kind == k then 1 else 0)
  }

  /** The nesting depth after the first `n` calls: blocks entered minus
      blocks exited. Nothing stops it from going negative. */
  function Indent(calls: seq<Call>, n: nat): int
    requires n <= |calls|
  {
    CountKind(calls, Enter, n) - CountKind(calls, Exit, n)
  }

  /** How many of the first `n` calls take a port: all but the `exit`s. */
  function PortCount(calls: seq<Call>, n: nat): nat
    requires n <= |calls|
  {
    n - CountKind(calls, Exit, n)
  }

  /** The rows of the first `n` calls, in order. Call `j` is processed
      at depth `Indent(calls, j)` and, unless it is an `exit`, takes port
      `PortCount(calls, j) + 1`. */
  function RowsOfCalls(objects: seq<(string, Object)>, calls: seq<Call>, n: nat): seq<seq<Cell>>
    requires n <= |calls|
  {
    if n == 0 then []
    else RowsOfCalls(objects, calls, n - 1) + CallRows(objects, calls[n - 1], Indent(calls, n - 1), PortCount(calls, n - 1) + 1)
  }

  /** The edges of the first `n` calls, in order. */
  function EdgesOfCalls(data: Data, path: string, calls: seq<Call>, n: nat): seq<Edge>
    requires n <= |calls|
  {
    if n == 0 then []
    else EdgesOfCalls(data, path, calls, n - 1) + CallEdges(data, path, calls[n - 1], PortCount(calls, n - 1) + 1)
  }

  /** The warnings of the first `n` calls, in order. */
  function WarningsOfCalls(data: Data, path: string, calls: seq<Call>, n: nat): seq<string>
    requires n <= |calls|
  {
    if n == 0 then []
    else WarningsOfCalls(data, path, calls, n - 1) + CallWarnings(data, path, calls[n - 1])
  }

  /** What the first `n` calls contribute, in order. */
  function CallsOutput(data: Data, path: string, calls: seq<Call>, n: nat): Output
    requires n <= |calls|
  {
    Output(RowsOfCalls(data.objects, calls, n), EdgesOfCalls(data, path, calls, n), WarningsOfCalls(data, path, calls, n))
  }

  /** Call `n` adds its own contribution after those of the calls before it. */
  lemma CallsOutputStep(data: Data, path: string, calls: seq<Call>, n: nat)
    requires n < |calls|
    ensures CallsOutput(data, path, calls, n + 1)
         == CallsOutput(data, path, calls, n).Then(CallOutput(data, path, calls[n], Indent(calls, n), PortCount(calls, n) + 1))
  {
  }

  // ---------------------------------------------------------------------
  // Overrides

  const OverridableRow: seq<Cell> := [Cell(I("Overridable"), [("align", Str("LEFT")), ("cellpadding", Int(10))])]

  function OverrideNotFoundWarning(target: string, path: string): string
  {
    WarningLine(PyRepr(target) + " not found, override of " + PyRepr(path))
  }

  /** The cell of an override's row, anchored at port `port`. */
  function OverrideCell(kind: ObjType, ov: string, port: nat): Cell
  {
    Cell(Path2Name(ov, Some(kind)), [("align", Str("LEFT")), ("border", Int(1)), ("port", Str(IntToString(port)))])
  }

  /** The dashed edge an override at port `port` draws when its target is
      a known object. */
  function OverrideEdges(data: Data, path: string, ov: string, port: nat): seq<Edge>
  {
    if ov in Keys(data.objects) then [Edge(PortRef(path, IntToString(port)), ov, true)] else []
  }

  /** The warning an override gives when its target is not a known object. */
  function OverrideWarnings(data: Data, path: string, ov: string): seq<string>
  {
    if ov !in Keys(data.objects) then [OverrideNotFoundWarning(ov, path)] else []
  }

  /** What one override contributes at port `port`; it is displayed with
      the kind of the object that declares it. */
  function OverrideOutput(data: Data, path: string, kind: ObjType, ov: string, port: nat): Output
  {
    Output([[OverrideCell(kind, ov, port)]], OverrideEdges(data, path, ov, port), OverrideWarnings(data, path, ov))
  }

  /** The rows of the first `n` overrides when the port counter stands at
      `start`: override `j` takes port `start + j + 1`. */
  function RowsOfOverrides(kind: ObjType, ovs: seq<string>, start: nat, n: nat): seq<seq<Cell>>
    requires n <= |ovs|
  {
    if n == 0 then [] else RowsOfOverrides(kind, ovs, start, n - 1) + [[OverrideCell(kind, ovs[n - 1], start + n)]]
  }

  /** The edges of the first `n` overrides. */
  function EdgesOfOverrides(data: Data, path: string, ovs: seq<string>, start: nat, n: nat): seq<Edge>
    requires n <= |ovs|
  {
    if n == 0 then [] else EdgesOfOverrides(data, path, ovs, start, n - 1) + OverrideEdges(data, path, ovs[n - 1], start + n)
  }

  /** The warnings of the first `n` overrides. */
  function WarningsOfOverrides(data: Data, path: string, ovs: seq<string>, n: nat): seq<string>
    requires n <= |ovs|
  {
    if n == 0 then [] else WarningsOfOverrides(data, path, ovs, n - 1) + OverrideWarnings(data, path, ovs[n - 1])
  }

  /** What the first `n` overrides contribute, in order. */
  function OverridesOutput(data: Data, path: string, kind: ObjType, ovs: seq<string>, start: nat, n: nat): Output
    requires n <= |ovs|
  {
    Output(RowsOfOverrides(kind, ovs, start, n), EdgesOfOverrides(data, path, ovs, start, n), WarningsOfOverrides(data, path, ovs, n))
  }

  /** Override `n` adds its own contribution after those of the overrides
      before it. */
  lemma OverridesOutputStep(data: Data, path: string, kind: ObjType, ovs: seq<string>, start: nat, n: nat)
    requires n < |ovs|
    ensures OverridesOutput(data, path, kind, ovs, start, n + 1)
         == OverridesOutput(data, path, kind, ovs, start, n).Then(OverrideOutput(data, path, kind, ovs[n], start + n + 1))
  {
  }

  // ---------------------------------------------------------------------
  // An object's node

  /** The name row every object's table starts with. */
  function NameRow(path: string, obj: Object): seq<Cell>
  {
    [Cell(U(Path2Name(path, Some(obj.kind))), [("align", Str("CENTER"))])]
  }

  /** The name row and, when there is a description, the description row. */
  function HeaderRows(path: string, obj: Object): seq<seq<Cell>>
  {
    [NameRow(path, obj)]
    + (if obj.description != "" then [[Cell(DocText(obj.description), [("align", Str("LEFT")), ("cellpadding", Int(10))])]] else [])
  }

  /** The local `port_num` of `build_graph`: never assigned yet, or
      holding a number. */
  datatype PortNum = Unbound | Bound(value: nat)
  {
    /** The number it holds; 0 when unbound, where it is never read. */
    function ValueOr0(): nat
    {
      if Bound? then value else 0
    }
  }

  /** `port_num` after an object's calls: reset and advanced when it has
      calls, otherwise left as the previous object left it. */
  function PortAfterCalls(obj: Object, portIn: PortNum): PortNum
  {
    if |obj.calls| > 0 then Bound(PortCount(obj.calls, |obj.calls|)) else portIn
  }

  /** The Overridable row, present when the object has overrides or is
      marked overridable. */
  function OverridableRows(obj: Object): seq<seq<Cell>>
  {
    if |obj.overrides| > 0 || obj.overridable then [OverridableRow] else []
  }

  /** An object's table up to its Overridable row, with the edges and
      warnings of its calls. */
  function ObjectHead(data: Data, path: string, obj: Object): Output
  {
    var calls := CallsOutput(data, path, obj.calls, |obj.calls|);
    Output(HeaderRows(path, obj) + calls.rows + OverridableRows(obj), calls.edges, calls.warnings)
  }

  /** The node of a label table with the given rows. */
  function LabelNode(id: string, rows: seq<seq<Cell>>): Node
  {
    Node(id, TableLabel(LabelTableAttrs, rows))
  }

  /** Nodes, edges and warnings produced so far, the value of `port_num`,
      and whether `UnboundLocalError` was raised. */
  datatype Build = Build(nodes: seq<Node>, edges: seq<Edge>, warnings: seq<string>, port: PortNum, failed: bool)

  /** What one object contributes, given the `port_num` left by the objects
      before it. It raises when it has overrides and `port_num` is still
      unbound after its calls. */
  function ObjectOutput(data: Data, path: string, obj: Object, portIn: PortNum): Build
  {
    var head := ObjectHead(data, path, obj);
    var port := PortAfterCalls(obj, portIn);
    if |obj.overrides| > 0 && port.Unbound? then Build([], head.edges, head.warnings, Unbound, true)
    else
      var start := port.ValueOr0();
      var out := head.Then(OverridesOutput(data, path, obj.kind, obj.overrides, start, |obj.overrides|));
      Build([LabelNode(path, out.rows)], out.edges, out.warnings,
            if |obj.overrides| > 0 then Bound(start + |obj.overrides|) else port,
            false)
  }

  /** Whether an object raises, and the `port_num` it leaves behind. */
  lemma ObjectOutputPort(data: Data, path: string, obj: Object, portIn: PortNum)
    ensures var r := ObjectOutput(data, path, obj, portIn);
      var port := PortAfterCalls(obj, portIn);
      && r.failed == (|obj.overrides| > 0 && port.Unbound?)
      && r.port == (if r.failed then Unbound
                    else if |obj.overrides| > 0 then Bound(port.ValueOr0() + |obj.overrides|)
                    else port)
  {
  }

  /** What the objects from index `i` on contribute, in order, when
      `port_num` stands at `port`; processing stops at the first object that
      raises. */
  function ObjectsFrom(data: Data, objs: seq<(string, Object)>, i: nat, port: PortNum): Build
    requires i <= |objs|
    decreases |objs| - i
  {
    if i == |objs| then Build([], [], [], port, false)
    else
      var r := ObjectOutput(data, objs[i].0, objs[i].1, port);
      if r.failed then r
      else
        var rest := ObjectsFrom(data, objs, i + 1, r.port);
        Build(r.nodes + rest.nodes, r.edges + rest.edges, r.warnings + rest.warnings, rest.port, rest.failed)
  }

  // ---------------------------------------------------------------------
  // Event, transform and post-transform nodes

  /** The cell naming a callback, transform or post-transform. */
  function NameCell(name: string): Cell
  {
    Cell(StripSphinx(name), [("align", Str("LEFT")), ("border", Int(1)), ("cellpadding", Int(3))])
  }

  /** The documentation row, spanning `colspan` columns, when there is some. */
  function DocRows(doc: string, colspan: int): seq<seq<Cell>>
  {
    if doc != "" then [[Cell(DocText(doc), [("align", Str("LEFT")), ("colspan", Int(colspan))])]] else []
  }

  /** The rows of one callback: none when hidden, else its name and
      priority, then its documentation. */
  function CallbackRows(cb: (string, EventCallback)): seq<seq<Cell>>
  {
    if cb.1.hide then []
    else [[NameCell(cb.0), Cell(IntToString(cb.1.priority), [("align", Str("CENTER")), ("border", Int(1))])]] + DocRows(cb.1.doc, 2)
  }

  function EventHeaderRow(name: string): seq<Cell>
  {
    [Cell(U(name), [("align", Str("CENTER")), ("colspan", Int(2)), ("bgcolor", Str("lightblue"))])]
  }

  /** An event's node: its header row, then each callback's rows in order. */
  function EventNode(name: string, ev: Event): Node
  {
    LabelNode(name, [EventHeaderRow(name)] + FlatMap(CallbackRows, ev.callbacks))
  }

  /** The nodes of the first `n` events. */
  function EventNodes(events: seq<(string, Event)>, n: nat): seq<Node>
    requires n <= |events|
  {
    if n == 0 then [] else EventNodes(events, n - 1) + [EventNode(events[n - 1].0, events[n - 1].1)]
  }

  /** The rows of one transform: none when hidden, else its name and its
      priority (whose cell is the port named after the transform), then its
      documentation. */
  function TransformRows(tr: (string, Transform)): seq<seq<Cell>>
  {
    if tr.1.hide then []
    else [[NameCell(tr.0), Cell(IntToString(tr.1.priority), [("align", Str("CENTER")), ("border", Int(1)), ("port", Str(tr.0))])]]
         + DocRows(tr.1.doc, 2)
  }

  /** `if tr_data.emit:` holds: there is an emit target and it is not empty. */
  predicate Emits(emit: Option<string>)
  {
    emit.Some? && emit.value != ""
  }

  /** The edge of a visible transform that emits, from its port to the
      emitted event; whether the event exists is not checked. */
  function EmitEdges(nodeId: string, name: string, hidden: bool, emit: Option<string>): seq<Edge>
  {
    if !hidden && Emits(emit) then [Edge(PortRef(nodeId, name), emit.value, false)] else []
  }

  /** The edges of the first `n` transforms. */
  function TransformsEdges(nodeId: string, trs: seq<(string, Transform)>, n: nat): seq<Edge>
    requires n <= |trs|
  {
    if n == 0 then []
    else TransformsEdges(nodeId, trs, n - 1) + EmitEdges(nodeId, trs[n - 1].0, trs[n - 1].1.hide, trs[n - 1].1.emit)
  }

  function TransformsHeaderRow(): seq<Cell>
  {
    [Cell(U("Transforms"), [("align", Str("CENTER")), ("colspan", Int(2)), ("bgcolor", Str("lightyellow"))])]
  }

  function TransformsNode(nodeId: string, trs: seq<(string, Transform)>): Node
  {
    LabelNode(nodeId, [TransformsHeaderRow()] + FlatMap(TransformRows, trs))
  }

  /** `",".join(formats + builders)`. */
  function PostTransformTags(tr: PostTransform): string
  {
    Join(",", tr.formats + tr.builders)
  }

  /** The rows of one post-transform: none when hidden, else its name and
      its formats and builders (whose cell is the port named after it),
      then its documentation. */
  function PostTransformRows(tr: (string, PostTransform)): seq<seq<Cell>>
  {
    if tr.1.hide then []
    else [[NameCell(tr.0), Cell(PostTransformTags(tr.1), [("align", Str("LEFT")), ("border", Int(1)), ("port", Str(tr.0))])]]
         + DocRows(tr.1.doc, 3)
  }

  /** The edges of the first `n` post-transforms. */
  function PostTransformsEdges(nodeId: string, trs: seq<(string, PostTransform)>, n: nat): seq<Edge>
    requires n <= |trs|
  {
    if n == 0 then []
    else PostTransformsEdges(nodeId, trs, n - 1) + EmitEdges(nodeId, trs[n - 1].0, trs[n - 1].1.hide, trs[n - 1].1.emit)
  }

  function PostTransformsHeaderRow(): seq<Cell>
  {
    [Cell(U("Post Transforms"), [("align", Str("CENTER")), ("colspan", Int(3)), ("bgcolor", Str("lightyellow"))])]
  }

  function PostTransformsNode(nodeId: string, trs: seq<(string, PostTransform)>): Node
  {
    LabelNode(nodeId, [PostTransformsHeaderRow()] + FlatMap(PostTransformRows, trs))
  }

  // ---------------------------------------------------------------------
  // The whole graph

  /** Everything `build_graph` produces: the objects' nodes, then one node
      per event, then the two pseudo-nodes; the objects' edges, then the
      transforms' and post-transforms' edges; the objects' warnings. When an
      object raises, the result is what was produced up to that point. */
  function GraphSpec(data: Data): Build
  {
    var b := ObjectsFrom(data, data.objects, 0, Unbound);
    if b.failed then b
    else
      Build(b.nodes + EventNodes(data.events, |data.events|)
              + [TransformsNode(TransformsId, data.transforms)] + [PostTransformsNode(PostTransformsId, data.postTransforms)],
            b.edges + TransformsEdges(TransformsId, data.transforms, |data.transforms|)
              + PostTransformsEdges(PostTransformsId, data.postTransforms, |data.postTransforms|),
            b.warnings, b.port, false)
  }

  /** Appending `a.Then(b)` is appending `a`, then `b`. */
  lemma ThenAppend(rows: seq<seq<Cell>>, edges: seq<Edge>, lines: seq<string>, a: Output, b: Output)
    ensures rows + a.Then(b).rows == rows + a.rows + b.rows
    ensures edges + a.Then(b).edges == edges + a.edges + b.edges
    ensures lines + a.Then(b).warnings == lines + a.warnings + b.warnings
  {
    ConcatAssoc(rows, a.rows, b.rows);
    ConcatAssoc(edges, a.edges, b.edges);
    ConcatAssoc(lines, a.warnings, b.warnings);
  }
}
