# sphinx-process-graph, modelled in Dafny

`sphinx_graph` draws the build process of a Sphinx project as a Graphviz
graph. It reads a data model made of four insertion-ordered maps:

- objects: Python functions and methods, each with the calls in its body and the subclass objects that override it;
- events, with their callbacks;
- transforms;
- post-transforms.

`build_graph` turns the data model into one node per entity. Each node's label is an HTML-like table built with `html_like.Table`. The function also draws edges from a row's port (`path:port`) to the node it refers to, and writes a warning for each call or override whose target it cannot resolve, except a `standard` or `enter` call whose `warn_no_object` is false. The `emit` targets of transforms and post-transforms are never checked.

This project models that core:

| file | module | what it holds |
|---|---|---|
| `collections.dfy` | `Collections` | `Option`; `FlatMap`, `Map`, `Filter`; insertion-ordered maps as sequences of pairs (`Keys`, `Get`) |
| `strings.dfy` | `Strings` | the Python string operations the core uses: `split`, `join`, `replace`, `" " * n`, `upper`, `str(int)`, `repr` |
| `html_like.dfy` | `HtmlLike` | the tag wrappers, `br`, cells (`TableCell` is never mutated, so it is a datatype) and the `Table` class with `add_row` and `__repr__` |
| `graphviz.dfy` | `Graphviz` | the `Digraph` the core writes to, as a class holding the sequence of nodes and the sequence of edges |
| `sphinx_graph.dfy` | `SphinxGraph` | the data classes; `path2name`; the warning sink (`Diagnostics`); the specification functions describing what each call, override, object, event, transform and post-transform adds to the graph |
| `assembler.dfy` | `Assembler` | `build_graph`, `add_event_node`, `add_transforms_node` and `add_post_transforms_node` as imperative methods, each proved to produce what the specification functions describe |
| `graph_properties.dfy` | `GraphProperties` | properties of `path2name`, of one call, and of an object's call loop: counters, ports, row order, edges |
| `node_properties.dfy` | `NodeProperties` | properties of overrides, of whole object nodes, of `UnboundLocalError`, of node registration, of the warnings, and of hidden entries |

## Two behaviours modelled as written

- **`port_num` is shared between objects.** `port_num` is set to 0 only when an object has calls. An object without calls numbers its override ports after the value the previous object left. If no object before it set the counter, `build_graph` raises `UnboundLocalError`. The model keeps this:
  - `SphinxGraph.PortNum` is `Unbound` or `Bound(n)` and is threaded from object to object.
  - `SphinxGraph.Build.failed` and `SphinxGraph.Outcome` record the exception.
  - `NodeProperties.GraphRaises` says exactly which inputs raise.
- **Negative indentation.** `exit` calls can take `indent` below zero. `" " * n` with a negative `n` is the empty string, so a row is indented by `max(0, 4 * indent)` spaces (`Strings.Spaces`).

## Model

| member | source | states |
|---|---|---|
| Strings.IntToString | src/sphinx_graph/__init__.py:205 | definition of `str` on integers; properties in `Strings.IntToStringShape`, `Strings.ParseIntToString` and `Strings.IntToStringInjective` |
| Strings.PyRepr | src/sphinx_graph/__init__.py:218 | definition of `repr` on strings; properties in `Strings.PyReprPlain` |
| Strings.Split | src/sphinx_graph/__init__.py:295 | `str.split` on one separator character always yields at least one part |
| Strings.SplitPartsLackSeparator | src/sphinx_graph/__init__.py:295 | no part of a split contains the separator |
| Strings.JoinSplit | src/sphinx_graph/__init__.py:295 | joining the parts of a split with the separator gives back the original string |
| Strings.SplitJoin | src/sphinx_graph/__init__.py:412 | splitting the separator-join of a non-empty list of separator-free parts gives back the list; the empty list is excluded because `",".join([])` and `",".join([""])` are both empty |
| Strings.LastIndexOf | src/sphinx_graph/__init__.py:295-297 | the result is -1 exactly when the character is absent; otherwise it is the position of the character's last occurrence |
| Strings.ReplaceCharIsJoinSplit | src/sphinx_graph/__init__.py:157 | `s.replace(c, r)` equals splitting `s` on `c` and joining with `r` |
| Strings.SpacesCount | src/sphinx_graph/__init__.py:183 | `" " * n` has `n` spaces when `n` is positive and is empty otherwise |
| Strings.UpperIdempotent | src/sphinx_graph/html_like.py:211 | upper-casing leaves no lower-case letter and applying it twice changes nothing |
| Strings.IntToStringShape | src/sphinx_graph/__init__.py:205 | `str(n)` is non-empty and starts with `-` exactly when `n` is negative |
| Strings.ParseIntToString | src/sphinx_graph/__init__.py:205 | reading back `str(n)` as a decimal integer gives `n` |
| Strings.IntToStringInjective | src/sphinx_graph/__init__.py:205 | different integers have different `str`, so distinct port numbers give distinct port names |
| Strings.PyReprPlain | src/sphinx_graph/__init__.py:218 | `repr` of a string without quotes, backslashes or control characters is that string between single quotes |
| HtmlLike.Html | src/sphinx_graph/html_like.py:4-6 | definition of `html`; properties in `HtmlLike.HtmlUnwrap` |
| HtmlLike.U | src/sphinx_graph/html_like.py:9-11 | definition of `u`; properties in `HtmlLike.WrappersUnwrap` |
| HtmlLike.O | src/sphinx_graph/html_like.py:14-16 | definition of `o`, which writes the `u` markup; properties in `HtmlLike.WrappersUnwrap` |
| HtmlLike.B | src/sphinx_graph/html_like.py:19-21 | definition of `b`; properties in `HtmlLike.WrappersUnwrap` |
| HtmlLike.I | src/sphinx_graph/html_like.py:24-26 | definition of `i`; properties in `HtmlLike.WrappersUnwrap` |
| HtmlLike.S | src/sphinx_graph/html_like.py:29-31 | definition of `s`; properties in `HtmlLike.WrappersUnwrap` |
| HtmlLike.Sub | src/sphinx_graph/html_like.py:34-36 | definition of `sub`; properties in `HtmlLike.WrappersUnwrap` |
| HtmlLike.Sup | src/sphinx_graph/html_like.py:39-41 | definition of `sup`; properties in `HtmlLike.WrappersUnwrap` |
| HtmlLike.Br | src/sphinx_graph/html_like.py:44-48 | definition of `br`; properties in `HtmlLike.BrText` |
| HtmlLike.HtmlUnwrap | src/sphinx_graph/html_like.py:4-6 | `html(s)` is `s` with one `<` before it and one `>` after it |
| HtmlLike.WrappersUnwrap | src/sphinx_graph/html_like.py:9-41 | `u`, `b`, `i`, `s`, `sub` and `sup` each wrap their argument in their own tag pair, from which it is recovered unchanged; `o` gives exactly what `u` gives |
| HtmlLike.TagUnwrap | src/sphinx_graph/html_like.py:9-41 | any text wrapped as `<T>`…`</T>` is recovered unchanged by removing that tag pair |
| HtmlLike.BrText | src/sphinx_graph/html_like.py:44-48 | `br()` is `<BR/>` exactly when no alignment is given; otherwise it is `<BR ALIGN="a" />` |
| HtmlLike.AttrValueTextSpec | src/sphinx_graph/html_like.py:207-210 | `fixedsize` always renders as `TRUE` or `FALSE`, and as `TRUE` exactly when its value is truthy; every other attribute renders as `str(value)` |
| HtmlLike.FixedSizeText | src/sphinx_graph/html_like.py:207-211 | the whole `fixedsize` attribute text is ` FIXEDSIZE="TRUE"` or ` FIXEDSIZE="FALSE"` according to the truthiness of its value |
| HtmlLike.AttrsTextAt | src/sphinx_graph/html_like.py:206-211 | the attributes render in insertion order: the text of attribute `j` sits between those before it and those after it |
| HtmlLike.WriteAttrs | src/sphinx_graph/html_like.py:231-237 | the loop over the keyword arguments appends exactly the attributes' text to what was there |
| HtmlLike.Cell.ToString | src/sphinx_graph/html_like.py:204-213 | the loop that renders a cell yields `CellText`: `<TD`, the attributes, `>`, a newline, the content, a newline, `</TD>` |
| HtmlLike.WriteRow | src/sphinx_graph/html_like.py:240-243 | one row renders as `<TR>`, a newline, its cells in order, `</TR>` and a newline |
| HtmlLike.WriteRows | src/sphinx_graph/html_like.py:239-243 | the row loop appends exactly the rows' text, in order |
| HtmlLike.TableTextRowAt | src/sphinx_graph/html_like.py:230-245 | in a table's text, row `j` sits between the rows before it and the rows after it, inside the `<TABLE ...>` and `</TABLE>` lines, so there is one `<TR>` block per row |
| HtmlLike.EmptyTableText | src/sphinx_graph/html_like.py:230-245 | a table without rows renders as its opening tag line and `</TABLE>` alone |
| HtmlLike.Table.constructor | src/sphinx_graph/html_like.py:219-224 | a new table has the given attributes and rows; with no rows given it has none |
| HtmlLike.Table.AddRow | src/sphinx_graph/html_like.py:226-228 | `add_row` appends exactly one row at the end and leaves earlier rows unchanged |
| HtmlLike.Table.ToString | src/sphinx_graph/html_like.py:230-245 | `str(table)` is the table's text: `<TABLE`, its attributes, `>`, then each row in order, then `</TABLE>` |
| Graphviz.Digraph.constructor | src/sphinx_graph/__init__.py:142 | a new graph keeps its comment and graph attributes and has no nodes and no edges |
| Graphviz.Digraph.AddNode | src/sphinx_graph/__init__.py:280-282 | `graph.node` appends one node and leaves the edges alone |
| Graphviz.Digraph.AddEdge | src/sphinx_graph/__init__.py:221 | `graph.edge` appends one edge and leaves the nodes alone |
| SphinxGraph.Diagnostics.constructor | src/sphinx_graph/__init__.py:120-122 | the warning sink starts empty |
| SphinxGraph.Diagnostics.Warning | src/sphinx_graph/__init__.py:120-122 | `warning(message)` writes exactly one line, `Warning: ` followed by the message |
| SphinxGraph.Path2Name | src/sphinx_graph/__init__.py:293-300 | definition of `path2name`; properties in `GraphProperties.Path2NameSpec`, `GraphProperties.Path2NameFunction` and `GraphProperties.Path2NameMethod` |
| SphinxGraph.StripSphinx | src/sphinx_graph/__init__.py:315-317 | definition of the removal of a leading `sphinx.`; properties in `GraphProperties.StripSphinxSpec` |
| SphinxGraph.CallOutput | src/sphinx_graph/__init__.py:167-251 | definition of what one pass of the call loop adds; properties in `GraphProperties.CallRow`, `GraphProperties.ObjectCallLinks`, `GraphProperties.EmitCallLinks` and `GraphProperties.TransformCallLinks`, and `Assembler.AddCall` is proved to produce it |
| SphinxGraph.ObjectOutput | src/sphinx_graph/__init__.py:147-282 | definition of what one pass of the object loop adds; properties in `NodeProperties.ObjectNode`, `NodeProperties.ObjectRaises` and `NodeProperties.ObjectWarns`, and `Assembler.AddObjectNode` is proved to produce it |
| SphinxGraph.GraphSpec | src/sphinx_graph/__init__.py:139-290 | definition of the graph and warnings `build_graph` produces; properties in `NodeProperties.GraphNodes`, `NodeProperties.GraphRaises` and `NodeProperties.NoWarningsIffResolved`, and `Assembler.BuildGraph` is proved to produce it |
| GraphProperties.LastPart | src/sphinx_graph/__init__.py:295-299 | the last part of a split is the text after the last separator, and there is more than one part exactly when the separator occurs |
| GraphProperties.SecondLastPart | src/sphinx_graph/__init__.py:295-297 | when the separator occurs, the second-last part is the text between the last two separators |
| GraphProperties.Path2NameFunction | src/sphinx_graph/__init__.py:298-299 | for a function, `path2name` is the last dotted segment followed by `()` |
| GraphProperties.Path2NameMethod | src/sphinx_graph/__init__.py:296-299 | for a method, `path2name` is `Class.name()` made of the last two dotted segments, or `name()` when the path has no dot |
| GraphProperties.Path2NameSpec | src/sphinx_graph/__init__.py:293-300 | all of `path2name`: the path unchanged without a type; for a function the last segment plus `()`; for a method the last two segments, or the last one when there is no dot, plus `()` |
| GraphProperties.StripSphinxSpec | src/sphinx_graph/__init__.py:315-317 | a leading `sphinx.` is removed from a displayed name and nothing else is |
| GraphProperties.CallRow | src/sphinx_graph/__init__.py:167-210 | an `exit` call contributes nothing (no row, no edge, no warning); every other call contributes exactly one single-cell row whose port is `str(port)` |
| GraphProperties.CallNameSpec | src/sphinx_graph/__init__.py:172-181 | `is_ref` is the explicit value if any, else whether the call is `standard`; a reference is shown through `path2name`, with the type of the object stored under that key in `data.objects` taking precedence over the call's `obj_type`, which is used only when the key is absent; a non-reference is shown as written |
| GraphProperties.CallRowTextSpec | src/sphinx_graph/__init__.py:183-197 | a call row's text is `max(0, 4 * indent)` spaces followed by `<context> <name>:` for `enter`, `emit <name>` for `emit`, and the name otherwise |
| GraphProperties.ObjectCallLinks | src/sphinx_graph/__init__.py:212-230 | a `standard` or `enter` call draws an edge from its port exactly when it is a reference to a known object; it warns `'<target>' not found, called from '<path>'` exactly when it is a reference to an unknown object with `warn_no_object` set |
| GraphProperties.EmitCallLinks | src/sphinx_graph/__init__.py:231-237 | an `emit` call draws an edge to a known event and otherwise warns that the event is not found; `warn_no_object` makes no difference |
| GraphProperties.TransformCallLinks | src/sphinx_graph/__init__.py:238-249 | `apply_transforms` and `apply_post_transforms` never warn and always draw one dashed edge to `_apply_transforms` or `_apply_post_transforms` respectively |
| GraphProperties.CountersStep | src/sphinx_graph/__init__.py:165-199 | `enter` raises the indent by one and `exit` lowers it by one; every call except `exit` advances `port_num` by one |
| GraphProperties.PortCountMonotone | src/sphinx_graph/__init__.py:199 | `port_num` never decreases along the calls |
| GraphProperties.CallsRowCount | src/sphinx_graph/__init__.py:164-210 | the call loop appends exactly one row per call that is not an `exit` |
| GraphProperties.CallsRowStable | src/sphinx_graph/__init__.py:200-210 | later calls never change a row already appended |
| GraphProperties.CallsRowOfCall | src/sphinx_graph/__init__.py:167-210 | a non-`exit` call `j` owns the row at position `port_num` before it; that row is its cell at the indent and port in force at that point |
| GraphProperties.CallOfPort | src/sphinx_graph/__init__.py:167-210 | every call row comes from one non-`exit` call |
| GraphProperties.CallsRowPort | src/sphinx_graph/__init__.py:199-210 | call row `j` has a single cell whose port is `str(j + 1)`, so call ports are consecutive from 1 |
| GraphProperties.CallPortsDistinct | src/sphinx_graph/__init__.py:199-210 | two different call rows of one object carry different port names |
| GraphProperties.CallEdgesStart | src/sphinx_graph/__init__.py:212-249 | a call draws at most one edge, from its own port; an `exit` draws none |
| GraphProperties.CallsEdgesFromPorts | src/sphinx_graph/__init__.py:212-249 | every edge drawn by an object's calls starts at one of that object's call ports |
| NodeProperties.OverridesRows | src/sphinx_graph/__init__.py:263-274 | override `j` has exactly one row: its name shown with the declaring object's type, at port `start + j + 1` |
| NodeProperties.PortedAt | src/sphinx_graph/__init__.py:263-271 | override `j` takes port `start + j + 1` |
| NodeProperties.OverridesEdges | src/sphinx_graph/__init__.py:275-278 | the override edges are, in order, one dashed edge from the port of each override that names a known object to that object; other overrides draw nothing |
| NodeProperties.OverridesWarnings | src/sphinx_graph/__init__.py:275-276 | the override warnings are, in order, one `... not found, override of ...` for each override that names no known object; other overrides warn about nothing |
| NodeProperties.OverridesEdgeOrWarning | src/sphinx_graph/__init__.py:275-278 | each override gives exactly one of an edge and a warning |
| NodeProperties.ObjectNode | src/sphinx_graph/__init__.py:147-282 | an object that does not raise registers exactly one node under its path, whose table holds the header rows, call rows, Overridable row and override rows in that order |
| NodeProperties.ObjectRowsLayout | src/sphinx_graph/__init__.py:147-262 | an object's table starts with its name row, then the description row exactly when the description is non-empty; it has the Overridable row exactly when it has overrides or is overridable |
| NodeProperties.ObjectRowsPorts | src/sphinx_graph/__init__.py:164-274 | the call rows follow the header rows, and the override rows come last. Override ports continue `port_num` after the object's own calls or, when it has none, after the previous objects |
| NodeProperties.BareObject | src/sphinx_graph/__init__.py:147-282 | an object with no description, calls or override data gets a node showing its name alone and adds no edge and no warning |
| NodeProperties.ObjectRaises | src/sphinx_graph/__init__.py:164-264 | an object raises exactly when it has overrides, no calls and `port_num` is unbound; `port_num` stays unbound only while no object has had calls or overrides |
| NodeProperties.ObjectsFromRaises | src/sphinx_graph/__init__.py:147-278 | once `port_num` is bound nothing raises; while it is unbound, the remaining objects raise exactly when one of them has overrides and neither it nor any object before it has calls |
| NodeProperties.GraphRaises | src/sphinx_graph/__init__.py:139-290 | `build_graph` raises `UnboundLocalError` exactly when some object has overrides while neither it nor any earlier object has calls |
| NodeProperties.ObjectsFromNodes | src/sphinx_graph/__init__.py:147-282 | when no object raises, the object loop registers one node per object, keyed by its path, in order |
| NodeProperties.EventNodesAt | src/sphinx_graph/__init__.py:284-285 | the event loop registers one node per event, in order, each built by `add_event_node` |
| NodeProperties.EventNodeIds | src/sphinx_graph/__init__.py:284-285 | event node `k` is keyed by the name of event `k` |
| NodeProperties.GraphNodes | src/sphinx_graph/__init__.py:280-288 | exactly one node per object and per event, keyed by path and name in insertion order, followed by the two pseudo-nodes, which are registered even when there are no transforms |
| NodeProperties.CallWarns | src/sphinx_graph/__init__.py:212-237 | a call warns nothing exactly when its reference resolves: a reference to a known object, a call that does not ask for a warning, or an emit of a known event |
| NodeProperties.CallsWarn | src/sphinx_graph/__init__.py:167-251 | an object's calls warn nothing exactly when every one of them resolves |
| NodeProperties.OverridesWarn | src/sphinx_graph/__init__.py:263-278 | an object's overrides warn nothing exactly when each names a known object |
| NodeProperties.ObjectWarns | src/sphinx_graph/__init__.py:147-282 | an object whose calls and overrides all resolve warns nothing; an object that warns nothing and does not raise has only resolving calls and overrides |
| NodeProperties.ObjectsFromWarn | src/sphinx_graph/__init__.py:147-282 | the object loop warns nothing when every object resolves, and when it warns nothing and does not raise every object resolves |
| NodeProperties.NoWarningsIffResolved | src/sphinx_graph/__init__.py:139-290 | `build_graph` writes no warning when every reference resolves, and when it writes none and completes every reference resolves |
| NodeProperties.HiddenCallbacksOmitted | src/sphinx_graph/__init__.py:309-311 | an event's node is the same as if its hidden callbacks were absent |
| NodeProperties.HiddenTransformsOmitted | src/sphinx_graph/__init__.py:350-369 | the transforms node and its emit edges are the same as if hidden transforms were absent |
| NodeProperties.HiddenPostTransformsOmitted | src/sphinx_graph/__init__.py:398-420 | the post-transforms node and its emit edges are the same as if hidden post-transforms were absent |
| NodeProperties.TransformRowsSpec | src/sphinx_graph/__init__.py:350-379 | a shown transform has one row, plus one when it has a doc. The row holds the name without `sphinx.` and `str(priority)` in a cell with `port` set to the transform's name. Its emit edge, from that port, is drawn exactly when `emit` is non-empty, and the target is not checked |
| NodeProperties.PostTransformRowsSpec | src/sphinx_graph/__init__.py:398-430 | a shown post-transform has one row, plus one when it has a doc. The row holds the name without `sphinx.` and a tag cell whose `port` is the post-transform's name and whose text is `formats + builders` joined by `,`. When there is at least one tag and none holds a comma, splitting that text on `,` gives back `formats + builders` |
| NodeProperties.HiddenHaveNoRows | src/sphinx_graph/__init__.py:309-400 | a callback, transform or post-transform gets no row exactly when it is hidden |
| Assembler.AddLabelNode | src/sphinx_graph/__init__.py:280-282 | registering a node appends one node whose label is the finished table and draws no edge |
| Assembler.AddCallRow | src/sphinx_graph/__init__.py:199-210 | a call appends exactly its one cell row |
| Assembler.AddCallLink | src/sphinx_graph/__init__.py:212-251 | the dispatch on the call's kind adds exactly the call's edges and warnings |
| Assembler.AddCall | src/sphinx_graph/__init__.py:167-251 | one pass of the call loop appends the call's row, edges and warnings and updates `indent` and `port_num` as the counters prescribe |
| Assembler.AddCallAt | src/sphinx_graph/__init__.py:167-251 | after call `k`, the table, graph and warnings hold exactly the output of the first `k + 1` calls |
| Assembler.AddCallRows | src/sphinx_graph/__init__.py:164-251 | the call loop appends exactly the rows, edges and warnings of all calls, and leaves `port_num` at the number of non-`exit` calls |
| Assembler.AddOverrideRow | src/sphinx_graph/__init__.py:263-278 | one pass of the override loop takes the next port and appends the override's row, edge or warning |
| Assembler.AddOverrideAt | src/sphinx_graph/__init__.py:263-278 | after override `k`, the table, graph and warnings hold exactly the output of the first `k + 1` overrides |
| Assembler.AddOverrideRows | src/sphinx_graph/__init__.py:263-278 | the override loop appends exactly the output of all overrides and advances `port_num` by their number |
| Assembler.AddHeaderRows | src/sphinx_graph/__init__.py:148-162 | the name row, then the description row with line breaks for newlines when there is a description |
| Assembler.AddObjectCalls | src/sphinx_graph/__init__.py:164-251 | the calls block adds exactly the calls' output; `port_num` is reset and advanced only when the object has calls |
| Assembler.AddObjectHead | src/sphinx_graph/__init__.py:148-262 | the part of an object's table before its override rows, with the calls' edges and warnings |
| Assembler.AddObjectTail | src/sphinx_graph/__init__.py:263-282 | for an object whose `port_num` is bound or that has no overrides, the override rows, edges and warnings, then the object's node holding the whole table |
| Assembler.AddObjectNode | src/sphinx_graph/__init__.py:147-282 | one pass of the object loop adds exactly what `ObjectOutput` describes, and reports `UnboundLocalError` when it raises |
| Assembler.AddObjectNodes | src/sphinx_graph/__init__.py:147-282 | the object loop adds exactly the nodes, edges and warnings of all objects, stopping at the first that raises |
| Assembler.AddCallbackRows | src/sphinx_graph/__init__.py:309-334 | one pass of the callback loop appends the callback's rows, none when it is hidden |
| Assembler.AddEventNode | src/sphinx_graph/__init__.py:303-337 | `add_event_node` registers exactly the event's node and draws no edge |
| Assembler.AddEventNodes | src/sphinx_graph/__init__.py:284-285 | the event loop registers one node per event in order and draws no edge |
| Assembler.AddTransformRows | src/sphinx_graph/__init__.py:350-379 | one pass of the transform loop appends the transform's rows and its emit edge |
| Assembler.AddTransformsRows | src/sphinx_graph/__init__.py:350-379 | the transform loop appends the rows of all transforms in order, and their emit edges |
| Assembler.AddTransformsNode | src/sphinx_graph/__init__.py:340-382 | `add_transforms_node` registers the transforms node and draws exactly the transforms' emit edges |
| Assembler.AddPostTransformRows | src/sphinx_graph/__init__.py:398-430 | one pass of the post-transform loop appends the post-transform's rows and its emit edge |
| Assembler.AddPostTransformsRows | src/sphinx_graph/__init__.py:398-430 | the post-transform loop appends the rows of all post-transforms in order, and their emit edges |
| Assembler.AddPostTransformsNode | src/sphinx_graph/__init__.py:385-433 | `add_post_transforms_node` registers the post-transforms node and draws exactly the post-transforms' emit edges |
| Assembler.BuildGraph | src/sphinx_graph/__init__.py:139-290 | `build_graph` creates a graph with the data's comment and `rankdir=LR`. Its nodes, edges and warnings are exactly those `GraphSpec` describes. It ends with `UnboundLocalError("port_num")` exactly when an override finds `port_num` unbound |

## Left out

- `build_main` and `__main__.py`: reading the TOML file and rendering the graph to SVG are file I/O and an external renderer.
- `warning`'s write to standard error: the model appends the line to the `Diagnostics` sequence instead.
- pydantic validation (`extra="forbid"`, the `Literal` checks, defaults): the data classes are closed Dafny datatypes. So the `case _` branch of the call dispatch, which warns about an unknown call type, cannot be reached and is not modelled.
- Graphviz internals (layout, DOT output, merging of repeated node ids): a `Digraph` is its nodes and edges in the order they were added. A node keeps its id and table. The constant `shape`, `style` and `margin` attributes are not stored. An edge's `style="dashed"` is a boolean.
- The value limits in the `TableParams` and `TableCellParams` docstrings: the code never enforces them. Attribute names are free strings, with values that are a string, an integer or a boolean.
- `docs/conf.py` and `scripts/get_info.py` are not part of this model: they are documentation plumbing and introspection of a live Sphinx application.
- The `dict` inputs are sequences of key/value pairs kept in insertion order. Their keys are not required to be distinct. Membership (`in data.objects`) is membership of the key, and `data.objects.get` returns the first match (`Collections.Get`), which coincides with Python for distinct keys.
- HtmlLike.Table.constructor: the row list passed in is copied as a value, so the aliasing between the caller's list and `self.rows` is not captured. `build_graph` never passes one.
- Strings.Upper: `str.upper` is modelled on ASCII letters only. Attribute names in this code are ASCII.
- Strings.PyRepr: `repr` is modelled for ASCII text. Python also escapes non-printable non-ASCII characters, and the model leaves those unescaped.
- Strings.SplitJoin: the round trip is stated for a non-empty list only; `",".join` maps both the empty list and `[""]` to the empty text, so the empty list is not recovered.
- Strings.PyReprPlain and NodeProperties.PostTransformRowsSpec: they state their round trip only for text without the characters concerned (quotes, backslashes or control characters for `repr`; commas in the tags for the split). Text that contains them does not come back unchanged. The split round trip also needs at least one tag: an empty tag list, the default of `formats` and `builders`, joins to the empty text, which splits back to one empty tag.
