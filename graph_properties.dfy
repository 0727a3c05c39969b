/** What the graph assembler promises about display names and about an
    object's calls, stated over the functions that describe its output:
    `path2name`, call rows and their ports, call edges and warnings. */
module GraphProperties {
  import opened Collections
  import opened Strings
  import opened HtmlLike
  import opened Graphviz
  import opened SphinxGraph

  // ---------------------------------------------------------------------
  // Display names

  /** What follows the last `c` in `s`: all of `s` when there is none. */
  function AfterLast(s: string, c: char): string
  {
    s[LastIndexOf(s, c) + 1..]
  }

  /** The last part of a split is what follows the last separator; there
      is more than one part exactly when the separator occurs. */
  lemma {:induction false} LastPart(s: string, sep: char)
    ensures var parts := Split(s, sep);
      && parts[|parts| - 1] == AfterLast(s, sep)
      && (|parts| > 1 <==> sep in s)
  {
    if sep in s {
      SplitAtLastSeparator(s, sep);
    } else {
      SplitWithoutSeparator(s, sep);
      assert s[0..] == s;
    }
  }

  /** The part before the last one is what lies between the last two
      separators (or from the start up to the only one). */
  lemma {:induction false} SecondLastPart(s: string, sep: char)
    requires sep in s
    ensures var parts := Split(s, sep);
      var i := LastIndexOf(s, sep);
      |parts| > 1 && parts[|parts| - 2] == AfterLast(s[..i], sep)
  {
    var i := LastIndexOf(s, sep);
    SplitAtLastSeparator(s, sep);
    LastPart(s[..i], sep);
  }

  /** A function shows as what follows the last dot of its path, then `()`. */
  lemma Path2NameFunction(path: string)
    ensures Path2Name(path, Some(Function)) == AfterLast(path, '.') + "()"
  {
    var parts := Split(path, '.');
    LastPart(path, '.');
    assert Path2Name(path, Some(Function)) == parts[|parts| - 1] + "()";
  }

  /** A method with a dotted path shows as its last two segments joined by
      a dot, then `()`; one without a dot as its whole path, then `()`. */
  lemma Path2NameMethod(path: string)
    ensures '.' !in path ==> Path2Name(path, Some(Method)) == path + "()"
    ensures '.' in path ==>
      var i := LastIndexOf(path, '.');
      Path2Name(path, Some(Method)) == AfterLast(path[..i], '.') + "." + AfterLast(path, '.') + "()"
  {
    if '.' in path {
      Path2NameDottedMethod(path);
    } else {
      Path2NamePlainMethod(path);
    }
  }

  lemma Path2NameDottedMethod(path: string)
    requires '.' in path
    ensures var i := LastIndexOf(path, '.');
      Path2Name(path, Some(Method)) == AfterLast(path[..i], '.') + "." + AfterLast(path, '.') + "()"
  {
    LastPart(path, '.');
    SecondLastPart(path, '.');
    Path2NameOfParts(path);
  }

  /** With a dot in the path, a method shows its last two parts. */
  lemma Path2NameOfParts(path: string)
    requires |Split(path, '.')| > 1
    ensures var parts := Split(path, '.');
      Path2Name(path, Some(Method)) == parts[|parts| - 2] + "." + parts[|parts| - 1] + "()"
  {
  }

  lemma Path2NamePlainMethod(path: string)
    requires '.' !in path
    ensures Path2Name(path, Some(Method)) == path + "()"
  {
    var parts := Split(path, '.');
    LastPart(path, '.');
    assert AfterLast(path, '.') == path;
    assert Path2Name(path, Some(Method)) == parts[|parts| - 1] + "()";
  }

  /** `path2name`, stated with `rfind` instead of `split`: a function shows
      as what follows the last dot, a method with a dotted path as its last
      two segments, anything without a kind unchanged. */
  lemma Path2NameSpec(path: string, kind: Option<ObjType>)
    ensures kind.None? ==> Path2Name(path, kind) == path
    ensures kind == Some(Function) ==> Path2Name(path, kind) == AfterLast(path, '.') + "()"
    ensures kind == Some(Method) && '.' !in path ==> Path2Name(path, kind) == path + "()"
    ensures kind == Some(Method) && '.' in path ==>
      var i := LastIndexOf(path, '.');
      Path2Name(path, kind) == AfterLast(path[..i], '.') + "." + AfterLast(path, '.') + "()"
  {
    match kind
    case None =>
    case Some(Function) => Path2NameFunction(path);
    case Some(Method) => Path2NameMethod(path);
  }

  /** A leading `sphinx.` is removed and nothing else: putting it back gives
      the name. */
  lemma StripSphinxSpec(name: string)
    ensures StartsWith(name, "sphinx.") ==> "sphinx." + StripSphinx(name) == name
    ensures !StartsWith(name, "sphinx.") ==> StripSphinx(name) == name
  {
    if StartsWith(name, "sphinx.") {
      assert name == name[..7] + name[7..];
    }
  }

  // ---------------------------------------------------------------------
  // One call

  /** An `exit` adds nothing; any other call adds exactly one single-cell
      row, whose port attribute is `str(port)`. */
  lemma CallRow(data: Data, path: string, c: Call, indent: int, port: nat)
    ensures var out := CallOutput(data, path, c, indent, port);
      && (c.kind == Exit <==> out == NoOutput)
      && (c.kind != Exit ==> out.rows == [[CallCell(data.objects, c, indent, port)]])
      && (c.kind != Exit ==> PortIs(out.rows[0][0], IntToString(port)))
  {
  }

  /** The displayed text: `is_ref` defaults to whether the call is
      `standard`; only a reference goes through `path2name`, and then a
      known object's kind wins over the call's hint. */
  lemma CallNameSpec(objects: seq<(string, Object)>, c: Call)
    ensures EffectiveIsRef(c) == (if c.isRef.Some? then c.isRef.value else c.kind == Standard)
    ensures !EffectiveIsRef(c) ==> CallName(objects, c) == c.text
    ensures EffectiveIsRef(c) && Get(objects, c.text).Some? ==>
      CallName(objects, c) == Path2Name(c.text, Some(Get(objects, c.text).value.kind))
    ensures EffectiveIsRef(c) && Get(objects, c.text).None? ==>
      CallName(objects, c) == Path2Name(c.text, c.objType)
    ensures EffectiveIsRef(c) && c.text !in Keys(objects) ==>
      CallName(objects, c) == Path2Name(c.text, c.objType)
    ensures EffectiveIsRef(c) && c.text in Keys(objects) ==>
      && Get(objects, c.text).Some?
      && (c.text, Get(objects, c.text).value) in objects
      && CallName(objects, c) == Path2Name(c.text, Some(Get(objects, c.text).value.kind))
    ensures forall i :: DistinctKeys(objects) && 0 <= i < |objects| && objects[i].0 == c.text && EffectiveIsRef(c) ==>
      CallName(objects, c) == Path2Name(c.text, Some(objects[i].1.kind))
  {
    GetSpec(objects, c.text);
    forall i | DistinctKeys(objects) && 0 <= i < |objects| && objects[i].0 == c.text
      ensures Get(objects, c.text) == Some(objects[i].1)
    {
      GetDistinct(objects, i);
    }
  }

  /** A row's text is `4 * indent` spaces (none when `indent` is not
      positive), then the decorated name: `"<context> <name>:"` for
      `enter`, `"emit <name>"` for `emit`. */
  lemma CallRowTextSpec(objects: seq<(string, Object)>, c: Call, indent: int)
    ensures var t := CallRowText(objects, c, indent);
      var n := if indent <= 0 then 0 else 4 * indent;
      && n <= |t|
      && (forall i :: 0 <= i < n ==> t[i] == ' ')
      && t[n..] == (if c.kind == Enter then ContextName(c.context) + " " + CallName(objects, c) + ":"
                    else if c.kind == Emit then "emit " + CallName(objects, c)
                    else CallName(objects, c))
  {
    SpacesCount(indent * 4);
  }

  /** `standard` and `enter` calls: an edge from the call's port to the
      target exactly when it is a reference to a known object; a warning
      exactly when it is a reference to an unknown one and `warn_no_object`
      is set; never both. */
  lemma ObjectCallLinks(data: Data, path: string, c: Call, indent: int, port: nat)
    requires c.kind == Standard || c.kind == Enter
    ensures var out := CallOutput(data, path, c, indent, port);
      && (out.edges != [] <==> EffectiveIsRef(c) && c.text in Keys(data.objects))
      && (out.edges != [] ==> out.edges == [Edge(PortRef(path, IntToString(port)), c.text, false)])
      && (out.warnings != [] <==> EffectiveIsRef(c) && c.text !in Keys(data.objects) && c.warnNoObject)
      && (out.warnings != [] ==> out.warnings == [NotFoundWarning(c.text, path)])
  {
  }

  /** `emit` calls: an edge to the event exactly when it is known, else the
      event warning; `warn_no_object` makes no difference. */
  lemma EmitCallLinks(data: Data, path: string, c: Call, indent: int, port: nat)
    requires c.kind == Emit
    ensures var out := CallOutput(data, path, c, indent, port);
      && (c.text in Keys(data.events) ==> out.edges == [Edge(PortRef(path, IntToString(port)), c.text, false)] && out.warnings == [])
      && (c.text !in Keys(data.events) ==> out.edges == [] && out.warnings == [EventNotFoundWarning(c.text, path)])
      && out == CallOutput(data, path, c.(warnNoObject := !c.warnNoObject), indent, port)
  {
  }

  /** `apply_transforms` and `apply_post_transforms` always draw one dashed
      edge to their pseudo-node and never warn. */
  lemma TransformCallLinks(data: Data, path: string, c: Call, indent: int, port: nat)
    requires c.kind == ApplyTransforms || c.kind == ApplyPostTransforms
    ensures var out := CallOutput(data, path, c, indent, port);
      && out.warnings == []
      && out.edges == [Edge(PortRef(path, IntToString(port)),
                            if c.kind == ApplyTransforms then TransformsId else PostTransformsId, true)]
  {
  }

  // ---------------------------------------------------------------------
  // An object's call sequence

  /** Each call moves the depth by one on `enter` and `exit`, and the port
      counter by one on anything but `exit`. */
  lemma CountersStep(calls: seq<Call>, n: nat)
    requires n < |calls|
    ensures Indent(calls, n + 1) == Indent(calls, n) + (if calls[n].kind == Enter then 1 else if calls[n].kind == Exit then -1 else 0)
    ensures PortCount(calls, n + 1) == PortCount(calls, n) + (if calls[n].kind == Exit then 0 else 1)
  {
  }

  /** The port counter never goes back. */
  lemma {:induction false} PortCountMonotone(calls: seq<Call>, m: nat, n: nat)
    requires m <= n <= |calls|
    ensures PortCount(calls, m) <= PortCount(calls, n)
    decreases n - m
  {
    if m < n {
      CountersStep(calls, m);
      PortCountMonotone(calls, m + 1, n);
    }
  }

  /** The cell's port attribute, in the place the assembler puts it. */
  predicate PortIs(c: Cell, port: string)
  {
    |c.attrs| >= 2 && c.attrs[1] == ("port", Str(port))
  }

  /** The first `n` calls give one row per call that is not an `exit`. */
  lemma {:induction false} CallsRowCount(objects: seq<(string, Object)>, calls: seq<Call>, n: nat)
    requires n <= |calls|
    ensures |RowsOfCalls(objects, calls, n)| == PortCount(calls, n)
    decreases n
  {
    if n > 0 {
      CallsRowCount(objects, calls, n - 1);
      CountersStep(calls, n - 1);
    }
  }

  /** A call's cell carries its port in the second attribute. */
  lemma CallCellPort(objects: seq<(string, Object)>, c: Call, indent: int, port: nat)
    ensures PortIs(CallCell(objects, c, indent, port), IntToString(port))
  {
  }

  /** Later calls only add rows after those of earlier calls: row `k`
      of the first `m` calls stays row `k`. */
  lemma {:induction false} CallsRowStable(objects: seq<(string, Object)>, calls: seq<Call>, m: nat, n: nat, k: nat)
    requires m <= n <= |calls|
    requires k < |RowsOfCalls(objects, calls, m)|
    ensures k < |RowsOfCalls(objects, calls, n)|
    ensures RowsOfCalls(objects, calls, n)[k] == RowsOfCalls(objects, calls, m)[k]
    decreases n
  {
    if m < n {
      CallsRowStable(objects, calls, m, n - 1, k);
      var prev := RowsOfCalls(objects, calls, n - 1);
      var extra := CallRows(objects, calls[n - 1], Indent(calls, n - 1), PortCount(calls, n - 1) + 1);
      assert RowsOfCalls(objects, calls, n) == prev + extra;
      assert (prev + extra)[k] == prev[k];
    }
  }

  /** Call `j`, when it is not an `exit`, has row number
      `PortCount(calls, j)`: the cell it gets at the depth and port the
      earlier calls leave. */
  lemma CallsRowOfCall(objects: seq<(string, Object)>, calls: seq<Call>, n: nat, j: nat)
    requires j < n <= |calls|
    requires calls[j].kind != Exit
    ensures var rows := RowsOfCalls(objects, calls, n);
      PortCount(calls, j) < |rows| &&
      rows[PortCount(calls, j)] == [CallCell(objects, calls[j], Indent(calls, j), PortCount(calls, j) + 1)]
  {
    var cell := CallCell(objects, calls[j], Indent(calls, j), PortCount(calls, j) + 1);
    var pre := RowsOfCalls(objects, calls, j);
    CallsRowCount(objects, calls, j);
    assert RowsOfCalls(objects, calls, j + 1) == pre + [[cell]];
    assert (pre + [[cell]])[|pre|] == [cell];
    CallsRowStable(objects, calls, j + 1, n, |pre|);
  }

  /** Among the first `n` calls, the one that takes port `j + 1`. */
  lemma {:induction false} CallOfPort(calls: seq<Call>, n: nat, j: nat) returns (i: nat)
    requires n <= |calls|
    requires j < PortCount(calls, n)
    ensures i < n && calls[i].kind != Exit && PortCount(calls, i) == j
    decreases n
  {
    CountersStep(calls, n - 1);
    if j < PortCount(calls, n - 1) {
      i := CallOfPort(calls, n - 1, j);
    } else {
      i := n - 1;
    }
  }

  /** Call row `j` has one cell, whose port is `str(j + 1)`: the ports of
      an object's call rows are consecutive from 1. */
  lemma CallsRowPort(objects: seq<(string, Object)>, calls: seq<Call>, n: nat, j: nat)
    requires n <= |calls|
    requires j < PortCount(calls, n)
    ensures var rows := RowsOfCalls(objects, calls, n);
      j < |rows| && |rows[j]| == 1 && PortIs(rows[j][0], IntToString(j + 1))
  {
    var i := CallOfPort(calls, n, j);
    CallsRowOfCall(objects, calls, n, i);
    CallCellPort(objects, calls[i], Indent(calls, i), j + 1);
  }

  /** No two call rows share a port. */
  lemma CallPortsDistinct(objects: seq<(string, Object)>, calls: seq<Call>, j: nat, k: nat)
    requires j < k < PortCount(calls, |calls|)
    ensures var rows := RowsOfCalls(objects, calls, |calls|);
      && k < |rows| && |rows[j]| == 1 && |rows[k]| == 1
      && PortIs(rows[j][0], IntToString(j + 1)) && PortIs(rows[k][0], IntToString(k + 1))
      && IntToString(j + 1) != IntToString(k + 1)
  {
    CallsRowPort(objects, calls, |calls|, j);
    CallsRowPort(objects, calls, |calls|, k);
    if IntToString(j + 1) == IntToString(k + 1) {
      IntToStringInjective(j + 1, k + 1);
    }
  }

  /** The edge starts at one of the ports 1 to `m` of node `path`. */
  predicate FromPort(edge: Edge, path: string, m: nat)
  {
    exists p: nat :: 1 <= p <= m && edge.src == PortRef(path, IntToString(p))
  }

  /** Every edge starts at one of the ports 1 to `m` of node `path`. */
  predicate EdgesFromPorts(edges: seq<Edge>, path: string, m: nat)
  {
    forall e :: 0 <= e < |edges| ==> FromPort(edges[e], path, m)
  }

  /** Adding edges that start at a port within the new bound keeps every
      edge's start among the ports. */
  lemma EdgesFromPortsSnoc(prev: seq<Edge>, extra: seq<Edge>, path: string, m: nat, m': nat, port: nat)
    requires EdgesFromPorts(prev, path, m) && m <= m'
    requires extra == [] || 1 <= port <= m'
    requires forall e :: 0 <= e < |extra| ==> extra[e].src == PortRef(path, IntToString(port))
    ensures EdgesFromPorts(prev + extra, path, m')
  {
    var all := prev + extra;
    forall e | 0 <= e < |all|
      ensures FromPort(all[e], path, m')
    {
      if e < |prev| {
        assert all[e] == prev[e];
        assert FromPort(prev[e], path, m);
        var p: nat :| 1 <= p <= m && prev[e].src == PortRef(path, IntToString(p));
        assert 1 <= p <= m';
      } else {
        assert all[e] == extra[e - |prev|];
        assert all[e].src == PortRef(path, IntToString(port));
      }
    }
  }

  /** The edge of a call, when there is one, starts at the call's port. */
  lemma CallEdgesStart(data: Data, path: string, c: Call, port: nat)
    ensures var edges := CallEdges(data, path, c, port);
      |edges| <= 1 && (c.kind == Exit ==> edges == [])
      && forall e :: 0 <= e < |edges| ==> edges[e].src == PortRef(path, IntToString(port))
  {
  }

  /** Every edge of an object's calls starts at the port of one of its
      call rows. */
  lemma {:induction false} CallsEdgesFromPorts(data: Data, path: string, calls: seq<Call>, n: nat)
    requires n <= |calls|
    ensures EdgesFromPorts(EdgesOfCalls(data, path, calls, n), path, PortCount(calls, n))
    decreases n
  {
    if n > 0 {
      var port := PortCount(calls, n - 1) + 1;
      CallsEdgesFromPorts(data, path, calls, n - 1);
      CountersStep(calls, n - 1);
      CallEdgesStart(data, path, calls[n - 1], port);
      EdgesFromPortsSnoc(EdgesOfCalls(data, path, calls, n - 1), CallEdges(data, path, calls[n - 1], port),
                         path, PortCount(calls, n - 1), PortCount(calls, n), port);
    }
  }
}
