/** What the assembler promises about whole nodes and the whole graph:
    the rows, ports, edges and warnings of overrides, the layout of an
    object's node, which objects raise `UnboundLocalError`, the node of each
    entity, when the diagnostics stay empty, and what hidden entries leave
    out of the event and transform tables. */
module NodeProperties {
  import opened Collections
  import opened Strings
  import opened HtmlLike
  import opened Graphviz
  import opened SphinxGraph
  import opened GraphProperties

  // ---------------------------------------------------------------------
  // Overrides

  /** Override `j` has row `j`: one cell showing its name with the kind of
      the declaring object, anchored at port `start + j + 1`. */
  lemma {:induction false} OverridesRows(kind: ObjType, ovs: seq<string>, start: nat, n: nat)
    requires n <= |ovs|
    ensures var rows := RowsOfOverrides(kind, ovs, start, n);
      && |rows| == n
      && forall j :: 0 <= j < n ==> rows[j] == [OverrideCell(kind, ovs[j], start + j + 1)]
    decreases n
  {
    if n > 0 {
      OverridesRows(kind, ovs, start, n - 1);
      var prev := RowsOfOverrides(kind, ovs, start, n - 1);
      assert RowsOfOverrides(kind, ovs, start, n) == prev + [[OverrideCell(kind, ovs[n - 1], start + n)]];
    }
  }

  /** The first `n` overrides, each paired with the port it takes. */
  function Ported(ovs: seq<string>, start: nat, n: nat): seq<(string, nat)>
    requires n <= |ovs|
  {
    if n == 0 then [] else Ported(ovs, start, n - 1) + [(ovs[n - 1], start + n)]
  }

  /** Override `j` takes port `start + j + 1`. */
  lemma {:induction false} PortedAt(ovs: seq<string>, start: nat, n: nat)
    requires n <= |ovs|
    ensures var ps := Ported(ovs, start, n);
      && |ps| == n
      && forall j :: 0 <= j < n ==> ps[j] == (ovs[j], start + j + 1)
    decreases n
  {
    if n > 0 {
      PortedAt(ovs, start, n - 1);
    }
  }

  /** The edges of the overrides are, in order, one dashed edge from the
      port of each override whose target is a known object to that
      object; the others draw nothing. */
  lemma {:induction false} OverridesEdges(data: Data, path: string, ovs: seq<string>, start: nat, n: nat)
    requires n <= |ovs|
    ensures EdgesOfOverrides(data, path, ovs, start, n)
         == Map((p: (string, nat)) => Edge(PortRef(path, IntToString(p.1)), p.0, true),
                Filter((p: (string, nat)) => p.0 in Keys(data.objects), Ported(ovs, start, n)))
    decreases n
  {
    if n > 0 {
      OverridesEdges(data, path, ovs, start, n - 1);
      var keep := (p: (string, nat)) => p.0 in Keys(data.objects);
      var f := (p: (string, nat)) => Edge(PortRef(path, IntToString(p.1)), p.0, true);
      var prev: seq<(string, nat)>, p: (string, nat) := Ported(ovs, start, n - 1), (ovs[n - 1], start + n);
      var kept := Filter(keep, prev);
      assert Ported(ovs, start, n) == prev + [p];
      FilterSnoc(keep, prev, p);
      assert EdgesOfOverrides(data, path, ovs, start, n) == Map(f, kept) + OverrideEdges(data, path, ovs[n - 1], start + n);
      if keep(p) {
        MapSnoc(f, kept, p);
        assert OverrideEdges(data, path, ovs[n - 1], start + n) == [f(p)];
      } else {
        assert kept + [] == kept;
      }
    }
  }

  /** The warnings of the overrides are, in order, one for each override
      whose target is not a known object; the others warn about nothing. */
  lemma {:induction false} OverridesWarnings(data: Data, path: string, ovs: seq<string>, n: nat)
    requires n <= |ovs|
    ensures WarningsOfOverrides(data, path, ovs, n)
         == Map((ov: string) => OverrideNotFoundWarning(ov, path), Filter((ov: string) => ov !in Keys(data.objects), ovs[..n]))
    decreases n
  {
    if n > 0 {
      OverridesWarnings(data, path, ovs, n - 1);
      var keep := (ov: string) => ov !in Keys(data.objects);
      var f := (ov: string) => OverrideNotFoundWarning(ov, path);
      var ov := ovs[n - 1];
      var prev := Filter(keep, ovs[..n - 1]);
      assert ovs[..n] == ovs[..n - 1] + [ov];
      FilterSnoc(keep, ovs[..n - 1], ov);
      assert WarningsOfOverrides(data, path, ovs, n) == Map(f, prev) + OverrideWarnings(data, path, ov);
      if keep(ov) {
        MapSnoc(f, prev, ov);
        assert OverrideWarnings(data, path, ov) == [f(ov)];
      } else {
        assert prev + [] == prev;
      }
    }
  }

  /** Each override gives exactly one of an edge and a warning. */
  lemma {:induction false} OverridesEdgeOrWarning(data: Data, path: string, ovs: seq<string>, start: nat, n: nat)
    requires n <= |ovs|
    ensures |EdgesOfOverrides(data, path, ovs, start, n)| + |WarningsOfOverrides(data, path, ovs, n)| == n
    decreases n
  {
    if n > 0 {
      OverridesEdgeOrWarning(data, path, ovs, start, n - 1);
      var prevE, lastE := EdgesOfOverrides(data, path, ovs, start, n - 1), OverrideEdges(data, path, ovs[n - 1], start + n);
      var prevW, lastW := WarningsOfOverrides(data, path, ovs, n - 1), OverrideWarnings(data, path, ovs[n - 1]);
      assert EdgesOfOverrides(data, path, ovs, start, n) == prevE + lastE;
      assert WarningsOfOverrides(data, path, ovs, n) == prevW + lastW;
    }
  }

  // ---------------------------------------------------------------------
  // An object's node

  /** The rows of an object's table, given the `port_num` it starts with. */
  function ObjectRows(data: Data, path: string, obj: Object, portIn: PortNum): seq<seq<Cell>>
  {
    var start := PortAfterCalls(obj, portIn).ValueOr0();
    HeaderRows(path, obj) + RowsOfCalls(data.objects, obj.calls, |obj.calls|)
      + OverridableRows(obj) + RowsOfOverrides(obj.kind, obj.overrides, start, |obj.overrides|)
  }

  /** An object that does not raise registers exactly one node, keyed by
      its path, whose table holds its header rows, its call rows, the
      Overridable row if any and its override rows, in that order. */
  lemma ObjectNode(data: Data, path: string, obj: Object, portIn: PortNum)
    requires !ObjectOutput(data, path, obj, portIn).failed
    ensures ObjectOutput(data, path, obj, portIn).nodes == [LabelNode(path, ObjectRows(data, path, obj, portIn))]
  {
    var head := ObjectHead(data, path, obj);
    var start := PortAfterCalls(obj, portIn).ValueOr0();
    var ovs := OverridesOutput(data, path, obj.kind, obj.overrides, start, |obj.overrides|);
    assert head.Then(ovs).rows == head.rows + ovs.rows;
  }

  /** The pieces of `a + b + c + d` sit at their offsets. */
  lemma Concat4At<T>(a: seq<T>, b: seq<T>, c: seq<T>, d: seq<T>)
    ensures var s := a + b + c + d;
      && |s| == |a| + |b| + |c| + |d|
      && (|a| > 0 ==> s[0] == a[0])
      && (forall j :: 0 <= j < |b| ==> s[|a| + j] == b[j])
      && (|c| > 0 ==> s[|a| + |b|] == c[0])
      && (forall j :: 0 <= j < |d| ==> s[|a| + |b| + |c| + j] == d[j])
  {
  }

  /** The layout of an object's table: the name row, the description row
      if any, one row per call that is not an `exit`, the Overridable row
      exactly when the object has overrides or is overridable, then one
      row per override. */
  lemma ObjectRowsLayout(data: Data, path: string, obj: Object, portIn: PortNum)
    ensures var rows := ObjectRows(data, path, obj, portIn);
      var h := |HeaderRows(path, obj)|;
      var c := PortCount(obj.calls, |obj.calls|);
      var v := |OverridableRows(obj)|;
      && h == (if obj.description != "" then 2 else 1)
      && (v == 1 <==> |obj.overrides| > 0 || obj.overridable)
      && |rows| == h + c + v + |obj.overrides|
      && rows[0] == NameRow(path, obj)
      && (v == 1 ==> rows[h + c] == OverridableRow)
  {
    var start := PortAfterCalls(obj, portIn).ValueOr0();
    var header := HeaderRows(path, obj);
    var calls := RowsOfCalls(data.objects, obj.calls, |obj.calls|);
    var ovs := RowsOfOverrides(obj.kind, obj.overrides, start, |obj.overrides|);
    CallsRowCount(data.objects, obj.calls, |obj.calls|);
    OverridesRows(obj.kind, obj.overrides, start, |obj.overrides|);
    Concat4At(header, calls, OverridableRows(obj), ovs);
  }

  /** The middle and last pieces of `a + b + c + d`. */
  lemma Concat4Slices<T>(a: seq<T>, b: seq<T>, c: seq<T>, d: seq<T>)
    ensures var s := a + b + c + d;
      && s[|a|..|a| + |b|] == b
      && s[|a| + |b| + |c|..] == d
  {
    var s := a + b + c + d;
    assert s == a + (b + c + d);
    assert s[|a|..] == b + c + d;
    assert (b + c + d)[..|b|] == b;
    assert s == (a + b + c) + d;
  }

  /** Where an object's call and override rows sit in its table: the call
      rows follow the header rows, and the override rows come last. Their
      ports continue the `port_num` left after the object's own calls or,
      when it has none, the one left by the objects before it. */
  lemma ObjectRowsPorts(data: Data, path: string, obj: Object, portIn: PortNum)
    ensures var rows := ObjectRows(data, path, obj, portIn);
      var h := |HeaderRows(path, obj)|;
      var c := PortCount(obj.calls, |obj.calls|);
      var v := |OverridableRows(obj)|;
      var start := if |obj.calls| > 0 then PortCount(obj.calls, |obj.calls|) else portIn.ValueOr0();
      && h + c + v <= |rows|
      && rows[h..h + c] == RowsOfCalls(data.objects, obj.calls, |obj.calls|)
      && rows[h + c + v..] == RowsOfOverrides(obj.kind, obj.overrides, start, |obj.overrides|)
  {
    var start := PortAfterCalls(obj, portIn).ValueOr0();
    var header := HeaderRows(path, obj);
    var calls := RowsOfCalls(data.objects, obj.calls, |obj.calls|);
    var ovs := RowsOfOverrides(obj.kind, obj.overrides, start, |obj.overrides|);
    CallsRowCount(data.objects, obj.calls, |obj.calls|);
    Concat4Slices(header, calls, OverridableRows(obj), ovs);
  }

  /** An object with no description, no calls and no override data gets a
      node whose table holds the name row alone, and adds no edge and no
      warning. */
  lemma BareObject(data: Data, path: string, obj: Object, portIn: PortNum)
    requires obj.description == "" && obj.calls == [] && obj.overrides == [] && !obj.overridable
    ensures ObjectOutput(data, path, obj, portIn)
         == Build([LabelNode(path, [NameRow(path, obj)])], [], [], portIn, false)
  {
    var head := ObjectHead(data, path, obj);
    var ovs := OverridesOutput(data, path, obj.kind, obj.overrides, portIn.ValueOr0(), 0);
    assert ovs == NoOutput;
    assert CallsOutput(data, path, obj.calls, 0) == NoOutput;
    assert head == Output([NameRow(path, obj)], [], []);
    assert head.Then(ovs) == head;
  }

  // ---------------------------------------------------------------------
  // UnboundLocalError

  /** An object raises exactly when it has overrides, has no calls of its
      own, and no object before it has bound `port_num`; `port_num` stays
      unbound only while no object has had calls or overrides. */
  lemma ObjectRaises(data: Data, path: string, obj: Object, portIn: PortNum)
    ensures var r := ObjectOutput(data, path, obj, portIn);
      && (r.failed <==> |obj.overrides| > 0 && |obj.calls| == 0 && portIn.Unbound?)
      && (!r.failed ==> (r.port.Unbound? <==> |obj.calls| == 0 && |obj.overrides| == 0 && portIn.Unbound?))
  {
  }

  /** Object `k` raises when objects are processed from index `i` with
      `port_num` unbound: it has overrides, and neither it nor any object
      from `i` up to it has calls. */
  predicate RaisesAt(objs: seq<(string, Object)>, i: nat, k: nat)
    requires i <= k < |objs|
  {
    |objs[k].1.overrides| > 0 && forall j :: i <= j <= k ==> |objs[j].1.calls| == 0
  }

  /** Some object from index `i` on raises. */
  predicate SomeRaisesFrom(objs: seq<(string, Object)>, i: nat)
    requires i <= |objs|
  {
    exists k :: i <= k < |objs| && RaisesAt(objs, i, k)
  }

  /** An object with neither calls nor overrides leaves unchanged which of
      the objects after it raise. */
  lemma SomeRaisesFromSkip(objs: seq<(string, Object)>, i: nat)
    requires i < |objs| && |objs[i].1.calls| == 0 && |objs[i].1.overrides| == 0
    ensures SomeRaisesFrom(objs, i) <==> SomeRaisesFrom(objs, i + 1)
  {
    if SomeRaisesFrom(objs, i) {
      var k :| i <= k < |objs| && RaisesAt(objs, i, k);
      assert k != i && RaisesAt(objs, i + 1, k);
    }
    if SomeRaisesFrom(objs, i + 1) {
      var k :| i + 1 <= k < |objs| && RaisesAt(objs, i + 1, k);
      assert RaisesAt(objs, i, k);
    }
  }

  /** No object from index `i` on raises once object `i` has calls. */
  lemma SomeRaisesFromCalls(objs: seq<(string, Object)>, i: nat)
    requires i < |objs| && |objs[i].1.calls| > 0
    ensures !SomeRaisesFrom(objs, i)
  {
    forall k | i <= k < |objs| ensures !RaisesAt(objs, i, k) {
      assert |objs[i].1.calls| != 0;
    }
  }

  lemma {:induction false} ObjectsFromRaises(data: Data, objs: seq<(string, Object)>, i: nat, port: PortNum)
    requires i <= |objs|
    ensures port.Bound? ==> !ObjectsFrom(data, objs, i, port).failed
    ensures port.Unbound? ==> (ObjectsFrom(data, objs, i, port).failed <==> SomeRaisesFrom(objs, i))
    decreases |objs| - i
  {
    if i < |objs| {
      var obj := objs[i].1;
      var r := ObjectOutput(data, objs[i].0, obj, port);
      ObjectRaises(data, objs[i].0, obj, port);
      if !r.failed {
        ObjectsFromRaises(data, objs, i + 1, r.port);
        assert ObjectsFrom(data, objs, i, port).failed == ObjectsFrom(data, objs, i + 1, r.port).failed;
        if port.Unbound? {
          if |obj.calls| > 0 {
            SomeRaisesFromCalls(objs, i);
          } else {
            SomeRaisesFromSkip(objs, i);
          }
        }
      } else {
        assert ObjectsFrom(data, objs, i, port).failed;
        assert RaisesAt(objs, i, i);
      }
    }
  }

  /** `build_graph` raises `UnboundLocalError` exactly when some object has
      overrides while neither it nor any object before it has calls. */
  lemma GraphRaises(data: Data)
    ensures GraphSpec(data).failed <==> SomeRaisesFrom(data.objects, 0)
  {
    ObjectsFromRaises(data, data.objects, 0, Unbound);
  }

  // ---------------------------------------------------------------------
  // Node registration

  /** `nodes` are keyed, in order, by the paths of the objects from index `i` on. */
  predicate KeyedFrom(nodes: seq<Node>, objs: seq<(string, Object)>, i: nat)
    requires i <= |objs|
  {
    |nodes| == |objs| - i && forall k :: i <= k < |objs| ==> nodes[k - i].id == objs[k].0
  }

  lemma KeyedFromCons(node: Node, rest: seq<Node>, objs: seq<(string, Object)>, i: nat)
    requires i < |objs| && node.id == objs[i].0 && KeyedFrom(rest, objs, i + 1)
    ensures KeyedFrom([node] + rest, objs, i)
  {
    var nodes := [node] + rest;
    forall k | i <= k < |objs| ensures nodes[k - i].id == objs[k].0 {
      if k > i {
        assert nodes[k - i] == rest[k - (i + 1)];
      }
    }
  }

  /** The objects from index `i` on register one node each, in order,
      keyed by their paths. */
  lemma {:induction false} ObjectsFromNodes(data: Data, objs: seq<(string, Object)>, i: nat, port: PortNum)
    requires i <= |objs|
    ensures var b := ObjectsFrom(data, objs, i, port);
      !b.failed ==> KeyedFrom(b.nodes, objs, i)
    decreases |objs| - i
  {
    if i < |objs| {
      var r := ObjectOutput(data, objs[i].0, objs[i].1, port);
      if !r.failed {
        ObjectNode(data, objs[i].0, objs[i].1, port);
        ObjectsFromNodes(data, objs, i + 1, r.port);
        var rest := ObjectsFrom(data, objs, i + 1, r.port);
        assert ObjectsFrom(data, objs, i, port).nodes == r.nodes + rest.nodes;
        if !rest.failed {
          KeyedFromCons(r.nodes[0], rest.nodes, objs, i);
        }
      }
    }
  }

  /** The first `n` events give one node each, in order. */
  lemma {:induction false} EventNodesAt(events: seq<(string, Event)>, n: nat)
    requires n <= |events|
    ensures |EventNodes(events, n)| == n
    ensures forall k :: 0 <= k < n ==> EventNodes(events, n)[k] == EventNode(events[k].0, events[k].1)
    decreases n
  {
    if n > 0 {
      EventNodesAt(events, n - 1);
    }
  }

  /** The nodes `build_graph` registers when it returns: the objects'
      nodes, then the events' nodes, then the two pseudo-nodes. */
  lemma GraphSpecNodes(data: Data)
    requires !GraphSpec(data).failed
    ensures GraphSpec(data).nodes
         == ObjectsFrom(data, data.objects, 0, Unbound).nodes + EventNodes(data.events, |data.events|)
          + [TransformsNode(TransformsId, data.transforms)] + [PostTransformsNode(PostTransformsId, data.postTransforms)]
  {
  }

  /** `nodes` are one per object, keyed by its path, then one per event,
      keyed by its name, in insertion order, then the transforms and
      post-transforms pseudo-nodes. */
  predicate NodesLayout(nodes: seq<Node>, objs: seq<(string, Object)>, events: seq<(string, Event)>)
  {
    var m, e := |objs|, |events|;
    && |nodes| == m + e + 2
    && (forall k :: 0 <= k < m ==> nodes[k].id == objs[k].0)
    && (forall k :: 0 <= k < e ==> nodes[m + k].id == events[k].0)
    && nodes[m + e].id == TransformsId
    && nodes[m + e + 1].id == PostTransformsId
  }

  lemma NodeIdsLayout(objNodes: seq<Node>, evs: seq<Node>, tr: Node, ptr: Node,
                      objs: seq<(string, Object)>, events: seq<(string, Event)>)
    requires KeyedFrom(objNodes, objs, 0)
    requires |evs| == |events| && forall k :: 0 <= k < |events| ==> evs[k].id == events[k].0
    requires tr.id == TransformsId && ptr.id == PostTransformsId
    ensures NodesLayout(objNodes + evs + [tr] + [ptr], objs, events)
  {
    var nodes := objNodes + evs + [tr] + [ptr];
    Concat4At(objNodes, evs, [tr], [ptr]);
    forall k | 0 <= k < |objs| ensures nodes[k].id == objs[k].0 {
      assert nodes[k] == objNodes[k - 0];
    }
  }

  /** The first `n` events give one node each, keyed by the event's name. */
  lemma {:induction false} EventNodeIds(events: seq<(string, Event)>, n: nat)
    requires n <= |events|
    ensures |EventNodes(events, n)| == n
    ensures forall k :: 0 <= k < n ==> EventNodes(events, n)[k].id == events[k].0
    decreases n
  {
    if n > 0 {
      EventNodeIds(events, n - 1);
      var prev := EventNodes(events, n - 1);
      assert EventNodes(events, n) == prev + [EventNode(events[n - 1].0, events[n - 1].1)];
    }
  }

  /** When `build_graph` returns, it has registered exactly one node per
      object, then one per event, in their insertion order, then the
      transforms and post-transforms pseudo-nodes, which are there even
      when there are no transforms. */
  lemma GraphNodes(data: Data)
    requires !GraphSpec(data).failed
    ensures NodesLayout(GraphSpec(data).nodes, data.objects, data.events)
  {
    var objNodes := ObjectsFrom(data, data.objects, 0, Unbound).nodes;
    var evs := EventNodes(data.events, |data.events|);
    var tr, ptr := TransformsNode(TransformsId, data.transforms), PostTransformsNode(PostTransformsId, data.postTransforms);
    ObjectsFromNodes(data, data.objects, 0, Unbound);
    EventNodeIds(data.events, |data.events|);
    NodeIdsLayout(objNodes, evs, tr, ptr, data.objects, data.events);
    GraphSpecNodes(data);
  }

  // ---------------------------------------------------------------------
  // Diagnostics

  /** A call's reference resolves, or the call is not one that warns:
      `standard` and `enter` references warn only when `warn_no_object` is
      set; an `emit` always warns for an unknown event. */
  predicate CallResolved(data: Data, c: Call)
  {
    match c.kind
    case Standard | Enter => !(EffectiveIsRef(c) && c.warnNoObject) || c.text in Keys(data.objects)
    case Emit => c.text in Keys(data.events)
    case _ => true
  }

  /** Every call and every override of the object resolves. */
  predicate ObjectResolved(data: Data, obj: Object)
  {
    && (forall k :: 0 <= k < |obj.calls| ==> CallResolved(data, obj.calls[k]))
    && (forall k :: 0 <= k < |obj.overrides| ==> obj.overrides[k] in Keys(data.objects))
  }

  predicate ObjectsResolved(data: Data, objs: seq<(string, Object)>, i: nat)
    requires i <= |objs|
  {
    forall k :: i <= k < |objs| ==> ObjectResolved(data, objs[k].1)
  }

  /** A call warns exactly when it does not resolve. */
  lemma CallWarns(data: Data, path: string, c: Call)
    ensures CallWarnings(data, path, c) == [] <==> CallResolved(data, c)
  {
  }

  /** The first `n` calls give no warning exactly when all of them resolve. */
  lemma {:induction false} CallsWarn(data: Data, path: string, calls: seq<Call>, n: nat)
    requires n <= |calls|
    ensures WarningsOfCalls(data, path, calls, n) == [] <==> forall k :: 0 <= k < n ==> CallResolved(data, calls[k])
    decreases n
  {
    if n > 0 {
      CallsWarn(data, path, calls, n - 1);
      CallWarns(data, path, calls[n - 1]);
      var prev, last := WarningsOfCalls(data, path, calls, n - 1), CallWarnings(data, path, calls[n - 1]);
      assert WarningsOfCalls(data, path, calls, n) == prev + last;
    }
  }

  /** The first `n` overrides give no warning exactly when all of them are
      known objects. */
  lemma {:induction false} OverridesWarn(data: Data, path: string, ovs: seq<string>, n: nat)
    requires n <= |ovs|
    ensures WarningsOfOverrides(data, path, ovs, n) == [] <==> forall k :: 0 <= k < n ==> ovs[k] in Keys(data.objects)
    decreases n
  {
    if n > 0 {
      OverridesWarn(data, path, ovs, n - 1);
      var prev, last := WarningsOfOverrides(data, path, ovs, n - 1), OverrideWarnings(data, path, ovs[n - 1]);
      assert WarningsOfOverrides(data, path, ovs, n) == prev + last;
    }
  }

  /** An object that does not raise warns exactly when one of its calls or
      overrides does not resolve; one that raises has warned only if one
      of its calls does not resolve. */
  lemma ObjectWarns(data: Data, path: string, obj: Object, portIn: PortNum)
    ensures var r := ObjectOutput(data, path, obj, portIn);
      && (ObjectResolved(data, obj) ==> r.warnings == [])
      && (!r.failed && r.warnings == [] ==> ObjectResolved(data, obj))
  {
    var port := PortAfterCalls(obj, portIn);
    CallsWarn(data, path, obj.calls, |obj.calls|);
    OverridesWarn(data, path, obj.overrides, |obj.overrides|);
  }

  lemma {:induction false} ObjectsFromWarn(data: Data, objs: seq<(string, Object)>, i: nat, port: PortNum)
    requires i <= |objs|
    ensures var b := ObjectsFrom(data, objs, i, port);
      && (ObjectsResolved(data, objs, i) ==> b.warnings == [])
      && (!b.failed && b.warnings == [] ==> ObjectsResolved(data, objs, i))
    decreases |objs| - i
  {
    if i < |objs| {
      var r := ObjectOutput(data, objs[i].0, objs[i].1, port);
      ObjectWarns(data, objs[i].0, objs[i].1, port);
      if !r.failed {
        ObjectsFromWarn(data, objs, i + 1, r.port);
      }
    }
  }

  /** When every reference resolves, `build_graph` writes no warning. When
      it returns a graph without writing any warning, every reference
      resolves. */
  lemma NoWarningsIffResolved(data: Data)
    ensures ObjectsResolved(data, data.objects, 0) ==> GraphSpec(data).warnings == []
    ensures !GraphSpec(data).failed && GraphSpec(data).warnings == [] ==> ObjectsResolved(data, data.objects, 0)
  {
    ObjectsFromWarn(data, data.objects, 0, Unbound);
  }

  // ---------------------------------------------------------------------
  // Hidden entries

  predicate CallbackShown(cb: (string, EventCallback))
  {
    !cb.1.hide
  }

  predicate TransformShown(tr: (string, Transform))
  {
    !tr.1.hide
  }

  predicate PostTransformShown(tr: (string, PostTransform))
  {
    !tr.1.hide
  }

  /** An event's node is the same as if its hidden callbacks were removed. */
  lemma HiddenCallbacksOmitted(name: string, ev: Event)
    ensures EventNode(name, ev) == EventNode(name, Event(Filter(CallbackShown, ev.callbacks)))
  {
    FlatMapFilter(CallbackRows, CallbackShown, ev.callbacks);
  }

  /** The transforms' edges from the first `n` entries only look at them. */
  lemma {:induction false} TransformsEdgesPrefix(nodeId: string, trs: seq<(string, Transform)>, n: nat)
    requires n <= |trs|
    ensures TransformsEdges(nodeId, trs, n) == TransformsEdges(nodeId, trs[..n], n)
    decreases n
  {
    if n > 0 {
      TransformsEdgesPrefix(nodeId, trs, n - 1);
      TransformsEdgesPrefix(nodeId, trs[..n], n - 1);
      assert trs[..n][..n - 1] == trs[..n - 1];
    }
  }

  /** The transforms node and its edges are the same as if the hidden
      transforms were removed: a hidden transform has no row and no emit
      edge, and the others keep theirs. */
  lemma {:induction false} HiddenTransformsOmitted(nodeId: string, trs: seq<(string, Transform)>)
    ensures TransformsNode(nodeId, trs) == TransformsNode(nodeId, Filter(TransformShown, trs))
    ensures var shown := Filter(TransformShown, trs);
      TransformsEdges(nodeId, trs, |trs|) == TransformsEdges(nodeId, shown, |shown|)
    decreases |trs|
  {
    FlatMapFilter(TransformRows, TransformShown, trs);
    if |trs| > 0 {
      var init, last := trs[..|trs| - 1], trs[|trs| - 1];
      HiddenTransformsOmitted(nodeId, init);
      TransformsEdgesPrefix(nodeId, trs, |trs| - 1);
      var shownInit := Filter(TransformShown, init);
      var shown := Filter(TransformShown, trs);
      var lastEdges := EmitEdges(nodeId, last.0, last.1.hide, last.1.emit);
      assert trs[..|trs| - 1] == init;
      if TransformShown(last) {
        assert shown == shownInit + [last];
        TransformsEdgesPrefix(nodeId, shown, |shownInit|);
        assert shown[..|shownInit|] == shownInit;
      } else {
        assert shown == shownInit;
        assert lastEdges == [];
      }
    }
  }

  /** The post-transforms' edges from the first `n` entries only look at them. */
  lemma {:induction false} PostTransformsEdgesPrefix(nodeId: string, trs: seq<(string, PostTransform)>, n: nat)
    requires n <= |trs|
    ensures PostTransformsEdges(nodeId, trs, n) == PostTransformsEdges(nodeId, trs[..n], n)
    decreases n
  {
    if n > 0 {
      PostTransformsEdgesPrefix(nodeId, trs, n - 1);
      PostTransformsEdgesPrefix(nodeId, trs[..n], n - 1);
      assert trs[..n][..n - 1] == trs[..n - 1];
    }
  }

  /** The post-transforms node and its edges are the same as if the hidden
      post-transforms were removed. */
  lemma {:induction false} HiddenPostTransformsOmitted(nodeId: string, trs: seq<(string, PostTransform)>)
    ensures PostTransformsNode(nodeId, trs) == PostTransformsNode(nodeId, Filter(PostTransformShown, trs))
    ensures var shown := Filter(PostTransformShown, trs);
      PostTransformsEdges(nodeId, trs, |trs|) == PostTransformsEdges(nodeId, shown, |shown|)
    decreases |trs|
  {
    FlatMapFilter(PostTransformRows, PostTransformShown, trs);
    if |trs| > 0 {
      var init, last := trs[..|trs| - 1], trs[|trs| - 1];
      HiddenPostTransformsOmitted(nodeId, init);
      PostTransformsEdgesPrefix(nodeId, trs, |trs| - 1);
      var shownInit := Filter(PostTransformShown, init);
      var shown := Filter(PostTransformShown, trs);
      var lastEdges := EmitEdges(nodeId, last.0, last.1.hide, last.1.emit);
      assert trs[..|trs| - 1] == init;
      if PostTransformShown(last) {
        assert shown == shownInit + [last];
        PostTransformsEdgesPrefix(nodeId, shown, |shownInit|);
        assert shown[..|shownInit|] == shownInit;
      } else {
        assert shown == shownInit;
        assert lastEdges == [];
      }
    }
  }

  // ---------------------------------------------------------------------
  // Rows of callbacks and transforms

  /** A shown transform's first row holds its name without a leading
      `sphinx.` and its priority, in a cell whose port is the transform's
      full name; a documentation row follows when it has documentation. A
      shown transform that emits draws an edge from that port to the event,
      whether or not the event exists. */
  lemma TransformRowsSpec(nodeId: string, tr: (string, Transform))
    requires TransformShown(tr)
    ensures var rows := TransformRows(tr);
      && |rows| == (if tr.1.doc != "" then 2 else 1)
      && |rows[0]| == 2
      && rows[0][0].content == StripSphinx(tr.0)
      && rows[0][1].content == IntToString(tr.1.priority)
      && ("port", Str(tr.0)) in rows[0][1].attrs
    ensures EmitEdges(nodeId, tr.0, tr.1.hide, tr.1.emit)
         == if Emits(tr.1.emit) then [Edge(PortRef(nodeId, tr.0), tr.1.emit.value, false)] else []
  {
    var first: seq<Cell> := TransformRows(tr)[0];
    assert first[1].attrs[2] == ("port", Str(tr.0));
  }

  /** A shown post-transform's first row holds its name without a leading
      `sphinx.` and its formats then builders joined by commas, in a cell
      whose port is its full name; when there is at least one tag and no
      tag holds a comma, splitting that cell's text on commas gives the
      tags back. */
  lemma PostTransformRowsSpec(tr: (string, PostTransform))
    requires PostTransformShown(tr)
    ensures var rows := PostTransformRows(tr);
      && |rows| == (if tr.1.doc != "" then 2 else 1)
      && |rows[0]| == 2
      && rows[0][0].content == StripSphinx(tr.0)
      && ("port", Str(tr.0)) in rows[0][1].attrs
      && rows[0][1].content == Join(",", tr.1.formats + tr.1.builders)
    ensures var tags := tr.1.formats + tr.1.builders;
      |tags| >= 1 && (forall k :: 0 <= k < |tags| ==> ',' !in tags[k]) ==>
        Split(PostTransformRows(tr)[0][1].content, ',') == tags
  {
    var first: seq<Cell> := PostTransformRows(tr)[0];
    assert first[1].attrs[2] == ("port", Str(tr.0));
    var tags := tr.1.formats + tr.1.builders;
    if |tags| >= 1 && forall k :: 0 <= k < |tags| ==> ',' !in tags[k] {
      SplitJoin(tags, ',');
    }
  }

  /** A hidden callback, transform or post-transform has no rows. */
  lemma HiddenHaveNoRows(cb: (string, EventCallback), tr: (string, Transform), ptr: (string, PostTransform))
    ensures CallbackRows(cb) == [] <==> cb.1.hide
    ensures TransformRows(tr) == [] <==> tr.1.hide
    ensures PostTransformRows(ptr) == [] <==> ptr.1.hide
  {
  }
}
