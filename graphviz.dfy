/** The part of graphviz's `Digraph` that the assembler uses: the nodes and
    edges it is given, in the order they are added. Layout, DOT output and
    rendering belong to the external renderer. */
module Graphviz {
  import opened HtmlLike

  /** A node: its id and its HTML-like label; `LabelText(html)` is the
      label text in the DOT source. */
  datatype Node = Node(id: string, html: Label)

  /** An edge from `src` (a node id, or `id:port`) to the node `dst`. */
  datatype Edge = Edge(src: string, dst: string, dashed: bool)

  class Digraph {
    const comment: string
    const graphAttr: seq<(string, string)>
    var nodes: seq<Node>
    var edges: seq<Edge>

    constructor (comment: string, graphAttr: seq<(string, string)>)
      ensures this.comment == comment && this.graphAttr == graphAttr
      ensures nodes == [] && edges == []
    {
      this.comment := comment;
      this.graphAttr := graphAttr;
      nodes := [];
      edges := [];
    }

    /** `graph.node(id, label=html.html(str(table)))`. */
    method AddNode(id: string, html: Label)
      modifies this
      ensures nodes == old(nodes) + [Node(id, html)]
      ensures edges == old(edges)
    {
      nodes := nodes + [Node(id, html)];
    }

    /** `graph.edge(src, dst)`, with `style="dashed"` when `dashed`. */
    method AddEdge(src: string, dst: string, dashed: bool)
      modifies this
      ensures edges == old(edges) + [Edge(src, dst, dashed)]
      ensures nodes == old(nodes)
    {
      edges := edges + [Edge(src, dst, dashed)];
    }
  }
}
