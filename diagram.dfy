/**
 * The diagram a client submits for analysis (backend/main.py, DiagramData): a list of
 * node records and a list of edge records, each a JSON object of which the report
 * builders read a few optional string fields.
 */
module Diagram {
  import opened Wrappers

  /** A node record: `type`, `data.label` (as `caption`) and `id`, each absent or a string. */
  datatype Node = Node(kind: Option<string>, caption: Option<string>, id: Option<string>)

  /** An edge record: `source`, `target` and `label` (as `caption`), each absent or a string. */
  datatype Edge = Edge(source: Option<string>, target: Option<string>, caption: Option<string>)

  datatype DiagramData = DiagramData(nodes: seq<Node>, edges: seq<Edge>)

  /** `node.get("type", "default")`. */
  function NodeType(n: Node): (t: string)
  {
    n.kind.GetOr("default")
  }

  /** `node.get("data", {}).get("label", "Unnamed")`. */
  function NodeLabel(n: Node): (name: string)
  {
    n.caption.GetOr("Unnamed")
  }

  /** `node.get("id", "unknown")`. */
  function NodeId(n: Node): (id: string)
  {
    n.id.GetOr("unknown")
  }
}
