/**
 * The plain-text description of a diagram handed to the analyser (backend/main.py,
 * format_diagram_for_analysis): a nodes header, one line per node, an edges header, one
 * line per edge or a placeholder when there are none, joined by newlines.
 */
module Describe {
  import opened Text
  import opened Diagram

  const NodesHeader: string := "## Nodes (Components):"
  const EdgesTitle: string := "## Edges (Connections):"
  /** The edges header starts with a newline, which leaves a blank line before it. */
  const EdgesHeader: string := "\n" + EdgesTitle
  const NoConnections: string := "- No connections defined"

  /** `- [type] label (id: id)`, with the defaults of Diagram filled in. */
  function NodeLine(n: Node): (line: string)
  {
    "- [" + NodeType(n) + "] " + NodeLabel(n) + " (id: " + NodeId(n) + ")"
  }

  /** `- source --label--> target`, with `?` for a missing end and `connects to` for a missing label. */
  function EdgeLine(e: Edge): (line: string)
  {
    "- " + e.source.GetOr("?") + " --" + e.caption.GetOr("connects to") + "--> " + e.target.GetOr("?")
  }

  /** One line per node, in input order. */
  function NodeLines(ns: seq<Node>): (r: seq<string>)
    ensures |r| == |ns|
    ensures forall i :: 0 <= i < |ns| ==> r[i] == NodeLine(ns[i])
  {
    if ns == [] then [] else NodeLines(ns[..|ns| - 1]) + [NodeLine(ns[|ns| - 1])]
  }

  /** One line per edge, in input order. */
  function EdgeLines(es: seq<Edge>): (r: seq<string>)
    ensures |r| == |es|
    ensures forall j :: 0 <= j < |es| ==> r[j] == EdgeLine(es[j])
  {
    if es == [] then [] else EdgeLines(es[..|es| - 1]) + [EdgeLine(es[|es| - 1])]
  }

  /** The list `lines` the description is joined from. */
  function DescriptionLines(d: DiagramData): (lines: seq<string>)
  {
    [NodesHeader] + NodeLines(d.nodes) + [EdgesHeader] + EdgeLines(d.edges)
      + (if |d.edges| == 0 then [NoConnections] else [])
  }

  /** `format_diagram_for_analysis`: builds the list of lines and joins it with newlines. */
  method FormatDiagram(d: DiagramData) returns (text: string)
    ensures text == Join(DescriptionLines(d))
  {
    var lines := [NodesHeader];
    for i := 0 to |d.nodes|
      invariant lines == [NodesHeader] + NodeLines(d.nodes[..i])
    {
      assert d.nodes[..i + 1][..i] == d.nodes[..i];
      lines := lines + [NodeLine(d.nodes[i])];
    }
    assert d.nodes[..|d.nodes|] == d.nodes;
    lines := lines + [EdgesHeader];
    for j := 0 to |d.edges|
      invariant lines == [NodesHeader] + NodeLines(d.nodes) + [EdgesHeader] + EdgeLines(d.edges[..j])
    {
      assert d.edges[..j + 1][..j] == d.edges[..j];
      lines := lines + [EdgeLine(d.edges[j])];
    }
    assert d.edges[..|d.edges|] == d.edges;
    if |d.edges| == 0 {
      lines := lines + [NoConnections];
    } else {
      assert lines + [] == lines;
    }
    assert lines == DescriptionLines(d);
    text := Join(lines);
  }

  /** The description opens with the nodes header followed by each node's line, in input order. */
  lemma NodeLayout(d: DiagramData)
    ensures var lines := DescriptionLines(d);
      && |lines| == |d.nodes| + 2 + (if |d.edges| == 0 then 1 else |d.edges|)
      && lines[0] == NodesHeader
      && (forall i :: 0 <= i < |d.nodes| ==> lines[1 + i] == NodeLine(d.nodes[i]))
  {
    var lines := DescriptionLines(d);
    forall i | 0 <= i < |d.nodes|
      ensures lines[1 + i] == NodeLine(d.nodes[i])
    {
      assert lines[1 + i] == NodeLines(d.nodes)[i];
    }
  }

  /**
   * After the node lines come the edges header, each edge's line in input order, and the
   * placeholder when there are no edges.
   */
  lemma EdgeLayout(d: DiagramData)
    ensures var lines := DescriptionLines(d); var n := |d.nodes|;
      && |lines| == n + 2 + (if |d.edges| == 0 then 1 else |d.edges|)
      && lines[n + 1] == EdgesHeader
      && (forall j :: 0 <= j < |d.edges| ==> lines[n + 2 + j] == EdgeLine(d.edges[j]))
      && (|d.edges| == 0 ==> lines[n + 2] == NoConnections)
  {
    var lines := DescriptionLines(d);
    var n := |d.nodes|;
    var pre := [NodesHeader] + NodeLines(d.nodes);
    var rest := EdgeLines(d.edges) + (if |d.edges| == 0 then [NoConnections] else []);
    assert lines == pre + ([EdgesHeader] + rest);
    assert |pre| == n + 1;
    assert lines[n + 1] == EdgesHeader;
    forall j | 0 <= j < |d.edges|
      ensures lines[n + 2 + j] == EdgeLine(d.edges[j])
    {
      assert lines[n + 2 + j] == rest[j] == EdgeLines(d.edges)[j];
    }
    if |d.edges| == 0 {
      assert lines[n + 2] == rest[0];
    }
  }

  /** No node line and no header reads as the placeholder. */
  lemma OnlyPlaceholderReadsAsPlaceholder(d: DiagramData)
    ensures forall i :: 0 <= i < |d.nodes| ==> NodeLine(d.nodes[i]) != NoConnections
    ensures forall j :: 0 <= j < |d.edges| ==> EdgeLine(d.edges[j]) != NoConnections
    ensures NodesHeader != NoConnections && EdgesHeader != NoConnections
  {
    forall i | 0 <= i < |d.nodes|
      ensures NodeLine(d.nodes[i]) != NoConnections
    {
      assert NodeLine(d.nodes[i])[2] == '[' != NoConnections[2];
    }
    forall j | 0 <= j < |d.edges|
      ensures EdgeLine(d.edges[j]) != NoConnections
    {
      var e := d.edges[j];
      var head := "- " + e.source.GetOr("?") + " --" + e.caption.GetOr("connects to") + "--";
      assert EdgeLine(e) == head + ">" + " " + e.target.GetOr("?");
      assert EdgeLine(e)[|head|] == '>';
      assert '>' in EdgeLine(e);
      assert '>' !in NoConnections;
    }
    assert NodesHeader[0] != NoConnections[0];
    assert EdgesHeader[0] != NoConnections[0];
  }

  /** The placeholder line is present exactly when the diagram has no edges. */
  lemma {:induction false} PlaceholderIffNoEdges(d: DiagramData)
    ensures NoConnections in DescriptionLines(d) <==> |d.edges| == 0
  {
    var lines := DescriptionLines(d);
    NodeLayout(d);
    EdgeLayout(d);
    OnlyPlaceholderReadsAsPlaceholder(d);
    if |d.edges| > 0 {
      forall k | 0 <= k < |lines|
        ensures lines[k] != NoConnections
      {
        if k == 0 {
        } else if k <= |d.nodes| {
          assert lines[k] == NodeLine(d.nodes[k - 1]);
        } else if k == |d.nodes| + 1 {
        } else {
          assert lines[k] == EdgeLine(d.edges[k - |d.nodes| - 2]);
        }
      }
    }
  }

  /** No node line and no edge line contains a newline: no label, type, id or endpoint holds one. */
  ghost predicate SingleLineFields(d: DiagramData)
  {
    SingleLines(NodeLines(d.nodes)) && SingleLines(EdgeLines(d.edges))
  }

  /** The fixed lines hold no newline of their own. */
  lemma FixedLinesSingle()
    ensures SingleLines([NodesHeader]) && SingleLines(["", EdgesTitle]) && SingleLines([NoConnections])
  {
    NodesHeaderSingle();
    EdgesTitleSingle();
    NoConnectionsSingle();
  }

  lemma NodesHeaderSingle()
    ensures '\n' !in NodesHeader
  {
  }

  lemma EdgesTitleSingle()
    ensures '\n' !in EdgesTitle
  {
  }

  lemma NoConnectionsSingle()
    ensures '\n' !in NoConnections
  {
  }

  /** The lines of the text, as a reader splitting it at newlines sees them. */
  function TextLines(d: DiagramData): (lines: seq<string>)
  {
    [NodesHeader] + NodeLines(d.nodes) + ["", EdgesTitle] + EdgeLines(d.edges)
      + (if |d.edges| == 0 then [NoConnections] else [])
  }

  /**
   * When no label, type, id or endpoint holds a newline, splitting the description at
   * newlines gives back every line: each node and each edge on a line of its own, with a
   * blank line before the edges header.
   */
  lemma {:induction false} DescriptionSplitsIntoLines(d: DiagramData)
    requires SingleLineFields(d)
    ensures Split(Join(DescriptionLines(d))) == TextLines(d)
  {
    var head := [NodesHeader] + NodeLines(d.nodes);
    var placeholder := if |d.edges| == 0 then [NoConnections] else [];
    var tail := EdgeLines(d.edges) + placeholder;
    assert DescriptionLines(d) == head + ([EdgesHeader] + tail);
    assert TextLines(d) == head + (["", EdgesTitle] + tail);
    LeadingNewline(head, EdgesTitle, tail);
    FixedLinesSingle();
    assert SingleLines(placeholder);
    SingleLinesAppend([NodesHeader], NodeLines(d.nodes));
    SingleLinesAppend(EdgeLines(d.edges), placeholder);
    SingleLinesAppend(["", EdgesTitle], tail);
    SingleLinesAppend(head, ["", EdgesTitle] + tail);
    SplitJoin(TextLines(d));
  }
}
