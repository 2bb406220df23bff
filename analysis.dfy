/**
 * The demo analysis returned when no AI model is configured (backend/main.py,
 * generate_mock_analysis): the counts it reports, which warnings and notes it includes,
 * the risk rating and the closing remark. The report's fixed Markdown prose is not part
 * of the model; a Report records the choices that the prose is assembled from.
 */
module MockAnalysis {
  import opened Fanout
  import opened Diagram
  import opened Text

  /** The optional paragraphs of the "Security Assessment" section, in the order they appear. */
  datatype Section = EmptyArchitecture | DatabaseDetected | ApiDetected | IsolatedComponents

  /** The overall risk rating. */
  datatype Risk = High | Medium | Low

  /** The remark after the rating: incomplete architecture, proper connectivity, or nothing. */
  datatype Closing = Incomplete | Connected | NoClosing

  /**
   * What the report says: the totals, the `node_types` dictionary (its keys in insertion
   * order as `types`, its values as `counts`), the assessment paragraphs, the rating and
   * the closing remark.
   */
  datatype Report = Report(
    nodeCount: nat, edgeCount: nat,
    types: seq<string>, counts: map<string, nat>,
    sections: seq<Section>, risk: Risk, closing: Closing)

  /** The type of each node, `"default"` when it has none, in input order. */
  function Kinds(nodes: seq<Node>): (r: seq<string>)
    ensures |r| == |nodes|
  {
    if nodes == [] then [] else Kinds(nodes[..|nodes| - 1]) + [NodeType(nodes[|nodes| - 1])]
  }

  /** The `i`-th entry is the `i`-th node's type. */
  lemma {:induction false} KindsAt(nodes: seq<Node>)
    ensures forall i :: 0 <= i < |nodes| ==> Kinds(nodes)[i] == NodeType(nodes[i])
  {
    if nodes != [] {
      var init := nodes[..|nodes| - 1];
      KindsAt(init);
      forall i | 0 <= i < |nodes|
        ensures Kinds(nodes)[i] == NodeType(nodes[i])
      {
        if i < |init| {
          assert Kinds(nodes)[i] == Kinds(init)[i];
        }
      }
    }
  }

  /** Each distinct entry of `s` once, where it first occurs: the key order of a counting dictionary. */
  function FirstSeen(s: seq<string>): (r: seq<string>)
    ensures Distinct(r)
    ensures forall x :: x in r <==> x in s
  {
    if s == [] then []
    else
      var init, last := s[..|s| - 1], s[|s| - 1];
      assert s == init + [last];
      var r := FirstSeen(init);
      if last in init then r
      else
        AppendDistinct(r, last);
        r + [last]
  }

  /** How often each entry of `s` occurs. */
  function Tally(s: seq<string>): (r: map<string, nat>)
  {
    map k | k in s :: multiset(s)[k]
  }

  /** The sum of `counts` over `keys`. */
  function Total(keys: seq<string>, counts: map<string, nat>): (sum: nat)
    requires forall k :: k in keys ==> k in counts
  {
    if keys == [] then 0 else Total(keys[..|keys| - 1], counts) + counts[keys[|keys| - 1]]
  }

  /** The types of one more node. */
  lemma KindsStep(nodes: seq<Node>, i: nat)
    requires i < |nodes|
    ensures Kinds(nodes[..i + 1]) == Kinds(nodes[..i]) + [NodeType(nodes[i])]
  {
    assert nodes[..i + 1][..i] == nodes[..i];
  }

  /** `keys`, all entries of `s`, are listed in the order in which they first occur in `s`. */
  ghost predicate FirstOccurrenceOrder(s: seq<string>, keys: seq<string>)
    requires forall x :: x in keys ==> x in s
  {
    forall i, j :: 0 <= i < |keys| && 0 <= j < |keys| ==> (i < j <==> IndexOf(s, keys[i]) < IndexOf(s, keys[j]))
  }

  /** An entry already present keeps the key order when it occurs once more. */
  lemma OrderExtend(s: seq<string>, keys: seq<string>, x: string)
    requires forall k :: k in keys ==> k in s
    requires FirstOccurrenceOrder(s, keys)
    ensures FirstOccurrenceOrder(s + [x], keys)
  {
    forall k | k in keys
      ensures IndexOf(s + [x], k) == IndexOf(s, k)
    {
      IndexOfExtend(s, x, k);
    }
  }

  /** A new entry goes to the end of the key order. */
  lemma OrderAppend(s: seq<string>, keys: seq<string>, x: string)
    requires forall k :: k in keys ==> k in s
    requires x !in s
    requires FirstOccurrenceOrder(s, keys)
    ensures FirstOccurrenceOrder(s + [x], keys + [x])
  {
    var r := keys + [x];
    IndexOfLast(s, x);
    forall i | 0 <= i < |r|
      ensures IndexOf(s + [x], r[i]) == if i < |keys| then IndexOf(s, keys[i]) else |s|
    {
      if i < |keys| {
        assert r[i] == keys[i] && keys[i] in keys;
        IndexOfExtend(s, x, keys[i]);
      }
    }
  }

  /** The key order follows first occurrences: a key is listed before another exactly when it occurs first. */
  lemma {:induction false} FirstSeenOrder(s: seq<string>)
    ensures FirstOccurrenceOrder(s, FirstSeen(s))
  {
    if s != [] {
      var init, last := s[..|s| - 1], s[|s| - 1];
      assert s == init + [last];
      FirstSeenOrder(init);
      FirstSeenStep(init, last);
      if last in init {
        OrderExtend(init, FirstSeen(init), last);
      } else {
        OrderAppend(init, FirstSeen(init), last);
      }
    }
  }

  /** One more entry joins the key order exactly when it is new. */
  lemma FirstSeenStep(s: seq<string>, x: string)
    ensures FirstSeen(s + [x]) == if x in s then FirstSeen(s) else FirstSeen(s) + [x]
  {
    assert (s + [x])[..|s|] == s;
  }

  /** One more occurrence of `x`: the dictionary update `node_types[t] = node_types.get(t, 0) + 1`. */
  lemma TallyStep(s: seq<string>, x: string)
    ensures x in Tally(s) <==> x in s
    ensures Tally(s + [x]) == Tally(s)[x := (if x in Tally(s) then Tally(s)[x] else 0) + 1]
  {
    var a, b := Tally(s + [x]), Tally(s)[x := (if x in s then Tally(s)[x] else 0) + 1];
    assert multiset(s + [x]) == multiset(s) + multiset{x};
    assert a.Keys == b.Keys;
    forall k | k in a
      ensures a[k] == b[k]
    {
    }
  }

  /** Raising one count by one raises a sum over distinct keys by one when the key is among them, else not at all. */
  lemma {:induction false} TotalBump(keys: seq<string>, m: map<string, nat>, m': map<string, nat>, x: string)
    requires Distinct(keys)
    requires forall k :: k in keys ==> k in m && k in m'
    requires forall k :: k in keys && k != x ==> m'[k] == m[k]
    requires x in keys ==> m'[x] == m[x] + 1
    ensures Total(keys, m') == Total(keys, m) + (if x in keys then 1 else 0)
  {
    if keys != [] {
      var init, last := keys[..|keys| - 1], keys[|keys| - 1];
      assert keys == init + [last];
      TotalBump(init, m, m', x);
      if last == x {
        assert x !in init;
      }
    }
  }

  /** The counts of the distinct entries add up to the number of entries. */
  lemma {:induction false} TallySum(s: seq<string>)
    ensures Total(FirstSeen(s), Tally(s)) == |s|
  {
    if s != [] {
      var init, last := s[..|s| - 1], s[|s| - 1];
      assert s == init + [last];
      var f := FirstSeen(init);
      TallySum(init);
      TallyStep(init, last);
      TotalBump(f, Tally(init), Tally(s), last);
      if last !in init {
        assert FirstSeen(s) == f + [last];
        assert (f + [last])[..|f|] == f;
      }
    }
  }

  /** One turn of the counting loop, in the terms of the dictionary it updates. */
  lemma CountStep(nodes: seq<Node>, i: nat, types: seq<string>, counts: map<string, nat>)
    requires i < |nodes|
    requires types == FirstSeen(Kinds(nodes[..i])) && counts == Tally(Kinds(nodes[..i]))
    ensures var t := NodeType(nodes[i]);
      && FirstSeen(Kinds(nodes[..i + 1])) == (if t in counts then types else types + [t])
      && Tally(Kinds(nodes[..i + 1])) == counts[t := (if t in counts then counts[t] else 0) + 1]
  {
    var kinds, t := Kinds(nodes[..i]), NodeType(nodes[i]);
    KindsStep(nodes, i);
    FirstSeenStep(kinds, t);
    TallyStep(kinds, t);
  }

  /** The counting loop over the nodes: `node_types` with its keys in insertion order. */
  method CountNodeTypes(nodes: seq<Node>) returns (types: seq<string>, counts: map<string, nat>)
    ensures types == FirstSeen(Kinds(nodes))
    ensures counts == Tally(Kinds(nodes))
  {
    types, counts := [], map[];
    for i := 0 to |nodes|
      invariant types == FirstSeen(Kinds(nodes[..i]))
      invariant counts == Tally(Kinds(nodes[..i]))
    {
      var t := NodeType(nodes[i]);
      CountStep(nodes, i, types, counts);
      if t !in counts {
        types := types + [t];
      }
      counts := counts[t := (if t in counts then counts[t] else 0) + 1];
    }
    assert nodes[..|nodes|] == nodes;
  }

  /** `any(... for n in diagram.nodes)`: some node satisfies `p`. */
  predicate AnyNode(nodes: seq<Node>, p: Node -> bool)
  {
    exists i :: 0 <= i < |nodes| && p(nodes[i])
  }

  /** The assessment paragraphs chosen from the totals and the two detections. */
  function Sections(nodeCount: nat, edgeCount: nat, hasDatabase: bool, hasApi: bool): (s: seq<Section>)
  {
    if nodeCount == 0 then [EmptyArchitecture]
    else
      (if hasDatabase then [DatabaseDetected] else [])
      + (if hasApi then [ApiDetected] else [])
      + (if edgeCount == 0 && nodeCount > 1 then [IsolatedComponents] else [])
  }

  /** Which paragraphs the assessment holds, each in terms of the totals and the detections. */
  lemma SectionsContent(nodeCount: nat, edgeCount: nat, hasDatabase: bool, hasApi: bool)
    ensures var s := Sections(nodeCount, edgeCount, hasDatabase, hasApi);
      && (EmptyArchitecture in s <==> nodeCount == 0)
      && (nodeCount == 0 ==> s == [EmptyArchitecture])
      && (DatabaseDetected in s <==> nodeCount > 0 && hasDatabase)
      && (ApiDetected in s <==> nodeCount > 0 && hasApi)
      && (IsolatedComponents in s <==> edgeCount == 0 && nodeCount > 1)
  {
  }

  /** The risk rating chosen from the totals. */
  function RiskOf(nodeCount: nat, edgeCount: nat): (risk: Risk)
  {
    if nodeCount > 0 && edgeCount == 0 then High
    else if nodeCount < 5 then Medium
    else Low
  }

  /** The closing remark chosen from the totals. */
  function ClosingOf(nodeCount: nat, edgeCount: nat): (closing: Closing)
  {
    if edgeCount == 0 && nodeCount > 1 then Incomplete
    else if edgeCount > 0 then Connected
    else NoClosing
  }

  /**
   * The report for `d`; `mentionsDatabase` and `mentionsApi` stand for the substring tests
   * the source runs on each node's printed form.
   */
  function MockReport(d: DiagramData, mentionsDatabase: Node -> bool, mentionsApi: Node -> bool): (r: Report)
  {
    var n, e := |d.nodes|, |d.edges|;
    Report(n, e, FirstSeen(Kinds(d.nodes)), Tally(Kinds(d.nodes)),
      Sections(n, e, AnyNode(d.nodes, mentionsDatabase), AnyNode(d.nodes, mentionsApi)),
      RiskOf(n, e), ClosingOf(n, e))
  }

  /** `generate_mock_analysis`: count the node types, run the detections, choose sections, rating and remark. */
  method GenerateMockAnalysis(d: DiagramData, mentionsDatabase: Node -> bool, mentionsApi: Node -> bool)
    returns (r: Report)
    ensures r == MockReport(d, mentionsDatabase, mentionsApi)
  {
    var nodeCount, edgeCount := |d.nodes|, |d.edges|;
    var types, counts := CountNodeTypes(d.nodes);
    var hasDatabase := AnyNode(d.nodes, mentionsDatabase);
    var hasApi := AnyNode(d.nodes, mentionsApi);
    r := Report(nodeCount, edgeCount, types, counts,
      Sections(nodeCount, edgeCount, hasDatabase, hasApi),
      RiskOf(nodeCount, edgeCount), ClosingOf(nodeCount, edgeCount));
  }

  /**
   * The per-type counts: each type that some node has (`"default"` for a node without
   * one) is listed once, with the number of nodes of that type, and the counts add up to
   * the node count.
   */
  lemma {:induction false} TypeCountsSumToNodeCount(d: DiagramData, mentionsDatabase: Node -> bool, mentionsApi: Node -> bool)
    ensures var r := MockReport(d, mentionsDatabase, mentionsApi);
      && Distinct(r.types)
      && (forall t :: t in r.types <==> exists i :: 0 <= i < |d.nodes| && NodeType(d.nodes[i]) == t)
      && (forall t :: t in r.counts <==> t in r.types)
      && (forall t :: t in r.counts ==> r.counts[t] == multiset(Kinds(d.nodes))[t])
      && Total(r.types, r.counts) == r.nodeCount
  {
    var kinds := Kinds(d.nodes);
    TallySum(kinds);
    KindsAt(d.nodes);
    forall t
      ensures t in kinds <==> exists i :: 0 <= i < |d.nodes| && NodeType(d.nodes[i]) == t
    {
      if t in kinds {
        var i :| 0 <= i < |kinds| && kinds[i] == t;
        assert NodeType(d.nodes[i]) == t;
      }
    }
  }

  /** The types are listed in the order in which they first occur among the nodes. */
  lemma TypesInFirstOccurrenceOrder(d: DiagramData, mentionsDatabase: Node -> bool, mentionsApi: Node -> bool)
    ensures FirstOccurrenceOrder(Kinds(d.nodes), MockReport(d, mentionsDatabase, mentionsApi).types)
  {
    FirstSeenOrder(Kinds(d.nodes));
  }

  /** The "Empty Architecture" warning appears exactly when there are no nodes, and then alone. */
  lemma EmptyWarningIffNoNodes(d: DiagramData, mentionsDatabase: Node -> bool, mentionsApi: Node -> bool)
    ensures var r := MockReport(d, mentionsDatabase, mentionsApi);
      && (EmptyArchitecture in r.sections <==> r.nodeCount == 0)
      && (r.nodeCount == 0 ==> r.sections == [EmptyArchitecture])
  {
  }

  /** The "Isolated Components" warning appears exactly when there are no edges and more than one node. */
  lemma IsolatedWarningIff(d: DiagramData, mentionsDatabase: Node -> bool, mentionsApi: Node -> bool)
    ensures var r := MockReport(d, mentionsDatabase, mentionsApi);
      IsolatedComponents in r.sections <==> r.edgeCount == 0 && r.nodeCount > 1
  {
  }

  /** The database and API notes appear exactly when some node is detected as one. */
  lemma DetectionNotesIff(d: DiagramData, mentionsDatabase: Node -> bool, mentionsApi: Node -> bool)
    ensures var r := MockReport(d, mentionsDatabase, mentionsApi);
      && (DatabaseDetected in r.sections <==> AnyNode(d.nodes, mentionsDatabase))
      && (ApiDetected in r.sections <==> AnyNode(d.nodes, mentionsApi))
  {
    SectionsContent(|d.nodes|, |d.edges|, AnyNode(d.nodes, mentionsDatabase), AnyNode(d.nodes, mentionsApi));
  }

  /**
   * The rating is HIGH exactly for nodes without any edge, LOW exactly for five or more
   * connected nodes, and MEDIUM otherwise, which includes the empty diagram.
   */
  lemma RiskRating(d: DiagramData, mentionsDatabase: Node -> bool, mentionsApi: Node -> bool)
    ensures var r := MockReport(d, mentionsDatabase, mentionsApi);
      && (r.risk == High <==> r.nodeCount > 0 && r.edgeCount == 0)
      && (r.risk == Low <==> r.nodeCount >= 5 && r.edgeCount > 0)
      && (r.risk == Medium <==> r.nodeCount == 0 || (r.edgeCount > 0 && r.nodeCount < 5))
  {
  }

  /**
   * The closing remark agrees with the warnings and the rating: the "incomplete" remark
   * comes exactly with the isolated-components warning and only under a HIGH rating, the
   * connectivity remark exactly when there are edges and never under a HIGH rating.
   */
  lemma ClosingAgreesWithRating(d: DiagramData, mentionsDatabase: Node -> bool, mentionsApi: Node -> bool)
    ensures var r := MockReport(d, mentionsDatabase, mentionsApi);
      && (r.closing == Incomplete <==> IsolatedComponents in r.sections)
      && (r.closing == Incomplete ==> r.risk == High)
      && (r.closing == Connected <==> r.edgeCount > 0)
      && (r.closing == Connected ==> r.risk != High)
      && (r.closing == NoClosing <==> r.edgeCount == 0 && r.nodeCount <= 1)
  {
  }
}
