/**
 * The exporter's documented behaviour on four concrete graphs: a plain
 * directed graph with default providers; a weighted graph with vertex and
 * edge attributes including the edge weight; one attribute of every kind;
 * and a NaN attribute, which aborts the export. Each scenario builds the
 * graph through the graph's own operations, runs an exporter with fresh
 * integer id providers on an empty sink and states what was written as the
 * JSON document it is the text of (Json.ParseWrite and Json.WriteInjective
 * make that text unique).
 */
module Scenarios {
  import opened Wrappers
  import opened Json
  import opened Attributes
  import opened Graphs
  import opened Names
  import opened Sequences
  import opened Assembler
  import opened Exporter
  import Decimal

  /**
   * Runs the exporter on g with an empty sink, as the tests do with a fresh
   * byte stream, and returns what was written. Ids start from "1" in vertex
   * and in edge order, each numbering on its own.
   */
  method ExportToString<V(==)>(g: Graph<V>, exporter: JsonExporter<V>)
    returns (r: Result<(), ExportError>, out: string, ghost p: Providers<V>)
    requires g.Valid() && exporter.Valid()
    requires exporter.vertexIds.order == [] && exporter.edgeIds.order == []
    modifies exporter.vertexIds, exporter.edgeIds
    ensures p.vertexAttributes == exporter.vertexAttributes && p.edgeAttributes == exporter.edgeAttributes
    ensures r.Success? <==> Export(g.vertices, g.edges, p).Success?
    ensures r.Success? ==> out == Export(g.vertices, g.edges, p).value
    ensures r.Failure? ==> r.error == Export(g.vertices, g.edges, p).error
    ensures r.Success? ==>
      forall i :: 0 <= i < |g.vertices| ==> p.vertexId(g.vertices[i]) == Decimal.NatToString(i + 1)
    ensures r.Success? ==>
      forall k :: 0 <= k < |g.edges| ==> p.edgeId(k) == Decimal.NatToString(k + 1)
  {
    var sink := new StringSink();
    r := exporter.ExportGraph(g, sink);
    out := sink.contents;
    p := exporter.CurrentProviders();
    if r.Success? {
      UnlistedEmpty(g.vertices);
      UnlistedEmpty(Range(|g.edges|));
      assert exporter.vertexIds.order == g.vertices;
      assert exporter.edgeIds.order == Range(|g.edges|);
      FreshIds(g.vertices, |g.edges|, p.vertexId, p.edgeId);
    }
  }

  /** Providers that started empty name vertex vs[i] "i + 1" and edge handle k "k + 1". */
  lemma FreshIds<V>(vs: seq<V>, n: nat, vertexId: V -> string, edgeId: nat -> string)
    requires Distinct(vs) && vertexId == NameOf(Numbering(vs)) && edgeId == NameOf(Numbering(Range(n)))
    ensures forall i :: 0 <= i < |vs| ==> vertexId(vs[i]) == Decimal.NatToString(i + 1)
    ensures forall k :: 0 <= k < n ==> edgeId(k) == Decimal.NatToString(k + 1)
  {
    FreshNames(vs);
    RangeNumbering(n, Numbering(Range(n)));
  }

  /** Naming the edge handles in order gives handle k the number k + 1. */
  lemma RangeNumbering(n: nat, ids: map<nat, nat>)
    requires ids == Numbering(Range(n))
    ensures forall k :: 0 <= k < n ==> k in ids && ids[k] == k + 1
  {
    RangeDistinct(n);
    NumberingAt(Range(n));
    forall k | 0 <= k < n ensures k in ids && ids[k] == k + 1 {
      assert Range(n)[k] == k;
    }
  }

  lemma SmallNames()
    ensures Decimal.NatToString(1) == "1" && Decimal.NatToString(2) == "2"
    ensures Decimal.NatToString(3) == "3" && Decimal.NatToString(4) == "4"
  {
  }

  /** The document for given node and edge objects, with the exporter's fixed header. */
  function Doc(ns: seq<Value>, eds: seq<Value>): Value {
    JObject([
      Member("creator", JString("JGraphT JSON Exporter")),
      Member("version", JString("1")),
      Member("nodes", JArray(ns)),
      Member("edges", JArray(eds))])
  }

  function Str(name: string, s: string): Member {
    Member(name, JString(s))
  }

  /** The node and edge objects of a successful export are the given ones. */
  lemma ObjectsGiven<V>(vs: seq<V>, es: seq<Edge<V>>, p: Providers<V>, ns: seq<Value>, eds: seq<Value>)
    requires |ns| == |vs| && |eds| == |es|
    requires forall i :: 0 <= i < |vs| ==> NodeObject(p.vertexId(vs[i]), p.vertexAttributes(vs[i])) == Success(ns[i])
    requires forall k :: 0 <= k < |es| ==> EdgeAt(es, k, p.vertexId, p.edgeId, p.edgeAttributes) == Success(eds[k])
    ensures Export(vs, es, p) == Success(Write(Doc(ns, eds)))
  {
    NodesOf(vs, p.vertexId, p.vertexAttributes, ns);
    EdgesOf(es, p.vertexId, p.edgeId, p.edgeAttributes, eds);
    assert DocumentObject(ns, eds) == Doc(ns, eds);
  }

  /** An export succeeds when every attribute of every vertex and edge has a JSON value. */
  lemma Encodable<V>(vs: seq<V>, es: seq<Edge<V>>, p: Providers<V>)
    requires forall i :: 0 <= i < |vs| ==> AllFinite(p.vertexAttributes(vs[i]))
    requires forall k :: 0 <= k < |es| ==> AllFinite(p.edgeAttributes(k))
    ensures Export(vs, es, p).Success?
  {
    ExportFails(vs, es, p);
  }

  /** A node object whose attribute members are known one by one. */
  lemma NodeIs(id: string, attrs: seq<Entry>, ms: seq<Member>)
    requires AllFinite(attrs) && |ms| == |attrs|
    requires forall j :: 0 <= j < |attrs| ==> ms[j] == Member(attrs[j].name, Encode(attrs[j].value).value)
    ensures NodeObject(id, attrs) == Success(JObject([Str("id", id)] + ms))
  {
    assert EncodeEntries(attrs).value == ms;
  }

  /** An edge object whose attribute members are known one by one. */
  lemma EdgeIs(id: string, source: string, target: string, attrs: seq<Entry>, ms: seq<Member>)
    requires AllFinite(attrs) && |ms| == |attrs|
    requires forall j :: 0 <= j < |attrs| ==> ms[j] == Member(attrs[j].name, Encode(attrs[j].value).value)
    ensures EdgeObject(id, source, target, attrs) ==
      Success(JObject([Str("id", id), Str("source", source), Str("target", target)] + ms))
  {
    assert EncodeEntries(attrs).value == ms;
  }

  // ---------------------------------------------------------------------
  // testBasic: a directed graph 1 -> 2 -> 3 -> 4 and 1 -> 4, default providers

  function BasicEdges(): seq<Edge<int>> {
    [Edge(1, 2, DefaultWeight), Edge(2, 3, DefaultWeight), Edge(3, 4, DefaultWeight), Edge(1, 4, DefaultWeight)]
  }

  /** {"creator":"JGraphT JSON Exporter","version":"1","nodes":[{"id":"1"},...],"edges":[{"id":"1","source":"1","target":"2"},...]} */
  function BasicExpected(): Value {
    Doc(
      [ JObject([Str("id", "1")]),
        JObject([Str("id", "2")]),
        JObject([Str("id", "3")]),
        JObject([Str("id", "4")])],
      [ JObject([Str("id", "1"), Str("source", "1"), Str("target", "2")]),
        JObject([Str("id", "2"), Str("source", "2"), Str("target", "3")]),
        JObject([Str("id", "3"), Str("source", "3"), Str("target", "4")]),
        JObject([Str("id", "4"), Str("source", "1"), Str("target", "4")])])
  }

  /** Adds three distinct vertices to an empty graph, in order. */
  method AddVertices(g: Graph<int>, a: int, b: int, c: int)
    requires g.Valid() && g.vertices == [] && g.edges == [] && a != b && a != c && b != c
    modifies g
    ensures g.Valid() && g.vertices == [a, b, c] && g.edges == []
  {
    var added := g.AddVertex(a);
    assert g.vertices == [a];
    added := g.AddVertex(b);
    assert g.vertices == [a, b];
    added := g.AddVertex(c);
  }

  method BuildBasicGraph() returns (g: Graph<int>)
    ensures fresh(g) && g.Valid() && g.vertices == [1, 2, 3, 4] && g.edges == BasicEdges()
  {
    g := new Graph<int>();
    AddVertices(g, 1, 2, 3);
    var added := g.AddVertex(4);
    assert g.vertices == [1, 2, 3, 4];
    AddBasicEdges(g);
  }

  method AddBasicEdges(g: Graph<int>)
    requires g.Valid() && g.vertices == [1, 2, 3, 4] && g.edges == []
    modifies g
    ensures g.Valid() && g.vertices == [1, 2, 3, 4] && g.edges == BasicEdges()
  {
    var dw := DefaultWeight;
    var e := Connect(g, 1, 2);
    e := Connect(g, 2, 3);
    e := Connect(g, 3, 4);
    e := Connect(g, 1, 4);
    assert g.edges == [Edge(1, 2, dw)] + [Edge(2, 3, dw)] + [Edge(3, 4, dw)] + [Edge(1, 4, dw)];
  }

  /** Adds an edge between two vertices of g; its handle is the old edge count. */
  method Connect(g: Graph<int>, source: int, target: int) returns (e: nat)
    requires g.Valid() && source in g.vertices && target in g.vertices
    modifies g
    ensures g.Valid() && g.vertices == old(g.vertices)
    ensures e == |old(g.edges)| && g.edges == old(g.edges) + [Edge(source, target, DefaultWeight)]
  {
    var r := g.AddEdge(source, target);
    e := r.value;
  }

  /** With integer ids and no attributes, each vertex is {"id":..} and each edge {"id":..,"source":..,"target":..}. */
  lemma BasicDocument(vs: seq<int>, es: seq<Edge<int>>, p: Providers<int>)
    requires vs == [1, 2, 3, 4] && es == BasicEdges()
    requires forall i :: 0 <= i < |vs| ==> p.vertexId(vs[i]) == Decimal.NatToString(i + 1)
    requires forall k :: 0 <= k < |es| ==> p.edgeId(k) == Decimal.NatToString(k + 1)
    requires forall v :: p.vertexAttributes(v) == []
    requires forall e :: p.edgeAttributes(e) == []
    ensures Export(vs, es, p) == Success(Write(BasicExpected()))
  {
    SmallNames();
    assert p.vertexId(vs[0]) == "1" && p.vertexId(vs[1]) == "2" && p.vertexId(vs[2]) == "3" && p.vertexId(vs[3]) == "4";
    assert p.edgeId(0) == "1" && p.edgeId(1) == "2" && p.edgeId(2) == "3" && p.edgeId(3) == "4";
    var ns := BasicExpected().members[2].value.elements;
    var eds := BasicExpected().members[3].value.elements;
    forall i | 0 <= i < 4 ensures NodeObject(p.vertexId(vs[i]), p.vertexAttributes(vs[i])) == Success(ns[i]) {
      assert i == 0 || i == 1 || i == 2 || i == 3;
      NodeIs(p.vertexId(vs[i]), [], []);
      assert [Str("id", p.vertexId(vs[i]))] + [] == [Str("id", p.vertexId(vs[i]))];
    }
    forall k | 0 <= k < 4 ensures EdgeAt(es, k, p.vertexId, p.edgeId, p.edgeAttributes) == Success(eds[k]) {
      assert k == 0 || k == 1 || k == 2 || k == 3;
      var ms := [Str("id", p.edgeId(k)), Str("source", p.vertexId(es[k].source)), Str("target", p.vertexId(es[k].target))];
      EdgeIs(p.edgeId(k), p.vertexId(es[k].source), p.vertexId(es[k].target), [], []);
      assert ms + [] == ms;
    }
    ObjectsGiven(vs, es, p, ns, eds);
  }

  /** testBasic: the default exporter writes the four node and four edge objects in insertion order. */
  method Basic() returns (out: string)
    ensures out == Write(BasicExpected())
    ensures Parse(out) == Some(BasicExpected())
  {
    var g := BuildBasicGraph();
    var exporter := new JsonExporter<int>.Default();
    var r;
    ghost var p;
    r, out, p := ExportToString(g, exporter);
    Encodable(g.vertices, g.edges, p);
    BasicDocument(g.vertices, g.edges, p);
    ParseWrite(BasicExpected());
  }

  // ---------------------------------------------------------------------
  // testUndirectedWeightedWithWeightsAndColor: colours, labels and weights

  function ColoredVertexAttributes(v: int): seq<Entry> {
    if v == 1 then [Entry("color", StringAttr("yellow")), Entry("label", StringAttr("V1"))]
    else if v == 2 then [Entry("color", StringAttr("red")), Entry("label", StringAttr("V2"))]
    else if v == 3 then [Entry("label", StringAttr("V3"))]
    else []
  }

  /** The weight the graph es holds for edge e; only edges of es are ever asked about. */
  function WeightIn(es: seq<Edge<int>>, e: nat): Num {
    if e < |es| then es[e].weight else DefaultWeight
  }

  /** The edge supplier of the test: colour, label, then the edge's current weight as a double. */
  function ColoredEdgeAttributes(es: seq<Edge<int>>, e12: nat, e13: nat, e23: nat, e: nat): seq<Entry> {
    if e == e12 then
      [Entry("color", StringAttr("what?")), Entry("label", StringAttr("e12")), Entry("weight", DoubleAttr(WeightIn(es, e)))]
    else if e == e13 then
      [Entry("color", StringAttr("I have no color!")), Entry("label", StringAttr("e13")), Entry("weight", DoubleAttr(WeightIn(es, e)))]
    else if e == e23 then
      [Entry("color", StringAttr("I have no color!")), Entry("label", StringAttr("e13")), Entry("weight", DoubleAttr(WeightIn(es, e)))]
    else []
  }

  function ColoredEdges(): seq<Edge<int>> {
    [Edge(1, 2, DefaultWeight), Edge(1, 3, DefaultWeight), Edge(2, 3, Finite("100.0"))]
  }

  function ColoredExpected(): Value {
    Doc(
      [ JObject([Str("id", "1"), Str("color", "yellow"), Str("label", "V1")]),
        JObject([Str("id", "2"), Str("color", "red"), Str("label", "V2")]),
        JObject([Str("id", "3"), Str("label", "V3")])],
      [ JObject([Str("id", "1"), Str("source", "1"), Str("target", "2"),
                 Str("color", "what?"), Str("label", "e12"), Member("weight", JNumber("1.0"))]),
        JObject([Str("id", "2"), Str("source", "1"), Str("target", "3"),
                 Str("color", "I have no color!"), Str("label", "e13"), Member("weight", JNumber("1.0"))]),
        JObject([Str("id", "3"), Str("source", "2"), Str("target", "3"),
                 Str("color", "I have no color!"), Str("label", "e13"), Member("weight", JNumber("100.0"))])])
  }

  /** Builds the three-vertex weighted graph and sets the weight of the edge from 2 to 3 to 100.0. */
  method BuildColoredGraph() returns (g: Graph<int>, e12: nat, e13: nat, e23: nat)
    ensures fresh(g) && g.Valid() && g.vertices == [1, 2, 3] && g.edges == ColoredEdges()
    ensures e12 == 0 && e13 == 1 && e23 == 2
  {
    g := new Graph<int>();
    AddVertices(g, 1, 2, 3);
    e12, e13, e23 := AddColoredEdges(g);
    var ok := g.SetEdgeWeight(e23, Finite("100.0"));
    ColoredReweighted();
  }

  /** The three edges of the colored graph, all still of the default weight. */
  method AddColoredEdges(g: Graph<int>) returns (e12: nat, e13: nat, e23: nat)
    requires g.Valid() && g.vertices == [1, 2, 3] && g.edges == []
    modifies g
    ensures g.Valid() && g.vertices == [1, 2, 3]
    ensures g.edges == [Edge(1, 2, DefaultWeight), Edge(1, 3, DefaultWeight), Edge(2, 3, DefaultWeight)]
    ensures e12 == 0 && e13 == 1 && e23 == 2
  {
    var dw := DefaultWeight;
    e12 := Connect(g, 1, 2);
    e13 := Connect(g, 1, 3);
    e23 := Connect(g, 2, 3);
    assert g.edges == [Edge(1, 2, dw)] + [Edge(1, 3, dw)] + [Edge(2, 3, dw)];
  }

  lemma ColoredReweighted()
    ensures [Edge(1, 2, DefaultWeight), Edge(1, 3, DefaultWeight), Edge(2, 3, DefaultWeight)][2 := Edge(2, 3, Finite("100.0"))]
      == ColoredEdges()
  {
  }

  lemma ColoredDocument(vs: seq<int>, es: seq<Edge<int>>, p: Providers<int>)
    requires vs == [1, 2, 3] && es == ColoredEdges()
    requires forall i :: 0 <= i < |vs| ==> p.vertexId(vs[i]) == Decimal.NatToString(i + 1)
    requires forall k :: 0 <= k < |es| ==> p.edgeId(k) == Decimal.NatToString(k + 1)
    requires forall v :: p.vertexAttributes(v) == ColoredVertexAttributes(v)
    requires forall e :: p.edgeAttributes(e) == ColoredEdgeAttributes(es, 0, 1, 2, e)
    ensures Export(vs, es, p) == Success(Write(ColoredExpected()))
  {
    SmallNames();
    assert p.vertexId(vs[0]) == "1" && p.vertexId(vs[1]) == "2" && p.vertexId(vs[2]) == "3";
    assert p.edgeId(0) == "1" && p.edgeId(1) == "2" && p.edgeId(2) == "3";
    var ns := ColoredExpected().members[2].value.elements;
    var eds := ColoredExpected().members[3].value.elements;
    forall i | 0 <= i < 3 ensures NodeObject(p.vertexId(vs[i]), p.vertexAttributes(vs[i])) == Success(ns[i]) {
      ColoredNode(i, p.vertexId(vs[i]), p.vertexAttributes(vs[i]), ns[i]);
    }
    forall k | 0 <= k < 3 ensures EdgeAt(es, k, p.vertexId, p.edgeId, p.edgeAttributes) == Success(eds[k]) {
      assert k == 0 || k == 1 || k == 2;
      ColoredEdge(k, p.edgeId(k), p.vertexId(es[k].source), p.vertexId(es[k].target), p.edgeAttributes(k), eds[k]);
    }
    ObjectsGiven(vs, es, p, ns, eds);
  }

  lemma ColoredEncodable(vs: seq<int>, es: seq<Edge<int>>, p: Providers<int>)
    requires vs == [1, 2, 3] && es == ColoredEdges()
    requires forall v :: p.vertexAttributes(v) == ColoredVertexAttributes(v)
    requires forall e :: p.edgeAttributes(e) == ColoredEdgeAttributes(es, 0, 1, 2, e)
    ensures Export(vs, es, p).Success?
  {
    forall i | 0 <= i < |vs| ensures AllFinite(p.vertexAttributes(vs[i])) {
      assert i == 0 || i == 1 || i == 2;
    }
    forall k | 0 <= k < |es| ensures AllFinite(p.edgeAttributes(k)) {
      assert k == 0 || k == 1 || k == 2;
    }
    Encodable(vs, es, p);
  }

  lemma ColoredNode(i: nat, id: string, attrs: seq<Entry>, n: Value)
    requires i < 3 && id == Decimal.NatToString(i + 1) && attrs == ColoredVertexAttributes(i + 1)
    requires n == ColoredExpected().members[2].value.elements[i]
    ensures NodeObject(id, attrs) == Success(n)
  {
    SmallNames();
    var ms := n.members[1..];
    assert n.members == [Str("id", id)] + ms;
    NodeIs(id, attrs, ms);
  }

  lemma ColoredEdge(k: nat, id: string, source: string, target: string, attrs: seq<Entry>, o: Value)
    requires k < 3 && id == Decimal.NatToString(k + 1)
    requires source == Decimal.NatToString(if k < 2 then 1 else 2)
    requires target == Decimal.NatToString(if k == 0 then 2 else 3)
    requires attrs == ColoredEdgeAttributes(ColoredEdges(), 0, 1, 2, k)
    requires o == ColoredExpected().members[3].value.elements[k]
    ensures EdgeObject(id, source, target, attrs) == Success(o)
  {
    SmallNames();
    var ms := o.members[3..];
    assert o.members == [Str("id", id), Str("source", source), Str("target", target)] + ms;
    EdgeIs(id, source, target, attrs, ms);
  }

  /**
   * testUndirectedWeightedWithWeightsAndColor: attributes follow the
   * structural fields in supplier order, and each edge has one "weight"
   * field, the supplier's, carrying 1.0 by default and 100.0 once set.
   */
  method Colored() returns (out: string)
    ensures out == Write(ColoredExpected())
    ensures Parse(out) == Some(ColoredExpected())
  {
    var g, e12, e13, e23 := BuildColoredGraph();
    var es := g.edges;
    var vertexIds := new IntegerNameProvider<int>();
    var edgeIds := new IntegerNameProvider<nat>();
    var exporter := new JsonExporter<int>(vertexIds, ColoredVertexAttributes, edgeIds,
      (e: nat) => ColoredEdgeAttributes(es, e12, e13, e23, e));
    var r;
    ghost var p;
    r, out, p := ExportToString(g, exporter);
    ColoredEncodable(g.vertices, g.edges, p);
    ColoredDocument(g.vertices, g.edges, p);
    ParseWrite(ColoredExpected());
  }

  // ---------------------------------------------------------------------
  // testAttributeTypes: one attribute of every kind

  function TypedVertexAttributes(v: int): seq<Entry> {
    if v == 1 then
      [ Entry("stringAttribute", StringAttr("yellow")),
        Entry("doubleAttribute", DoubleAttr(Finite("3.4"))),
        Entry("intAttribute", IntAttr(3)),
        Entry("floatAttribute", FloatAttr(Finite("3.4"))),
        Entry("longAttribute", LongAttr(3)),
        Entry("booleanAttribute", BooleanAttr(true))]
    else []
  }

  function TypedEdgeAttributes(es: seq<Edge<int>>, e12: nat, e: nat): seq<Entry> {
    if e == e12 then
      [Entry("color", StringAttr("what?")), Entry("label", StringAttr("e12")), Entry("weight", DoubleAttr(WeightIn(es, e)))]
    else []
  }

  function TypedExpected(): Value {
    Doc(
      [ JObject([Str("id", "1"), Str("stringAttribute", "yellow"), Member("doubleAttribute", JNumber("3.4")),
                 Member("intAttribute", JNumber("3")), Member("floatAttribute", JNumber("3.4")),
                 Member("longAttribute", JNumber("3")), Member("booleanAttribute", JBool(true))]),
        JObject([Str("id", "2")])],
      [ JObject([Str("id", "1"), Str("source", "1"), Str("target", "2"),
                 Str("color", "what?"), Str("label", "e12"), Member("weight", JNumber("100.0"))])])
  }

  method BuildTypedGraph() returns (g: Graph<int>, e12: nat)
    ensures fresh(g) && g.Valid() && g.vertices == [1, 2] && g.edges == [Edge(1, 2, Finite("100.0"))]
    ensures e12 == 0
  {
    g := new Graph<int>();
    var added := g.AddVertex(1);
    added := g.AddVertex(2);
    assert g.vertices == [1, 2];
    e12 := Connect(g, 1, 2);
    assert g.edges == [Edge(1, 2, DefaultWeight)];
    var ok := g.SetEdgeWeight(e12, Finite("100.0"));
    TypedReweighted();
  }

  lemma TypedReweighted()
    ensures [Edge(1, 2, DefaultWeight)][0 := Edge(1, 2, Finite("100.0"))] == [Edge(1, 2, Finite("100.0"))]
  {
  }

  lemma TypedDocument(vs: seq<int>, es: seq<Edge<int>>, p: Providers<int>)
    requires vs == [1, 2] && es == [Edge(1, 2, Finite("100.0"))]
    requires forall i :: 0 <= i < |vs| ==> p.vertexId(vs[i]) == Decimal.NatToString(i + 1)
    requires forall k :: 0 <= k < |es| ==> p.edgeId(k) == Decimal.NatToString(k + 1)
    requires forall v :: p.vertexAttributes(v) == TypedVertexAttributes(v)
    requires forall e :: p.edgeAttributes(e) == TypedEdgeAttributes(es, 0, e)
    ensures Export(vs, es, p) == Success(Write(TypedExpected()))
  {
    SmallNames();
    var ns := TypedExpected().members[2].value.elements;
    var eds := TypedExpected().members[3].value.elements;
    assert NodeObject(p.vertexId(vs[0]), p.vertexAttributes(vs[0])) == Success(ns[0]) by {
      TypedFirstNode(p.vertexId(vs[0]), p.vertexAttributes(vs[0]));
    }
    assert NodeObject(p.vertexId(vs[1]), p.vertexAttributes(vs[1])) == Success(ns[1]) by {
      assert [Str("id", "2")] + [] == [Str("id", "2")];
    }
    assert EdgeAt(es, 0, p.vertexId, p.edgeId, p.edgeAttributes) == Success(eds[0]) by {
      var o := eds[0];
      assert o.members == [Str("id", "1"), Str("source", "1"), Str("target", "2")] + o.members[3..];
      EdgeIs("1", "1", "2", p.edgeAttributes(0), o.members[3..]);
    }
    ObjectsGiven(vs, es, p, ns, eds);
  }

  lemma TypedEncodable(vs: seq<int>, es: seq<Edge<int>>, p: Providers<int>)
    requires vs == [1, 2] && es == [Edge(1, 2, Finite("100.0"))]
    requires forall v :: p.vertexAttributes(v) == TypedVertexAttributes(v)
    requires forall e :: p.edgeAttributes(e) == TypedEdgeAttributes(es, 0, e)
    ensures Export(vs, es, p).Success?
  {
    assert AllFinite(p.vertexAttributes(vs[0])) && AllFinite(p.vertexAttributes(vs[1]));
    assert AllFinite(p.edgeAttributes(0));
    Encodable(vs, es, p);
  }

  lemma TypedFirstNode(id: string, attrs: seq<Entry>)
    requires id == "1" && attrs == TypedVertexAttributes(1)
    ensures NodeObject(id, attrs) == Success(TypedExpected().members[2].value.elements[0])
  {
    assert IntText(3) == "3";
    var n := TypedExpected().members[2].value.elements[0];
    assert n.members == [Str("id", id)] + n.members[1..];
    NodeIs(id, attrs, n.members[1..]);
  }

  /**
   * testAttributeTypes: a string is quoted, a double and a float are their
   * unquoted decimal text, an int and a long unquoted digits, a boolean the
   * bare word.
   */
  method Typed() returns (out: string)
    ensures out == Write(TypedExpected())
    ensures Parse(out) == Some(TypedExpected())
  {
    var g, e12 := BuildTypedGraph();
    var es := g.edges;
    var vertexIds := new IntegerNameProvider<int>();
    var edgeIds := new IntegerNameProvider<nat>();
    var exporter := new JsonExporter<int>(vertexIds, TypedVertexAttributes, edgeIds,
      (e: nat) => TypedEdgeAttributes(es, e12, e));
    var r;
    ghost var p;
    r, out, p := ExportToString(g, exporter);
    TypedEncodable(g.vertices, g.edges, p);
    TypedDocument(g.vertices, g.edges, p);
    ParseWrite(TypedExpected());
  }

  // ---------------------------------------------------------------------
  // testNotAllowedNanDouble: a NaN double aborts the export

  function NanVertexAttributes(v: int): seq<Entry> {
    if v == 1 then [Entry("NaNAttribute", DoubleAttr(NaN))] else []
  }

  /** testNotAllowedNanDouble: the export fails, naming the NaN attribute, and yields no document. */
  method NanDouble() returns (r: Result<(), ExportError>)
    ensures r == Failure(NonFiniteNumber("NaNAttribute"))
  {
    var g := new Graph<int>();
    var added := g.AddVertex(1);
    var vertexIds := new IntegerNameProvider<int>();
    var edgeIds := new IntegerNameProvider<nat>();
    var exporter := new JsonExporter<int>(vertexIds, NanVertexAttributes, edgeIds, (e: nat) => []);
    var out;
    ghost var p;
    r, out, p := ExportToString(g, exporter);
    NanDocument(g.vertices, g.edges, p);
  }

  lemma NanDocument(vs: seq<int>, es: seq<Edge<int>>, p: Providers<int>)
    requires vs == [1] && es == []
    requires forall v :: p.vertexAttributes(v) == NanVertexAttributes(v)
    ensures Export(vs, es, p) == Failure(NonFiniteNumber("NaNAttribute"))
  {
    assert Nodes(vs[..0], p.vertexId, p.vertexAttributes) == Success([]);
    assert NodeObject(p.vertexId(1), p.vertexAttributes(1)) == Failure(NonFiniteNumber("NaNAttribute"));
  }
}
