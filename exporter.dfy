/**
 * The JSON exporter as an object: two integer id providers, which it updates
 * as it names components, and two attribute suppliers. Exporting a graph
 * writes the document to a sink piece by piece: the opening, each node in
 * vertex order, the text between, each edge in edge order, the closing.
 */
module Exporter {
  import opened Wrappers
  import opened Json
  import opened Attributes
  import opened Graphs
  import opened Names
  import opened Sequences
  import opened Assembler
  import Decimal

  /** The output the document is written to; it only ever grows. */
  class StringSink {
    var contents: string

    constructor ()
      ensures contents == ""
    {
      contents := "";
    }

    method Write(s: string)
      modifies this
      ensures contents == old(contents) + s
    {
      contents := contents + s;
    }
  }

  class JsonExporter<V(==)> {
    const vertexIds: IntegerNameProvider<V>
    const vertexAttributes: V -> seq<Entry>
    const edgeIds: IntegerNameProvider<nat>
    const edgeAttributes: nat -> seq<Entry>

    ghost predicate Valid()
      reads vertexIds, edgeIds
    {
      vertexIds.Valid() && edgeIds.Valid() && vertexIds as object != edgeIds as object
    }

    /** The id providers and suppliers as they stand, as the document function takes them. */
    function CurrentProviders(): Providers<V>
      reads vertexIds, edgeIds
    {
      Providers(NameOf(vertexIds.ids), vertexAttributes, NameOf(edgeIds.ids), edgeAttributes)
    }

    /** Integer ids for vertices and edges and no attributes for either. */
    constructor Default()
      ensures Valid() && fresh(vertexIds) && fresh(edgeIds)
      ensures vertexIds.order == [] && edgeIds.order == []
      ensures forall v :: vertexAttributes(v) == []
      ensures forall e :: edgeAttributes(e) == []
    {
      vertexIds := new IntegerNameProvider();
      vertexAttributes := v => [];
      edgeIds := new IntegerNameProvider();
      edgeAttributes := e => [];
    }

    constructor (vertexIds: IntegerNameProvider<V>, vertexAttributes: V -> seq<Entry>,
                 edgeIds: IntegerNameProvider<nat>, edgeAttributes: nat -> seq<Entry>)
      requires vertexIds.Valid() && edgeIds.Valid() && vertexIds as object != edgeIds as object
      ensures Valid()
      ensures this.vertexIds == vertexIds && this.vertexAttributes == vertexAttributes
      ensures this.edgeIds == edgeIds && this.edgeAttributes == edgeAttributes
    {
      this.vertexIds := vertexIds;
      this.vertexAttributes := vertexAttributes;
      this.edgeIds := edgeIds;
      this.edgeAttributes := edgeAttributes;
    }

    /**
     * Writes the document for g to sink. On success the sink has gained
     * exactly the text of the document function for the id providers' new
     * state; otherwise the error is the document function's. Vertices are
     * named in vertex order and edges in handle order, each only the first
     * time it is met.
     */
    method ExportGraph(g: Graph<V>, sink: StringSink) returns (r: Result<(), ExportError>)
      requires Valid() && g.Valid()
      modifies vertexIds, edgeIds, sink
      ensures Valid()
      ensures r.Success? <==> Export(g.vertices, g.edges, CurrentProviders()).Success?
      ensures r.Failure? ==> r.error == Export(g.vertices, g.edges, CurrentProviders()).error
      ensures r.Success? ==>
        sink.contents == old(sink.contents) + Export(g.vertices, g.edges, CurrentProviders()).value
      ensures old(sink.contents) <= sink.contents
      ensures r.Success? ==>
        vertexIds.order == old(vertexIds.order) + Unlisted(old(vertexIds.order), g.vertices)
      ensures r.Success? ==>
        edgeIds.order == old(edgeIds.order) + Unlisted(old(edgeIds.order), Range(|g.edges|))
    {
      ghost var base := sink.contents;
      var rn := WriteNodesSection(g.vertices, sink);
      if rn.Failure? {
        NodesFailure(g.vertices, g.edges, CurrentProviders(), rn);
        return Failure(rn.error);
      }
      r := FinishExport(g, sink, rn, base);
    }

    /** After the nodes section: the edges section and the closing, completing the document. */
    method FinishExport(g: Graph<V>, sink: StringSink, rn: Result<seq<Value>, ExportError>, ghost base: string)
      returns (r: Result<(), ExportError>)
      requires Valid() && g.Valid()
      requires rn == Nodes(g.vertices, NameOf(vertexIds.ids), vertexAttributes) && rn.Success?
      requires sink.contents == base + Opening + WriteElements(rn.value)
      requires forall v :: v in g.vertices ==> v in vertexIds.ids
      modifies vertexIds, edgeIds, sink
      ensures Valid()
      ensures r.Success? <==> Export(g.vertices, g.edges, CurrentProviders()).Success?
      ensures r.Failure? ==> r.error == Export(g.vertices, g.edges, CurrentProviders()).error
      ensures r.Success? ==> sink.contents == base + Export(g.vertices, g.edges, CurrentProviders()).value
      ensures base <= sink.contents
      ensures vertexIds.ids == old(vertexIds.ids) && vertexIds.order == old(vertexIds.order)
      ensures r.Success? ==>
        edgeIds.order == old(edgeIds.order) + Unlisted(old(edgeIds.order), Range(|g.edges|))
    {
      ghost var afterNodes := sink.contents;
      var re := WriteEdgesSection(g.vertices, g.edges, sink);
      PrefixTrans(base, afterNodes, sink.contents);
      ghost var p := CurrentProviders();
      if re.Failure? {
        EdgesFailure(g.vertices, g.edges, p, rn, re);
        return Failure(re.error);
      }
      ExportSuccess(g.vertices, g.edges, p, rn, re, base, afterNodes, sink.contents);
      r := Success(());
    }

    /** The opening of the document, then the node objects. */
    method WriteNodesSection(vs: seq<V>, sink: StringSink) returns (r: Result<seq<Value>, ExportError>)
      requires Valid() && Distinct(vs)
      modifies vertexIds, sink
      ensures Valid()
      ensures r == Nodes(vs, NameOf(vertexIds.ids), vertexAttributes)
      ensures r.Success? ==> sink.contents == old(sink.contents) + Opening + WriteElements(r.value)
      ensures old(sink.contents) <= sink.contents
      ensures r.Success? ==> forall v :: v in vs ==> v in vertexIds.ids
      ensures r.Success? ==>
        vertexIds.order == old(vertexIds.order) + Unlisted(old(vertexIds.order), vs)
    {
      ghost var base := sink.contents;
      sink.Write(Opening);
      ghost var afterOpening := sink.contents;
      r := ExportNodes(vs, sink);
      Grows(base, Opening, afterOpening, sink.contents);
    }

    /** The text between the arrays, the edge objects, and, when they all encode, the closing. */
    method WriteEdgesSection(vs: seq<V>, es: seq<Edge<V>>, sink: StringSink) returns (r: Result<seq<Value>, ExportError>)
      requires Valid() && WellFormed(vs, es) && forall v :: v in vs ==> v in vertexIds.ids
      modifies vertexIds, edgeIds, sink
      ensures Valid()
      ensures vertexIds.ids == old(vertexIds.ids) && vertexIds.order == old(vertexIds.order)
      ensures r == Edges(es, NameOf(vertexIds.ids), NameOf(edgeIds.ids), edgeAttributes)
      ensures r.Success? ==> sink.contents == old(sink.contents) + Between + WriteElements(r.value) + Closing
      ensures old(sink.contents) <= sink.contents
      ensures r.Success? ==>
        edgeIds.order == old(edgeIds.order) + Unlisted(old(edgeIds.order), Range(|es|))
    {
      ghost var base := sink.contents;
      sink.Write(Between);
      ghost var between := sink.contents;
      r := ExportEdges(vs, es, sink);
      Grows(base, Between, between, sink.contents);
      if r.Success? {
        sink.Write(Closing);
      }
    }

    /**
     * Writes the node objects, separated by ',', naming each vertex; stops
     * at the first vertex whose attributes cannot be encoded.
     */
    method ExportNodes(vs: seq<V>, sink: StringSink) returns (r: Result<seq<Value>, ExportError>)
      requires Valid() && Distinct(vs)
      modifies vertexIds, sink
      ensures Valid()
      ensures r == Nodes(vs, NameOf(vertexIds.ids), vertexAttributes)
      ensures r.Success? ==> sink.contents == old(sink.contents) + WriteElements(r.value)
      ensures old(sink.contents) <= sink.contents
      ensures r.Success? ==> forall v :: v in vs ==> v in vertexIds.ids
      ensures r.Success? ==>
        vertexIds.order == old(vertexIds.order) + Unlisted(old(vertexIds.order), vs)
    {
      var ns: seq<Value> := [];
      var i := 0;
      while i < |vs|
        invariant 0 <= i <= |vs| && Valid()
        invariant NodesLoop(vs, i, vertexIds.ids, vertexAttributes, ns, old(sink.contents), sink.contents,
                            old(vertexIds.order), vertexIds.order)
      {
        ghost var ids0, order0, c0 := vertexIds.ids, vertexIds.order, sink.contents;
        var name := vertexIds.GetName(vs[i]);
        var n := NodeObject(name, vertexAttributes(vs[i]));
        if n.Failure? {
          NodesFailAt(vs, i, ids0, vertexIds.ids, vertexAttributes, ns);
          return Failure(n.error);
        }
        var sep := if ns == [] then "" else ",";
        sink.Write(sep + Write(n.value));
        NodesLoopStep(vs, i, ids0, vertexIds.ids, vertexAttributes, ns, n.value, old(sink.contents), c0, sink.contents,
          old(vertexIds.order), order0, vertexIds.order);
        ns := ns + [n.value];
        i := i + 1;
      }
      NodesLoopDone(vs, vertexIds.ids, vertexAttributes, ns, old(sink.contents), sink.contents,
        old(vertexIds.order), vertexIds.order);
      r := Success(ns);
    }

    /**
     * Names edge k, then its source and its target, and builds its object.
     * The endpoints already have ids, so only the edge numbering can grow.
     */
    method NameEdge(es: seq<Edge<V>>, k: nat) returns (o: Result<Value, ExportError>)
      requires Valid() && k < |es| && es[k].source in vertexIds.ids && es[k].target in vertexIds.ids
      modifies vertexIds, edgeIds
      ensures Valid()
      ensures vertexIds.ids == old(vertexIds.ids) && vertexIds.order == old(vertexIds.order)
      ensures o == EdgeAt(es, k, NameOf(vertexIds.ids), NameOf(edgeIds.ids), edgeAttributes)
      ensures k in edgeIds.ids && Extends(old(edgeIds.ids), edgeIds.ids)
      ensures k in old(edgeIds.ids) ==> edgeIds.order == old(edgeIds.order)
      ensures k !in old(edgeIds.ids) ==> edgeIds.order == old(edgeIds.order) + [k]
    {
      var id := edgeIds.GetName(k);
      var source := vertexIds.GetName(es[k].source);
      var target := vertexIds.GetName(es[k].target);
      o := EdgeObject(id, source, target, edgeAttributes(k));
    }

    /**
     * Writes the edge objects, separated by ',', naming each edge handle and
     * then its source and target, which already have ids.
     */
    method ExportEdges(vs: seq<V>, es: seq<Edge<V>>, sink: StringSink) returns (r: Result<seq<Value>, ExportError>)
      requires Valid() && WellFormed(vs, es) && forall v :: v in vs ==> v in vertexIds.ids
      modifies vertexIds, edgeIds, sink
      ensures Valid()
      ensures vertexIds.ids == old(vertexIds.ids) && vertexIds.order == old(vertexIds.order)
      ensures r == Edges(es, NameOf(vertexIds.ids), NameOf(edgeIds.ids), edgeAttributes)
      ensures r.Success? ==> sink.contents == old(sink.contents) + WriteElements(r.value)
      ensures old(sink.contents) <= sink.contents
      ensures r.Success? ==>
        edgeIds.order == old(edgeIds.order) + Unlisted(old(edgeIds.order), Range(|es|))
    {
      var eds: seq<Value> := [];
      var k := 0;
      while k < |es|
        invariant 0 <= k <= |es| && Valid()
        invariant vertexIds.ids == old(vertexIds.ids) && vertexIds.order == old(vertexIds.order)
        invariant EdgesLoop(es, k, vertexIds.ids, edgeIds.ids, edgeAttributes, eds, old(sink.contents), sink.contents,
                            old(edgeIds.order), edgeIds.order)
      {
        ghost var ids0, order0, c0 := edgeIds.ids, edgeIds.order, sink.contents;
        var o := NameEdge(es, k);
        if o.Failure? {
          EdgesFailAt(es, k, vertexIds.ids, ids0, edgeIds.ids, edgeAttributes, eds);
          return Failure(o.error);
        }
        var sep := if eds == [] then "" else ",";
        sink.Write(sep + Write(o.value));
        EdgesLoopStep(es, k, vertexIds.ids, ids0, edgeIds.ids, edgeAttributes, eds, o.value, old(sink.contents), c0,
          sink.contents, old(edgeIds.order), order0, edgeIds.order);
        eds := eds + [o.value];
        k := k + 1;
      }
      EdgesLoopDone(es, vertexIds.ids, edgeIds.ids, edgeAttributes, eds, old(sink.contents), sink.contents,
        old(edgeIds.order), edgeIds.order);
      r := Success(eds);
    }
  }

  // ---------------------------------------------------------------------
  // Facts the methods rely on

  /** The node loop's invariant, on the values it speaks of. */
  ghost predicate NodesLoop<V>(vs: seq<V>, i: nat, ids: map<V, nat>, vertexAttributes: V -> seq<Entry>, ns: seq<Value>,
                               base: string, contents: string, order0: seq<V>, order: seq<V>)
  {
    && NamedNodes(vs, i, ids, vertexAttributes, ns)
    && contents == base + WriteElements(ns)
    && order == order0 + Unlisted(order0, vs[..i])
    && Distinct(order) && ids == Numbering(order)
  }

  lemma NodesLoopStep<V>(vs: seq<V>, i: nat, ids0: map<V, nat>, ids1: map<V, nat>, vertexAttributes: V -> seq<Entry>,
                         ns: seq<Value>, n: Value, base: string, c0: string, c1: string,
                         order00: seq<V>, order0: seq<V>, order1: seq<V>)
    requires NodesLoop(vs, i, ids0, vertexAttributes, ns, base, c0, order00, order0) && i < |vs| && Distinct(vs)
    requires Extends(ids0, ids1) && vs[i] in ids1 && Distinct(order1) && ids1 == Numbering(order1)
    requires vs[i] in ids0 ==> order1 == order0
    requires vs[i] !in ids0 ==> order1 == order0 + [vs[i]]
    requires NodeObject(NameOf(ids1)(vs[i]), vertexAttributes(vs[i])) == Success(n)
    requires c1 == c0 + ((if ns == [] then "" else ",") + Write(n))
    ensures NodesLoop(vs, i + 1, ids1, vertexAttributes, ns + [n], base, c1, order00, order1)
  {
    NamedNodesStep(vs, i, ids0, ids1, vertexAttributes, ns, n);
    SinkStep(c1, c0, base, ns, n);
    OrderStep(order00, vs, i, order0, ids0, order1);
  }

  lemma SinkStep(c1: string, c0: string, base: string, ns: seq<Value>, n: Value)
    requires c0 == base + WriteElements(ns) && c1 == c0 + ((if ns == [] then "" else ",") + Write(n))
    ensures c1 == base + WriteElements(ns + [n])
  {
    WriteElementsSnoc(ns, n);
    AppendStep(c1, c0, base, WriteElements(ns), if ns == [] then "" else ",", Write(n), WriteElements(ns + [n]));
  }

  lemma OrderStep<T>(o: seq<T>, cs: seq<T>, i: nat, order0: seq<T>, ids0: map<T, nat>, order1: seq<T>)
    requires Distinct(cs) && i < |cs| && Distinct(order0) && ids0 == Numbering(order0)
    requires order0 == o + Unlisted(o, cs[..i])
    requires cs[i] in ids0 ==> order1 == order0
    requires cs[i] !in ids0 ==> order1 == order0 + [cs[i]]
    ensures order1 == o + Unlisted(o, cs[..i + 1])
  {
    UnlistedStep(o, cs, i, order0, ids0);
  }

  lemma NodesLoopDone<V>(vs: seq<V>, ids: map<V, nat>, vertexAttributes: V -> seq<Entry>, ns: seq<Value>,
                         base: string, contents: string, order0: seq<V>, order: seq<V>)
    requires NodesLoop(vs, |vs|, ids, vertexAttributes, ns, base, contents, order0, order)
    ensures Nodes(vs, NameOf(ids), vertexAttributes) == Success(ns)
    ensures contents == base + WriteElements(ns)
    ensures order == order0 + Unlisted(order0, vs)
    ensures forall v :: v in vs ==> v in ids
  {
    assert vs[..|vs|] == vs;
    NodesPointwise(vs, ids, vertexAttributes, ns);
  }

  /** The edge loop's invariant, on the values it speaks of. */
  ghost predicate EdgesLoop<V>(es: seq<Edge<V>>, k: nat, vids: map<V, nat>, eids: map<nat, nat>,
                               edgeAttributes: nat -> seq<Entry>, eds: seq<Value>,
                               base: string, contents: string, order0: seq<nat>, order: seq<nat>)
  {
    && NamedEdges(es, k, vids, eids, edgeAttributes, eds)
    && contents == base + WriteElements(eds)
    && order == order0 + Unlisted(order0, Range(|es|)[..k])
    && Distinct(order) && eids == Numbering(order)
  }

  lemma EdgesLoopStep<V>(es: seq<Edge<V>>, k: nat, vids: map<V, nat>, eids0: map<nat, nat>, eids1: map<nat, nat>,
                         edgeAttributes: nat -> seq<Entry>, eds: seq<Value>, o: Value, base: string, c0: string,
                         c1: string, order00: seq<nat>, order0: seq<nat>, order1: seq<nat>)
    requires EdgesLoop(es, k, vids, eids0, edgeAttributes, eds, base, c0, order00, order0) && k < |es|
    requires Extends(eids0, eids1) && k in eids1 && Distinct(order1) && eids1 == Numbering(order1)
    requires k in eids0 ==> order1 == order0
    requires k !in eids0 ==> order1 == order0 + [k]
    requires EdgeAt(es, k, NameOf(vids), NameOf(eids1), edgeAttributes) == Success(o)
    requires c1 == c0 + ((if eds == [] then "" else ",") + Write(o))
    ensures EdgesLoop(es, k + 1, vids, eids1, edgeAttributes, eds + [o], base, c1, order00, order1)
  {
    NamedEdgesStep(es, k, vids, eids0, eids1, edgeAttributes, eds, o);
    SinkStep(c1, c0, base, eds, o);
    RangeDistinct(|es|);
    OrderStep(order00, Range(|es|), k, order0, eids0, order1);
  }

  lemma EdgesLoopDone<V>(es: seq<Edge<V>>, vids: map<V, nat>, eids: map<nat, nat>, edgeAttributes: nat -> seq<Entry>,
                         eds: seq<Value>, base: string, contents: string, order0: seq<nat>, order: seq<nat>)
    requires EdgesLoop(es, |es|, vids, eids, edgeAttributes, eds, base, contents, order0, order)
    ensures Edges(es, NameOf(vids), NameOf(eids), edgeAttributes) == Success(eds)
    ensures contents == base + WriteElements(eds)
    ensures order == order0 + Unlisted(order0, Range(|es|))
  {
    assert Range(|es|)[..|es|] == Range(|es|);
    EdgesPointwise(es, vids, eids, edgeAttributes, eds);
  }

  /** Appending s and then anything keeps a as a prefix. */
  lemma NodesFailure<V>(vs: seq<V>, es: seq<Edge<V>>, p: Providers<V>, rn: Result<seq<Value>, ExportError>)
    requires rn == Nodes(vs, p.vertexId, p.vertexAttributes) && rn.Failure?
    ensures Export(vs, es, p) == Failure(rn.error)
  {
    ExportOfParts(vs, es, p);
  }

  lemma EdgesFailure<V>(vs: seq<V>, es: seq<Edge<V>>, p: Providers<V>, rn: Result<seq<Value>, ExportError>,
                        re: Result<seq<Value>, ExportError>)
    requires rn == Nodes(vs, p.vertexId, p.vertexAttributes) && rn.Success?
    requires re == Edges(es, p.vertexId, p.edgeId, p.edgeAttributes) && re.Failure?
    ensures Export(vs, es, p) == Failure(re.error)
  {
    ExportOfParts(vs, es, p);
  }

  /** The three writes of ExportGraph together append exactly the exported document. */
  lemma ExportSuccess<V>(vs: seq<V>, es: seq<Edge<V>>, p: Providers<V>, rn: Result<seq<Value>, ExportError>,
                         re: Result<seq<Value>, ExportError>, base: string, afterNodes: string, c: string)
    requires rn == Nodes(vs, p.vertexId, p.vertexAttributes) && rn.Success?
    requires re == Edges(es, p.vertexId, p.edgeId, p.edgeAttributes) && re.Success?
    requires afterNodes == base + Opening + WriteElements(rn.value)
    requires c == afterNodes + Between + WriteElements(re.value) + Closing
    ensures Export(vs, es, p).Success? && c == base + Export(vs, es, p).value
  {
    ExportOfParts(vs, es, p);
    SinkConcat(c, base, Opening, WriteElements(rn.value), Between, WriteElements(re.value), Closing,
      afterNodes, afterNodes + Between + WriteElements(re.value));
  }

  // Grows, PrefixTrans, AppendStep and SinkConcat are regrouping and prefix steps for
  // the verifier (concatenation is associative, <= is transitive); not properties of the model.
  lemma Grows(a: string, s: string, b: string, c: string)
    requires b == a + s && b <= c
    ensures a <= c
  {
    assert a <= b;
  }

  lemma PrefixTrans(a: string, b: string, c: string)
    requires a <= b && b <= c
    ensures a <= c
  {
  }

  lemma AppendStep(c: string, c0: string, base: string, w: string, sep: string, piece: string, w': string)
    requires c0 == base + w && c == c0 + (sep + piece) && w' == w + sep + piece
    ensures c == base + w'
  {
  }

  lemma SinkConcat(c: string, base: string, o: string, tn: string, b: string, te: string, cl: string,
                   afterNodes: string, afterEdges: string)
    requires afterNodes == base + o + tn && afterEdges == afterNodes + b + te && c == afterEdges + cl
    ensures c == base + (o + tn + b + te + cl)
  {
  }

  lemma RangeDistinct(n: nat)
    ensures Distinct(Range(n))
  {
  }

  lemma UnlistedSnoc<T>(o: seq<T>, cs: seq<T>, c: T)
    ensures Unlisted(o, cs + [c]) == Unlisted(o, cs) + (if c in o then [] else [c])
  {
    assert (cs + [c])[..|cs|] == cs;
  }

  /**
   * Naming cs[i] after cs[..i], starting from a provider that had named o:
   * cs[i] already has an id exactly when o holds it, and it is added to the
   * naming order otherwise.
   */
  lemma UnlistedStep<T>(o: seq<T>, cs: seq<T>, i: nat, order: seq<T>, ids: map<T, nat>)
    requires Distinct(cs) && i < |cs| && Distinct(order) && ids == Numbering(order)
    requires order == o + Unlisted(o, cs[..i])
    ensures (cs[i] in ids) == (cs[i] in o)
    ensures Unlisted(o, cs[..i + 1]) == Unlisted(o, cs[..i]) + (if cs[i] in ids then [] else [cs[i]])
  {
    NumberingHas(order, cs[i]);
    NotEarlier(cs, i);
    UnlistedOnly(o, cs[..i], cs[i]);
    TakeOneMore(cs, i);
    UnlistedSnoc(o, cs[..i], cs[i]);
  }

  lemma TakeOneMore<T>(cs: seq<T>, i: nat)
    requires i < |cs|
    ensures cs[..i + 1] == cs[..i] + [cs[i]]
  {
  }

  lemma NotEarlier<T>(cs: seq<T>, i: nat)
    requires Distinct(cs) && i < |cs|
    ensures cs[i] !in cs[..i]
  {
  }

  lemma UnlistedOnly<T>(o: seq<T>, xs: seq<T>, c: T)
    requires c !in xs
    ensures c !in Unlisted(o, xs)
  {
  }

  /** ns holds the node objects of vs[..i] under the names ids gives. */
  ghost predicate NamedNodes<V>(vs: seq<V>, i: nat, ids: map<V, nat>, vertexAttributes: V -> seq<Entry>,
                                   ns: seq<Value>)
  {
    && i <= |vs| && |ns| == i
    && (forall j :: 0 <= j < i ==> vs[j] in ids)
    && forall j :: 0 <= j < i ==> NodeObject(NameOf(ids)(vs[j]), vertexAttributes(vs[j])) == Success(ns[j])
  }

  lemma NamedNodesStep<V>(vs: seq<V>, i: nat, ids0: map<V, nat>, ids1: map<V, nat>,
                          vertexAttributes: V -> seq<Entry>, ns: seq<Value>, n: Value)
    requires NamedNodes(vs, i, ids0, vertexAttributes, ns) && i < |vs|
    requires Extends(ids0, ids1) && vs[i] in ids1
    requires NodeObject(NameOf(ids1)(vs[i]), vertexAttributes(vs[i])) == Success(n)
    ensures NamedNodes(vs, i + 1, ids1, vertexAttributes, ns + [n])
  {
    var ns' := ns + [n];
    forall j | 0 <= j < i + 1
      ensures vs[j] in ids1
      ensures NodeObject(NameOf(ids1)(vs[j]), vertexAttributes(vs[j])) == Success(ns'[j])
    {
      if j < i {
        assert ns'[j] == ns[j];
        ExtendsNames(ids0, ids1, vs[j]);
      } else {
        assert ns'[j] == n;
      }
    }
  }

  lemma NodesPointwise<V>(vs: seq<V>, ids: map<V, nat>, vertexAttributes: V -> seq<Entry>, ns: seq<Value>)
    requires NamedNodes(vs, |vs|, ids, vertexAttributes, ns)
    ensures Nodes(vs, NameOf(ids), vertexAttributes) == Success(ns)
  {
    NodesOf(vs, NameOf(ids), vertexAttributes, ns);
  }

  lemma NodesFailAt<V>(vs: seq<V>, i: nat, ids0: map<V, nat>, ids1: map<V, nat>,
                       vertexAttributes: V -> seq<Entry>, ns: seq<Value>)
    requires NamedNodes(vs, i, ids0, vertexAttributes, ns) && i < |vs| && Extends(ids0, ids1)
    requires !AllFinite(vertexAttributes(vs[i]))
    ensures Nodes(vs, NameOf(ids1), vertexAttributes).Failure?
    ensures Nodes(vs, NameOf(ids1), vertexAttributes).error == NodeObject(NameOf(ids1)(vs[i]), vertexAttributes(vs[i])).error
  {
    var r := Nodes(vs, NameOf(ids1), vertexAttributes);
    NodesSpec(vs, NameOf(ids1), vertexAttributes);
    assert forall j :: 0 <= j < i ==> AllFinite(vertexAttributes(vs[j]));
    var i' :| 0 <= i' < |vs|
      && NodeObject(NameOf(ids1)(vs[i']), vertexAttributes(vs[i'])) == Failure(r.error)
      && forall i'' :: 0 <= i'' < i' ==> AllFinite(vertexAttributes(vs[i'']));
    assert i' == i;
  }

  /** eds holds the edge objects of handles 0 .. k - 1 under the names the two id tables give. */
  ghost predicate NamedEdges<V>(es: seq<Edge<V>>, k: nat, vids: map<V, nat>, eids: map<nat, nat>,
                                   edgeAttributes: nat -> seq<Entry>, eds: seq<Value>)
  {
    && k <= |es| && |eds| == k
    && (forall j :: 0 <= j < k ==> j in eids)
    && forall j :: 0 <= j < k ==> EdgeAt(es, j, NameOf(vids), NameOf(eids), edgeAttributes) == Success(eds[j])
  }

  lemma NamedEdgesStep<V>(es: seq<Edge<V>>, k: nat, vids: map<V, nat>, eids0: map<nat, nat>, eids1: map<nat, nat>,
                          edgeAttributes: nat -> seq<Entry>, eds: seq<Value>, o: Value)
    requires NamedEdges(es, k, vids, eids0, edgeAttributes, eds) && k < |es|
    requires Extends(eids0, eids1) && k in eids1
    requires EdgeAt(es, k, NameOf(vids), NameOf(eids1), edgeAttributes) == Success(o)
    ensures NamedEdges(es, k + 1, vids, eids1, edgeAttributes, eds + [o])
  {
    var eds' := eds + [o];
    forall j | 0 <= j < k + 1
      ensures j in eids1
      ensures EdgeAt(es, j, NameOf(vids), NameOf(eids1), edgeAttributes) == Success(eds'[j])
    {
      if j < k {
        assert eds'[j] == eds[j];
        ExtendsNames(eids0, eids1, j);
      } else {
        assert eds'[j] == o;
      }
    }
  }

  lemma EdgesPointwise<V>(es: seq<Edge<V>>, vids: map<V, nat>, eids: map<nat, nat>,
                          edgeAttributes: nat -> seq<Entry>, eds: seq<Value>)
    requires NamedEdges(es, |es|, vids, eids, edgeAttributes, eds)
    ensures Edges(es, NameOf(vids), NameOf(eids), edgeAttributes) == Success(eds)
  {
    EdgesOf(es, NameOf(vids), NameOf(eids), edgeAttributes, eds);
  }

  lemma EdgesFailAt<V>(es: seq<Edge<V>>, k: nat, vids: map<V, nat>, eids0: map<nat, nat>, eids1: map<nat, nat>,
                       edgeAttributes: nat -> seq<Entry>, eds: seq<Value>)
    requires NamedEdges(es, k, vids, eids0, edgeAttributes, eds) && k < |es| && Extends(eids0, eids1)
    requires !AllFinite(edgeAttributes(k))
    ensures Edges(es, NameOf(vids), NameOf(eids1), edgeAttributes).Failure?
    ensures Edges(es, NameOf(vids), NameOf(eids1), edgeAttributes).error
      == EdgeAt(es, k, NameOf(vids), NameOf(eids1), edgeAttributes).error
  {
    var r := Edges(es, NameOf(vids), NameOf(eids1), edgeAttributes);
    EdgesSpec(es, NameOf(vids), NameOf(eids1), edgeAttributes);
    forall j | 0 <= j < k ensures AllFinite(edgeAttributes(j)) {
      assert EdgeAt(es, j, NameOf(vids), NameOf(eids0), edgeAttributes).Success?;
    }
    var k' :| 0 <= k' < |es|
      && EdgeAt(es, k', NameOf(vids), NameOf(eids1), edgeAttributes) == Failure(r.error)
      && forall k'' :: 0 <= k'' < k' ==> AllFinite(edgeAttributes(k''));
    assert k' == k;
  }

  /**
   * A provider that has named nothing yet, run over the distinct components
   * cs, names them in that order: cs[i] gets "i + 1". The exporter runs one
   * over the vertices and a separate one over the edge handles Range(n), so
   * the two numberings are independent of each other.
   */
  lemma FreshNames<T>(cs: seq<T>)
    requires Distinct(cs)
    ensures forall i :: 0 <= i < |cs| ==> NameOf(Numbering(cs))(cs[i]) == Decimal.NatToString(i + 1)
  {
    NumberingAt(cs);
  }

}
