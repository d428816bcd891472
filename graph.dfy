/**
 * The graph being exported: an ordered vertex set and an ordered edge list.
 * Each edge joins a source to a target vertex and carries a weight, 1.0 until
 * it is set. An edge is designated by its handle, the position at which it
 * was added; the graph iterates vertices and edges in insertion order.
 */
module Graphs {
  import opened Wrappers
  import opened Json
  import opened Attributes
  import opened Sequences

  const DefaultWeight: Num := Finite("1.0")

  datatype Edge<V> = Edge(source: V, target: V, weight: Num)

  /** No vertex twice, and every edge joins two vertices of the graph. */
  predicate WellFormed<V(==)>(vs: seq<V>, es: seq<Edge<V>>) {
    && Distinct(vs)
    && forall k :: 0 <= k < |es| ==> es[k].source in vs && es[k].target in vs
  }

  class Graph<V(==)> {
    var vertices: seq<V>
    var edges: seq<Edge<V>>

    predicate Valid()
      reads this
    {
      WellFormed(vertices, edges)
    }

    constructor ()
      ensures Valid() && vertices == [] && edges == []
    {
      vertices := [];
      edges := [];
    }

    /** Adds v unless it is already a vertex; says whether it was added. */
    method AddVertex(v: V) returns (added: bool)
      requires Valid()
      modifies this
      ensures Valid()
      ensures added <==> v !in old(vertices)
      ensures vertices == if added then old(vertices) + [v] else old(vertices)
      ensures edges == old(edges)
    {
      added := v !in vertices;
      if added {
        vertices := vertices + [v];
      }
    }

    /**
     * Adds an edge from source to target with the default weight and returns
     * its handle; fails, changing nothing, when an endpoint is not a vertex.
     */
    method AddEdge(source: V, target: V) returns (e: Option<nat>)
      requires Valid()
      modifies this
      ensures Valid() && vertices == old(vertices)
      ensures e.Some? <==> source in vertices && target in vertices
      ensures e.Some? ==> e.value == |old(edges)| && EdgeWeight(e.value) == Some(DefaultWeight)
      ensures edges == if e.Some? then old(edges) + [Edge(source, target, DefaultWeight)] else old(edges)
    {
      if source in vertices && target in vertices {
        e := Some(|edges|);
        edges := edges + [Edge(source, target, DefaultWeight)];
      } else {
        e := None;
      }
    }

    /** The weight of edge e, or None when e is not an edge of the graph. */
    function EdgeWeight(e: nat): (w: Option<Num>)
      reads this
      ensures w.Some? <==> e < |edges|
    {
      if e < |edges| then Some(edges[e].weight) else None
    }

    /** Sets the weight of edge e; fails, changing nothing, when e is not an edge. */
    method SetEdgeWeight(e: nat, w: Num) returns (ok: bool)
      requires Valid()
      modifies this
      ensures Valid() && vertices == old(vertices)
      ensures ok <==> e < |old(edges)|
      ensures edges == if ok then old(edges)[e := old(edges)[e].(weight := w)] else old(edges)
      ensures ok ==> EdgeWeight(e) == Some(w)
    {
      ok := e < |edges|;
      if ok {
        edges := edges[e := edges[e].(weight := w)];
      }
    }
  }
}
