/**
 A generic, mutable, directed multigraph container. The graph owns an
 insertion-ordered list of vertex cells and one of edge cells; a vertex holds
 a payload of type V, an edge a payload of type E and two endpoint handles.
 Handles are object references that may be null, as the container's shared
 pointers may be: two cells are the same exactly when they are the same
 object, whatever their payloads.
 */
module Graphs {
  import opened Sequences

  /** A vertex cell, owning one payload value. */
  class VertexElement<V> {
    var data: V

    constructor (data: V)
      ensures this.data == data
    {
      this.data := data;
    }
  }

  /**
   An edge cell: a payload and two endpoint handles, either of which may be
   unset. Callers may reassign `start`, `end` and `data` after creation.
   */
  class EdgeElement<V, E> {
    var start: Vertex<V>
    var end: Vertex<V>
    var data: E

    constructor (start: Vertex<V>, end: Vertex<V>, data: E)
      ensures this.start == start && this.end == end && this.data == data
    {
      this.start := start;
      this.end := end;
      this.data := data;
    }
  }

  /** A vertex handle; null is the unset handle. */
  type Vertex<V> = VertexElement?<V>

  /** An edge handle; null is the unset handle. */
  type Edge<V, E> = EdgeElement?<V, E>

  /** Which endpoint an adjacency query compares with the queried vertex. */
  datatype Direction = In | Out | Both

  /**
   Whether the query for `v` in direction `d` selects the list entry `e`.
   A null entry is never selected. The endpoint test is plain handle
   equality, so a null `v` selects the edges whose endpoint is unset.
   */
  predicate Touches<V, E>(e: Edge<V, E>, v: Vertex<V>, d: Direction)
    reads e
    ensures Touches(e, v, d) ==> e != null
    ensures e != null && e.start == v && e.end == v ==> Touches(e, v, d)
  {
    e != null &&
    match d
    case In => e.end == v
    case Out => e.start == v
    case Both => e.start == v || e.end == v
  }

  /**
   The entries of `es` that the query for `v` in direction `d` selects, in
   the order of `es`: the copy_if filter of edgesIn, edgesOut and edgesAll.
   */
  function Adjacent<V, E>(es: seq<Edge<V, E>>, v: Vertex<V>, d: Direction): (r: seq<Edge<V, E>>)
    reads es
    ensures forall e :: e in r ==> e in es && Touches(e, v, d)
    ensures forall e :: e in es && Touches(e, v, d) ==> e in r
  {
    if es == [] then []
    else if Touches(es[0], v, d) then [es[0]] + Adjacent(es[1..], v, d)
    else Adjacent(es[1..], v, d)
  }

  /** A query keeps the selected entries in list order. */
  lemma {:induction false} AdjacentOrdered<V, E>(es: seq<Edge<V, E>>, v: Vertex<V>, d: Direction)
    ensures IsSubsequence(Adjacent(es, v, d), es)
  {
    if es != [] {
      assert es == [es[0]] + es[1..];
      AdjacentOrdered(es[1..], v, d);
      if Touches(es[0], v, d) {
        var r := Adjacent(es, v, d);
        assert r[0] == es[0] && r[1..] == Adjacent(es[1..], v, d);
      }
    }
  }

  /**
   The entries of `es` that name `v` at neither end, in the order of `es`:
   the edges removeVertex keeps. Its test reads both endpoints of every
   entry, so no entry may be null.
   */
  function Detach<V, E>(es: seq<Edge<V, E>>, v: Vertex<V>): (r: seq<Edge<V, E>>)
    requires null !in es
    reads es
    ensures null !in r
  {
    if es == [] then []
    else if es[0].start != v && es[0].end != v then [es[0]] + Detach(es[1..], v)
    else Detach(es[1..], v)
  }

  /** Cascading deletion keeps exactly the entries naming `v` at neither end, in list order. */
  lemma {:induction false} DetachSpec<V, E>(es: seq<Edge<V, E>>, v: Vertex<V>)
    requires null !in es
    ensures forall e :: e in Detach(es, v) ==> e in es && e.start != v && e.end != v
    ensures forall e :: e in es && e.start != v && e.end != v ==> e in Detach(es, v)
    ensures IsSubsequence(Detach(es, v), es)
  {
    if es != [] {
      assert es == [es[0]] + es[1..];
      DetachSpec(es[1..], v);
      if es[0].start != v && es[0].end != v {
        var r := Detach(es, v);
        assert r[0] == es[0] && r[1..] == Detach(es[1..], v);
      }
    }
  }

  /** A query distributes over concatenation: results come in list order. */
  lemma {:induction false} AdjacentAppend<V, E>(a: seq<Edge<V, E>>, b: seq<Edge<V, E>>, v: Vertex<V>, d: Direction)
    ensures Adjacent(a + b, v, d) == Adjacent(a, v, d) + Adjacent(b, v, d)
  {
    if a == [] {
      assert a + b == b;
    } else {
      assert (a + b)[0] == a[0];
      assert (a + b)[1..] == a[1..] + b;
      AdjacentAppend(a[1..], b, v, d);
    }
  }

  /**
   Appending an edge extends each query's result by that edge exactly when
   the query selects it: what addEdge does to edgesIn, edgesOut and edgesAll.
   */
  lemma {:induction false} AdjacentSnoc<V, E>(es: seq<Edge<V, E>>, e: Edge<V, E>, v: Vertex<V>, d: Direction)
    ensures Adjacent(es + [e], v, d) == Adjacent(es, v, d) + (if Touches(e, v, d) then [e] else [])
  {
    AdjacentAppend(es, [e], v, d);
    assert [e][1..] == [];
  }

  /**
   Removing an edge from the list removes it from every query result and
   changes nothing else in them: removeEdge updates the global list and, with
   it, what edgesIn, edgesOut and edgesAll report.
   */
  lemma {:induction false} AdjacentWithout<V, E>(es: seq<Edge<V, E>>, e: Edge<V, E>, v: Vertex<V>, d: Direction)
    ensures Adjacent(Without(es, e), v, d) == Without(Adjacent(es, v, d), e)
  {
    if es != [] {
      AdjacentWithout(es[1..], e, v, d);
      var rest := Adjacent(es[1..], v, d);
      if Touches(es[0], v, d) {
        assert ([es[0]] + rest)[0] == es[0] && ([es[0]] + rest)[1..] == rest;
      }
      if es[0] != e {
        var kept := [es[0]] + Without(es[1..], e);
        assert kept[0] == es[0] && kept[1..] == Without(es[1..], e);
      }
    }
  }

  /** A query over a list without duplicates returns each edge at most once. */
  lemma {:induction false} AdjacentDistinct<V, E>(es: seq<Edge<V, E>>, v: Vertex<V>, d: Direction)
    ensures NoDuplicates(es) ==> NoDuplicates(Adjacent(es, v, d))
  {
    if NoDuplicates(es) {
      AdjacentOrdered(es, v, d);
      SubsequenceDistinct(Adjacent(es, v, d), es);
    }
  }

  /**
   edgesAll selects each edge once, so it returns no more than edgesIn and
   edgesOut together and no fewer than either of them.
   */
  lemma {:induction false} EdgesAllBounds<V, E>(es: seq<Edge<V, E>>, v: Vertex<V>)
    ensures |Adjacent(es, v, Both)| <= |Adjacent(es, v, In)| + |Adjacent(es, v, Out)|
    ensures |Adjacent(es, v, In)| <= |Adjacent(es, v, Both)|
    ensures |Adjacent(es, v, Out)| <= |Adjacent(es, v, Both)|
  {
    if es != [] {
      EdgesAllBounds(es[1..], v);
    }
  }

  /**
   A self-loop on `v` in a list without duplicates occurs exactly once in
   each of the three queries for `v`.
   */
  lemma {:induction false} SelfLoopCountedOnce<V, E>(es: seq<Edge<V, E>>, e: EdgeElement<V, E>, v: Vertex<V>)
    requires NoDuplicates(es)
    requires e in es && e.start == v && e.end == v
    ensures multiset(Adjacent(es, v, Both))[e] == 1
    ensures multiset(Adjacent(es, v, In))[e] == 1
    ensures multiset(Adjacent(es, v, Out))[e] == 1
  {
    AdjacentDistinct(es, v, In);
    AdjacentDistinct(es, v, Out);
    AdjacentDistinct(es, v, Both);
    AdjacentOrdered(es, v, In);
    AdjacentOrdered(es, v, Out);
    AdjacentOrdered(es, v, Both);
  }

  /**
   Cascading deletion splits the edge list: the edges it keeps and the edges
   edgesAll(v) reports make up the old list exactly.
   */
  lemma {:induction false} DetachPartition<V, E>(es: seq<Edge<V, E>>, v: Vertex<V>)
    requires null !in es
    ensures multiset(Detach(es, v)) + multiset(Adjacent(es, v, Both)) == multiset(es)
    ensures |Detach(es, v)| + |Adjacent(es, v, Both)| == |es|
  {
    if es != [] {
      assert es == [es[0]] + es[1..];
      DetachPartition(es[1..], v);
    }
  }

  /** A second cascading deletion of the same vertex removes nothing more. */
  lemma {:induction false} DetachIdempotent<V, E>(es: seq<Edge<V, E>>, v: Vertex<V>)
    requires null !in es
    ensures Detach(Detach(es, v), v) == Detach(es, v)
  {
    if es != [] {
      assert es[0] in es;
      DetachIdempotent(es[1..], v);
      var r := Detach(es[1..], v);
      if es[0].start != v && es[0].end != v {
        assert ([es[0]] + r)[1..] == r;
      }
    }
  }

  /** A query that selects no entry of the list returns nothing. */
  lemma {:induction false} NoneSelected<V, E>(es: seq<Edge<V, E>>, v: Vertex<V>, d: Direction)
    requires forall e :: e in es ==> !Touches(e, v, d)
    ensures Adjacent(es, v, d) == []
  {
    if es != [] {
      assert es[0] in es;
      NoneSelected(es[1..], v, d);
    }
  }

  /** After cascading deletion no edge names `v`, so every query for `v` is empty. */
  lemma {:induction false} DetachedHasNoAdjacent<V, E>(es: seq<Edge<V, E>>, v: Vertex<V>, d: Direction)
    requires null !in es
    ensures Adjacent(Detach(es, v), v, d) == []
  {
    if es != [] {
      assert es[0] in es;
      DetachedHasNoAdjacent(es[1..], v, d);
      if es[0].start != v && es[0].end != v {
        var r := [es[0]] + Detach(es[1..], v);
        assert r[0] == es[0] && r[1..] == Detach(es[1..], v);
      }
    }
  }

  /** Every set endpoint of an edge of `es` is an element of `vs`. */
  ghost predicate EndpointsIn<V, E>(es: seq<Edge<V, E>>, vs: seq<Vertex<V>>)
    reads es
  {
    forall e :: e in es && e != null ==>
      (e.start == null || e.start in vs) && (e.end == null || e.end in vs)
  }

  /**
   Cascading deletion of `v` keeps both lists free of null entries and of
   duplicates.
   */
  lemma {:induction false} CascadeKeepsInvariants<V, E>(vs: seq<Vertex<V>>, es: seq<Edge<V, E>>, v: Vertex<V>)
    requires null !in vs && null !in es
    requires NoDuplicates(vs) && NoDuplicates(es)
    ensures null !in Without(vs, v) && null !in Detach(es, v)
    ensures NoDuplicates(Without(vs, v)) && NoDuplicates(Detach(es, v))
  {
    WithoutSpec(vs, v);
    DetachSpec(es, v);
    SubsequenceDistinct(Without(vs, v), vs);
    SubsequenceDistinct(Detach(es, v), es);
  }

  /** Cascading deletion of `v` leaves no edge naming a vertex that is no longer listed. */
  lemma {:induction false} CascadeKeepsEndpoints<V, E>(vs: seq<Vertex<V>>, es: seq<Edge<V, E>>, v: Vertex<V>)
    requires null !in es
    requires EndpointsIn(es, vs)
    ensures EndpointsIn(Detach(es, v), Without(vs, v))
  {
    WithoutSpec(vs, v);
    DetachSpec(es, v);
    forall e | e in Detach(es, v) && e != null
      ensures (e.start == null || e.start in Without(vs, v)) && (e.end == null || e.end in Without(vs, v))
    {
      assert e in es;
    }
  }

  /** Appending an edge whose set endpoints are listed vertices keeps every endpoint listed. */
  lemma AppendEdgeKeepsEndpoints<V, E>(es: seq<Edge<V, E>>, vs: seq<Vertex<V>>, e: EdgeElement<V, E>)
    requires EndpointsIn(es, vs)
    requires (e.start == null || e.start in vs) && (e.end == null || e.end in vs)
    ensures EndpointsIn(es + [e], vs)
  {
  }

  /** Appending a vertex keeps every endpoint listed. */
  lemma AppendVertexKeepsEndpoints<V, E>(es: seq<Edge<V, E>>, vs: seq<Vertex<V>>, v: Vertex<V>)
    requires EndpointsIn(es, vs)
    ensures EndpointsIn(es, vs + [v])
  {
  }

  /** Removing an edge keeps every remaining endpoint listed. */
  lemma RemoveEdgeKeepsEndpoints<V, E>(es: seq<Edge<V, E>>, vs: seq<Vertex<V>>, e: Edge<V, E>)
    requires EndpointsIn(es, vs)
    ensures EndpointsIn(Without(es, e), vs)
  {
    WithoutSpec(es, e);
  }

  /** The graph: two insertion-ordered lists of cells it owns. */
  class Graph<V, E> {
    var vertices: seq<Vertex<V>>
    var edges: seq<Edge<V, E>>

    /** The class invariant: neither list holds a null handle or a cell twice. */
    ghost predicate Valid()
      reads this
    {
      null !in vertices && null !in edges && NoDuplicates(vertices) && NoDuplicates(edges)
    }

    constructor ()
      ensures Valid() && Empty()
    {
      vertices := [];
      edges := [];
    }

    /** True exactly when the graph holds no vertex and no edge. */
    function Empty(): (r: bool)
      reads this
      ensures r <==> |vertices| + |edges| == 0
    {
      vertices == [] && edges == []
    }

    /** addVertex: append a fresh vertex holding `data`. */
    method AddVertex(data: V) returns (v: VertexElement<V>)
      requires Valid()
      modifies this
      ensures Valid() && !Empty()
      ensures fresh(v) && v.data == data && v !in old(vertices)
      ensures vertices == old(vertices) + [v] && edges == old(edges)
      ensures forall d :: Adjacent(edges, v, d) == []
    {
      v := new VertexElement(data);
      vertices := vertices + [v];
      forall d ensures Adjacent(edges, v, d) == [] {
        NoneSelected(edges, v, d);
      }
    }

    /**
     removeVertex: a no-op when `v` is not in the graph (null included);
     otherwise drop every edge naming `v`, then erase `v` from the vertices.
     */
    method RemoveVertex(v: Vertex<V>)
      requires Valid()
      modifies this
      ensures Valid()
      ensures v !in old(vertices) ==> vertices == old(vertices) && edges == old(edges)
      ensures v in old(vertices) ==> vertices == Without(old(vertices), v) && edges == old(Detach(edges, v))
      ensures v !in vertices
      ensures v in old(vertices) ==> |vertices| == |old(vertices)| - 1
    {
      var i := IndexOf(vertices, v);
      if i == -1 {
        return;
      }
      EraseFirstIsWithout(vertices, v);
      CascadeKeepsInvariants(vertices, edges, v);
      vertices, edges := vertices[..i] + vertices[i + 1..], Detach(edges, v);
    }

    /** addEdge(data): append a fresh edge with both endpoints unset. */
    method AddUnconnectedEdge(data: E) returns (e: EdgeElement<V, E>)
      requires Valid()
      modifies this
      ensures Valid() && !Empty()
      ensures fresh(e) && e.start == null && e.end == null && e.data == data && e !in old(edges)
      ensures edges == old(edges) + [e] && vertices == old(vertices)
    {
      e := new EdgeElement(null, null, data);
      edges := edges + [e];
    }

    /**
     addEdge(start, end, data): append a fresh edge with exactly these
     endpoints; they are not checked against the vertex list.
     */
    method AddEdge(start: Vertex<V>, end: Vertex<V>, data: E) returns (e: EdgeElement<V, E>)
      requires Valid()
      modifies this
      ensures Valid() && !Empty()
      ensures fresh(e) && e.start == start && e.end == end && e.data == data && e !in old(edges)
      ensures edges == old(edges) + [e] && vertices == old(vertices)
    {
      e := new EdgeElement(start, end, data);
      edges := edges + [e];
    }

    /** removeEdge: drop `e` from the edge list; a no-op when it is absent or null. */
    method RemoveEdge(e: Edge<V, E>)
      requires Valid()
      modifies this
      ensures Valid()
      ensures edges == Without(old(edges), e) && vertices == old(vertices)
      ensures e !in edges
      ensures e !in old(edges) ==> edges == old(edges)
      ensures e in old(edges) ==> |edges| == |old(edges)| - 1
    {
      WithoutSpec(edges, e);
      SubsequenceDistinct(Without(edges, e), edges);
      edges := Without(edges, e);
    }

    /** edgesIn: the edges whose end is `v`, in insertion order, each once. */
    function EdgesIn(v: Vertex<V>): (r: seq<Edge<V, E>>)
      reads this, edges
      ensures forall e :: e in r ==> e in edges && e != null && e.end == v
      ensures forall e :: e in edges && e != null && e.end == v ==> e in r
      ensures IsSubsequence(r, edges)
      ensures Valid() ==> NoDuplicates(r)
    {
      AdjacentOrdered(edges, v, In);
      AdjacentDistinct(edges, v, In);
      Adjacent(edges, v, In)
    }

    /** edgesOut: the edges whose start is `v`, in insertion order, each once. */
    function EdgesOut(v: Vertex<V>): (r: seq<Edge<V, E>>)
      reads this, edges
      ensures forall e :: e in r ==> e in edges && e != null && e.start == v
      ensures forall e :: e in edges && e != null && e.start == v ==> e in r
      ensures IsSubsequence(r, edges)
      ensures Valid() ==> NoDuplicates(r)
    {
      AdjacentOrdered(edges, v, Out);
      AdjacentDistinct(edges, v, Out);
      Adjacent(edges, v, Out)
    }

    /**
     edgesAll: the edges with `v` at either end, in insertion order, each
     once, so a self-loop on `v` is reported once.
     */
    function EdgesAll(v: Vertex<V>): (r: seq<Edge<V, E>>)
      reads this, edges
      ensures forall e :: e in r ==> e in edges && e != null && (e.start == v || e.end == v)
      ensures forall e :: e in edges && e != null && (e.start == v || e.end == v) ==> e in r
      ensures IsSubsequence(r, edges)
      ensures Valid() ==> NoDuplicates(r)
      ensures |r| <= |EdgesIn(v)| + |EdgesOut(v)|
    {
      AdjacentOrdered(edges, v, Both);
      AdjacentDistinct(edges, v, Both);
      EdgesAllBounds(edges, v);
      Adjacent(edges, v, Both)
    }
  }
}
