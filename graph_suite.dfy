/**
 The scenarios of the container's unit tests, replayed against the model.
 Each assertion is a check the tests make, proved here for every run rather
 than observed on one, except the two queries for the null handle in
 ConstructNullptr, which are added to show that the endpoint test is plain
 `==`. The query results on a concrete list of edges are worked out by the
 lemmas at the top, one list entry at a time.
 */
module GraphSuite {
  import opened Sequences
  import opened Graphs

  /** What entry `e` contributes to the query for `v` in direction `d`. */
  function Pick<V, E>(e: Edge<V, E>, v: Vertex<V>, d: Direction): (r: seq<Edge<V, E>>)
    reads e
    ensures r == [] || r == [e]
  {
    if Touches(e, v, d) then [e] else []
  }

  lemma {:induction false} Unroll1<V, E>(a: Edge<V, E>, v: Vertex<V>, d: Direction)
    ensures Adjacent([a], v, d) == Pick(a, v, d)
  {
    assert [a][1..] == [];
  }

  lemma {:induction false} Unroll2<V, E>(a: Edge<V, E>, b: Edge<V, E>, v: Vertex<V>, d: Direction)
    ensures Adjacent([a, b], v, d) == Pick(a, v, d) + Pick(b, v, d)
  {
    assert [a, b][1..] == [b];
    Unroll1(b, v, d);
  }

  lemma {:induction false} Unroll3<V, E>(a: Edge<V, E>, b: Edge<V, E>, c: Edge<V, E>, v: Vertex<V>, d: Direction)
    ensures Adjacent([a, b, c], v, d) == Pick(a, v, d) + (Pick(b, v, d) + Pick(c, v, d))
  {
    assert [a, b, c][1..] == [b, c];
    Unroll2(b, c, v, d);
  }

  lemma {:induction false} Unroll4<V, E>(a: Edge<V, E>, b: Edge<V, E>, c: Edge<V, E>, x: Edge<V, E>, v: Vertex<V>, d: Direction)
    ensures Adjacent([a, b, c, x], v, d) == Pick(a, v, d) + (Pick(b, v, d) + (Pick(c, v, d) + Pick(x, v, d)))
  {
    assert [a, b, c, x][1..] == [b, c, x];
    Unroll3(b, c, x, v, d);
  }

  lemma {:induction false} Unroll5<V, E>(a: Edge<V, E>, b: Edge<V, E>, c: Edge<V, E>, x: Edge<V, E>, y: Edge<V, E>, v: Vertex<V>, d: Direction)
    ensures Adjacent([a, b, c, x, y], v, d) == Pick(a, v, d) + (Pick(b, v, d) + (Pick(c, v, d) + (Pick(x, v, d) + Pick(y, v, d))))
  {
    assert [a, b, c, x, y][1..] == [b, c, x, y];
    Unroll4(b, c, x, y, v, d);
  }

  /** The graph of the construct scenario, with its second edge connected after creation. */
  method BuildConstruct() returns (g: Graph<int, int>, v1: VertexElement<int>, v2: VertexElement<int>, v3: VertexElement<int>,
                                   first: EdgeElement<int, int>, e: EdgeElement<int, int>)
    ensures fresh(g) && g.Valid()
    ensures g.vertices == [v1, v2, v3] && g.edges == [first, e]
    ensures v1 != v2 && v1 != v3 && v2 != v3
    ensures first.start == v1 && first.end == v2 && first.data == 100
    ensures e.start == v2 && e.end == v3 && e.data == 101
    ensures v1.data == 1 && v2.data == 2 && v3.data == 3
  {
    g := new Graph<int, int>();
    v1 := g.AddVertex(7);
    v2 := g.AddVertex(2);
    v3 := g.AddVertex(3);
    first := g.AddEdge(v1, v2, 100);
    e := g.AddUnconnectedEdge(101);
    e.start := v2;
    e.end := v3;
    v1.data := 1;
    assert g.vertices == [v1, v2, v3];
    assert g.edges == [first, e];
  }

  /** The queries the construct scenario checks, on its final graph. */
  lemma ConstructQueries(g: Graph<int, int>, v1: Vertex<int>, v2: Vertex<int>, v3: Vertex<int>, first: Edge<int, int>, e: Edge<int, int>)
    requires v1 != v2 && v1 != v3 && v2 != v3
    requires first != null && first.start == v1 && first.end == v2
    requires e != null && e.start == v2 && e.end == v3
    requires g.edges == [first, e]
    ensures |g.EdgesIn(v1)| == 0 && |g.EdgesIn(v2)| == 1 && |g.EdgesIn(v3)| == 1
    ensures |g.EdgesOut(v1)| == 1 && |g.EdgesOut(v2)| == 1 && |g.EdgesOut(v3)| == 0
  {
    Unroll2(first, e, v1, In);
    Unroll2(first, e, v2, In);
    Unroll2(first, e, v3, In);
    Unroll2(first, e, v1, Out);
    Unroll2(first, e, v2, Out);
    Unroll2(first, e, v3, Out);
  }

  /** Build a graph, connect one edge at creation and one afterwards, update a payload. */
  method Construct() {
    var g, v1, v2, v3, first, e := BuildConstruct();
    ConstructQueries(g, v1, v2, v3, first, e);
    assert |g.vertices| == 3;
    assert |g.edges| == 2;
    assert |g.EdgesIn(v1)| == 0;
    assert |g.EdgesIn(v2)| == 1;
    assert |g.EdgesIn(v3)| == 1;
    assert |g.EdgesOut(v1)| == 1;
    assert |g.EdgesOut(v2)| == 1;
    assert |g.EdgesOut(v3)| == 0;
    assert g.edges[0].data == 100;
    assert g.edges[|g.edges| - 1].data == 101;
    assert v1.data == 1 && v2.data == 2 && v3.data == 3;
  }

  /** The graph of the construct_nullptr scenario: three edges with unset endpoints. */
  method BuildNullptr() returns (g: Graph<int, int>, v1: VertexElement<int>, e1: EdgeElement<int, int>, e2: EdgeElement<int, int>, e3: EdgeElement<int, int>)
    ensures fresh(g) && g.Valid()
    ensures g.vertices == [v1] && g.edges == [e1, e2, e3]
    ensures e1.start == v1 && e1.end == null
    ensures e2.start == null && e2.end == v1
    ensures e3.start == null && e3.end == null
  {
    g := new Graph<int, int>();
    v1 := g.AddVertex(1);
    e1 := g.AddEdge(v1, null, 110);
    e2 := g.AddEdge(null, v1, 101);
    e3 := g.AddEdge(null, null, 100);
    assert g.edges == [e1, e2, e3];
  }

  /** A query for the null handle selects the edges whose endpoint is unset. */
  lemma NullptrQueries(g: Graph<int, int>, v1: Vertex<int>, e1: Edge<int, int>, e2: Edge<int, int>, e3: Edge<int, int>)
    requires v1 != null
    requires e1 != null && e1.start == v1 && e1.end == null
    requires e2 != null && e2.start == null && e2.end == v1
    requires e3 != null && e3.start == null && e3.end == null
    requires g.edges == [e1, e2, e3]
    ensures g.EdgesIn(null) == [e1, e3]
    ensures g.EdgesOut(null) == [e2, e3]
  {
    Unroll3(e1, e2, e3, null, In);
    Unroll3(e1, e2, e3, null, Out);
  }

  /** Edges with unset endpoints are stored, queried and removed like any other. */
  method ConstructNullptr() {
    var g, v1, e1, e2, e3 := BuildNullptr();
    NullptrQueries(g, v1, e1, e2, e3);
    assert |g.vertices| == 1;
    assert |g.edges| == 3;
    // Not checked by the test: the null handle selects the unset endpoints.
    assert g.EdgesIn(null) == [e1, e3];
    assert g.EdgesOut(null) == [e2, e3];

    WithoutSpec(g.edges, e1);
    g.RemoveEdge(e1);
    assert |g.vertices| == 1;
    assert |g.edges| == 2;

    WithoutSpec(g.edges, e2);
    g.RemoveEdge(e2);
    assert |g.vertices| == 1;
    assert |g.edges| == 1;

    g.RemoveEdge(e3);
    assert |g.vertices| == 1;
    assert |g.edges| == 0;
  }

  /** The graph of the edges scenario: a cycle through v1 and v3 and an edge from v2 to v3. */
  method BuildEdges() returns (g: Graph<int, int>, v1: VertexElement<int>, v2: VertexElement<int>, v3: VertexElement<int>,
                               e1: EdgeElement<int, int>, e2: EdgeElement<int, int>, e3: EdgeElement<int, int>, e4: EdgeElement<int, int>)
    ensures fresh(g) && g.Valid()
    ensures g.vertices == [v1, v2, v3] && g.edges == [e1, e2, e3, e4]
    ensures v1 != v2 && v1 != v3 && v2 != v3
    ensures e1.start == v1 && e1.end == v2
    ensures e2.start == v1 && e2.end == v3
    ensures e3.start == v3 && e3.end == v1
    ensures e4.start == v2 && e4.end == v3
  {
    g := new Graph<int, int>();
    v1 := g.AddVertex(1);
    v2 := g.AddVertex(2);
    v3 := g.AddVertex(3);
    e1 := g.AddEdge(v1, v2, 112);
    e2 := g.AddEdge(v1, v3, 113);
    e3 := g.AddEdge(v3, v1, 131);
    e4 := g.AddEdge(v2, v3, 123);
    assert g.vertices == [v1, v2, v3];
    assert g.edges == [e1, e2, e3, e4];
  }

  /** The adjacency counts the edges scenario checks for v1. */
  lemma EdgesQueriesV1(g: Graph<int, int>, v1: Vertex<int>, v2: Vertex<int>, v3: Vertex<int>,
                       e1: Edge<int, int>, e2: Edge<int, int>, e3: Edge<int, int>, e4: Edge<int, int>)
    requires v1 != v2 && v1 != v3 && v2 != v3
    requires e1 != null && e1.start == v1 && e1.end == v2
    requires e2 != null && e2.start == v1 && e2.end == v3
    requires e3 != null && e3.start == v3 && e3.end == v1
    requires e4 != null && e4.start == v2 && e4.end == v3
    requires g.edges == [e1, e2, e3, e4]
    ensures |g.EdgesIn(v1)| == 1 && |g.EdgesOut(v1)| == 2 && |g.EdgesAll(v1)| == 3
  {
    Unroll4(e1, e2, e3, e4, v1, In);
    Unroll4(e1, e2, e3, e4, v1, Out);
    Unroll4(e1, e2, e3, e4, v1, Both);
  }

  /** The adjacency counts the edges scenario checks for v2. */
  lemma EdgesQueriesV2(g: Graph<int, int>, v1: Vertex<int>, v2: Vertex<int>, v3: Vertex<int>,
                       e1: Edge<int, int>, e2: Edge<int, int>, e3: Edge<int, int>, e4: Edge<int, int>)
    requires v1 != v2 && v1 != v3 && v2 != v3
    requires e1 != null && e1.start == v1 && e1.end == v2
    requires e2 != null && e2.start == v1 && e2.end == v3
    requires e3 != null && e3.start == v3 && e3.end == v1
    requires e4 != null && e4.start == v2 && e4.end == v3
    requires g.edges == [e1, e2, e3, e4]
    ensures |g.EdgesIn(v2)| == 1 && |g.EdgesOut(v2)| == 1 && |g.EdgesAll(v2)| == 2
  {
    Unroll4(e1, e2, e3, e4, v2, In);
    Unroll4(e1, e2, e3, e4, v2, Out);
    Unroll4(e1, e2, e3, e4, v2, Both);
  }

  /** The adjacency counts the edges scenario checks for v3. */
  lemma EdgesQueriesV3(g: Graph<int, int>, v1: Vertex<int>, v2: Vertex<int>, v3: Vertex<int>,
                       e1: Edge<int, int>, e2: Edge<int, int>, e3: Edge<int, int>, e4: Edge<int, int>)
    requires v1 != v2 && v1 != v3 && v2 != v3
    requires e1 != null && e1.start == v1 && e1.end == v2
    requires e2 != null && e2.start == v1 && e2.end == v3
    requires e3 != null && e3.start == v3 && e3.end == v1
    requires e4 != null && e4.start == v2 && e4.end == v3
    requires g.edges == [e1, e2, e3, e4]
    ensures |g.EdgesIn(v3)| == 2 && |g.EdgesOut(v3)| == 1 && |g.EdgesAll(v3)| == 3
  {
    Unroll4(e1, e2, e3, e4, v3, In);
    Unroll4(e1, e2, e3, e4, v3, Out);
    Unroll4(e1, e2, e3, e4, v3, Both);
  }

  /** Adjacency counts on a small graph with a cycle through v1 and v3. */
  method Edges() {
    var g, v1, v2, v3, e1, e2, e3, e4 := BuildEdges();
    EdgesQueriesV1(g, v1, v2, v3, e1, e2, e3, e4);
    EdgesQueriesV2(g, v1, v2, v3, e1, e2, e3, e4);
    EdgesQueriesV3(g, v1, v2, v3, e1, e2, e3, e4);
    assert |g.EdgesIn(v1)| == 1;
    assert |g.EdgesOut(v1)| == 2;
    assert |g.EdgesAll(v1)| == 3;
    assert |g.EdgesIn(v2)| == 1;
    assert |g.EdgesOut(v2)| == 1;
    assert |g.EdgesAll(v2)| == 2;
    assert |g.EdgesIn(v3)| == 2;
    assert |g.EdgesOut(v3)| == 1;
    assert |g.EdgesAll(v3)| == 3;
  }

  /** The graph of the remove scenario: the edges graph with a self-loop on v2 added. */
  method BuildRemove() returns (g: Graph<int, int>, v1: VertexElement<int>, v2: VertexElement<int>, v3: VertexElement<int>,
                                e1: EdgeElement<int, int>, e2: EdgeElement<int, int>, e3: EdgeElement<int, int>,
                                e4: EdgeElement<int, int>, e5: EdgeElement<int, int>)
    ensures fresh(g) && g.Valid()
    ensures g.vertices == [v1, v2, v3] && g.edges == [e1, e2, e3, e4, e5]
    ensures v1 != v2 && v1 != v3 && v2 != v3
    ensures e1.start == v1 && e1.end == v2
    ensures e2.start == v1 && e2.end == v3
    ensures e3.start == v3 && e3.end == v1
    ensures e4.start == v2 && e4.end == v3
    ensures e5.start == v2 && e5.end == v2
    ensures e4 != e1 && e4 != e2 && e4 != e3 && e4 != e5
  {
    g := new Graph<int, int>();
    v1 := g.AddVertex(1);
    v2 := g.AddVertex(2);
    v3 := g.AddVertex(3);
    e1 := g.AddEdge(v1, v2, 112);
    e2 := g.AddEdge(v1, v3, 113);
    e3 := g.AddEdge(v3, v1, 131);
    e4 := g.AddEdge(v2, v3, 123);
    e5 := g.AddEdge(v2, v2, 122);
    assert g.vertices == [v1, v2, v3];
    assert g.edges == [e1, e2, e3, e4, e5];
  }

  /** Removing e4, which occurs once, from the scenario's edge list. */
  lemma RemoveE4(e1: Edge<int, int>, e2: Edge<int, int>, e3: Edge<int, int>, e4: Edge<int, int>, e5: Edge<int, int>)
    requires e4 != e1 && e4 != e2 && e4 != e3 && e4 != e5
    ensures Without([e1, e2, e3, e4, e5], e4) == [e1, e2, e3, e5]
  {
    var es := [e1, e2, e3, e4, e5];
    assert es[..3] == [e1, e2, e3] && es[4..] == [e5];
    EraseOnlyIsWithout(es, e4, 3);
  }

  /** The count the remove scenario checks before it removes anything. */
  lemma RemoveQueriesBefore(g: Graph<int, int>, v1: Vertex<int>, v2: Vertex<int>, v3: Vertex<int>,
                            e1: Edge<int, int>, e2: Edge<int, int>, e3: Edge<int, int>, e4: Edge<int, int>, e5: Edge<int, int>)
    requires v1 != v2 && v2 != v3
    requires e1 != null && e1.start == v1
    requires e2 != null && e2.start == v1
    requires e3 != null && e3.start == v3
    requires e4 != null && e4.start == v2
    requires e5 != null && e5.start == v2
    requires g.edges == [e1, e2, e3, e4, e5]
    ensures |g.EdgesOut(v2)| == 2
  {
    Unroll5(e1, e2, e3, e4, e5, v2, Out);
  }

  /**
   The counts the remove scenario checks once e4 is gone: one edge leaves
   v2, and deleting v1 keeps only the self-loop on v2.
   */
  lemma RemoveQueriesAfter(g: Graph<int, int>, v1: Vertex<int>, v2: Vertex<int>, v3: Vertex<int>,
                           e1: Edge<int, int>, e2: Edge<int, int>, e3: Edge<int, int>, e5: Edge<int, int>)
    requires v1 != v2 && v1 != v3 && v2 != v3
    requires e1 != null && e1.start == v1 && e1.end == v2
    requires e2 != null && e2.start == v1 && e2.end == v3
    requires e3 != null && e3.start == v3 && e3.end == v1
    requires e5 != null && e5.start == v2 && e5.end == v2
    requires g.edges == [e1, e2, e3, e5]
    ensures |g.EdgesOut(v2)| == 1
    ensures Detach(g.edges, v1) == [e5]
  {
    Unroll4(e1, e2, e3, e5, v2, Out);
    assert [e1, e2, e3, e5][1..] == [e2, e3, e5];
    assert [e2, e3, e5][1..] == [e3, e5];
    assert [e3, e5][1..] == [e5];
    assert Detach([e5], v1) == [e5] by { assert [e5][1..] == []; }
    assert Detach([e3, e5], v1) == [e5];
    assert Detach([e2, e3, e5], v1) == [e5];
  }

  /**
   The first half of the remove scenario: removing an edge takes it out of
   the edge list and out of the queries, and removing v1 takes with it every
   edge that starts or ends on v1.
   */
  method RemoveCascade() returns (g: Graph<int, int>, v1: VertexElement<int>, e4: EdgeElement<int, int>)
    ensures fresh(g) && g.Valid()
    ensures |g.vertices| == 2 && |g.edges| == 1
    ensures v1 !in g.vertices && e4 !in g.edges
  {
    var v2, v3, e1, e2, e3, e5;
    g, v1, v2, v3, e1, e2, e3, e4, e5 := BuildRemove();
    RemoveQueriesBefore(g, v1, v2, v3, e1, e2, e3, e4, e5);
    assert |g.edges| == 5;
    assert |g.EdgesOut(v2)| == 2;

    RemoveE4(e1, e2, e3, e4, e5);
    g.RemoveEdge(e4);
    RemoveQueriesAfter(g, v1, v2, v3, e1, e2, e3, e5);
    assert |g.edges| == 4;
    assert |g.EdgesOut(v2)| == 1;

    assert |g.vertices| == 3;
    g.RemoveVertex(v1);
    assert |g.vertices| == 2;
    assert g.edges == [e5];
  }

  /** The second half of the remove scenario: removals of what is not there change nothing. */
  method Remove() {
    var g, v1, e4 := RemoveCascade();
    assert |g.edges| == 1;
    g.RemoveEdge(null);
    assert |g.edges| == 1;

    g.RemoveEdge(e4);
    assert |g.edges| == 1;

    assert |g.vertices| == 2;
    g.RemoveVertex(null);
    assert |g.vertices| == 2;

    g.RemoveVertex(v1);
    assert |g.vertices| == 2;
  }
}
