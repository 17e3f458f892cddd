# Graph<V, E> — a verified model of a mutable directed multigraph container

The container holds two insertion-ordered lists: the vertices and the edges.
A vertex cell carries a payload of type `V`. An edge cell carries a payload
of type `E` and two endpoint handles, `start` and `end`. Either handle may be
unset (null). Handles are shared references: two handles are equal exactly
when they name the same cell.

The container's operations are:

- `addVertex` appends a fresh vertex.
- `addEdge(data)` appends a fresh edge with no endpoints.
- `addEdge(start, end, data)` appends a fresh edge with the given endpoints.
  It does not check that they belong to the graph.
- `removeEdge` drops every occurrence of one edge handle.
- `removeVertex` looks the vertex up with `std::find`. If it is absent (null
  included), nothing happens. Otherwise it deletes every edge with the
  vertex at either end, then erases the vertex.
- `edgesIn`, `edgesOut` and `edgesAll` copy the edges whose `end`, `start`
  or either endpoint equals the vertex, in list order.
- `empty` says whether both lists are empty.

The model has three modules.

- `Sequences` (`sequences.dfy`): list operations over `seq`.
  - `IndexOf` is the search `std::find` does.
  - `Without` is `remove_if` with an equality test.
  - `IsSubsequence` means "obtained by deleting entries, keeping the order".
  - `NoDuplicates` means "no entry twice".
  - The lemmas relate these: in a list without duplicates, erasing the
    position `std::find` reports is the same as filtering the element out.
- `Graphs` (`graph.dfy`):
  - `VertexElement` and `EdgeElement` are classes whose fields callers may
    reassign, as in the source. `Vertex`/`Edge` are their nullable
    reference types.
  - `Adjacent(es, v, d)` is the single `copy_if` filter behind the three
    queries. `Direction` selects `end` (In), `start` (Out) or either (Both).
  - `Detach(es, v)` is the `remove_if` filter of `removeVertex`.
  - `Graph` is a class with the two lists as `seq` fields. Its mutators are
    methods that reassign those fields. Its queries are functions that read
    them.
  - `Valid()` is the invariant every operation keeps: neither list holds a
    null handle or the same cell twice.
- `GraphSuite` (`graph_suite.dfy`): the four scenarios of the container's
  unit tests (`construct`, `construct_nullptr`, `edges`, `remove`), replayed
  as methods. Each checked count or value is an assertion proved from the
  operations' contracts.
  - Each scenario's graph is built by a `Build…` method.
  - Query results on the concrete edge list come from `…Queries` lemmas.
    They unfold the filter one entry at a time.

A query compares handles with `==` and excludes only null edges. A query
for the null handle therefore returns the edges with that endpoint unset.
`Graphs.Touches` states the selection test, and `GraphSuite.NullptrQueries`
shows the consequence: `edgesIn(null)` returns the two edges whose `end` is
unset.

## Model

| member | source | states |
|---|---|---|
| Sequences.IndexOf | src/Graph.h:109-110 | the result is -1 exactly when the element is absent; otherwise it is the position of its first occurrence |
| Sequences.Without | src/Graph.h:135 | the removed handle no longer occurs in the result |
| Sequences.WithoutSpec | src/Graph.h:133-136 | `remove_if(e == x)` keeps exactly the entries other than x, in their order; it shortens the list by the number of copies of x; it leaves a list without x unchanged |
| Sequences.WithoutIdempotent | src/Graph.h:133-136 | removing the same handle a second time changes nothing |
| Sequences.EraseOnlyIsWithout | src/Graph.h:113 | erasing the only occurrence of x at its position is the same as filtering x out |
| Sequences.EraseFirstIsWithout | src/Graph.h:109-113 | in a list without duplicates, erasing the position `std::find` reports removes the element entirely, the same as filtering it out |
| Graphs.VertexElement.constructor | src/Graph.h:71 | a new vertex cell holds the given payload |
| Graphs.EdgeElement.constructor | src/Graph.h:58 | a new edge cell holds the given endpoints and payload |
| Graphs.Touches | src/Graph.h:143-163 | the selection test of the three copy_if lambdas (lines 143, 153, 163): a query never selects a null entry, and it selects a self-loop on the queried handle in every direction; the test is plain `==`, so a null handle selects edges whose endpoint is unset |
| Graphs.Adjacent | src/Graph.h:138-166 | a query returns exactly the list entries it selects: non-null edges whose end, start or either endpoint equals the vertex |
| Graphs.AdjacentOrdered | src/Graph.h:142-144 | the query result keeps the selected entries in list order |
| Graphs.AdjacentAppend | src/Graph.h:142-144 | the filter distributes over concatenation of edge lists |
| Graphs.AdjacentSnoc | src/Graph.h:124-130 | appending an edge extends each query result by that edge exactly when the query selects it, and changes nothing else |
| Graphs.AdjacentWithout | src/Graph.h:132-136 | after removing an edge, each query returns its old result minus that edge |
| Graphs.AdjacentDistinct | src/Graph.h:138-166 | over a list without duplicates, each query reports every edge at most once |
| Graphs.EdgesAllBounds | src/Graph.h:158-166 | edgesAll returns at most edgesIn plus edgesOut entries, and at least as many as either |
| Graphs.SelfLoopCountedOnce | src/Graph.h:162-164 | a self-loop on v occurs exactly once in each of the three queries for v |
| Graphs.NoneSelected | src/Graph.h:138-166 | a query that selects no entry returns the empty sequence |
| Graphs.Detach | src/Graph.h:112 | the edges removeVertex keeps contain no null handle |
| Graphs.DetachSpec | src/Graph.h:112 | cascading deletion keeps exactly the edges naming v at neither end, in list order |
| Graphs.DetachPartition | src/Graph.h:112 | the kept edges and edgesAll(v) together make up the old edge list: as multisets and by count |
| Graphs.DetachIdempotent | src/Graph.h:106-114 | a second cascading deletion of the same vertex removes no further edge |
| Graphs.DetachedHasNoAdjacent | src/Graph.h:106-114 | after removeVertex(v), edgesIn(v), edgesOut(v) and edgesAll(v) are all empty |
| Graphs.CascadeKeepsInvariants | src/Graph.h:106-114 | cascading deletion leaves both lists without null handles and without duplicates |
| Graphs.CascadeKeepsEndpoints | src/Graph.h:106-114 | if every set endpoint was a listed vertex, that still holds after removeVertex |
| Graphs.AppendEdgeKeepsEndpoints | src/Graph.h:124-130 | adding an edge whose set endpoints are listed vertices keeps every endpoint listed |
| Graphs.AppendVertexKeepsEndpoints | src/Graph.h:98-104 | adding a vertex keeps every endpoint listed |
| Graphs.RemoveEdgeKeepsEndpoints | src/Graph.h:132-136 | removing an edge keeps every remaining endpoint listed |
| Graphs.Graph.constructor | src/Graph.h:79-80 | a new graph satisfies the invariant and is empty |
| Graphs.Graph.Empty | src/Graph.h:168-172 | true exactly when the graph has no vertex and no edge |
| Graphs.Graph.AddVertex | src/Graph.h:98-104 | appends one fresh vertex holding the payload; the edges are unchanged; the invariant holds; the graph is not empty; no query for the new vertex selects anything |
| Graphs.Graph.RemoveVertex | src/Graph.h:106-114 | if v is absent (null included), nothing changes; otherwise the vertex list loses exactly v, in order, and the edge list becomes the cascading-deletion filter; the invariant holds; v is no longer listed |
| Graphs.Graph.AddUnconnectedEdge | src/Graph.h:116-122 | appends one fresh edge with both endpoints unset and the payload; the vertices are unchanged; the invariant holds |
| Graphs.Graph.AddEdge | src/Graph.h:124-130 | appends one fresh edge with exactly the given endpoints (unchecked) and payload; the vertices are unchanged; the invariant holds |
| Graphs.Graph.RemoveEdge | src/Graph.h:132-136 | the edge list becomes the old one with e filtered out; if e was present it shrinks by one, otherwise nothing changes; the vertices are unchanged; the invariant holds |
| Graphs.Graph.EdgesIn | src/Graph.h:138-146 | returns exactly the non-null edges ending at v, in list order, each once when the invariant holds |
| Graphs.Graph.EdgesOut | src/Graph.h:148-156 | returns exactly the non-null edges starting at v, in list order, each once when the invariant holds |
| Graphs.Graph.EdgesAll | src/Graph.h:158-166 | returns exactly the non-null edges with v at either end, in list order, each once when the invariant holds; its size is at most the sum of edgesIn and edgesOut |
| GraphSuite.BuildConstruct | src/suite_Graph.cpp:20-28 | building the construct scenario gives three distinct vertices and two edges in creation order; the later edge is connected afterwards; the first vertex's payload is updated |
| GraphSuite.ConstructQueries | src/suite_Graph.cpp:34-39 | in that graph the in- and out-counts of v1, v2 and v3 are 0/1, 1/1 and 1/0 |
| GraphSuite.BuildNullptr | src/suite_Graph.cpp:49-53 | edges with one or both endpoints unset are stored in creation order |
| GraphSuite.NullptrQueries | src/suite_Graph.cpp:49-53 | on the graph these lines build, the `==` test of src/Graph.h lines 143 and 153 makes a query for the null handle select the edges whose corresponding endpoint is unset |
| GraphSuite.BuildEdges | src/suite_Graph.cpp:75-82 | the edges scenario's graph has four edges in creation order |
| GraphSuite.EdgesQueriesV1 | src/suite_Graph.cpp:83-85 | v1 has 1 incoming, 2 outgoing and 3 incident edges |
| GraphSuite.EdgesQueriesV2 | src/suite_Graph.cpp:86-88 | v2 has 1 incoming, 1 outgoing and 2 incident edges |
| GraphSuite.EdgesQueriesV3 | src/suite_Graph.cpp:89-91 | v3 has 2 incoming, 1 outgoing and 3 incident edges |
| GraphSuite.BuildRemove | src/suite_Graph.cpp:96-104 | the remove scenario's graph has five edges in creation order, including a self-loop on v2 |
| GraphSuite.RemoveQueriesBefore | src/suite_Graph.cpp:109-110 | before any removal, two edges leave v2, the self-loop included |
| GraphSuite.RemoveE4 | src/suite_Graph.cpp:111 | removing e4 leaves the other four edges in their order |
| GraphSuite.RemoveQueriesAfter | src/suite_Graph.cpp:112-120 | after e4 is gone, one edge leaves v2, and deleting v1 keeps only the self-loop on v2 |
| GraphSuite.RemoveCascade | src/suite_Graph.cpp:94-120 | after removing e4 and then v1, two vertices and one edge remain, and neither removed handle is listed |

`GraphSuite.Construct`, `GraphSuite.ConstructNullptr`, `GraphSuite.Edges` and
`GraphSuite.Remove` are the scenarios themselves. They carry no contract:
each check of the unit tests is an `assert` in their bodies.

## Left out

- `main.cpp`: a demonstration program, not part of the container.
- `string()` on the graph and on both element kinds (src/Graph.h:63, 76,
  174-178): they return empty strings. They are not modelled.
- `operator*` on the element kinds (src/Graph.h:60-61, 73-74): these only
  expose `data`. The model accesses the `data` field directly.
- `shared_ptr` ownership and reference counting: handles are Dafny object
  references, and cell lifetime is not modelled. A removed cell stays
  reachable through the handles callers still hold, as it does in the
  source.
- Performance of `std::list` and `std::vector`: the lists are `seq` values,
  and a query result is a `seq` rather than a new `std::vector`.
- Direct mutation of the public `vertices` and `edges` lists by callers is
  not modelled. Every mutator requires `Valid()`, which holds because only
  the member functions change the lists. As a result, `removeVertex`'s
  filter never meets a null edge, although it dereferences edges without a
  null check. `Detach` requires `null !in es` for this reason.
- Stale or foreign endpoint handles: `addEdge` does not check its endpoints,
  and neither does the model. The property "every set endpoint is a listed
  vertex" is not part of the invariant. The `…KeepsEndpoints` lemmas state
  when each operation keeps it.
- Graphs.Graph.RemoveVertex: its contract does not mention the queries. The
  emptiness of the queries for the removed vertex is stated separately, by
  `Graphs.DetachedHasNoAdjacent` on the new edge list.
- Graphs.Graph.RemoveVertex: the new edge list is stated as the filter
  evaluated in the state before the call. The method changes no edge cell,
  so this is the same list the source computes.
- Concurrency: the container is not thread-safe, and nothing here models
  concurrent use.
- The unit-test harness itself, and the commented-out printing in the tests,
  are not modelled. Only the checked scenarios are replayed.
