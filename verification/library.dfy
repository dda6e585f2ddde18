/**
 * The results of the graph library the query layer is built on: the symbol
 * table of `SymbolGraph`, the labelling of `CC` and the shortest-path tree of
 * `BreadthFirstPaths`. Their algorithms are not modelled; the predicates here
 * state what the query layer assumes of their results.
 */
module Library {
  import opened Wrappers

  /** Why a by-name query fails. */
  datatype Error =
    | NullName     // the name is null (checked by the query itself)
    | UnknownName  // the symbol table has no vertex for the name

  /** The symbol table: vertex `i` is named `keys[i]` (`SG.name(i)`). Actors and
      movies share this one index space. */
  datatype SymbolGraph = SymbolGraph(keys: seq<string>)

  predicate Distinct(keys: seq<string>)
  {
    forall i, j :: 0 <= i < j < |keys| ==> keys[i] != keys[j]
  }

  /** `SG.index(name)`: the vertex named `name`, if there is one. */
  function Index(keys: seq<string>, name: string): (r: Option<nat>)
    ensures r.None? <==> name !in keys
    ensures r.Some? ==> r.value < |keys| && keys[r.value] == name
  {
    if |keys| == 0 then None
    else if keys[0] == name then Some(0)
    else
      match Index(keys[1..], name)
      case None => None
      case Some(i) => Some(i + 1)
  }

  /** `SG.index(SG.name(v))`: looking a vertex's own name up gives the vertex back. */
  function IndexOfName(keys: seq<string>, v: nat): (r: nat)
    requires Distinct(keys)
    requires v < |keys|
    ensures r == v
  {
    Index(keys, keys[v]).value
  }

  /** The connected-component labelling: `id[v]` is `CC.id(v)`, `count` is `CC.count()`. */
  datatype Components = Components(id: seq<nat>, count: nat)

  /** The labelling covers every vertex of the symbol graph with a label below `count`. */
  predicate Labels(sg: SymbolGraph, cc: Components)
  {
    && Distinct(sg.keys)
    && |cc.id| == |sg.keys|
    && forall v :: 0 <= v < |cc.id| ==> cc.id[v] < cc.count
  }

  /** The vertices below `n` labelled `c`, in ascending order. */
  function Members(id: seq<nat>, c: nat, n: nat): (q: seq<nat>)
    requires n <= |id|
    ensures |q| <= n
    ensures forall k :: 0 <= k < |q| ==> q[k] < n && id[q[k]] == c
    ensures forall v :: 0 <= v < n && id[v] == c ==> v in q
    ensures forall i, j :: 0 <= i < j < |q| ==> q[i] < q[j]
  {
    if n == 0 then []
    else Members(id, c, n - 1) + (if id[n - 1] == c then [n - 1] else [])
  }

  /** The component of `v`: every vertex `CC.connected(_, v)` holds for, ascending. */
  function Component(cc: Components, v: nat): seq<nat>
    requires v < |cc.id|
  {
    Members(cc.id, cc.id[v], |cc.id|)
  }

  /** `CC.size(v)`: how many vertices carry the label of `v`. */
  function Size(cc: Components, v: nat): nat
    requires v < |cc.id|
  {
    Count(cc.id, cc.id[v], |cc.id|)
  }

  function Count(id: seq<nat>, c: nat, n: nat): nat
    requires n <= |id|
  {
    if n == 0 then 0 else Count(id, c, n - 1) + (if id[n - 1] == c then 1 else 0)
  }

  /** Enumerating a component lists exactly `CC.size` vertices. */
  lemma {:induction false} MembersCount(id: seq<nat>, c: nat, n: nat)
    requires n <= |id|
    ensures |Members(id, c, n)| == Count(id, c, n)
  {
    if n > 0 {
      MembersCount(id, c, n - 1);
    }
  }

  /** A breadth-first shortest-path tree: `distTo[v]` is `Some(d)` exactly when
      `hasPathTo(v)`, and `pathTo[v]` is the vertex sequence `pathTo(v)` yields. */
  datatype Bfs = Bfs(source: nat, distTo: seq<Option<nat>>, pathTo: seq<seq<nat>>)

  function HasPathTo(bfs: Bfs, v: nat): bool
    requires v < |bfs.distTo|
  {
    bfs.distTo[v].Some?
  }

  /** The tree covers the symbol graph's vertices and its paths stay inside it. */
  predicate PathsIn(sg: SymbolGraph, bfs: Bfs)
  {
    && bfs.source < |sg.keys|
    && |bfs.distTo| == |sg.keys|
    && |bfs.pathTo| == |sg.keys|
    && (forall v, k :: 0 <= v < |bfs.pathTo| && 0 <= k < |bfs.pathTo[v]| ==> bfs.pathTo[v][k] < |sg.keys|)
  }

  /** What the query layer assumes of `new BreadthFirstPaths(G, source)`: the
      source is at distance 0, exactly the vertices of the source's component
      are reached, and a path to a reached vertex runs from the source to it
      with one more vertex than its distance. */
  predicate ShortestPathTree(sg: SymbolGraph, cc: Components, bfs: Bfs)
  {
    && Labels(sg, cc)
    && PathsIn(sg, bfs)
    && bfs.distTo[bfs.source] == Some(0)
    && (forall v :: 0 <= v < |bfs.distTo| ==> (bfs.distTo[v].Some? <==> cc.id[v] == cc.id[bfs.source]))
    && (forall v :: 0 <= v < |bfs.distTo| && bfs.distTo[v].Some? ==>
          && |bfs.pathTo[v]| == bfs.distTo[v].value + 1
          && bfs.pathTo[v][0] == bfs.source
          && bfs.pathTo[v][|bfs.pathTo[v]| - 1] == v)
  }
}
