# Hollywood graph queries: a verified model

This project models the query layer of `HollywoodGraph`, a "degrees of
separation" tool. The tool works over a bipartite graph of movies and the
actors credited in them. Actors and movies share one vertex numbering. The
graph library underneath supplies four results: the symbol table
(`SymbolGraph`), the connected-component labelling (`CC`), a breadth-first
shortest-path tree per query (`BreadthFirstPaths`) and an ordered symbol table
(`RedBlackBST`). Their algorithms are not modelled. Their results are inputs
(module `Library`), and predicates state what the query layer assumes of them:

- `Labels`: the names are distinct, and every vertex has a component label below `CC.count()`.
- `ShortestPathTree`: the source is at distance 0, and exactly the vertices of its component are reached. A path to a reached vertex starts at the source, ends at that vertex and has one more vertex than its distance.
- `Credits`: every actor credited in a line of the movie file is a vertex of the symbol graph. This holds because the symbol graph is built from the same lines, and the representative loop relies on it when it looks each actor up with `SG.index`.

What is modelled on top of those results:

- **Representative set** (module `RepresentativeSet`). The first field of every line is the movie and the remaining fields are actors. The actor names go into the ordered table, whose key sequence is modelled as sorted insertion under `String.compareTo` order. The sorted actors are then walked, and an actor is pushed when its component is not yet marked. Proved:
  - each component that holds an actor gets exactly one representative;
  - that representative is the first actor of its component in sorted order;
  - there are at most `CC.count()` representatives.
- **Actor view** (module `Actor`). The queue lists the vertices of the actor's component in ascending order. `calcDist` halves every raw distance. It averages them over the queue and keeps the first strictly larger maximum, together with its vertex. Proved:
  - the average is the sum of the raw distances divided by twice the component size;
  - 0 ≤ average ≤ maximum;
  - the maximum is the largest halved distance in the component;
  - `actorMaximum()` names the lowest-numbered vertex that reaches the maximum, or vertex 0 when the maximum is 0.
- **Paths** (module `Paths`). `actorPath` keeps positions 0, 2, 4, … of the tree's path. `moviePath` returns the whole path. `actorPathLength` is half the raw distance, or infinity. Proved: the three queries agree with each other, and they agree with component membership.
- **Aggregate queries** (module `Queries`). `connectedActorsCount` is `CC.size / 2 + 1`, and `hollywoodNumber` is the view's average. Both reject a null name before the graph is consulted.

Java's `null` is `None` of `Option`. An exception is `Err` of `Result`, with
`NullName` for the file's own null checks. `UnknownName` stands for a name the
symbol table does not hold. Doubles are `real`.

Three behaviours worth knowing:

- `moviePath` returns every name on the path, actors included, whatever its name suggests.
- Only a null name is rejected; an empty name is not.
- The stored maximum vertex starts at 0 and changes only on a strictly larger distance. In a one-vertex component, `actorMaximum()` therefore names vertex 0, which may be a movie of another component (`Actor.SingletonComponent`).

## Model

| member | source | states |
|---|---|---|
| `StringOrder.Put` | src/HollywoodGraph.java:30 | putting a key into the ordered table keeps its keys strictly sorted, and the keys afterwards are the old keys plus the new one |
| `RepresentativeSet.PutLine` | src/HollywoodGraph.java:24-32 | the first field of a line becomes the movie and every later field is put as a key; the table stays sorted |
| `RepresentativeSet.PutLines` | src/HollywoodGraph.java:23-33 | after all lines, the keys are the old keys plus exactly the names credited as actors in some line, sorted |
| `RepresentativeSet.ActorNames` | src/HollywoodGraph.java:20-35 | `RBT.keys()` lists every actor name of the lines once, in sorted order, and nothing else |
| `RepresentativeSet.PickFirsts` | src/HollywoodGraph.java:35-40 | the marking loop over the actors' component labels picks a position exactly when no earlier position has its label; every label gets a pick, no label two, and there are at most `CC.count()` picks |
| `RepresentativeSet.Representatives` | src/HollywoodGraph.java:35-40 | an actor is pushed iff no actor before it in sorted order shares its component; every actor's component has a pushed actor, no two pushed actors share one, push order is sorted, and there are at most `CC.count()` of them |
| `RepresentativeSet.Build` | src/HollywoodGraph.java:17-40 | the representatives are credited actors; every credited actor's component has exactly one; the push order is sorted; no credited actor that sorts before a representative shares its component; at most `CC.count()` |
| `Library.IndexOfName` | src/HollywoodGraph.java:69-74 | looking up the name of vertex `v` gives `v` back, so the recorded maximum vertex is the vertex read from the queue |
| `Library.Members` | src/HollywoodGraph.java:54-58 | the queue holds exactly the vertices connected to the source, each once, in ascending order |
| `Library.MembersCount` | src/HollywoodGraph.java:54-58 | the queue has as many vertices as `CC.size` reports for the component |
| `Actor.QueueReached` | src/HollywoodGraph.java:54-58 | the source is in its own queue, so the queue is never empty, and every queued vertex has a BFS distance |
| `Actor.MaxRaw` | src/HollywoodGraph.java:72-75 | the largest raw distance of the queue bounds every queued distance and is one of them (0 for none) |
| `Actor.CalcDist` | src/HollywoodGraph.java:62-84 | the average is the raw distances' sum over twice the queue length (halving a double is exact); the maximum is half the largest raw distance; the recorded vertex is the first queued one reaching a maximum above 0, else 0 |
| `Actor.AverageAtMostMaximum` | src/HollywoodGraph.java:66-78 | `distanceAverage()` is at least 0 and at most `distanceMaximum()` |
| `Actor.NewActor` | src/HollywoodGraph.java:49-60 | an unknown name fails; otherwise the view keeps the name and the tree, its queue is the actor's component and its statistics are those `calcDist` promises |
| `Actor.MaximumIsLargest` | src/HollywoodGraph.java:102-104 | `distanceMaximum()` is at least every halved distance in the actor's component and equals one of them |
| `Actor.ActorMaximum` | src/HollywoodGraph.java:106-108 | with a maximum above 0, the name is that of the lowest-numbered vertex of the component reaching it; with maximum 0, it is the name of vertex 0 |
| `Actor.SingletonComponent` | src/HollywoodGraph.java:66-75 | alone in its component, an actor has average and maximum 0, and `actorMaximum()` names vertex 0, which is not the actor unless the actor is vertex 0 |
| `Paths.Alternate` | src/HollywoodGraph.java:115-122 | the flag loop keeps positions 0, 2, 4, … (or 1, 3, … when starting unset): `(n+1)/2` elements, the k-th being position `2k` |
| `Paths.ActorPath` | src/HollywoodGraph.java:110-125 | an unknown name fails; absent iff the tree has no path; otherwise `(|path|+1)/2` names, the k-th naming path position `2k` |
| `Paths.MoviePath` | src/HollywoodGraph.java:135-146 | an unknown name fails; absent iff the tree has no path; otherwise every name on the path, same order, same length |
| `Paths.ActorPathLength` | src/HollywoodGraph.java:127-133 | an unknown name fails; infinity iff the tree has no path; otherwise a non-negative value that is exactly half the raw distance |
| `Paths.PathQueriesAgree` | src/HollywoodGraph.java:110-146 | the three path queries fail together and are absent or infinite together, and the actor path is the movie path with every other name dropped |
| `Paths.Unreachable` | src/HollywoodGraph.java:127-133 | a name outside the source's component, and only such a name, gives infinity and absent paths |
| `Paths.ActorToActor` | src/HollywoodGraph.java:110-133 | for an even raw distance d, the length is d/2 and the actor path has d/2 + 1 names, from the source's name to the target's; the movie path has d + 1 |
| `Paths.ThreeMovieChain` | src/HollywoodGraph.java:110-146 | on the chain A-M1-B-M2-C-M3-D from A: length 3, actor path A, B, C, D, and movie path the whole walk |
| `Queries.ConnectedActorsCount` | src/HollywoodGraph.java:161-164 | null fails first and an unknown name fails next; otherwise the result r is at least 1 with 2(r-1) ≤ size < 2r (truncating halving plus one), and a one-vertex component gives 1 |
| `Queries.ConnectedActorsCountOfView` | src/HollywoodGraph.java:161-164 | the count equals half the length of the actor view's queue, plus one |
| `Queries.AverageIsComponentMean` | src/HollywoodGraph.java:62-84 | the average `calcDist` stores equals the mean halved distance over the tree's whole component, and it is not negative |
| `Queries.HollywoodNumber` | src/HollywoodGraph.java:166-169 | null fails first and an unknown name fails next; otherwise the result is the mean halved distance over the component, which is at least 0 |

## Left out

- `main` and `Stopwatch` (src/HollywoodGraph.java:171-214): a demonstration driver and a timing helper with console output.
- Reading `movies.txt` (lines 14 and 22) is I/O. The lines arrive already split into fields, so `String.split` details are not modelled. Those details are trailing empty fields and the regular-expression meaning of the delimiter.
- The algorithms of `SymbolGraph`, `CC`, `BreadthFirstPaths` and `RedBlackBST` are not modelled; only their results are. BFS minimality and path symmetry come from that library and are not claimed here.
- `movies()` (lines 88-96) lists the library's adjacency list of the actor's vertex. The graph's edges are not part of this model.
- `name()`, `distanceAverage()`, `distanceMaximum()`, `connectedComponents()` and `connectedComponentsCount()` read a stored value. Their values are fields of `ActorView`, the result of `Build`, and `Components.count`. `getActorDetails` builds a fresh view, which is `Actor.NewActor`.
- The iteration order of `Stack` and `LinkedQueue` is not modelled: sequences are kept in push order. `connectedComponents()` iterates its stack last-pushed first, and `movies()` does the same.
- Floating point is not modelled. Distances, sums and averages are exact `real`s, so rounding in `accum / actorQueue.size()` and in large sums is left out.
- `StringOrder.Less` compares characters as Unicode scalar values, while Java compares UTF-16 code units. The two orders differ only for characters above U+FFFF.
- Null names are modelled only where the file checks them (lines 162 and 167). Elsewhere a name is a non-null `string`.
- An unknown name is `Err(UnknownName)`. The exception the symbol table raises for it is unseen, and its kind is not modelled.
- `Actor.CalcDist` requires a non-empty queue. On an empty queue Java would produce NaN, but this cannot happen, because the source is always in its own component (`Actor.QueueReached`).
- Distances of unreached vertices (`Integer.MAX_VALUE` in the library) are `None`. The file never reads them, because every read is guarded by component membership or `hasPathTo`.
