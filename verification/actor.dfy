/**
 * The per-actor view: the vertices of the actor's component, and the average
 * and maximum of their halved BFS distances with the vertex that first reaches
 * the maximum.
 */
module Actor {
  import opened Wrappers
  import opened Library

  /** Every vertex of `q` has a distance in the tree. */
  predicate Reached(dist: seq<Option<nat>>, q: seq<nat>)
  {
    forall k :: 0 <= k < |q| ==> q[k] < |dist| && dist[q[k]].Some?
  }

  /** The sum of the raw distances of the vertices of `q`. */
  function SumRaw(dist: seq<Option<nat>>, q: seq<nat>): nat
    requires Reached(dist, q)
  {
    if |q| == 0 then 0 else SumRaw(dist, q[..|q| - 1]) + dist[q[|q| - 1]].value
  }

  /** The largest raw distance of the vertices of `q`, 0 for none. */
  function MaxRaw(dist: seq<Option<nat>>, q: seq<nat>): (m: nat)
    requires Reached(dist, q)
    ensures forall k :: 0 <= k < |q| ==> dist[q[k]].value <= m
    ensures |q| > 0 ==> exists k :: 0 <= k < |q| && dist[q[k]].value == m
    ensures |q| == 0 ==> m == 0
  {
    if |q| == 0 then 0
    else
      var m := MaxRaw(dist, q[..|q| - 1]);
      var d := dist[q[|q| - 1]].value;
      assert forall k :: 0 <= k < |q| - 1 ==> q[..|q| - 1][k] == q[k];
      if d > m then d else m
  }

  /** The sum of `|q|` raw distances, each at most `m`, is at most `|q| * m`. */
  lemma {:induction false} SumBounded(dist: seq<Option<nat>>, q: seq<nat>, m: nat)
    requires Reached(dist, q)
    requires forall k :: 0 <= k < |q| ==> dist[q[k]].value <= m
    ensures SumRaw(dist, q) <= |q| * m
  {
    if |q| > 0 {
      var p := q[..|q| - 1];
      assert forall k :: 0 <= k < |p| ==> p[k] == q[k];
      SumBounded(dist, p, m);
      StepBound(|p|, m, dist[q[|q| - 1]].value, SumRaw(dist, p));
    }
  }

  lemma StepBound(p: nat, m: nat, d: nat, s: nat)
    requires s <= p * m && d <= m
    ensures s + d <= (p + 1) * m
  {
    assert (p + 1) * m == p * m + m;
  }

  lemma HalfThenDivide(sum: real, n: real)
    requires n > 0.0
    ensures (sum / 2.0) / n == sum / (2.0 * n)
  {
  }

  lemma DivideMonotone(a: real, b: real, c: real)
    requires a <= b && c > 0.0
    ensures a / c <= b / c
  {
  }

  lemma MeanAtMostBound(sum: nat, n: nat, m: nat)
    requires n > 0
    requires sum <= n * m
    ensures sum as real / (2.0 * n as real) <= m as real / 2.0
  {
    var N := 2.0 * n as real;
    assert (n * m) as real == n as real * m as real;
    DivideMonotone(sum as real, n as real * m as real, N);
    assert (n as real * m as real) / N == m as real / 2.0;
  }

  /** `distArray` of `calcDist`: the average, the maximum and the vertex where it occurs. */
  datatype Stats = Stats(average: real, maximum: real, maxIndex: nat)

  /** `q` has its first maximal raw distance at vertex `v`: no earlier vertex of
      `q` reaches the maximum. */
  predicate FirstMaximal(dist: seq<Option<nat>>, q: seq<nat>, v: nat)
    requires Reached(dist, q)
  {
    exists k :: 0 <= k < |q| && q[k] == v && dist[v].value == MaxRaw(dist, q) &&
      forall j :: 0 <= j < k ==> dist[q[j]].value < MaxRaw(dist, q)
  }

  /** What `calcDist` computes over the queue `q`: halved distances averaged over
      `|q|`, their maximum, and the first vertex strictly above 0 reaching it
      (vertex 0 when nothing is above 0). */
  predicate Aggregates(dist: seq<Option<nat>>, q: seq<nat>, s: Stats)
    requires Reached(dist, q) && |q| > 0
  {
    && s.average == SumRaw(dist, q) as real / (2.0 * |q| as real)
    && s.maximum == MaxRaw(dist, q) as real / 2.0
    && (s.maximum == 0.0 ==> s.maxIndex == 0)
    && (s.maximum > 0.0 ==> FirstMaximal(dist, q, s.maxIndex))
  }

  /** Extending a prefix of `q` by its next vertex adds that vertex's distance to
      the sum and raises the maximum to it when it is larger. */
  lemma PrefixStep(dist: seq<Option<nat>>, q: seq<nat>, i: nat)
    requires Reached(dist, q) && i < |q|
    ensures Reached(dist, q[..i]) && Reached(dist, q[..i + 1])
    ensures SumRaw(dist, q[..i + 1]) == SumRaw(dist, q[..i]) + dist[q[i]].value
    ensures MaxRaw(dist, q[..i + 1]) ==
      if dist[q[i]].value > MaxRaw(dist, q[..i]) then dist[q[i]].value else MaxRaw(dist, q[..i])
  {
    assert q[..i + 1][..i] == q[..i];
  }

  /** Halving a distance as `calcDist` does is exact, and it keeps the order of
      two distances. */
  lemma Halving(raw: nat, top: nat)
    ensures raw as real - raw as real / 2.0 == raw as real / 2.0
    ensures raw as real / 2.0 > top as real / 2.0 <==> raw > top
  {
  }

  /** Adding a halved distance to a halved sum halves the larger sum. */
  lemma AddHalves(sum: nat, raw: nat)
    ensures sum as real / 2.0 + raw as real / 2.0 == (sum + raw) as real / 2.0
  {
  }

  /** After reading `q[..i]`: `top` is the largest raw distance so far, and when
      it is above 0 it first occurs at position `at`, vertex `v`. */
  predicate Scanned(dist: seq<Option<nat>>, q: seq<nat>, i: nat, top: nat, at: nat, v: nat)
    requires Reached(dist, q) && i <= |q|
  {
    && Reached(dist, q[..i])
    && top == MaxRaw(dist, q[..i])
    && (top == 0 ==> v == 0)
    && (top > 0 ==> at < i && q[at] == v && dist[v].value == top)
    && (top > 0 ==> forall j :: 0 <= j < at ==> dist[q[j]].value < top)
  }

  /** Reading the next vertex: a strictly larger distance moves the maximum there,
      anything else leaves it. */
  lemma ScanStep(dist: seq<Option<nat>>, q: seq<nat>, i: nat, top: nat, at: nat, v: nat)
    requires Reached(dist, q) && i < |q|
    requires Scanned(dist, q, i, top, at, v)
    ensures dist[q[i]].value > top ==> Scanned(dist, q, i + 1, dist[q[i]].value, i, q[i])
    ensures dist[q[i]].value <= top ==> Scanned(dist, q, i + 1, top, at, v)
  {
    PrefixStep(dist, q, i);
  }

  /** At the end of the queue the scan has found the first maximal vertex, and
      the halved sum over the queue length is the average. */
  lemma ScanDone(dist: seq<Option<nat>>, q: seq<nat>, top: nat, at: nat, v: nat,
                 sum: nat, accum: real, max: real)
    requires Reached(dist, q) && |q| > 0
    requires Scanned(dist, q, |q|, top, at, v)
    requires sum == SumRaw(dist, q[..|q|]) && accum == sum as real / 2.0
    requires max == top as real / 2.0
    ensures Aggregates(dist, q, Stats(accum / |q| as real, max, v))
  {
    assert q[..|q|] == q;
    HalfThenDivide(sum as real, |q| as real);
  }

  /** `HollywoodGraph.Actor.calcDist`: one pass over the queue, halving each distance (`dist -= dist/2`
      on a double), keeping the first strictly larger one and summing. The vertex
      is recorded through the name round trip `SG.index(SG.name(i))`. */
  method CalcDist(keys: seq<string>, dist: seq<Option<nat>>, q: seq<nat>) returns (s: Stats)
    requires Distinct(keys)
    requires |q| > 0
    requires Reached(dist, q)
    requires forall k :: 0 <= k < |q| ==> q[k] < |keys|
    ensures Aggregates(dist, q, s)
  {
    var max, accum := 0.0, 0.0;
    var actorMax: nat := 0;
    ghost var at := 0;
    ghost var top := 0;  // the largest raw distance read so far
    ghost var sum := 0;  // the sum of the raw distances read so far
    var i := 0;
    assert q[..0] == [];
    while i < |q|
      invariant 0 <= i <= |q|
      invariant Scanned(dist, q, i, top, at, actorMax)
      invariant Reached(dist, q[..i]) && sum == SumRaw(dist, q[..i])
      invariant accum == sum as real / 2.0
      invariant max == top as real / 2.0
    {
      ScanStep(dist, q, i, top, at, actorMax);
      PrefixStep(dist, q, i);
      var v := q[i];
      var raw := dist[v].value;
      var d := raw as real;
      Halving(raw, top);
      AddHalves(sum, raw);
      d := d - d / 2.0;
      if d > max {
        max := d;
        actorMax := IndexOfName(keys, v);
        at := i;
        top := raw;
      }
      accum := accum + d;
      sum := sum + raw;
      i := i + 1;
    }
    ScanDone(dist, q, top, at, actorMax, sum, accum, max);
    s := Stats(accum / |q| as real, max, actorMax);
  }

  /** Averaging can not exceed the maximum, and neither is negative. */
  lemma AverageAtMostMaximum(dist: seq<Option<nat>>, q: seq<nat>, s: Stats)
    requires Reached(dist, q) && |q| > 0
    requires Aggregates(dist, q, s)
    ensures 0.0 <= s.average <= s.maximum
  {
    SumBounded(dist, q, MaxRaw(dist, q));
    MeanAtMostBound(SumRaw(dist, q), |q|, MaxRaw(dist, q));
  }

  /** An `Actor`: its name, its BFS tree, the queue of its component's vertices
      and the result of `calcDist`. */
  datatype ActorView = ActorView(name: string, bfs: Bfs, queue: seq<nat>, stats: Stats)

  /** The view was built for `a.name` over the library's results: the tree is
      rooted at the actor's vertex and the queue is its component in ascending
      order. */
  predicate Enumerates(sg: SymbolGraph, cc: Components, a: ActorView)
  {
    && ShortestPathTree(sg, cc, a.bfs)
    && Index(sg.keys, a.name) == Some(a.bfs.source)
    && a.queue == Component(cc, a.bfs.source)
  }

  /** ... and its statistics aggregate the queue. */
  predicate Describes(sg: SymbolGraph, cc: Components, a: ActorView)
  {
    && Enumerates(sg, cc, a)
    && |a.queue| > 0
    && Reached(a.bfs.distTo, a.queue)
    && Aggregates(a.bfs.distTo, a.queue, a.stats)
  }

  /** The source vertex is in its own component, so the queue is never empty,
      and every vertex of the queue has a BFS distance. */
  lemma QueueReached(sg: SymbolGraph, cc: Components, bfs: Bfs)
    requires ShortestPathTree(sg, cc, bfs)
    ensures bfs.source in Component(cc, bfs.source)
    ensures Reached(bfs.distTo, Component(cc, bfs.source))
  {
  }

  /** The mean halved distance over the source's component, vertices of both
      kinds and the source itself included. */
  function ComponentMean(sg: SymbolGraph, cc: Components, bfs: Bfs): real
    requires ShortestPathTree(sg, cc, bfs)
  {
    var q := Component(cc, bfs.source);
    QueueReached(sg, cc, bfs);
    SumRaw(bfs.distTo, q) as real / (2.0 * |q| as real)
  }

  /** The `HollywoodGraph.Actor` constructor. Looking up an unknown name fails in
      the symbol table; otherwise the component's vertices are enqueued in
      ascending order and `calcDist` runs over them. */
  method NewActor(sg: SymbolGraph, cc: Components, bfs: Bfs, name: string) returns (r: Result<ActorView, Error>)
    requires Labels(sg, cc)
    requires Index(sg.keys, name).Some? ==>
      ShortestPathTree(sg, cc, bfs) && bfs.source == Index(sg.keys, name).value
    ensures Index(sg.keys, name).None? ==> r == Err(UnknownName)
    ensures Index(sg.keys, name).Some? ==>
      r.Ok? && r.value.name == name && r.value.bfs == bfs && Describes(sg, cc, r.value)
  {
    match Index(sg.keys, name)
    case None =>
      r := Err(UnknownName);
    case Some(src) =>
      var queue := Component(cc, src);
      QueueReached(sg, cc, bfs);
      var stats := CalcDist(sg.keys, bfs.distTo, queue);
      r := Ok(ActorView(name, bfs, queue, stats));
  }

  /** The halved distance of vertex `v` in the view's tree. */
  function Halved(a: ActorView, v: nat): real
    requires v < |a.bfs.distTo| && a.bfs.distTo[v].Some?
  {
    a.bfs.distTo[v].value as real / 2.0
  }

  /** `distanceMaximum()` bounds the halved distance of every vertex of the
      component and is reached by one of them. */
  lemma MaximumIsLargest(sg: SymbolGraph, cc: Components, a: ActorView)
    requires Describes(sg, cc, a)
    ensures forall v :: 0 <= v < |cc.id| && cc.id[v] == cc.id[a.bfs.source] ==> Halved(a, v) <= a.stats.maximum
    ensures exists v :: 0 <= v < |cc.id| && cc.id[v] == cc.id[a.bfs.source] && Halved(a, v) == a.stats.maximum
  {
    var q := a.queue;
    forall v | 0 <= v < |cc.id| && cc.id[v] == cc.id[a.bfs.source] ensures Halved(a, v) <= a.stats.maximum {
      var k :| 0 <= k < |q| && q[k] == v;
      assert a.bfs.distTo[q[k]].value <= MaxRaw(a.bfs.distTo, q);
    }
    var k :| 0 <= k < |q| && a.bfs.distTo[q[k]].value == MaxRaw(a.bfs.distTo, q);
    assert Halved(a, q[k]) == a.stats.maximum;
  }

  /** `HollywoodGraph.Actor.actorMaximum`: names the vertex `calcDist` recorded. When
      the maximum is above 0 that is the lowest-numbered vertex of the component
      reaching it; otherwise the record keeps its initial 0. */
  function ActorMaximum(sg: SymbolGraph, cc: Components, a: ActorView): (r: string)
    requires Describes(sg, cc, a)
    ensures a.stats.maximum > 0.0 ==> exists v ::
      && 0 <= v < |sg.keys| && r == sg.keys[v]
      && cc.id[v] == cc.id[a.bfs.source]
      && Halved(a, v) == a.stats.maximum
      && forall u :: 0 <= u < v && cc.id[u] == cc.id[a.bfs.source] ==> Halved(a, u) < a.stats.maximum
    ensures a.stats.maximum == 0.0 ==> r == sg.keys[0]
  {
    FirstMaximalIsLowest(sg, cc, a);
    sg.keys[a.stats.maxIndex]
  }

  lemma FirstMaximalIsLowest(sg: SymbolGraph, cc: Components, a: ActorView)
    requires Describes(sg, cc, a)
    ensures a.stats.maxIndex < |sg.keys|
    ensures a.stats.maximum > 0.0 ==>
      && cc.id[a.stats.maxIndex] == cc.id[a.bfs.source]
      && Halved(a, a.stats.maxIndex) == a.stats.maximum
      && forall u :: 0 <= u < a.stats.maxIndex && cc.id[u] == cc.id[a.bfs.source] ==> Halved(a, u) < a.stats.maximum
  {
    var q, dist := a.queue, a.bfs.distTo;
    if a.stats.maximum > 0.0 {
      var v := a.stats.maxIndex;
      assert v in q;
      forall u | 0 <= u < v && cc.id[u] == cc.id[a.bfs.source]
        ensures Halved(a, u) < a.stats.maximum
      {
        assert u in q;
        LowerThanFirstMaximal(dist, q, v, u);
      }
    }
  }

  /** In an ascending queue, a vertex below the first maximal one is not maximal. */
  lemma LowerThanFirstMaximal(dist: seq<Option<nat>>, q: seq<nat>, v: nat, u: nat)
    requires Reached(dist, q)
    requires forall i, j :: 0 <= i < j < |q| ==> q[i] < q[j]
    requires FirstMaximal(dist, q, v)
    requires u in q && u < v
    ensures dist[u].value < MaxRaw(dist, q)
  {
    var k :| 0 <= k < |q| && q[k] == v && dist[v].value == MaxRaw(dist, q) &&
      forall j :: 0 <= j < k ==> dist[q[j]].value < MaxRaw(dist, q);
    var j :| 0 <= j < |q| && q[j] == u;
  }

  /** In a one-vertex component every halved distance is 0: the average and the
      maximum are 0 and `actorMaximum()` names vertex 0, which is a different
      vertex (even of another component) whenever the actor is not vertex 0. */
  lemma SingletonComponent(sg: SymbolGraph, cc: Components, a: ActorView)
    requires Describes(sg, cc, a)
    requires forall v :: 0 <= v < |cc.id| && cc.id[v] == cc.id[a.bfs.source] ==> v == a.bfs.source
    ensures a.stats.average == 0.0 && a.stats.maximum == 0.0
    ensures ActorMaximum(sg, cc, a) == sg.keys[0]
    ensures a.bfs.source != 0 ==> ActorMaximum(sg, cc, a) != a.name
  {
    var q, src := a.queue, a.bfs.source;
    assert q == [src] by {
      assert src in q;
      forall k | 0 <= k < |q| ensures q[k] == src { }
    }
    assert q[..0] == [];
    assert SumRaw(a.bfs.distTo, q) == 0 && MaxRaw(a.bfs.distTo, q) == 0;
  }
}
