/**
 * The path queries of an actor view. Each looks the other name up, asks the
 * BFS tree whether it is reached, and projects the tree's path to it.
 */
module Paths {
  import opened Wrappers
  import opened Library

  /** The flag loop of `actorPath`: an element is kept while `flag` is set, and
      the flag flips after every element. */
  function Alternate<T>(p: seq<T>, flag: bool): (r: seq<T>)
    ensures |r| == if flag then (|p| + 1) / 2 else |p| / 2
    ensures forall k :: 0 <= k < |r| ==> r[k] == p[2 * k + (if flag then 0 else 1)]
  {
    if |p| == 0 then []
    else (if flag then [p[0]] else []) + Alternate(p[1..], !flag)
  }

  /** `SG.name` of every vertex of `p`, in order. */
  function Names(keys: seq<string>, p: seq<nat>): (r: seq<string>)
    requires forall k :: 0 <= k < |p| ==> p[k] < |keys|
    ensures |r| == |p|
    ensures forall k :: 0 <= k < |p| ==> r[k] == keys[p[k]]
  {
    seq(|p|, k requires 0 <= k < |p| => keys[p[k]])
  }

  /** The path the tree gives to vertex `t`. */
  function PathTo(sg: SymbolGraph, bfs: Bfs, t: nat): (p: seq<nat>)
    requires PathsIn(sg, bfs) && t < |sg.keys|
    ensures forall k :: 0 <= k < |p| ==> p[k] < |sg.keys|
  {
    bfs.pathTo[t]
  }

  /** `HollywoodGraph.actorPath`. Absent when the tree does not reach the
      name; otherwise the names at positions 0, 2, 4, ... of the path, in order. */
  function ActorPath(sg: SymbolGraph, bfs: Bfs, name: string): (r: Result<Option<seq<string>>, Error>)
    requires PathsIn(sg, bfs)
    ensures Index(sg.keys, name).None? ==> r == Err(UnknownName)
    ensures Index(sg.keys, name).Some? ==>
      var t := Index(sg.keys, name).value;
      && r.Ok?
      && (r.value.None? <==> !HasPathTo(bfs, t))
      && (r.value.Some? ==>
            var p, ap := bfs.pathTo[t], r.value.value;
            && |ap| == (|p| + 1) / 2
            && forall k :: 0 <= k < |ap| ==> ap[k] == sg.keys[p[2 * k]])
  {
    match Index(sg.keys, name)
    case None => Err(UnknownName)
    case Some(t) =>
      if HasPathTo(bfs, t) then Ok(Some(Names(sg.keys, Alternate(PathTo(sg, bfs, t), true))))
      else Ok(None)
  }

  /** `HollywoodGraph.moviePath`. Absent when the tree does not reach the
      name; otherwise every name on the path, actors and movies alike, in order. */
  function MoviePath(sg: SymbolGraph, bfs: Bfs, name: string): (r: Result<Option<seq<string>>, Error>)
    requires PathsIn(sg, bfs)
    ensures Index(sg.keys, name).None? ==> r == Err(UnknownName)
    ensures Index(sg.keys, name).Some? ==>
      var t := Index(sg.keys, name).value;
      && r.Ok?
      && (r.value.None? <==> !HasPathTo(bfs, t))
      && (r.value.Some? ==>
            var p, mp := bfs.pathTo[t], r.value.value;
            && |mp| == |p|
            && forall k :: 0 <= k < |mp| ==> mp[k] == sg.keys[p[k]])
  {
    match Index(sg.keys, name)
    case None => Err(UnknownName)
    case Some(t) =>
      if HasPathTo(bfs, t) then Ok(Some(Names(sg.keys, PathTo(sg, bfs, t))))
      else Ok(None)
  }

  /** A path length in actor hops; `Infinity` is `Double.POSITIVE_INFINITY`. */
  datatype Length = Finite(hops: real) | Infinity

  /** `HollywoodGraph.actorPathLength`. Half the raw distance (`dist - dist/2`
      on a double) when the tree reaches the name, infinity otherwise. */
  function ActorPathLength(sg: SymbolGraph, bfs: Bfs, name: string): (r: Result<Length, Error>)
    requires PathsIn(sg, bfs)
    ensures Index(sg.keys, name).None? ==> r == Err(UnknownName)
    ensures Index(sg.keys, name).Some? ==>
      var t := Index(sg.keys, name).value;
      && r.Ok?
      && (r.value.Infinity? <==> !HasPathTo(bfs, t))
      && (r.value.Finite? ==> r.value.hops * 2.0 == bfs.distTo[t].value as real && r.value.hops >= 0.0)
  {
    match Index(sg.keys, name)
    case None => Err(UnknownName)
    case Some(t) =>
      if HasPathTo(bfs, t) then
        var dist := bfs.distTo[t].value as real;
        Ok(Finite(dist - dist / 2.0))
      else Ok(Infinity)
  }

  /** The actor path is the movie path with every other name dropped, the three
      queries fail together, and they report "no path" together. */
  lemma {:induction false} PathQueriesAgree(sg: SymbolGraph, bfs: Bfs, name: string)
    requires PathsIn(sg, bfs)
    ensures ActorPath(sg, bfs, name).Err? <==> MoviePath(sg, bfs, name).Err?
    ensures ActorPath(sg, bfs, name).Err? <==> ActorPathLength(sg, bfs, name).Err?
    ensures ActorPath(sg, bfs, name) == Ok(None) <==> MoviePath(sg, bfs, name) == Ok(None)
    ensures ActorPath(sg, bfs, name) == Ok(None) <==> ActorPathLength(sg, bfs, name) == Ok(Infinity)
    ensures MoviePath(sg, bfs, name).Ok? && MoviePath(sg, bfs, name).value.Some? ==>
      ActorPath(sg, bfs, name) == Ok(Some(Alternate(MoviePath(sg, bfs, name).value.value, true)))
  {
    var ap, mp := ActorPath(sg, bfs, name), MoviePath(sg, bfs, name);
    if mp.Ok? && mp.value.Some? {
      var m := mp.value.value;
      var e := Alternate(m, true);
      assert ap.Ok? && ap.value.Some?;
      var a := ap.value.value;
      assert |a| == |e|;
      forall k | 0 <= k < |a| ensures a[k] == e[k] { }
      assert a == e;
    }
  }

  /** Under the library's tree contract, a name outside the source's component
      has no path: infinite length and absent paths; inside it, all are present. */
  lemma Unreachable(sg: SymbolGraph, cc: Components, bfs: Bfs, name: string)
    requires ShortestPathTree(sg, cc, bfs)
    requires Index(sg.keys, name).Some?
    ensures var t := Index(sg.keys, name).value;
      cc.id[t] != cc.id[bfs.source] <==> ActorPathLength(sg, bfs, name) == Ok(Infinity)
    ensures var t := Index(sg.keys, name).value;
      cc.id[t] != cc.id[bfs.source] <==> ActorPath(sg, bfs, name) == Ok(None)
    ensures var t := Index(sg.keys, name).value;
      cc.id[t] != cc.id[bfs.source] <==> MoviePath(sg, bfs, name) == Ok(None)
  {
  }

  /** Between two actors the raw distance is even (actor, movie, actor, ...):
      the actor path then runs from the source's name to `name` and lists one
      more name than `actorPathLength` counts hops, while the movie path lists
      every vertex of the walk. */
  lemma ActorToActor(sg: SymbolGraph, cc: Components, bfs: Bfs, name: string)
    requires ShortestPathTree(sg, cc, bfs)
    requires Index(sg.keys, name).Some?
    requires HasPathTo(bfs, Index(sg.keys, name).value)
    requires bfs.distTo[Index(sg.keys, name).value].value % 2 == 0
    ensures var d := bfs.distTo[Index(sg.keys, name).value].value;
      && ActorPathLength(sg, bfs, name) == Ok(Finite((d / 2) as real))
      && ActorPath(sg, bfs, name).Ok? && ActorPath(sg, bfs, name).value.Some?
      && |ActorPath(sg, bfs, name).value.value| == d / 2 + 1
      && ActorPath(sg, bfs, name).value.value[0] == sg.keys[bfs.source]
      && ActorPath(sg, bfs, name).value.value[d / 2] == name
      && MoviePath(sg, bfs, name).Ok? && MoviePath(sg, bfs, name).value.Some?
      && |MoviePath(sg, bfs, name).value.value| == d + 1
  {
    var t := Index(sg.keys, name).value;
    var d := bfs.distTo[t].value;
    var p := bfs.pathTo[t];
    assert |p| == d + 1 && p[0] == bfs.source && p[d] == t;
    assert 2 * (d / 2) == d;
    assert (d / 2) as real * 2.0 == d as real;
  }

  /** Three movies chained by shared actors, A-M1-B-M2-C-M3-D; vertices are
      numbered along the chain and the tree is searched from A. */
  const ChainNames: seq<string> := ["A", "M1", "B", "M2", "C", "M3", "D"]

  function ChainTree(): Bfs
  {
    Bfs(0, [Some(0), Some(1), Some(2), Some(3), Some(4), Some(5), Some(6)],
        [[0], [0, 1], [0, 1, 2], [0, 1, 2, 3], [0, 1, 2, 3, 4], [0, 1, 2, 3, 4, 5], [0, 1, 2, 3, 4, 5, 6]])
  }

  lemma ChainPathsIn()
    ensures PathsIn(SymbolGraph(ChainNames), ChainTree())
  {
    var t := ChainTree();
    forall v, k | 0 <= v < |t.pathTo| && 0 <= k < |t.pathTo[v]| ensures t.pathTo[v][k] < 7 {
      assert t.pathTo[v] == seq(v + 1, i => i);
    }
  }

  lemma ChainIndexOfD()
    ensures Index(ChainNames, "D") == Some(6)
  {
    var keys := ChainNames;
    assert keys[6..] == ["D"];
    assert Index(keys[6..], "D") == Some(0);
    assert Index(keys[5..], "D") == Some(1) by { assert keys[5..][1..] == keys[6..]; }
    assert Index(keys[4..], "D") == Some(2) by { assert keys[4..][1..] == keys[5..]; }
    assert Index(keys[3..], "D") == Some(3) by { assert keys[3..][1..] == keys[4..]; }
    assert Index(keys[2..], "D") == Some(4) by { assert keys[2..][1..] == keys[3..]; }
    assert Index(keys[1..], "D") == Some(5) by { assert keys[1..][1..] == keys[2..]; }
  }

  lemma ChainWalkNames()
    ensures Names(ChainNames, ChainTree().pathTo[6]) == ChainNames
    ensures Names(ChainNames, Alternate(ChainTree().pathTo[6], true)) == ["A", "B", "C", "D"]
  {
    var p := ChainTree().pathTo[6];
    assert forall k :: 0 <= k < 7 ==> p[k] == k;
    var mp := Names(ChainNames, p);
    assert forall k :: 0 <= k < 7 ==> mp[k] == ChainNames[k];
    assert mp == ChainNames;
    var ap := Alternate(p, true);
    assert ap == [0, 2, 4, 6];
    var names := Names(ChainNames, ap);
    assert names[0] == "A" && names[1] == "B" && names[2] == "C" && names[3] == "D";
  }

  /** The actor path from A to D is A, B, C, D, and the movie path is the whole walk. */
  lemma ChainPaths()
    requires PathsIn(SymbolGraph(ChainNames), ChainTree())
    requires Index(ChainNames, "D") == Some(6)
    ensures ActorPath(SymbolGraph(ChainNames), ChainTree(), "D") == Ok(Some(["A", "B", "C", "D"]))
    ensures MoviePath(SymbolGraph(ChainNames), ChainTree(), "D") == Ok(Some(ChainNames))
  {
    ChainWalkNames();
  }

  /** D is three actor hops from A and the actor path is A, B, C, D; the movie
      path is the whole walk, actors included. */
  lemma ThreeMovieChain()
    ensures PathsIn(SymbolGraph(ChainNames), ChainTree())
    ensures ActorPathLength(SymbolGraph(ChainNames), ChainTree(), "D") == Ok(Finite(3.0))
    ensures ActorPath(SymbolGraph(ChainNames), ChainTree(), "D") == Ok(Some(["A", "B", "C", "D"]))
    ensures MoviePath(SymbolGraph(ChainNames), ChainTree(), "D") == Ok(Some(ChainNames))
  {
    ChainPathsIn();
    ChainIndexOfD();
    ChainPaths();
  }
}
