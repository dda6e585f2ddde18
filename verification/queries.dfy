/**
 * The by-name queries of the graph object. Both check for a null name before
 * touching the graph; an unknown name then fails in the symbol table.
 */
module Queries {
  import opened Wrappers
  import opened Library
  import opened Actor

  /** `HollywoodGraph.connectedActorsCount`: `CC.size / 2 + 1` with integer
      division, an estimate of the actors in the name's component. */
  function ConnectedActorsCount(sg: SymbolGraph, cc: Components, name: Option<string>): (r: Result<nat, Error>)
    requires Labels(sg, cc)
    ensures name.None? ==> r == Err(NullName)
    ensures name.Some? && Index(sg.keys, name.value).None? ==> r == Err(UnknownName)
    ensures name.Some? && Index(sg.keys, name.value).Some? ==>
      var size := Size(cc, Index(sg.keys, name.value).value);
      && r.Ok? && r.value >= 1
      && 2 * (r.value - 1) <= size < 2 * r.value
      && (size == 1 ==> r.value == 1)
  {
    match name
    case None => Err(NullName)
    case Some(n) =>
      match Index(sg.keys, n)
      case None => Err(UnknownName)
      case Some(v) => Ok(Size(cc, v) / 2 + 1)
  }

  /** The estimate halves the length of the queue an actor view enumerates. */
  lemma ConnectedActorsCountOfView(sg: SymbolGraph, cc: Components, a: ActorView)
    requires Enumerates(sg, cc, a)
    ensures ConnectedActorsCount(sg, cc, Some(a.name)) == Ok(|a.queue| / 2 + 1)
  {
    var src := a.bfs.source;
    assert Index(sg.keys, a.name) == Some(src) && a.queue == Component(cc, src);
    MembersCount(cc.id, cc.id[src], |cc.id|);
    assert |a.queue| == Size(cc, src);
  }

  /** The average of a view is the mean halved distance over its tree's component. */
  lemma AverageIsComponentMean(sg: SymbolGraph, cc: Components, a: ActorView)
    requires Describes(sg, cc, a)
    ensures a.stats.average == ComponentMean(sg, cc, a.bfs) && a.stats.average >= 0.0
  {
    AverageAtMostMaximum(a.bfs.distTo, a.queue, a.stats);
  }

  /** `HollywoodGraph.hollywoodNumber`: the `distanceAverage()` of a fresh
      view of the name: the raw distances of the component summed and divided by
      twice its size. */
  method HollywoodNumber(sg: SymbolGraph, cc: Components, bfs: Bfs, name: Option<string>) returns (r: Result<real, Error>)
    requires Labels(sg, cc)
    requires name.Some? && Index(sg.keys, name.value).Some? ==>
      ShortestPathTree(sg, cc, bfs) && bfs.source == Index(sg.keys, name.value).value
    ensures name.None? ==> r == Err(NullName)
    ensures name.Some? && Index(sg.keys, name.value).None? ==> r == Err(UnknownName)
    ensures name.Some? && Index(sg.keys, name.value).Some? ==>
      r.Ok? && r.value == ComponentMean(sg, cc, bfs) && r.value >= 0.0
  {
    if name.None? {
      return Err(NullName);
    }
    var view := NewActor(sg, cc, bfs, name.value);
    match view
    case Err(e) =>
      r := Err(e);
    case Ok(a) =>
      AverageIsComponentMean(sg, cc, a);
      r := Ok(a.stats.average);
  }
}
