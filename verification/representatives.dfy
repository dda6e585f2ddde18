/**
 * The representative set computed when the graph is built: every field of a
 * line but the first names an actor; the actors are visited in sorted order
 * and the first one met in each component is pushed.
 */
module RepresentativeSet {
  import opened Wrappers
  import opened StringOrder
  import opened Library

  /** `a` is credited in some line: one of its fields after the first (the movie). */
  predicate IsActor(lines: seq<seq<string>>, a: string)
  {
    exists l, j :: 0 <= l < |lines| && 1 <= j < |lines[l]| && lines[l][j] == a
  }

  /** The fields of a line still to be read that are put as keys: all of them
      once the movie is known, all but the first otherwise. */
  function Credited(parts: seq<string>, movie: Option<string>): seq<string>
  {
    if movie.Some? || |parts| == 0 then parts else parts[1..]
  }

  /** One pass of the line loop in the `HollywoodGraph` constructor: the first
      field becomes the movie, each later one is put as a key. */
  function PutLine(keys: seq<string>, parts: seq<string>, movie: Option<string>): (r: seq<string>)
    requires Sorted(keys)
    ensures Sorted(r)
    ensures forall x :: x in r <==> x in keys || x in Credited(parts, movie)
    decreases |parts|
  {
    if |parts| == 0 then keys
    else if movie.None? then PutLine(keys, parts[1..], Some(parts[0]))
    else
      assert parts == [parts[0]] + parts[1..];
      PutLine(Put(keys, parts[0]), parts[1..], movie)
  }

  /** The sorted keys of the table after every line has been put, in line order. */
  function PutLines(keys: seq<string>, lines: seq<seq<string>>): (r: seq<string>)
    requires Sorted(keys)
    ensures Sorted(r)
    ensures forall x :: x in r <==> x in keys || IsActor(lines, x)
    decreases |lines|
  {
    if |lines| == 0 then keys
    else
      var r := PutLines(PutLine(keys, lines[0], None), lines[1..]);
      forall x | IsActor(lines, x) ensures x in r {
        var l, j :| 0 <= l < |lines| && 1 <= j < |lines[l]| && lines[l][j] == x;
        if l > 0 {
          assert lines[1..][l - 1][j] == x;
        } else {
          assert Credited(lines[0], None)[j - 1] == x;
        }
      }
      forall x | x in r ensures x in keys || IsActor(lines, x) {
        if IsActor(lines[1..], x) {
          var l, j :| 0 <= l < |lines[1..]| && 1 <= j < |lines[1..][l]| && lines[1..][l][j] == x;
          assert lines[l + 1][j] == x;
        } else if x !in keys {
          assert x in Credited(lines[0], None);
          var j :| 0 <= j < |lines[0]| - 1 && lines[0][1..][j] == x;
          assert lines[0][j + 1] == x;
        }
      }
      r
  }

  /** `RBT.keys()` after the constructor has read every line: every actor name once, in sorted order. */
  function ActorNames(lines: seq<seq<string>>): (actors: seq<string>)
    ensures Sorted(actors)
    ensures forall a :: a in actors <==> IsActor(lines, a)
  {
    PutLines([], lines)
  }

  /** The component label of a name that the symbol table knows. */
  function CompOf(sg: SymbolGraph, cc: Components, a: string): nat
    requires Labels(sg, cc)
    requires a in sg.keys
  {
    cc.id[Index(sg.keys, a).value]
  }

  /** Every actor is a vertex of the symbol graph. */
  predicate Known(sg: SymbolGraph, actors: seq<string>)
  {
    forall i :: 0 <= i < |actors| ==> actors[i] in sg.keys
  }

  /** The component label of each actor, position by position. */
  function Labelling(sg: SymbolGraph, cc: Components, actors: seq<string>): (labels: seq<nat>)
    requires Labels(sg, cc) && Known(sg, actors)
    ensures |labels| == |actors|
    ensures forall k :: 0 <= k < |actors| ==> labels[k] == CompOf(sg, cc, actors[k]) < cc.count
  {
    seq(|actors|, k requires 0 <= k < |actors| => CompOf(sg, cc, actors[k]))
  }

  /** No actor before position `k` shares the component of `actors[k]`. */
  predicate FirstOfComponent(sg: SymbolGraph, cc: Components, actors: seq<string>, k: nat)
    requires Labels(sg, cc) && Known(sg, actors)
    requires k < |actors|
  {
    forall j :: 0 <= j < k ==> CompOf(sg, cc, actors[j]) != CompOf(sg, cc, actors[k])
  }

  function CountTrue(s: seq<bool>): (n: nat)
    ensures n <= |s|
  {
    if |s| == 0 then 0 else CountTrue(s[..|s| - 1]) + (if s[|s| - 1] then 1 else 0)
  }

  lemma {:induction false} CountTrueNone(n: nat)
    ensures CountTrue(seq(n, _ => false)) == 0
  {
    if n > 0 {
      assert seq(n, _ => false)[..n - 1] == seq(n - 1, _ => false);
      CountTrueNone(n - 1);
    }
  }

  lemma {:induction false} CountTrueSet(s: seq<bool>, c: nat)
    requires c < |s| && !s[c]
    ensures CountTrue(s[c := true]) == CountTrue(s) + 1
  {
    var t := s[c := true];
    if c < |s| - 1 {
      assert t[..|t| - 1] == s[..|s| - 1][c := true];
      CountTrueSet(s[..|s| - 1], c);
    } else {
      assert t[..|t| - 1] == s[..|s| - 1];
    }
  }

  /** Some name of `reps` lies in component `c`. */
  predicate HasRepresentative(sg: SymbolGraph, cc: Components, reps: seq<string>, c: nat)
    requires Labels(sg, cc) && Known(sg, reps)
  {
    exists m :: 0 <= m < |reps| && CompOf(sg, cc, reps[m]) == c
  }

  /** No position before `k` carries the label of position `k`. */
  predicate FirstLabel(labels: seq<nat>, k: nat)
    requires k < |labels|
  {
    forall j :: 0 <= j < k ==> labels[j] != labels[k]
  }

  /** The constructor's marking loop on the actors' component labels: position
      `i` is picked when `connected[labels[i]]` is still unmarked, then marked. */
  method PickFirsts(labels: seq<nat>, count: nat) returns (pos: seq<nat>, ghost picked: seq<nat>)
    requires forall k :: 0 <= k < |labels| ==> labels[k] < count
    ensures Picks(labels, pos, picked)
    ensures |pos| <= count
  {
    var connected := seq(count, _ => false);
    CountTrueNone(count);
    pos := [];
    picked := seq(count, _ => 0);  // which pick marked each label
    var i := 0;
    while i < |labels|
      invariant 0 <= i <= |labels|
      invariant |connected| == |picked| == count
      invariant |pos| == CountTrue(connected)
      invariant forall m :: 0 <= m < |pos| ==> pos[m] < i
      invariant forall m, n :: 0 <= m < n < |pos| ==> pos[m] < pos[n]
      invariant forall k :: 0 <= k < i ==> (k in pos <==> FirstLabel(labels, k))
      invariant forall k :: 0 <= k < i ==> connected[labels[k]]
      invariant forall c :: 0 <= c < count && connected[c] ==> picked[c] < |pos| && labels[pos[picked[c]]] == c
      invariant forall m, n :: 0 <= m < n < |pos| ==> labels[pos[m]] != labels[pos[n]]
    {
      var c := labels[i];
      if !connected[c] {
        CountTrueSet(connected, c);
        picked := picked[c := |pos|];
        pos := pos + [i];
        connected := connected[c := true];
      }
      i := i + 1;
    }
  }

  /** The names at the picked positions, in pick order. */
  function At(actors: seq<string>, pos: seq<nat>): (reps: seq<string>)
    requires forall m :: 0 <= m < |pos| ==> pos[m] < |actors|
    ensures |reps| == |pos|
    ensures forall m :: 0 <= m < |pos| ==> reps[m] == actors[pos[m]]
  {
    seq(|pos|, m requires 0 <= m < |pos| => actors[pos[m]])
  }

  /** The constructor's representative loop: walk the sorted actors and push each one whose component is
      not yet marked, then mark it. `reps` is in push order. */
  method Representatives(sg: SymbolGraph, cc: Components, actors: seq<string>) returns (reps: seq<string>)
    requires Labels(sg, cc)
    requires Sorted(actors)
    requires Known(sg, actors)
    ensures forall r :: r in reps ==> r in actors
    ensures Known(sg, reps)
    ensures forall k :: 0 <= k < |actors| ==> (actors[k] in reps <==> FirstOfComponent(sg, cc, actors, k))
    ensures forall k :: 0 <= k < |actors| ==> HasRepresentative(sg, cc, reps, CompOf(sg, cc, actors[k]))
    ensures forall i, j :: 0 <= i < j < |reps| ==> CompOf(sg, cc, reps[i]) != CompOf(sg, cc, reps[j])
    ensures Sorted(reps)
    ensures |reps| <= cc.count
  {
    var labels := Labelling(sg, cc, actors);
    var pos, picked := PickFirsts(labels, cc.count);
    reps := At(actors, pos);
    RepsAreFirsts(sg, cc, actors, labels, pos, picked, reps);
    RepsCoverComponents(sg, cc, actors, labels, pos, picked, reps);
    RepsDistinctComponents(sg, cc, actors, labels, pos, picked, reps);
    RepsSorted(actors, pos, reps);
  }

  /** The facts about the picked positions that `PickFirsts` guarantees. */
  predicate Picks(labels: seq<nat>, pos: seq<nat>, picked: seq<nat>)
  {
    && (forall m :: 0 <= m < |pos| ==> pos[m] < |labels|)
    && (forall m, n :: 0 <= m < n < |pos| ==> pos[m] < pos[n])
    && (forall k :: 0 <= k < |labels| ==> (k in pos <==> FirstLabel(labels, k)))
    && (forall k :: 0 <= k < |labels| ==>
          labels[k] < |picked| && picked[labels[k]] < |pos| && labels[pos[picked[labels[k]]]] == labels[k])
    && (forall m, n :: 0 <= m < n < |pos| ==> labels[pos[m]] != labels[pos[n]])
  }

  lemma RepsAreFirsts(sg: SymbolGraph, cc: Components, actors: seq<string>, labels: seq<nat>, pos: seq<nat>, picked: seq<nat>, reps: seq<string>)
    requires Labels(sg, cc) && Sorted(actors) && Known(sg, actors)
    requires labels == Labelling(sg, cc, actors)
    requires Picks(labels, pos, picked)
    requires reps == At(actors, pos)
    ensures forall r :: r in reps ==> r in actors
    ensures forall k :: 0 <= k < |actors| ==> (actors[k] in reps <==> FirstOfComponent(sg, cc, actors, k))
  {
    forall k | 0 <= k < |actors|
      ensures actors[k] in reps <==> FirstOfComponent(sg, cc, actors, k)
    {
      assert FirstOfComponent(sg, cc, actors, k) <==> FirstLabel(labels, k);
      InRepsIffPicked(actors, pos, reps, k);
    }
  }

  lemma RepsCoverComponents(sg: SymbolGraph, cc: Components, actors: seq<string>, labels: seq<nat>, pos: seq<nat>, picked: seq<nat>, reps: seq<string>)
    requires Labels(sg, cc) && Known(sg, actors)
    requires labels == Labelling(sg, cc, actors)
    requires Picks(labels, pos, picked)
    requires reps == At(actors, pos)
    ensures Known(sg, reps)
    ensures forall k :: 0 <= k < |actors| ==> HasRepresentative(sg, cc, reps, CompOf(sg, cc, actors[k]))
  {
    forall k | 0 <= k < |actors|
      ensures HasRepresentative(sg, cc, reps, CompOf(sg, cc, actors[k]))
    {
      var m := picked[labels[k]];
      assert reps[m] == actors[pos[m]];
      assert CompOf(sg, cc, reps[m]) == labels[pos[m]] == labels[k] == CompOf(sg, cc, actors[k]);
    }
  }

  lemma RepsDistinctComponents(sg: SymbolGraph, cc: Components, actors: seq<string>, labels: seq<nat>, pos: seq<nat>, picked: seq<nat>, reps: seq<string>)
    requires Labels(sg, cc) && Known(sg, actors)
    requires labels == Labelling(sg, cc, actors)
    requires Picks(labels, pos, picked)
    requires reps == At(actors, pos)
    ensures Known(sg, reps)
    ensures forall i, j :: 0 <= i < j < |reps| ==> CompOf(sg, cc, reps[i]) != CompOf(sg, cc, reps[j])
  {
    forall i, j | 0 <= i < j < |reps| ensures CompOf(sg, cc, reps[i]) != CompOf(sg, cc, reps[j]) {
      assert CompOf(sg, cc, reps[i]) == labels[pos[i]];
      assert CompOf(sg, cc, reps[j]) == labels[pos[j]];
    }
  }

  lemma RepsSorted(actors: seq<string>, pos: seq<nat>, reps: seq<string>)
    requires Sorted(actors)
    requires forall m :: 0 <= m < |pos| ==> pos[m] < |actors|
    requires forall m, n :: 0 <= m < n < |pos| ==> pos[m] < pos[n]
    requires reps == At(actors, pos)
    ensures Sorted(reps)
  {
    forall i, j | 0 <= i < j < |reps| ensures Less(reps[i], reps[j]) {
      assert reps[i] == actors[pos[i]] && reps[j] == actors[pos[j]];
    }
  }

  lemma InRepsIffPicked(actors: seq<string>, pos: seq<nat>, reps: seq<string>, k: nat)
    requires Sorted(actors)
    requires k < |actors|
    requires |reps| == |pos|
    requires forall m :: 0 <= m < |pos| ==> pos[m] < |actors| && reps[m] == actors[pos[m]]
    ensures actors[k] in reps <==> k in pos
  {
    if actors[k] in reps {
      var m :| 0 <= m < |reps| && reps[m] == actors[k];
      if pos[m] != k {
        SortedDistinct(actors, pos[m], k);
      }
    }
    if k in pos {
      var m :| 0 <= m < |pos| && pos[m] == k;
      assert reps[m] == actors[k];
    }
  }

  /** Every credited actor is a vertex: the symbol graph was built from the same lines. */
  ghost predicate Credits(sg: SymbolGraph, lines: seq<seq<string>>)
  {
    forall a :: IsActor(lines, a) ==> a in sg.keys
  }

  /** The `HollywoodGraph` constructor: collect the actor names of every line into the
      ordered table, then pick one representative per component. */
  method Build(lines: seq<seq<string>>, sg: SymbolGraph, cc: Components) returns (reps: seq<string>)
    requires Labels(sg, cc)
    requires Credits(sg, lines)
    ensures Known(sg, reps)
    ensures forall r :: r in reps ==> IsActor(lines, r)
    ensures forall a :: IsActor(lines, a) ==> HasRepresentative(sg, cc, reps, CompOf(sg, cc, a))
    ensures forall i, j :: 0 <= i < j < |reps| ==> CompOf(sg, cc, reps[i]) != CompOf(sg, cc, reps[j])
    ensures Sorted(reps)
    ensures forall m, a :: 0 <= m < |reps| && IsActor(lines, a) && Less(a, reps[m]) ==>
      CompOf(sg, cc, a) != CompOf(sg, cc, reps[m])
    ensures |reps| <= cc.count
  {
    var actors := ActorNames(lines);
    reps := Representatives(sg, cc, actors);
    BuildCovers(lines, sg, cc, actors, reps);
    BuildPicksFirst(lines, sg, cc, actors, reps);
  }

  lemma BuildCovers(lines: seq<seq<string>>, sg: SymbolGraph, cc: Components, actors: seq<string>, reps: seq<string>)
    requires Labels(sg, cc) && Credits(sg, lines)
    requires actors == ActorNames(lines)
    requires Known(sg, actors) && Known(sg, reps)
    requires forall k :: 0 <= k < |actors| ==> HasRepresentative(sg, cc, reps, CompOf(sg, cc, actors[k]))
    ensures forall a :: IsActor(lines, a) ==> HasRepresentative(sg, cc, reps, CompOf(sg, cc, a))
  {
    forall a | IsActor(lines, a) ensures HasRepresentative(sg, cc, reps, CompOf(sg, cc, a)) {
      var k :| 0 <= k < |actors| && actors[k] == a;
    }
  }

  lemma BuildPicksFirst(lines: seq<seq<string>>, sg: SymbolGraph, cc: Components, actors: seq<string>, reps: seq<string>)
    requires Labels(sg, cc) && Credits(sg, lines)
    requires actors == ActorNames(lines)
    requires Known(sg, actors) && Known(sg, reps)
    requires forall r :: r in reps ==> r in actors
    requires forall k :: 0 <= k < |actors| ==> (actors[k] in reps <==> FirstOfComponent(sg, cc, actors, k))
    ensures forall m, a :: 0 <= m < |reps| && IsActor(lines, a) && Less(a, reps[m]) ==>
      CompOf(sg, cc, a) != CompOf(sg, cc, reps[m])
  {
    forall m, a | 0 <= m < |reps| && IsActor(lines, a) && Less(a, reps[m])
      ensures CompOf(sg, cc, a) != CompOf(sg, cc, reps[m])
    {
      assert reps[m] in reps;
      var k :| 0 <= k < |actors| && actors[k] == reps[m];
      var j :| 0 <= j < |actors| && actors[j] == a;
      SortedBefore(actors, j, k);
      assert FirstOfComponent(sg, cc, actors, k);
    }
  }

  /** In a sorted sequence, an element that sorts before another comes earlier. */
  lemma SortedBefore(s: seq<string>, j: nat, k: nat)
    requires Sorted(s)
    requires j < |s| && k < |s|
    requires Less(s[j], s[k])
    ensures j < k
  {
    if j == k {
      LessIrreflexive(s[j]);
    } else if k < j {
      LessTransitive(s[j], s[k], s[j]);
      LessIrreflexive(s[j]);
    }
  }
}
