/**
 * The ordering that `String.compareTo` imposes on names, and the sorted key
 * sequence an ordered symbol table (`RedBlackBST`) keeps.
 */
module StringOrder {

  /** `a` sorts strictly before `b`: the first differing character decides,
      and a proper prefix sorts first. */
  predicate Less(a: string, b: string)
    decreases |a|
  {
    if |a| == 0 then |b| > 0
    else if |b| == 0 then false
    else if a[0] != b[0] then a[0] < b[0]
    else Less(a[1..], b[1..])
  }

  lemma {:induction false} LessIrreflexive(a: string)
    ensures !Less(a, a)
    decreases |a|
  {
    if |a| > 0 {
      LessIrreflexive(a[1..]);
    }
  }

  lemma {:induction false} LessTransitive(a: string, b: string, c: string)
    requires Less(a, b) && Less(b, c)
    ensures Less(a, c)
    decreases |a|
  {
    if |a| > 0 && |b| > 0 && |c| > 0 && a[0] == b[0] && b[0] == c[0] {
      LessTransitive(a[1..], b[1..], c[1..]);
    }
  }

  lemma {:induction false} LessTotal(a: string, b: string)
    requires a != b
    ensures Less(a, b) || Less(b, a)
    decreases |a|
  {
    if |a| > 0 && |b| > 0 && a[0] == b[0] {
      assert a == [a[0]] + a[1..] && b == [b[0]] + b[1..];
      LessTotal(a[1..], b[1..]);
    }
  }

  /** Strictly increasing, hence also free of duplicates. */
  predicate Sorted(s: seq<string>)
  {
    forall i, j :: 0 <= i < j < |s| ==> Less(s[i], s[j])
  }

  lemma SortedDistinct(s: seq<string>, i: int, j: int)
    requires Sorted(s)
    requires 0 <= i < |s| && 0 <= j < |s| && i != j
    ensures s[i] != s[j]
  {
    if i < j {
      LessIrreflexive(s[i]);
    } else {
      LessIrreflexive(s[j]);
    }
  }

  /** The key sequence after `put(k, v)` on an ordered symbol table holding
      `keys`: a present key leaves the keys alone, a new one is inserted in order. */
  function Put(keys: seq<string>, k: string): (r: seq<string>)
    requires Sorted(keys)
    ensures Sorted(r)
    ensures forall x :: x in r <==> x in keys || x == k
  {
    if |keys| == 0 then [k]
    else if k == keys[0] then keys
    else if Less(k, keys[0]) then
      forall j | 0 < j < |keys| ensures Less(k, keys[j]) {
        LessTransitive(k, keys[0], keys[j]);
      }
      [k] + keys
    else
      LessTotal(k, keys[0]);
      var rest := Put(keys[1..], k);
      assert forall x :: x in rest ==> Less(keys[0], x);
      [keys[0]] + rest
  }
}
