/** Sequences and sets: the few general facts that several models of this project use. */
module Collections {

  predicate Distinct<T(==)>(s: seq<T>) {
    forall i, j | 0 <= i < j < |s| :: s[i] != s[j]
  }

  function Elements<T>(s: seq<T>): set<T> {
    set x | x in s
  }

  function Take<T>(s: seq<T>, n: nat): (r: seq<T>)
    ensures r <= s && |r| == (if n <= |s| then n else |s|)
  {
    if n <= |s| then s[..n] else s
  }

  lemma {:induction false} DistinctHasSize<T>(s: seq<T>)
    requires Distinct(s)
    ensures |Elements(s)| == |s|
  {
    if s != [] {
      DistinctHasSize(s[1..]);
      assert s == [s[0]] + s[1..];
      assert Elements(s) == Elements(s[1..]) + {s[0]};
      assert s[0] !in s[1..];
    }
  }

  lemma ElementsAppend<T>(a: seq<T>, b: seq<T>)
    ensures Elements(a + b) == Elements(a) + Elements(b)
  {
  }

  lemma DistinctAppend<T>(a: seq<T>, b: seq<T>)
    requires Distinct(a) && Distinct(b) && Elements(a) !! Elements(b)
    ensures Distinct(a + b)
  {
    forall i, j | 0 <= i < |a| && 0 <= j < |b| ensures a[i] != b[j] {
      assert a[i] in Elements(a) && b[j] in Elements(b);
    }
  }

  lemma ProperSubsetSize<T>(a: set<T>, b: set<T>)
    requires a < b
    ensures |a| < |b|
  {
    assert b == a + (b - a);
    assert b - a != {};
  }

  lemma SubsetSize<T>(a: set<T>, b: set<T>)
    requires a <= b
    ensures |a| <= |b|
  {
    assert b == a + (b - a);
  }

  /** The elements of a set, in any order. */
  method Listing<T(==)>(elements: set<T>) returns (list: seq<T>)
    ensures Distinct(list) && Elements(list) == elements
  {
    list := [];
    var rest := elements;
    while rest != {}
      invariant Distinct(list) && Elements(list) !! rest && Elements(list) + rest == elements
      decreases |rest|
    {
      var x :| x in rest;
      list, rest := list + [x], rest - {x};
    }
  }
}
