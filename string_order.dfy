/**
  Collections.sort on the token list (MainRunner.java line 289): the natural
  order of String, that is String.compareTo read as "at most".
 */
module StringOrder {

  /** a.compareTo(b) <= 0: the first differing character decides, and a proper prefix comes first. */
  predicate StrLe(a: string, b: string)
  {
    a == [] || (b != [] && (a[0] < b[0] || (a[0] == b[0] && StrLe(a[1..], b[1..]))))
  }

  lemma {:induction false} StrLeReflexive(a: string)
    ensures StrLe(a, a)
  {
    if a != [] {
      StrLeReflexive(a[1..]);
    }
  }

  lemma {:induction false} StrLeTotal(a: string, b: string)
    ensures StrLe(a, b) || StrLe(b, a)
  {
    if a != [] && b != [] && a[0] == b[0] {
      StrLeTotal(a[1..], b[1..]);
    }
  }

  lemma {:induction false} StrLeTransitive(a: string, b: string, c: string)
    requires StrLe(a, b) && StrLe(b, c)
    ensures StrLe(a, c)
  {
    if a != [] && a[0] == b[0] && b[0] == c[0] {
      StrLeTransitive(a[1..], b[1..], c[1..]);
    }
  }

  lemma {:induction false} StrLeAntisymmetric(a: string, b: string)
    requires StrLe(a, b) && StrLe(b, a)
    ensures a == b
  {
    if a != [] {
      StrLeAntisymmetric(a[1..], b[1..]);
      assert a == [a[0]] + a[1..] && b == [b[0]] + b[1..];
    }
  }

  predicate Sorted(xs: seq<string>)
  {
    forall i, j :: 0 <= i < j < |xs| ==> StrLe(xs[i], xs[j])
  }

  lemma SortedTail(xs: seq<string>)
    requires Sorted(xs) && xs != []
    ensures Sorted(xs[1..])
  {
    forall i, j | 0 <= i < j < |xs| - 1 ensures StrLe(xs[1..][i], xs[1..][j]) {
      assert xs[1..][i] == xs[i + 1] && xs[1..][j] == xs[j + 1];
    }
  }

  /** A string at most every element of a sorted list can go in front of it. */
  lemma ConsSorted(y: string, rest: seq<string>)
    requires Sorted(rest) && forall j :: 0 <= j < |rest| ==> StrLe(y, rest[j])
    ensures Sorted([y] + rest)
  {
    forall i, j | 0 <= i < j < |rest| + 1 ensures StrLe(([y] + rest)[i], ([y] + rest)[j]) {
      if i > 0 { assert ([y] + rest)[i] == rest[i - 1]; }
      assert ([y] + rest)[j] == rest[j - 1];
    }
  }

  /** A string at most the head of a sorted list is at most all of it. */
  lemma BelowHead(x: string, xs: seq<string>)
    requires Sorted(xs) && xs != [] && StrLe(x, xs[0])
    ensures forall j :: 0 <= j < |xs| ==> StrLe(x, xs[j])
  {
    forall j | 0 <= j < |xs| ensures StrLe(x, xs[j]) {
      if j > 0 { StrLeTransitive(x, xs[0], xs[j]); }
    }
  }

  /** The head of a sorted list is at most every element of the tail with a later string added. */
  lemma HeadBelowInserted(x: string, xs: seq<string>, rest: seq<string>)
    requires Sorted(xs) && xs != [] && !StrLe(x, xs[0])
    requires multiset(rest) == multiset(xs[1..]) + multiset{x}
    ensures forall j :: 0 <= j < |rest| ==> StrLe(xs[0], rest[j])
  {
    StrLeTotal(x, xs[0]);
    forall j | 0 <= j < |rest| ensures StrLe(xs[0], rest[j]) {
      assert rest[j] in multiset(rest);
      if rest[j] != x {
        assert rest[j] in multiset(xs[1..]);
        var k :| 0 <= k < |xs[1..]| && xs[1..][k] == rest[j];
        assert xs[1..][k] == xs[k + 1];
      }
    }
  }

  /** x placed before the first element it does not follow. */
  function Insert(x: string, xs: seq<string>): (r: seq<string>)
    requires Sorted(xs)
    ensures Sorted(r) && multiset(r) == multiset(xs) + multiset{x}
  {
    if xs == [] then [x]
    else if StrLe(x, xs[0]) then
      BelowHead(x, xs);
      ConsSorted(x, xs);
      [x] + xs
    else
      SortedTail(xs);
      var rest := Insert(x, xs[1..]);
      HeadBelowInserted(x, xs, rest);
      ConsSorted(xs[0], rest);
      assert xs == [xs[0]] + xs[1..];
      [xs[0]] + rest
  }

  /** Collections.sort: the tokens in ascending order, as a permutation of the input. */
  function Sort(xs: seq<string>): (r: seq<string>)
    ensures Sorted(r) && multiset(r) == multiset(xs)
  {
    if xs == [] then []
    else
      assert xs == [xs[0]] + xs[1..];
      Insert(xs[0], Sort(xs[1..]))
  }

  /** Two sorted permutations of each other start with the same string. */
  lemma SortedPermutationHead(a: seq<string>, b: seq<string>)
    requires Sorted(a) && Sorted(b) && multiset(a) == multiset(b) && a != []
    ensures b != [] && a[0] == b[0]
  {
    assert a[0] in multiset(b);
    assert b[0] in multiset(b);
    var i :| 0 <= i < |b| && b[i] == a[0];
    var j :| 0 <= j < |a| && a[j] == b[0];
    StrLeReflexive(a[0]);
    StrLeReflexive(b[0]);
    assert StrLe(b[0], a[0]) by { if i > 0 { assert StrLe(b[0], b[i]); } }
    assert StrLe(a[0], b[0]) by { if j > 0 { assert StrLe(a[0], a[j]); } }
    StrLeAntisymmetric(a[0], b[0]);
  }

  lemma TailMultiset(a: seq<string>, b: seq<string>)
    requires a != [] && b != [] && a[0] == b[0] && multiset(a) == multiset(b)
    ensures multiset(a[1..]) == multiset(b[1..])
  {
    assert a == [a[0]] + a[1..] && b == [b[0]] + b[1..];
    assert multiset(a) == multiset([a[0]]) + multiset(a[1..]);
    assert multiset(b) == multiset([b[0]]) + multiset(b[1..]);
    assert multiset(a[1..]) == multiset(a) - multiset([a[0]]);
    assert multiset(b[1..]) == multiset(b) - multiset([b[0]]);
  }

  /** A sorted permutation is unique, so any stable or unstable sort yields Sort's result. */
  lemma {:induction false} SortedPermutationUnique(a: seq<string>, b: seq<string>)
    requires Sorted(a) && Sorted(b) && multiset(a) == multiset(b)
    ensures a == b
  {
    if a != [] {
      SortedPermutationHead(a, b);
      TailMultiset(a, b);
      SortedTail(a);
      SortedTail(b);
      SortedPermutationUnique(a[1..], b[1..]);
      assert a == [a[0]] + a[1..] && b == [b[0]] + b[1..];
    } else {
      assert |b| == |multiset(b)|;
    }
  }

  /** Sorting twice is sorting once. */
  lemma SortIdempotent(xs: seq<string>)
    ensures Sort(Sort(xs)) == Sort(xs)
  {
    SortedPermutationUnique(Sort(Sort(xs)), Sort(xs));
  }
}
