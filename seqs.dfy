/** Sequence helpers shared by the image-list builders. */
module Seqs {

  predicate NoDuplicates<T(==)>(s: seq<T>) {
    forall i, j :: 0 <= i < j < |s| ==> s[i] != s[j]
  }

  /** The elements of `xs` that are not in `seen`, each kept at its first
      occurrence: what appending `x` to a list only when `x not in list`
      adds to that list. */
  function Fresh<T(==)>(xs: seq<T>, seen: seq<T>): seq<T> {
    if xs == [] then []
    else if xs[0] in seen then Fresh(xs[1..], seen)
    else [xs[0]] + Fresh(xs[1..], seen + [xs[0]])
  }

  /** What `Fresh` keeps: exactly the elements of `xs` not already seen,
      never an element of `seen`, and each one once. */
  lemma {:induction false} FreshProperties<T>(xs: seq<T>, seen: seq<T>)
    ensures forall x :: x in Fresh(xs, seen) <==> x in xs && x !in seen
    ensures NoDuplicates(Fresh(xs, seen))
  {
    if xs != [] {
      FreshProperties(xs[1..], seen);
      FreshProperties(xs[1..], seen + [xs[0]]);
      if xs[0] !in seen {
        var rest := Fresh(xs[1..], seen + [xs[0]]);
        assert xs[0] !in rest;
        assert Fresh(xs, seen) == [xs[0]] + rest;
        forall x ensures x in Fresh(xs, seen) <==> x in xs && x !in seen {
          assert x in xs <==> x == xs[0] || x in xs[1..];
        }
      } else {
        forall x ensures x in Fresh(xs, seen) <==> x in xs && x !in seen {
          assert x in xs <==> x == xs[0] || x in xs[1..];
        }
      }
    }
  }

  /** Nothing is new when every element was already seen. */
  lemma {:induction false} FreshOfSeen<T>(xs: seq<T>, seen: seq<T>)
    requires forall x :: x in xs ==> x in seen
    ensures Fresh(xs, seen) == []
  {
    if xs != [] {
      assert xs[0] in seen;
      FreshOfSeen(xs[1..], seen);
    }
  }

  lemma FreshCons<T>(x: T, xs: seq<T>, seen: seq<T>)
    ensures seen + Fresh([x] + xs, seen)
            == if x in seen then seen + Fresh(xs, seen) else (seen + [x]) + Fresh(xs, seen + [x])
  {
    assert ([x] + xs)[0] == x && ([x] + xs)[1..] == xs;
  }

  /** A prefix one longer is the prefix and the next element. */
  lemma PrefixSnoc<T>(s: seq<T>, i: nat)
    requires i < |s|
    ensures s[..i + 1] == s[..i] + [s[i]]
  {
  }

  /** A non-empty sequence is its front and its last element. */
  lemma FrontLast<T>(s: seq<T>)
    requires s != []
    ensures s == s[..|s| - 1] + [s[|s| - 1]]
  {
  }

  /** A sequence is its first element and its tail; appending at the end
      keeps that split. */
  lemma ConsSnoc<T>(s: seq<T>, y: T)
    requires s != []
    ensures s + [y] == [s[0]] + (s[1..] + [y])
  {
  }

  /** Dropping the first element of a join with a non-empty front. */
  lemma TailOfAppend<T>(a: seq<T>, b: seq<T>)
    requires a != []
    ensures (a + b)[0] == a[0] && (a + b)[1..] == a[1..] + b
  {
  }

  lemma AppendAssoc<T>(a: seq<T>, b: seq<T>, c: seq<T>)
    ensures a + (b + c) == (a + b) + c
  {
  }
}
