/** Datatypes and list facts shared by every component. */
module Prelude {

  datatype Option<+T> = None | Some(value: T)

  /** A Go slice. A nil slice and an empty slice are different values. */
  datatype Slice<+T> = Nil | Elems(items: seq<T>) {
    function Items(): seq<T> {
      match this
      case Nil => []
      case Elems(s) => s
    }
  }

  /** Case folding of one character; the text the code folds is ASCII. */
  function FoldChar(c: char): char {
    if 'A' <= c <= 'Z' then c - 'A' + 'a' else c
  }

  /** Canonical form such that two texts are equal up to case when their forms are equal. */
  function Fold(s: string): (r: string)
    ensures |r| == |s|
  {
    seq(|s|, i requires 0 <= i < |s| => FoldChar(s[i]))
  }

  predicate EqualFold(a: string, b: string) {
    Fold(a) == Fold(b)
  }

  lemma FoldIdempotent(s: string)
    ensures Fold(Fold(s)) == Fold(s)
  {
  }

  ghost predicate NoDuplicates<T>(s: seq<T>) {
    forall i, j | 0 <= i < j < |s| :: s[i] != s[j]
  }

  function ToSet<T>(s: seq<T>): set<T> {
    set x | x in s
  }

  /** The length of a list bounds the number of its values, with equality for lists without duplicates only. */
  lemma {:induction false} CardinalityOfToSet<T>(s: seq<T>)
    ensures |ToSet(s)| <= |s|
    ensures |ToSet(s)| == |s| <==> NoDuplicates(s)
  {
    if s == [] {
      assert ToSet(s) == {};
    } else {
      var n := |s| - 1;
      var front := s[..n];
      CardinalityOfToSet(front);
      assert s == front + [s[n]];
      assert ToSet(s) == ToSet(front) + {s[n]};
      if NoDuplicates(front) && s[n] !in front {
        assert NoDuplicates(s);
      } else if s[n] in front {
        var i :| 0 <= i < n && front[i] == s[n];
        assert s[i] == s[n];
        assert ToSet(s) == ToSet(front);
      } else {
        var i, j :| 0 <= i < j < n && front[i] == front[j];
        assert s[i] == s[j];
      }
    }
  }

  /**
   * Pigeonhole: a duplicate-free list inside a list of the same length covers it, and the other list is
   * duplicate-free too.
   */
  lemma Pigeonhole<T>(a: seq<T>, b: seq<T>)
    requires |a| == |b| && NoDuplicates(a) && ToSet(a) <= ToSet(b)
    ensures ToSet(a) == ToSet(b) && NoDuplicates(b)
  {
    CardinalityOfToSet(a);
    CardinalityOfToSet(b);
    SubsetOfSameSize(ToSet(a), ToSet(b));
  }

  lemma SubsetOfSameSize<T>(x: set<T>, y: set<T>)
    requires x <= y && |x| >= |y|
    ensures x == y
  {
    if x != y {
      var e :| e in y && e !in x;
      assert x <= y - {e};
      SubsetCardinality(x, y - {e});
    }
  }

  lemma {:induction false} SubsetCardinality<T>(x: set<T>, y: set<T>)
    requires x <= y
    ensures |x| <= |y|
    decreases x
  {
    if x != {} {
      var e :| e in x;
      SubsetCardinality(x - {e}, y - {e});
    }
  }

  lemma MultisetOfDistinct<T>(a: seq<T>, b: seq<T>)
    requires NoDuplicates(a) && NoDuplicates(b) && ToSet(a) == ToSet(b)
    ensures multiset(a) == multiset(b)
  {
    forall x
      ensures multiset(a)[x] == multiset(b)[x]
    {
      DistinctCount(a, x);
      DistinctCount(b, x);
      assert x in a <==> x in ToSet(a);
      assert x in b <==> x in ToSet(b);
    }
  }

  lemma {:induction false} DistinctCount<T>(s: seq<T>, x: T)
    requires NoDuplicates(s)
    ensures multiset(s)[x] == if x in s then 1 else 0
  {
    if s != [] {
      var n := |s| - 1;
      assert s == s[..n] + [s[n]];
      DistinctCount(s[..n], x);
    }
  }

  lemma NothingIn<T>(s: seq<T>)
    ensures s == [] <==> ToSet(s) == {}
    ensures s == [] <==> forall x :: x !in s
  {
    if s != [] {
      assert s[0] in s && s[0] in ToSet(s);
    }
  }

  /** An element of a set that has one. */
  lemma Element<T>(s: set<T>) returns (x: T)
    requires s != {}
    ensures x in s
  {
    x :| x in s;
  }
}
