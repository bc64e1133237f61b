/** List and map differences (common/utilities.go). */
module Delta {
  import opened Prelude

  /** The elements of s that do not occur in t, in order. */
  function Without(s: seq<string>, t: seq<string>): seq<string> {
    if s == [] then []
    else
      var n := |s| - 1;
      Without(s[..n], t) + if s[n] in t then [] else [s[n]]
  }

  /** The elements of s that occur in t, in order. */
  function Within(s: seq<string>, t: seq<string>): seq<string> {
    if s == [] then []
    else
      var n := |s| - 1;
      Within(s[..n], t) + if s[n] in t then [s[n]] else []
  }

  /** The difference between two lists, computed with a table of the common elements. */
  method ListDelta(a: seq<string>, b: seq<string>) returns (added: seq<string>, removed: seq<string>, same: seq<string>)
    ensures added == Without(b, a)
    ensures removed == Without(a, b)
    ensures same == Within(b, a)
  {
    added, removed, same := [], [], [];
    var present: map<string, bool> := map[];

    var i := 0;
    while i < |a|
      invariant 0 <= i <= |a|
      invariant forall x :: x in present <==> x in a[..i] && x in b
      invariant forall x | x in present :: present[x]
      invariant removed == Without(a[..i], b)
    {
      var s := a[i];
      var found := false;
      var j := 0;
      while j < |b|
        invariant 0 <= j <= |b|
        invariant !found && s !in b[..j]
      {
        if s == b[j] {
          present := present[b[j] := true];
          found := true;
          break;
        }
        j := j + 1;
      }
      assert a[..i + 1][..i] == a[..i];
      if !found {
        removed := removed + [s];
      }
      i := i + 1;
    }
    assert a[..|a|] == a;

    i := 0;
    while i < |b|
      invariant 0 <= i <= |b|
      invariant added == Without(b[..i], a)
      invariant same == Within(b[..i], a)
    {
      assert b[..i + 1][..i] == b[..i];
      if !(b[i] in present && present[b[i]]) {
        added := added + [b[i]];
      } else {
        same := same + [b[i]];
      }
      i := i + 1;
    }
    assert b[..|b|] == b;
  }

  lemma {:induction false} WithoutMembers(s: seq<string>, t: seq<string>)
    ensures forall x :: x in Without(s, t) <==> x in s && x !in t
  {
    if s != [] {
      var n := |s| - 1;
      WithoutMembers(s[..n], t);
      assert s == s[..n] + [s[n]];
    }
  }

  lemma {:induction false} WithinMembers(s: seq<string>, t: seq<string>)
    ensures forall x :: x in Within(s, t) <==> x in s && x in t
  {
    if s != [] {
      var n := |s| - 1;
      WithinMembers(s[..n], t);
      assert s == s[..n] + [s[n]];
    }
  }

  lemma WithinEmpty(s: seq<string>, t: seq<string>)
    ensures Within(s, t) == [] <==> forall x | x in s :: x !in t
  {
  }

  /** Removing the removed elements and adding the added ones turns a into b, and the two lists never overlap. */
  lemma DeltaApplies(a: seq<string>, b: seq<string>)
    ensures ToSet(a) - ToSet(Without(a, b)) + ToSet(Without(b, a)) == ToSet(b)
    ensures ToSet(Without(a, b)) !! ToSet(Without(b, a))
    ensures Without(a, b) == [] && Without(b, a) == [] <==> ToSet(a) == ToSet(b)
  {
    WithoutMembers(a, b);
    WithoutMembers(b, a);
    if ToSet(a) == ToSet(b) {
      forall x ensures x !in Without(a, b) && x !in Without(b, a) {
        assert x in a <==> x in ToSet(a);
        assert x in b <==> x in ToSet(b);
      }
      NothingIn(Without(a, b));
      NothingIn(Without(b, a));
    }
  }

  /** Every occurrence in b is reported exactly once, as added or as same. */
  lemma {:induction false} DeltaPartitions(b: seq<string>, a: seq<string>)
    ensures multiset(Without(b, a)) + multiset(Within(b, a)) == multiset(b)
  {
    if b != [] {
      var n := |b| - 1;
      DeltaPartitions(b[..n], a);
      assert b == b[..n] + [b[n]];
      assert multiset(b) == multiset(b[..n]) + multiset{b[n]};
    }
  }

  lemma {:induction false} WithoutNoDuplicates(s: seq<string>, t: seq<string>)
    requires NoDuplicates(s)
    ensures NoDuplicates(Without(s, t))
  {
    if s != [] {
      var n := |s| - 1;
      WithoutNoDuplicates(s[..n], t);
      WithoutMembers(s[..n], t);
    }
  }

  /** Whether two name lists differ; a nil list of the spec counts as empty. */
  method ListChanged(a: seq<string>, b: seq<string>) returns (changed: bool)
    ensures changed <==> |a| != |b| || ToSet(a) != ToSet(b)
  {
    if |a| != |b| {
      return true;
    }
    var added, removed, _ := ListDelta(a, b);
    DeltaApplies(a, b);
    return |added| > 0 || |removed| > 0;
  }

  /** On lists without duplicates on one side the test decides equality up to order. */
  lemma UnchangedMeansPermutation(a: seq<string>, b: seq<string>)
    requires NoDuplicates(a)
    ensures |a| == |b| && ToSet(a) == ToSet(b) <==> multiset(a) == multiset(b)
  {
    if |a| == |b| && ToSet(a) == ToSet(b) {
      Pigeonhole(a, b);
      MultisetOfDistinct(a, b);
    }
    if multiset(a) == multiset(b) {
      assert |multiset(a)| == |a| && |multiset(b)| == |b|;
      forall x ensures x in ToSet(a) <==> x in ToSet(b) {
        assert x in a <==> x in multiset(a);
        assert x in b <==> x in multiset(b);
      }
    }
  }

  /** The test tells a list from every other list up to order. */
  ghost predicate Decides(a: seq<string>) {
    forall b | |a| == |b| && ToSet(a) == ToSet(b) :: multiset(a) == multiset(b)
  }

  lemma {:induction false} OneValue(s: seq<string>, x: string)
    requires forall y | y in s :: y == x
    ensures multiset(s)[x] == |s|
  {
    if s != [] {
      var n := |s| - 1;
      assert s == s[..n] + [s[n]] && s[n] in s;
      forall y | y in s[..n] ensures y == x {
        assert y in s[..n] + [s[n]];
      }
      OneValue(s[..n], x);
    }
  }

  lemma ConstantDecided(a: seq<string>, b: seq<string>)
    requires |a| == |b| && ToSet(a) == ToSet(b) && |ToSet(a)| <= 1
    ensures multiset(a) == multiset(b)
  {
    if a != [] {
      assert a[0] in ToSet(a);
      forall y | y in ToSet(a) ensures y == a[0] {
        SubsetCardinality({y, a[0]}, ToSet(a));
      }
      assert forall y | y in a :: y in ToSet(a);
      assert forall y | y in b :: y in ToSet(b);
      OneValue(a, a[0]);
      OneValue(b, a[0]);
      forall y ensures multiset(a)[y] == multiset(b)[y] {
        assert y in multiset(a) <==> y in a;
        assert y in multiset(b) <==> y in b;
      }
    }
  }

  /** A value that occurs twice can lose an occurrence to another value unnoticed. */
  lemma TradedOccurrence(a: seq<string>, i: nat, j: nat, y: string)
    requires i < j < |a| && a[i] == a[j] && y in a && y != a[i]
    ensures !Decides(a)
  {
    var b := a[j := y];
    forall x ensures x in ToSet(a) <==> x in ToSet(b) {
      if x in a {
        var k :| 0 <= k < |a| && a[k] == x;
        assert b[if k == j then i else k] == x;
      }
    }
    assert ToSet(a) == ToSet(b);
    assert multiset(b) == multiset(a) - multiset{a[j]} + multiset{y};
  }

  /** Exactly the lists without duplicates and the lists of one value are told from every other list up to order. */
  lemma DecidesIff(a: seq<string>)
    ensures Decides(a) <==> NoDuplicates(a) || |ToSet(a)| <= 1
  {
    if NoDuplicates(a) {
      forall b | |a| == |b| && ToSet(a) == ToSet(b) ensures multiset(a) == multiset(b) {
        UnchangedMeansPermutation(a, b);
      }
    } else if |ToSet(a)| <= 1 {
      forall b | |a| == |b| && ToSet(a) == ToSet(b) ensures multiset(a) == multiset(b) {
        ConstantDecided(a, b);
      }
    } else {
      var i, j :| 0 <= i < j < |a| && a[i] == a[j];
      assert ToSet(a) != {a[i]};
      var y :| y in ToSet(a) && y != a[i];
      TradedOccurrence(a, i, j, y);
    }
  }

  /** With duplicates on both sides the test can miss a change of multiplicity. */
  lemma MultiplicityIsMissed()
    ensures var a, b := ["x", "x", "y"], ["x", "y", "y"];
            |a| == |b| && ToSet(a) == ToSet(b) && multiset(a) != multiset(b)
  {
  }

  /** The occurrences of x in t. */
  function Occurrences(x: string, t: seq<string>): seq<string> {
    if t == [] then []
    else
      var n := |t| - 1;
      Occurrences(x, t[..n]) + if t[n] == x then [x] else []
  }

  /** The common elements of two lists in the order of the first, once per matching pair. */
  function Pairs(s: seq<string>, t: seq<string>): seq<string> {
    if s == [] then []
    else
      var n := |s| - 1;
      Pairs(s[..n], t) + Occurrences(s[n], t)
  }

  lemma {:induction false} OccurrencesCount(x: string, t: seq<string>, y: string)
    ensures multiset(Occurrences(x, t))[y] == if x == y then multiset(t)[y] else 0
  {
    if t != [] {
      var n := |t| - 1;
      OccurrencesCount(x, t[..n], y);
      assert t == t[..n] + [t[n]];
    }
  }

  /** Each common value occurs once for each pair of its occurrences. */
  lemma {:induction false} PairsCount(s: seq<string>, t: seq<string>, y: string)
    ensures multiset(Pairs(s, t))[y] == multiset(s)[y] * multiset(t)[y]
  {
    if s != [] {
      var n := |s| - 1;
      PairsCount(s[..n], t, y);
      OccurrencesCount(s[n], t, y);
      CountOfSum(Pairs(s[..n], t), Occurrences(s[n], t), y);
      CountOfLast(s, y);
      OneMore(multiset(s)[y], multiset(s[..n])[y], s[n] == y, multiset(t)[y]);
    }
  }

  lemma CountOfSum(s: seq<string>, t: seq<string>, y: string)
    ensures multiset(s + t)[y] == multiset(s)[y] + multiset(t)[y]
  {
  }

  lemma CountOfLast(s: seq<string>, y: string)
    requires s != []
    ensures multiset(s)[y] == multiset(s[..|s| - 1])[y] + if s[|s| - 1] == y then 1 else 0
  {
    assert s == s[..|s| - 1] + [s[|s| - 1]];
  }

  lemma OneMore(all: nat, m: nat, more: bool, q: nat)
    requires all == m + if more then 1 else 0
    ensures all * q == m * q + if more then q else 0
  {
  }

  method ListIntersect(a: seq<string>, b: seq<string>) returns (result: seq<string>, ok: bool)
    ensures result == Pairs(a, b)
    ensures ok <==> exists x :: x in a && x in b
  {
    result := [];
    var i := 0;
    while i < |a|
      invariant 0 <= i <= |a|
      invariant result == Pairs(a[..i], b)
    {
      ghost var before := result;
      var j := 0;
      while j < |b|
        invariant 0 <= j <= |b|
        invariant result == before + Occurrences(a[i], b[..j])
      {
        assert b[..j + 1][..j] == b[..j];
        if a[i] == b[j] {
          result := result + [b[j]];
        }
        j := j + 1;
      }
      assert b[..|b|] == b;
      assert a[..i + 1][..i] == a[..i];
      i := i + 1;
    }
    assert a[..|a|] == a;
    ok := |result| > 0;
    NonemptyPairs(a, b);
  }

  lemma NonemptyPairs(a: seq<string>, b: seq<string>)
    ensures Pairs(a, b) != [] <==> exists x :: x in a && x in b
  {
    var r := Pairs(a, b);
    forall x ensures x in r <==> x in a && x in b {
      PairsCount(a, b, x);
      assert x in multiset(r) <==> x in r;
      assert x in multiset(a) <==> x in a;
      assert x in multiset(b) <==> x in b;
      Product(multiset(a)[x], multiset(b)[x]);
    }
    if r != [] {
      assert r[0] in r;
    }
  }

  lemma Product(m: nat, n: nat)
    ensures m * n > 0 <==> m > 0 && n > 0
  {
    if m > 0 && n > 0 {
      assert m * n >= n;
    }
  }

  type Sections = map<string, seq<string>>

  function Lookup(m: Sections, k: string): Option<seq<string>> {
    if k in m then Some(m[k]) else None
  }

  function UnlessEmpty(s: seq<string>): Option<seq<string>> {
    if |s| > 0 then Some(s) else None
  }

  /** What must be added to section k: a missing section whole (even when empty), else its missing entries. */
  function AddedAt(current: Sections, configured: Sections, k: string): Option<seq<string>> {
    if k !in configured then None
    else if k !in current then Some(configured[k])
    else UnlessEmpty(Without(configured[k], current[k]))
  }

  function RemovedAt(current: Sections, configured: Sections, k: string): Option<seq<string>> {
    if k !in current then None
    else if k !in configured then Some(current[k])
    else UnlessEmpty(Without(current[k], configured[k]))
  }

  function SameAt(current: Sections, configured: Sections, k: string): Option<seq<string>> {
    if k in current && k in configured then UnlessEmpty(Within(configured[k], current[k])) else None
  }

  ghost predicate IsDelta(current: Sections, configured: Sections, added: Sections, removed: Sections) {
    forall k :: Lookup(added, k) == AddedAt(current, configured, k)
             && Lookup(removed, k) == RemovedAt(current, configured, k)
  }

  /** The difference between two section tables; the sections are visited in any order. */
  method MapsDelta(current: Sections, configured: Sections) returns (added: Sections, removed: Sections, same: Sections)
    ensures IsDelta(current, configured, added, removed)
    ensures forall k :: Lookup(same, k) == SameAt(current, configured, k)
  {
    added, removed, same := map[], map[], map[];

    var todo := configured.Keys;
    while todo != {}
      invariant todo <= configured.Keys
      invariant forall k :: Lookup(added, k) == if k in todo then None else AddedAt(current, configured, k)
      invariant forall k :: Lookup(removed, k) ==
                            if k in configured && k !in todo then RemovedAt(current, configured, k) else None
      invariant forall k :: Lookup(same, k) == if k in todo then None else SameAt(current, configured, k)
      decreases todo
    {
      var key :| key in todo;
      if key !in current {
        added := added[key := configured[key]];
      } else {
        var addedList, removedList, sameList := ListDelta(current[key], configured[key]);
        if |addedList| > 0 {
          added := added[key := addedList];
        }
        if |removedList| > 0 {
          removed := removed[key := removedList];
        }
        if |sameList| > 0 {
          same := same[key := sameList];
        }
      }
      todo := todo - {key};
    }

    todo := current.Keys;
    while todo != {}
      invariant todo <= current.Keys
      invariant forall k :: Lookup(removed, k) ==
                            if k in configured || k !in todo then RemovedAt(current, configured, k) else None
      decreases todo
    {
      var key :| key in todo;
      if key !in configured {
        removed := removed[key := current[key]];
      }
      todo := todo - {key};
    }
  }
}
