/** Lists of system objects that carry an identifier, and what filtering and deletion do to them. */
module Records {
  import opened Prelude

  function Keep<T>(s: seq<T>, keep: T -> bool): seq<T> {
    if s == [] then []
    else
      var n := |s| - 1;
      Keep(s[..n], keep) + if keep(s[n]) then [s[n]] else []
  }

  function RemoveById<T>(s: seq<T>, idOf: T -> nat, id: nat): seq<T> {
    if s == [] then []
    else
      var n := |s| - 1;
      RemoveById(s[..n], idOf, id) + if idOf(s[n]) == id then [] else [s[n]]
  }

  ghost predicate UniqueBy<T, K(!new)>(s: seq<T>, f: T -> K) {
    forall i, j | 0 <= i < j < |s| :: f(s[i]) != f(s[j])
  }

  lemma SameKeySame<T, K(!new)>(s: seq<T>, f: T -> K, x: T, y: T)
    requires UniqueBy(s, f) && x in s && y in s && f(x) == f(y)
    ensures x == y
  {
    var i :| 0 <= i < |s| && s[i] == x;
    var j :| 0 <= j < |s| && s[j] == y;
    assert f(s[i]) == f(s[j]);
    if i < j {} else if j < i {}
  }

  /** The keys of a list, in order. */
  function KeysOf<T, K>(key: T -> K, s: seq<T>): seq<K> {
    seq(|s|, i requires 0 <= i < |s| => key(s[i]))
  }

  lemma {:induction false} KeepMembers<T>(s: seq<T>, keep: T -> bool)
    ensures forall x :: x in Keep(s, keep) <==> x in s && keep(x)
  {
    if s != [] {
      var n := |s| - 1;
      KeepMembers(s[..n], keep);
      assert s == s[..n] + [s[n]];
    }
  }

  lemma KeepMember<T>(s: seq<T>, keep: T -> bool, x: T)
    ensures x in Keep(s, keep) <==> x in s && keep(x)
  {
  }

  lemma {:induction false} KeepUnique<T, K(!new)>(s: seq<T>, keep: T -> bool, f: T -> K)
    requires UniqueBy(s, f)
    ensures UniqueBy(Keep(s, keep), f)
  {
    if s != [] {
      var n := |s| - 1;
      KeepUnique(s[..n], keep, f);
      var front := Keep(s[..n], keep);
      forall i | 0 <= i < |front| ensures f(front[i]) != f(s[n]) {
        KeepMember(s[..n], keep, front[i]);
      }
    }
  }

  lemma {:induction false} KeepAll<T>(s: seq<T>, keep: T -> bool)
    requires AllKept(s, keep)
    ensures Keep(s, keep) == s
  {
    if s != [] {
      var n := |s| - 1;
      KeepAll(s[..n], keep);
      assert s == s[..n] + [s[n]];
    }
  }

  lemma {:induction false} RemoveMembers<T>(s: seq<T>, idOf: T -> nat, id: nat)
    ensures forall x :: x in RemoveById(s, idOf, id) <==> x in s && idOf(x) != id
  {
    if s != [] {
      var n := |s| - 1;
      RemoveMembers(s[..n], idOf, id);
      assert s == s[..n] + [s[n]];
    }
  }

  lemma RemoveMember<T>(s: seq<T>, idOf: T -> nat, id: nat, x: T)
    ensures x in RemoveById(s, idOf, id) <==> x in s && idOf(x) != id
  {
  }

  lemma {:induction false} RemoveUnique<T, K(!new)>(s: seq<T>, idOf: T -> nat, id: nat, f: T -> K)
    requires UniqueBy(s, f)
    ensures UniqueBy(RemoveById(s, idOf, id), f)
  {
    if s != [] {
      var n := |s| - 1;
      RemoveUnique(s[..n], idOf, id, f);
      var front := RemoveById(s[..n], idOf, id);
      forall i | 0 <= i < |front| ensures f(front[i]) != f(s[n]) {
        RemoveMember(s[..n], idOf, id, front[i]);
      }
    }
  }

  lemma {:induction false} RemoveAbsent<T>(s: seq<T>, idOf: T -> nat, id: nat)
    requires forall x | x in s :: idOf(x) != id
    ensures RemoveById(s, idOf, id) == s
  {
    if s != [] {
      var n := |s| - 1;
      RemoveAbsent(s[..n], idOf, id);
      assert s == s[..n] + [s[n]];
    }
  }

  // ---- Purging a list object by object --------------------------------------------------------

  /** The list after the stale ones among its first k objects were deleted by identifier, one by one. */
  function Purged<T>(s: seq<T>, keep: T -> bool, k: nat, idOf: T -> nat): seq<T>
    requires k <= |s|
  {
    if k == 0 then s
    else if keep(s[k - 1]) then Purged(s, keep, k - 1, idOf)
    else RemoveById(Purged(s, keep, k - 1, idOf), idOf, idOf(s[k - 1]))
  }

  /** Deleting the only object with its identifier. */
  lemma {:induction false} RemoveSingle<T>(front: seq<T>, x: T, rest: seq<T>, idOf: T -> nat)
    requires forall y | y in front :: idOf(y) != idOf(x)
    requires forall y | y in rest :: idOf(y) != idOf(x)
    ensures RemoveById(front + [x] + rest, idOf, idOf(x)) == front + rest
  {
    var all := front + [x] + rest;
    var m := |all| - 1;
    if rest == [] {
      assert all[..m] == front && all[m] == x;
      RemoveAbsent(front, idOf, idOf(x));
    } else {
      var n := |rest| - 1;
      RemoveSingle(front, x, rest[..n], idOf);
      assert all[..m] == front + [x] + rest[..n] && all[m] == rest[n];
      assert rest[n] in rest;
      assert front + rest == front + rest[..n] + [rest[n]];
    }
  }

  lemma KeepPrefix<T>(s: seq<T>, keep: T -> bool, k: nat)
    requires 0 < k <= |s|
    ensures Keep(s[..k], keep) == Keep(s[..k - 1], keep) + if keep(s[k - 1]) then [s[k - 1]] else []
  {
    assert s[..k][..k - 1] == s[..k - 1];
  }

  lemma MoveBar<T>(front: seq<T>, s: seq<T>, j: nat)
    requires j < |s|
    ensures front + s[j..] == front + [s[j]] + s[j + 1..]
  {
  }

  lemma KeptDiffer<T>(s: seq<T>, keep: T -> bool, j: nat, idOf: T -> nat)
    requires j < |s| && UniqueBy(s, idOf)
    ensures forall x | x in Keep(s[..j], keep) :: idOf(x) != idOf(s[j])
    ensures forall x | x in s[j + 1..] :: idOf(x) != idOf(s[j])
  {
    forall x | x in Keep(s[..j], keep) ensures idOf(x) != idOf(s[j]) {
      KeepMember(s[..j], keep, x);
    }
  }

  lemma {:induction false} PurgedIs<T>(s: seq<T>, keep: T -> bool, k: nat, idOf: T -> nat)
    requires k <= |s| && UniqueBy(s, idOf)
    ensures Purged(s, keep, k, idOf) == Keep(s[..k], keep) + s[k..]
  {
    if k > 0 {
      var j := k - 1;
      var front := Keep(s[..j], keep);
      PurgedIs(s, keep, j, idOf);
      KeepPrefix(s, keep, k);
      MoveBar(front, s, j);
      if !keep(s[j]) {
        KeptDiffer(s, keep, j, idOf);
        RemoveSingle(front, s[j], s[k..], idOf);
      }
    }
  }

  lemma PurgeComplete<T>(s: seq<T>, keep: T -> bool, idOf: T -> nat)
    requires UniqueBy(s, idOf)
    ensures Purged(s, keep, |s|, idOf) == Keep(s, keep)
  {
    PurgedIs(s, keep, |s|, idOf);
    assert s[..|s|] == s;
  }

  ghost predicate AllKept<T>(s: seq<T>, keep: T -> bool) {
    forall x | x in s :: keep(x)
  }

  /** While a purge runs, the list holds every object to keep and nothing new. */
  ghost predicate OnlyStaleGone<T>(s: seq<T>, keep: T -> bool, now: seq<T>) {
    && (forall x | x in now :: x in s)
    && (forall x | x in s && keep(x) :: x in now)
  }

  lemma PartialPurge<T>(s: seq<T>, keep: T -> bool, k: nat, idOf: T -> nat)
    requires k <= |s| && UniqueBy(s, idOf)
    ensures OnlyStaleGone(s, keep, Purged(s, keep, k, idOf))
  {
    PurgedIs(s, keep, k, idOf);
    assert s == s[..k] + s[k..];
    forall x | x in Purged(s, keep, k, idOf) ensures x in s {
      KeepMember(s[..k], keep, x);
    }
    forall x | x in s && keep(x) ensures x in Purged(s, keep, k, idOf) {
      KeepMember(s[..k], keep, x);
    }
  }
}
