/**
 * Merging one slice into another (internal/controller/common/merge.go). The element type gives a key, and
 * `merge` is the recursive merge of two elements.
 */
module KeyedMerge {
  import opened Prelude
  import opened Records

  /** The index of the first element with this key; the length when there is none. */
  function IndexOf<T, K(==)>(key: T -> K, s: seq<T>, k: K): (j: nat)
    ensures j <= |s|
    ensures j < |s| ==> key(s[j]) == k
    ensures forall i | 0 <= i < j :: key(s[i]) != k
  {
    if s == [] then 0
    else if key(s[0]) == k then 0
    else
      var j := IndexOf(key, s[1..], k);
      assert forall i | 1 <= i < 1 + j :: s[i] == s[1..][i - 1];
      1 + j
  }

  /** One source element: merged into the first element with its key, else appended. */
  function MergeOne<T, K(==)>(merge: (T, T) -> T, key: T -> K, dst: seq<T>, x: T): seq<T> {
    var j := IndexOf(key, dst, key(x));
    if j < |dst| then dst[j := merge(dst[j], x)] else dst + [x]
  }

  function MergeAll<T, K(==)>(merge: (T, T) -> T, key: T -> K, dst: seq<T>, src: seq<T>): seq<T> {
    if src == [] then dst
    else
      var n := |src| - 1;
      MergeOne(merge, key, MergeAll(merge, key, dst, src[..n]), src[n])
  }

  /** A nil source changes nothing, an empty one deletes, and an empty destination takes the source as it is. */
  function MergeSlice<T, K(==)>(merge: (T, T) -> T, key: T -> K, dst: Slice<T>, src: Slice<T>): Slice<T> {
    if src.Nil? then dst
    else if src.items == [] then src
    else if dst.Items() == [] then src
    else Elems(MergeAll(merge, key, dst.items, src.items))
  }

  /** Slices whose elements have no key are overwritten. */
  function OverwriteSlice<T>(dst: Slice<T>, src: Slice<T>): Slice<T> {
    if src.Nil? then dst else src
  }

  /** A struct field holding a slice. */
  class SliceField<T> {
    var value: Slice<T>

    constructor (value: Slice<T>)
      ensures this.value == value
    {
      this.value := value;
    }

    /** Merges in place; without a key the slice is overwritten when the transformer says so. */
    method Merge<K(==)>(src: Slice<T>, merge: (T, T) -> T, key: Option<T -> K>, overwriteSlices: bool)
      modifies this
      ensures key.Some? ==> value == MergeSlice(merge, key.value, old(value), src)
      ensures key.None? && overwriteSlices ==> value == OverwriteSlice(old(value), src)
      ensures key.None? && !overwriteSlices ==>
                value == if src.Elems? && (src.items == [] || old(value).Items() == []) then src else old(value)
    {
      if src.Nil? {
        return;
      } else if |src.items| == 0 {
        value := src;
        return;
      } else if value.Nil? || |value.items| == 0 {
        value := src;
        return;
      } else if key.None? {
        if overwriteSlices {
          value := src;
        }
        return;
      }
      var i := 0;
      while i < |src.items|
        invariant 0 <= i <= |src.items|
        invariant value == Elems(MergeAll(merge, key.value, old(value).items, src.items[..i]))
      {
        var x := src.items[i];
        ghost var before := value.items;
        var found := false;
        var j := 0;
        while j < |value.items|
          invariant value == Elems(before) && 0 <= j <= |before|
          invariant !found && forall h | 0 <= h < j :: key.value(before[h]) != key.value(x)
        {
          if key.value(value.items[j]) == key.value(x) {
            found := true;
            break;
          }
          j := j + 1;
        }
        if found {
          value := Elems(value.items[j := merge(value.items[j], x)]);
        } else {
          value := Elems(value.items + [x]);
        }
        assert value.items == MergeOne(merge, key.value, before, x);
        assert src.items[..i + 1][..i] == src.items[..i];
        i := i + 1;
      }
      assert src.items[..|src.items|] == src.items;
    }
  }

  lemma IndexIs<T, K>(key: T -> K, s: seq<T>, k: K, i: nat)
    requires i < |s| && key(s[i]) == k && forall h | 0 <= h < i :: key(s[h]) != k
    ensures IndexOf(key, s, k) == i
  {
  }

  lemma IndexNone<T, K>(key: T -> K, s: seq<T>, k: K)
    requires forall h | 0 <= h < |s| :: key(s[h]) != k
    ensures IndexOf(key, s, k) == |s|
  {
  }

  // ---- What is asked of the merge of two elements ---------------------------------------------------

  /** Merging two elements with the same key gives an element with that key. */
  ghost predicate KeepsKey<T(!new), K(!new)>(merge: (T, T) -> T, key: T -> K) {
    forall x, y {:trigger merge(x, y)} :: key(x) == key(y) ==> key(merge(x, y)) == key(x)
  }

  // ---- Positions, order and uniqueness ----------------------------------------------------------------

  /** The keys of t that are not in s, in order, each once. */
  function NewKeys<K(==)>(s: seq<K>, t: seq<K>): seq<K> {
    if t == [] then []
    else
      var n := |t| - 1;
      var front := NewKeys(s, t[..n]);
      if t[n] in s || t[n] in front then front else front + [t[n]]
  }

  lemma IndexOfKey<T, K>(key: T -> K, s: seq<T>, k: K)
    ensures IndexOf(key, s, k) < |s| <==> k in KeysOf(key, s)
  {
    if IndexOf(key, s, k) < |s| {
      assert KeysOf(key, s)[IndexOf(key, s, k)] == k;
    }
  }

  /** Old elements keep their positions, and new keys follow in the order of the source. */
  lemma {:induction false} MergedKeys<T(!new), K(!new)>(merge: (T, T) -> T, key: T -> K, dst: seq<T>, src: seq<T>)
    requires KeepsKey(merge, key)
    ensures KeysOf(key, MergeAll(merge, key, dst, src)) ==
              KeysOf(key, dst) + NewKeys(KeysOf(key, dst), KeysOf(key, src))
  {
    if src != [] {
      var n := |src| - 1;
      MergedKeys(merge, key, dst, src[..n]);
      var before := MergeAll(merge, key, dst, src[..n]);
      var after := MergeOne(merge, key, before, src[n]);
      assert KeysOf(key, src)[..n] == KeysOf(key, src[..n]);
      IndexOfKey(key, before, key(src[n]));
      if key(src[n]) in KeysOf(key, before) {
        assert KeysOf(key, after) == KeysOf(key, before);
      } else {
        assert KeysOf(key, after) == KeysOf(key, before) + [key(src[n])];
      }
    }
  }

  /** A destination with unique keys stays so, whatever the source. */
  lemma {:induction false} MergeAllUnique<T(!new), K(!new)>(merge: (T, T) -> T, key: T -> K, dst: seq<T>, src: seq<T>)
    requires KeepsKey(merge, key) && UniqueBy(dst, key)
    ensures UniqueBy(MergeAll(merge, key, dst, src), key)
  {
    if src != [] {
      MergeAllUnique(merge, key, dst, src[..|src| - 1]);
    }
  }

  /** When exactly the result has unique keys: only an empty destination lets duplicates of the source through. */
  lemma MergeSliceUniqueIff<T(!new), K(!new)>(merge: (T, T) -> T, key: T -> K, dst: Slice<T>, src: Slice<T>)
    requires KeepsKey(merge, key) && UniqueBy(dst.Items(), key)
    ensures UniqueBy(MergeSlice(merge, key, dst, src).Items(), key) <==>
            src.Nil? || dst.Items() != [] || UniqueBy(src.Items(), key)
  {
    if src.Elems? && src.items != [] && dst.Items() != [] {
      MergeAllUnique(merge, key, dst.items, src.items);
    }
  }

  /** One source element leaves every element with another key alone. */
  lemma OtherKeyStays<T(!new), K(!new)>(merge: (T, T) -> T, key: T -> K, dst: seq<T>, x: T, k: K)
    requires KeepsKey(merge, key) && k != key(x)
    ensures var after := MergeOne(merge, key, dst, x);
            if IndexOf(key, dst, k) < |dst|
            then IndexOf(key, after, k) == IndexOf(key, dst, k)
                 && after[IndexOf(key, dst, k)] == dst[IndexOf(key, dst, k)]
            else IndexOf(key, after, k) == |after|
  {
  }

  /** The element of each key afterwards, for a source with unique keys: the union of both sides by key. */
  lemma {:induction false} MergedElement<T(!new), K(!new)>(merge: (T, T) -> T, key: T -> K, dst: seq<T>, src: seq<T>,
                                                           k: K)
    requires KeepsKey(merge, key) && UniqueBy(src, key)
    ensures var result := MergeAll(merge, key, dst, src);
            var d, s, r := IndexOf(key, dst, k), IndexOf(key, src, k), IndexOf(key, result, k);
            && (r < |result| <==> d < |dst| || s < |src|)
            && (d < |dst| && s < |src| ==> result[r] == merge(dst[d], src[s]))
            && (d < |dst| && s == |src| ==> result[r] == dst[d])
            && (d == |dst| && s < |src| ==> result[r] == src[s])
  {
    if src != [] {
      var n := |src| - 1;
      var before := MergeAll(merge, key, dst, src[..n]);
      MergedElement(merge, key, dst, src[..n], k);
      FrontIndex(key, src, k);
      if k == key(src[n]) {
        OwnKey(merge, key, before, src[n]);
      } else {
        OtherKeyStays(merge, key, before, src[n], k);
      }
    }
  }

  /** Where a key is found in a list, in terms of the list without its last element. */
  lemma FrontIndex<T, K(!new)>(key: T -> K, s: seq<T>, k: K)
    requires s != [] && UniqueBy(s, key)
    ensures var n := |s| - 1;
            if k == key(s[n]) then IndexOf(key, s, k) == n && IndexOf(key, s[..n], k) == n
            else if IndexOf(key, s[..n], k) < n then IndexOf(key, s, k) == IndexOf(key, s[..n], k)
            else IndexOf(key, s, k) == |s|
  {
    var n := |s| - 1;
    var j := IndexOf(key, s[..n], k);
    forall h | 0 <= h < n ensures s[..n][h] == s[h] && (h < j ==> key(s[h]) != k) {
      assert h < j ==> key(s[..n][h]) != k;
    }
    if j < n {
      IndexIs(key, s, k, j);
    } else if k == key(s[n]) {
      IndexIs(key, s, k, n);
    } else {
      IndexNone(key, s, k);
    }
  }

  lemma OwnKey<T(!new), K(!new)>(merge: (T, T) -> T, key: T -> K, dst: seq<T>, x: T)
    requires KeepsKey(merge, key)
    ensures var after := MergeOne(merge, key, dst, x);
            var i := IndexOf(key, dst, key(x));
            IndexOf(key, after, key(x)) == i < |after| && after[i] == if i < |dst| then merge(dst[i], x) else x
  {
  }

  // ---- The whole result, position by position --------------------------------------------------------

  /** The source elements whose key the destination lacks. */
  function Fresh<T, K(==)>(key: T -> K, dst: seq<T>, src: seq<T>): seq<T> {
    if src == [] then []
    else
      var n := |src| - 1;
      Fresh(key, dst, src[..n]) + if key(src[n]) in KeysOf(key, dst) then [] else [src[n]]
  }

  lemma {:induction false} FreshFrom<T(!new), K(!new)>(key: T -> K, dst: seq<T>, src: seq<T>, x: T)
    ensures x in Fresh(key, dst, src) <==> x in src && key(x) !in KeysOf(key, dst)
  {
    if src != [] {
      var n := |src| - 1;
      FreshFrom(key, dst, src[..n], x);
      assert src == src[..n] + [src[n]];
    }
  }

  /** What becomes of the i-th destination element: only the first of its key meets the source. */
  function Position<T, K(==)>(merge: (T, T) -> T, key: T -> K, dst: seq<T>, src: seq<T>, i: nat): T
    requires i < |dst|
  {
    var s := IndexOf(key, src, key(dst[i]));
    if IndexOf(key, dst, key(dst[i])) == i && s < |src| then merge(dst[i], src[s]) else dst[i]
  }

  lemma PrefixKeys<T(!new), K(!new)>(merge: (T, T) -> T, key: T -> K, dst: seq<T>, src: seq<T>)
    requires KeepsKey(merge, key)
    ensures var result := MergeAll(merge, key, dst, src);
            |dst| <= |result| && forall i | 0 <= i < |dst| :: key(result[i]) == key(dst[i])
  {
    var result := MergeAll(merge, key, dst, src);
    MergedKeys(merge, key, dst, src);
    var keys := KeysOf(key, result);
    forall i | 0 <= i < |dst| ensures key(result[i]) == key(dst[i]) {
      assert keys[i] == KeysOf(key, dst)[i];
    }
  }

  /** A key of the destination is found where it was. */
  lemma FoundInPlace<T(!new), K(!new)>(merge: (T, T) -> T, key: T -> K, dst: seq<T>, src: seq<T>, k: K)
    requires KeepsKey(merge, key) && IndexOf(key, dst, k) < |dst|
    ensures IndexOf(key, MergeAll(merge, key, dst, src), k) == IndexOf(key, dst, k)
  {
    PrefixKeys(merge, key, dst, src);
    IndexIs(key, MergeAll(merge, key, dst, src), k, IndexOf(key, dst, k));
  }

  /** A new key of the source is not there until its element comes. */
  lemma NotThereYet<T(!new), K(!new)>(merge: (T, T) -> T, key: T -> K, dst: seq<T>, src: seq<T>)
    requires KeepsKey(merge, key) && src != [] && UniqueBy(src, key)
    requires IndexOf(key, dst, key(src[|src| - 1])) == |dst|
    ensures var n := |src| - 1;
            var before := MergeAll(merge, key, dst, src[..n]);
            IndexOf(key, before, key(src[n])) == |before|
  {
    var n := |src| - 1;
    MergedElement(merge, key, dst, src[..n], key(src[n]));
    FrontIndex(key, src, key(src[n]));
  }

  /** New elements follow the old ones in the order of the source. */
  lemma {:induction false} MergedTail<T(!new), K(!new)>(merge: (T, T) -> T, key: T -> K, dst: seq<T>, src: seq<T>)
    requires KeepsKey(merge, key) && UniqueBy(src, key)
    ensures |dst| <= |MergeAll(merge, key, dst, src)|
    ensures MergeAll(merge, key, dst, src)[|dst|..] == Fresh(key, dst, src)
  {
    if src != [] {
      var n := |src| - 1;
      var before, k := MergeAll(merge, key, dst, src[..n]), key(src[n]);
      MergedTail(merge, key, dst, src[..n]);
      IndexOfKey(key, dst, k);
      if IndexOf(key, dst, k) < |dst| {
        FoundInPlace(merge, key, dst, src[..n], k);
      } else {
        NotThereYet(merge, key, dst, src);
        assert (before + [src[n]])[|dst|..] == before[|dst|..] + [src[n]];
      }
    }
  }

  /** And the old elements stay where they are, the first of each key merged with its source element. */
  lemma {:induction false} MergedPosition<T(!new), K(!new)>(merge: (T, T) -> T, key: T -> K, dst: seq<T>, src: seq<T>,
                                                            i: nat)
    requires KeepsKey(merge, key) && UniqueBy(src, key) && i < |dst|
    ensures |dst| <= |MergeAll(merge, key, dst, src)|
    ensures MergeAll(merge, key, dst, src)[i] == Position(merge, key, dst, src, i)
  {
    PrefixKeys(merge, key, dst, src);
    if src != [] {
      var n := |src| - 1;
      var k := key(src[n]);
      MergedPosition(merge, key, dst, src[..n], i);
      FrontIndex(key, src, key(dst[i]));
      if IndexOf(key, dst, k) < |dst| {
        FoundInPlace(merge, key, dst, src[..n], k);
      } else {
        NotThereYet(merge, key, dst, src);
      }
    }
  }

  // ---- Merging the same source twice ------------------------------------------------------------------

  /** Merging y again changes nothing. */
  ghost predicate Absorbs<T(!new), K(!new)>(merge: (T, T) -> T, key: T -> K, y: T) {
    && merge(y, y) == y
    && forall x {:trigger merge(merge(x, y), y)} :: key(x) == key(y) ==> merge(merge(x, y), y) == merge(x, y)
  }

  /** Every source element is fully contained in the result. */
  lemma {:induction false} SourceKept<T(!new), K(!new)>(merge: (T, T) -> T, key: T -> K, dst: seq<T>, src: seq<T>, y: T)
    requires KeepsKey(merge, key) && UniqueBy(src, key)
    requires y in src && Absorbs(merge, key, y)
    ensures var result := MergeAll(merge, key, dst, src);
            MergeOne(merge, key, result, y) == result
  {
    var n := |src| - 1;
    var before := MergeAll(merge, key, dst, src[..n]);
    var result := MergeAll(merge, key, dst, src);
    if y == src[n] {
      OwnKey(merge, key, before, y);
    } else {
      assert y in src[..n];
      var i :| 0 <= i < n && src[i] == y;
      assert key(src[i]) != key(src[n]);
      SourceKept(merge, key, dst, src[..n], y);
      OtherKeyStays(merge, key, before, src[n], key(y));
    }
  }

  lemma {:induction false} MergeAgain<T(!new), K(!new)>(merge: (T, T) -> T, key: T -> K, result: seq<T>, src: seq<T>)
    requires forall y | y in src :: MergeOne(merge, key, result, y) == result
    ensures MergeAll(merge, key, result, src) == result
  {
    if src != [] {
      var n := |src| - 1;
      MergeAgain(merge, key, result, src[..n]);
      assert src[n] in src;
    }
  }

  lemma {:induction false} MergeSelf<T(!new), K(!new)>(merge: (T, T) -> T, key: T -> K, s: seq<T>)
    requires KeepsKey(merge, key) && UniqueBy(s, key)
    requires forall y | y in s :: merge(y, y) == y
    ensures MergeAll(merge, key, s, s) == s
  {
    forall y | y in s ensures MergeOne(merge, key, s, y) == s {
      var i :| 0 <= i < |s| && s[i] == y;
      SameIndex(key, s, i);
    }
    MergeAgain(merge, key, s, s);
  }

  /** Merging a source with unique keys a second time changes nothing. */
  lemma MergeSliceIdempotent<T(!new), K(!new)>(merge: (T, T) -> T, key: T -> K, dst: Slice<T>, src: Slice<T>)
    requires KeepsKey(merge, key) && UniqueBy(src.Items(), key)
    requires forall y | y in src.Items() :: Absorbs(merge, key, y)
    ensures MergeSlice(merge, key, MergeSlice(merge, key, dst, src), src) == MergeSlice(merge, key, dst, src)
    ensures MergeSlice(merge, key, src, src) == src
  {
    if src.Elems? && src.items != [] {
      MergeSelf(merge, key, src.items);
      if dst.Items() != [] {
        var result := MergeAll(merge, key, dst.items, src.items);
        forall y | y in src.items ensures MergeOne(merge, key, result, y) == result {
          SourceKept(merge, key, dst.items, src.items, y);
        }
        MergeAgain(merge, key, result, src.items);
        NotEmptied(merge, key, dst.items, src.items);
      }
    }
  }

  lemma {:induction false} NotEmptied<T(!new), K(!new)>(merge: (T, T) -> T, key: T -> K, dst: seq<T>, src: seq<T>)
    ensures |MergeAll(merge, key, dst, src)| >= |dst|
  {
    if src != [] {
      NotEmptied(merge, key, dst, src[..|src| - 1]);
    }
  }

  // ---- What each side contributes ------------------------------------------------------------------------

  /** The element of the result says all that the source element says. */
  ghost predicate Contains<T(!new), K(!new)>(merge: (T, T) -> T, key: T -> K, result: seq<T>, y: T) {
    exists z | z in result :: key(z) == key(y) && merge(z, y) == z
  }

  /** Nothing of the source is lost, and the destination keeps the elements that the source does not name. */
  ghost predicate KeptOnBothSides<T(!new), K(!new)>(merge: (T, T) -> T, key: T -> K, dst: Slice<T>, src: Slice<T>,
                                                    result: Slice<T>) {
    && (src.Nil? ==> result == dst)
    && (src.Elems? ==>
          && result.Elems?
          && (src.items == [] ==> result.items == [])
          && (forall y | y in src.items :: Contains(merge, key, result.items, y))
          && (forall x | x in dst.Items() && src.items != [] && (forall y | y in src.items :: key(y) != key(x)) ::
                x in result.items))
  }

  lemma {:induction false} DestinationKept<T(!new), K(!new)>(merge: (T, T) -> T, key: T -> K, dst: seq<T>, src: seq<T>,
                                                             x: T)
    requires KeepsKey(merge, key) && x in dst && forall y | y in src :: key(y) != key(x)
    ensures x in MergeAll(merge, key, dst, src)
  {
    if src != [] {
      var n := |src| - 1;
      var before := MergeAll(merge, key, dst, src[..n]);
      DestinationKept(merge, key, dst, src[..n], x);
      assert src[n] in src;
      var i :| 0 <= i < |before| && before[i] == x;
      assert MergeOne(merge, key, before, src[n])[i] == x;
    }
  }

  lemma SourceContained<T(!new), K(!new)>(merge: (T, T) -> T, key: T -> K, result: seq<T>, y: T)
    requires KeepsKey(merge, key) && MergeOne(merge, key, result, y) == result
    ensures Contains(merge, key, result, y)
  {
    var j := IndexOf(key, result, key(y));
    MergeOneAt(merge, key, result, y, j);
    assert |result + [y]| == |result| + 1;
    assert j < |result|;
    assert result[j] in result && result[j := merge(result[j], y)][j] == result[j];
  }

  lemma MergeKeepsBothSides<T(!new), K(!new)>(merge: (T, T) -> T, key: T -> K, dst: Slice<T>, src: Slice<T>)
    requires KeepsKey(merge, key) && UniqueBy(src.Items(), key)
    requires forall y | y in src.Items() :: Absorbs(merge, key, y)
    ensures KeptOnBothSides(merge, key, dst, src, MergeSlice(merge, key, dst, src))
  {
    if src.Elems? && src.items != [] {
      if dst.Items() == [] {
        forall y | y in src.items ensures Contains(merge, key, src.items, y) {}
      } else {
        var result := MergeAll(merge, key, dst.items, src.items);
        forall y | y in src.items ensures Contains(merge, key, result, y) {
          SourceKept(merge, key, dst.items, src.items, y);
          SourceContained(merge, key, result, y);
        }
        forall x | x in dst.items && (forall y | y in src.items :: key(y) != key(x)) ensures x in result {
          DestinationKept(merge, key, dst.items, src.items, x);
        }
      }
    }
  }

  // ---- Associativity ------------------------------------------------------------------------------------

  /** Merging elements is associative when the middle one is `ok` and the last one `tidy`. */
  ghost predicate Associates<T(!new), K(!new)>(merge: (T, T) -> T, key: T -> K, ok: T -> bool, tidy: T -> bool) {
    forall x, y, z {:trigger merge(merge(x, y), z)} :: key(x) == key(y) == key(z) && ok(y) && tidy(z) ==>
      merge(merge(x, y), z) == merge(x, merge(y, z))
  }

  /** Merging one element, when it is known where its key is. */
  lemma MergeOneAt<T, K>(merge: (T, T) -> T, key: T -> K, s: seq<T>, x: T, i: nat)
    requires IndexOf(key, s, key(x)) == i
    ensures MergeOne(merge, key, s, x) == if i < |s| then s[i := merge(s[i], x)] else s + [x]
  {
  }

  lemma UpdatesCommute<T>(s: seq<T>, i: nat, h: nat, x: T, y: T)
    requires i < |s| && h <= |s| && i != h
    ensures if h < |s| then s[i := x][h := y] == s[h := y][i := x] else s[i := x] + [y] == (s + [y])[i := x]
  {
  }

  /** Two merges into different keys commute when the first key is already there. */
  lemma MergesCommute<T(!new), K(!new)>(merge: (T, T) -> T, key: T -> K, s: seq<T>, z: T, w: T)
    requires KeepsKey(merge, key) && key(z) != key(w) && IndexOf(key, s, key(z)) < |s|
    ensures MergeOne(merge, key, MergeOne(merge, key, s, z), w) == MergeOne(merge, key, MergeOne(merge, key, s, w), z)
  {
    var i, h := IndexOf(key, s, key(z)), IndexOf(key, s, key(w));
    var withZ, withW := MergeOne(merge, key, s, z), MergeOne(merge, key, s, w);
    OtherKeyStays(merge, key, s, w, key(z));
    OtherKeyStays(merge, key, s, z, key(w));
    MergeOneAt(merge, key, withZ, w, h);
    MergeOneAt(merge, key, withW, z, i);
    UpdatesCommute(s, i, h, merge(s[i], z), if h < |s| then merge(s[h], w) else w);
  }

  lemma {:induction false} SourceKeyPresent<T(!new), K(!new)>(merge: (T, T) -> T, key: T -> K, dst: seq<T>, src: seq<T>,
                                                              j: nat)
    requires KeepsKey(merge, key) && j < |src|
    ensures IndexOf(key, MergeAll(merge, key, dst, src), key(src[j])) < |MergeAll(merge, key, dst, src)|
  {
    var n := |src| - 1;
    var before := MergeAll(merge, key, dst, src[..n]);
    OwnKey(merge, key, before, src[n]);
    if j < n && key(src[j]) != key(src[n]) {
      SourceKeyPresent(merge, key, dst, src[..n], j);
      OtherKeyStays(merge, key, before, src[n], key(src[j]));
    }
  }

  /** Merging y, then z of the same key, is merging y merged with z. */
  lemma MergeBoth<T(!new), K(!new)>(merge: (T, T) -> T, key: T -> K, ok: T -> bool, tidy: T -> bool, s: seq<T>, y: T,
                                    z: T)
    requires KeepsKey(merge, key) && Associates(merge, key, ok, tidy) && ok(y) && tidy(z) && key(y) == key(z)
    ensures MergeOne(merge, key, s, merge(y, z)) == MergeOne(merge, key, MergeOne(merge, key, s, y), z)
  {
    var i := IndexOf(key, s, key(y));
    var withY := MergeOne(merge, key, s, y);
    OwnKey(merge, key, s, y);
    MergeOneAt(merge, key, s, y, i);
    MergeOneAt(merge, key, withY, z, i);
    MergeOneAt(merge, key, s, merge(y, z), i);
    if i < |s| {
      assert merge(merge(s[i], y), z) == merge(s[i], merge(y, z));
      assert withY[i := merge(withY[i], z)] == s[i := merge(s[i], merge(y, z))];
    }
  }

  /** Appending to the source is merging once more. */
  lemma MergeAppended<T(!new), K(!new)>(merge: (T, T) -> T, key: T -> K, dst: seq<T>, front: seq<T>, w: T)
    ensures MergeAll(merge, key, dst, front + [w]) == MergeOne(merge, key, MergeAll(merge, key, dst, front), w)
  {
  }

  lemma UpdateFront<T>(s: seq<T>, j: nat, x: T)
    requires j < |s| - 1
    ensures s[j := x] == s[..|s| - 1][j := x] + [s[|s| - 1]]
  {
  }

  /** The source with z merged into it, when the last element does not take part. */
  lemma MergeBeforeLast<T(!new), K(!new)>(merge: (T, T) -> T, key: T -> K, src: seq<T>, z: T)
    requires UniqueBy(src, key) && IndexOf(key, src, key(z)) < |src| - 1
    ensures MergeOne(merge, key, src, z) == MergeOne(merge, key, src[..|src| - 1], z) + [src[|src| - 1]]
    ensures IndexOf(key, src[..|src| - 1], key(z)) == IndexOf(key, src, key(z))
  {
    FrontIndex(key, src, key(z));
    var n, j := |src| - 1, IndexOf(key, src, key(z));
    MergeOneAt(merge, key, src, z, j);
    MergeOneAt(merge, key, src[..n], z, j);
    UpdateFront(src, j, merge(src[j], z));
    assert src[..n][j] == src[j];
  }

  /** Merging one more element into the source, or into the result, is the same. */
  lemma {:induction false} MergeOneThrough<T(!new), K(!new)>(merge: (T, T) -> T, key: T -> K, ok: T -> bool,
                                                             tidy: T -> bool, dst: seq<T>, src: seq<T>, z: T)
    requires KeepsKey(merge, key) && Associates(merge, key, ok, tidy) && tidy(z)
    requires UniqueBy(src, key)
    requires forall y | y in src && key(y) == key(z) :: ok(y)
    ensures MergeAll(merge, key, dst, MergeOne(merge, key, src, z)) ==
              MergeOne(merge, key, MergeAll(merge, key, dst, src), z)
  {
    var j := IndexOf(key, src, key(z));
    MergeOneAt(merge, key, src, z, j);
    if j == |src| {
      MergeAppended(merge, key, dst, src, z);
    } else {
      var n := |src| - 1;
      var front, w := src[..n], src[n];
      var before := MergeAll(merge, key, dst, front);
      if j == n {
        assert w in src;
        assert src[n := merge(w, z)] == front + [merge(w, z)];
        MergeAppended(merge, key, dst, front, merge(w, z));
        MergeBoth(merge, key, ok, tidy, before, w, z);
      } else {
        MergeBeforeLast(merge, key, src, z);
        MergeAppended(merge, key, dst, MergeOne(merge, key, front, z), w);
        MergeOneThrough(merge, key, ok, tidy, dst, front, z);
        SourceKeyPresent(merge, key, dst, front, j);
        MergesCommute(merge, key, before, z, w);
      }
    }
  }

  /** An element whose key the source lacks is an element of the destination. */
  lemma {:induction false} FromDestination<T(!new), K(!new)>(merge: (T, T) -> T, key: T -> K, dst: seq<T>, src: seq<T>,
                                                             y: T)
    requires KeepsKey(merge, key)
    requires y in MergeAll(merge, key, dst, src) && forall x | x in src :: key(x) != key(y)
    ensures y in dst
  {
    if src != [] {
      var n := |src| - 1;
      var before := MergeAll(merge, key, dst, src[..n]);
      assert src[n] in src;
      var j := IndexOf(key, before, key(src[n]));
      var i :| 0 <= i < |MergeAll(merge, key, dst, src)| && MergeAll(merge, key, dst, src)[i] == y;
      assert i != j;
      assert before[i] == y;
      FromDestination(merge, key, dst, src[..n], y);
    }
  }

  lemma {:induction false} MergeAllAssociative<T(!new), K(!new)>(merge: (T, T) -> T, key: T -> K, ok: T -> bool,
                                                                 tidy: T -> bool, a: seq<T>, b: seq<T>, c: seq<T>)
    requires KeepsKey(merge, key) && Associates(merge, key, ok, tidy)
    requires UniqueBy(b, key) && UniqueBy(c, key)
    requires (forall y | y in b :: ok(y)) && (forall z | z in c :: tidy(z))
    ensures MergeAll(merge, key, MergeAll(merge, key, a, b), c) == MergeAll(merge, key, a, MergeAll(merge, key, b, c))
  {
    if c != [] {
      var n := |c| - 1;
      var m := MergeAll(merge, key, b, c[..n]);
      MergeAllAssociative(merge, key, ok, tidy, a, b, c[..n]);
      MergeAllUnique(merge, key, b, c[..n]);
      forall y | y in m && key(y) == key(c[n]) ensures ok(y) {
        forall x | x in c[..n] ensures key(x) != key(y) {
          var i :| 0 <= i < n && c[i] == x;
          assert key(c[i]) != key(c[n]);
        }
        FromDestination(merge, key, b, c[..n], y);
      }
      MergeOneThrough(merge, key, ok, tidy, a, m, c[n]);
    }
  }

  /** Not a list that deletes. */
  predicate NoDelete<T(==)>(s: Slice<T>) {
    s != Elems([])
  }

  /** Merging slices is associative, order included, unless the middle one deletes. */
  lemma MergeSliceAssociative<T(!new), K(!new)>(merge: (T, T) -> T, key: T -> K, ok: T -> bool, tidy: T -> bool,
                                                a: Slice<T>, b: Slice<T>, c: Slice<T>)
    requires KeepsKey(merge, key) && Associates(merge, key, ok, tidy)
    requires UniqueBy(b.Items(), key) && UniqueBy(c.Items(), key) && NoDelete(b)
    requires (forall y | y in b.Items() :: ok(y)) && (forall z | z in c.Items() :: tidy(z))
    ensures MergeSlice(merge, key, MergeSlice(merge, key, a, b), c) ==
              MergeSlice(merge, key, a, MergeSlice(merge, key, b, c))
  {
    if b.Elems? && c.Elems? && c.items != [] {
      NotEmptied(merge, key, b.items, c.items);
      if a.Items() != [] {
        NotEmptied(merge, key, a.items, b.items);
        MergeAllAssociative(merge, key, ok, tidy, a.items, b.items, c.items);
      }
    }
  }

  /** The last list starts with the keys of the first, in order, and contains all that its elements say. */
  ghost predicate ContainedInFront<T(!new), K(!new)>(merge: (T, T) -> T, key: T -> K, a: seq<T>, c: seq<T>) {
    |a| <= |c| && forall i | 0 <= i < |a| :: key(a[i]) == key(c[i]) && merge(a[i], c[i]) == c[i]
  }

  /** With a middle list that deletes, the exact condition. */
  lemma DeletingMiddleIff<T(!new), K(!new)>(merge: (T, T) -> T, key: T -> K, a: Slice<T>, c: Slice<T>)
    requires KeepsKey(merge, key) && UniqueBy(c.Items(), key)
    ensures MergeSlice(merge, key, MergeSlice(merge, key, a, Elems([])), c)
            == MergeSlice(merge, key, a, MergeSlice(merge, key, Elems([]), c))
            <==> c.Items() == [] || a.Items() == [] || ContainedInFront(merge, key, a.Items(), c.Items())
  {
    if c.Items() != [] && a.Items() != [] {
      MergeIsSourceIff(merge, key, a.items, c.items);
    }
  }

  /** The smallest case: x deleted and y added, or y added to an x that was never deleted. */
  lemma DeletingMiddleCounterexample<T(!new), K(!new)>(merge: (T, T) -> T, key: T -> K, x: T, y: T)
    requires key(x) != key(y)
    ensures MergeSlice(merge, key, MergeSlice(merge, key, Elems([x]), Elems([])), Elems([y])) == Elems([y])
    ensures MergeSlice(merge, key, Elems([x]), MergeSlice(merge, key, Elems([]), Elems([y]))) == Elems([x, y])
  {
    assert [y][..0] == [];
    assert MergeAll(merge, key, [x], [y]) == MergeOne(merge, key, [x], y);
  }

  lemma MergeIsSourceIff<T(!new), K(!new)>(merge: (T, T) -> T, key: T -> K, a: seq<T>, c: seq<T>)
    requires KeepsKey(merge, key) && UniqueBy(c, key)
    ensures MergeAll(merge, key, a, c) == c <==> ContainedInFront(merge, key, a, c)
  {
    var r := MergeAll(merge, key, a, c);
    MergedKeys(merge, key, a, c);
    if r == c {
      NotEmptied(merge, key, a, c);
      forall i | 0 <= i < |a| ensures key(a[i]) == key(c[i]) {
        assert KeysOf(key, r)[i] == KeysOf(key, a)[i];
      }
      forall i | 0 <= i < |a| ensures merge(a[i], c[i]) == c[i] {
        MergedElement(merge, key, a, c, key(c[i]));
        SameIndex(key, c, i);
        PrefixIndex(key, a, c, i);
      }
    }
    if ContainedInFront(merge, key, a, c) {
      FrontMerged(merge, key, a, c, |c|);
      assert c[..|c|] == c && a[|a|..] == [];
    }
  }

  lemma SameIndex<T, K(!new)>(key: T -> K, c: seq<T>, i: nat)
    requires UniqueBy(c, key) && i < |c|
    ensures IndexOf(key, c, key(c[i])) == i
  {
  }

  lemma PrefixIndex<T, K(!new)>(key: T -> K, a: seq<T>, c: seq<T>, i: nat)
    requires UniqueBy(c, key) && i < |a| <= |c| && forall h | 0 <= h < |a| :: key(a[h]) == key(c[h])
    ensures IndexOf(key, a, key(c[i])) == i
  {
  }

  /** The list after its first k elements were merged: those of c so far, then what is left of a. */
  function FrontOf<T>(a: seq<T>, c: seq<T>, k: nat): seq<T>
    requires k <= |c|
  {
    c[..k] + if k < |a| then a[k..] else []
  }

  lemma {:induction false} FrontMerged<T(!new), K(!new)>(merge: (T, T) -> T, key: T -> K, a: seq<T>, c: seq<T>, k: nat)
    requires UniqueBy(c, key) && k <= |c| && ContainedInFront(merge, key, a, c)
    ensures MergeAll(merge, key, a, c[..k]) == FrontOf(a, c, k)
  {
    if k > 0 {
      FrontMerged(merge, key, a, c, k - 1);
      assert c[..k][..k - 1] == c[..k - 1];
      FrontStep(merge, key, a, c, k);
    }
  }

  lemma FrontStep<T(!new), K(!new)>(merge: (T, T) -> T, key: T -> K, a: seq<T>, c: seq<T>, k: nat)
    requires UniqueBy(c, key) && 0 < k <= |c| && ContainedInFront(merge, key, a, c)
    ensures MergeOne(merge, key, FrontOf(a, c, k - 1), c[k - 1]) == FrontOf(a, c, k)
  {
  }
}
