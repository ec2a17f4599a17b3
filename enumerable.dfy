/**
 * The LINQ operators the merge uses: `Select(...) ?? []` and `Union`, which
 * enumerates the first sequence and then the second and keeps each element whose
 * key the comparer has not seen yet.
 */
module Enumerable {
  import opened Wrappers

  /** `source?.Select(selector) ?? []`. */
  function SelectOrEmpty<T, U>(source: Option<seq<T>>, selector: T -> U): (r: seq<U>)
    ensures |r| == |source.GetOr([])|
    ensures forall i :: 0 <= i < |r| ==> r[i] == selector(source.value[i])
  {
    match source
    case None => []
    case Some(s) => seq(|s|, i requires 0 <= i < |s| => selector(s[i]))
  }

  /** The keys of the elements of `s`. */
  ghost function KeySet<T, K>(s: seq<T>, key: T -> K): set<K> {
    set i | 0 <= i < |s| :: key(s[i])
  }

  /** No two elements of `s` have the same key. */
  ghost predicate DistinctKeys<T, K>(s: seq<T>, key: T -> K) {
    forall i, j :: 0 <= i < j < |s| ==> key(s[i]) != key(s[j])
  }

  /**
   * The element-by-element core of `Union`: the set of `seen` keys grows as `s` is
   * enumerated, and an element is yielded only when its key is new.
   */
  function DistinctBy<T, K(==)>(s: seq<T>, key: T -> K, seen: set<K>): (r: seq<T>)
    ensures |r| <= |s|
    ensures forall i :: 0 <= i < |r| ==> key(r[i]) !in seen
    ensures DistinctKeys(r, key)
    decreases |s|
  {
    if s == [] then []
    else if key(s[0]) in seen then DistinctBy(s[1..], key, seen)
    else [s[0]] + DistinctBy(s[1..], key, seen + {key(s[0])})
  }

  /** `first.Union(second, comparer)` for a comparer that compares `key`s. */
  function UnionWith<T, K(==)>(first: seq<T>, second: seq<T>, key: T -> K): (r: seq<T>)
    ensures DistinctKeys(r, key)
    ensures |r| <= |first| + |second|
  {
    DistinctBy(first + second, key, {})
  }

  function Identity<T>(x: T): T { x }

  /** `first.Union(second)` with the default (ordinal) equality. */
  function Union<T(==)>(first: seq<T>, second: seq<T>): (r: seq<T>)
    ensures forall i, j :: 0 <= i < j < |r| ==> r[i] != r[j]
  {
    UnionWith(first, second, Identity)
  }

  // ---------------------------------------------------------------------------
  // Properties
  // ---------------------------------------------------------------------------

  /** `DistinctBy` keeps exactly the keys of `s` not already seen. */
  lemma {:induction false} DistinctByKeys<T, K>(s: seq<T>, key: T -> K, seen: set<K>)
    ensures KeySet(DistinctBy(s, key, seen), key) == KeySet(s, key) - seen
    decreases |s|
  {
    if s != [] {
      var rest := s[1..];
      KeySetCons(s[0], rest, key);
      assert [s[0]] + rest == s;
      if key(s[0]) in seen {
        DistinctByKeys(rest, key, seen);
      } else {
        DistinctByKeys(rest, key, seen + {key(s[0])});
        KeySetCons(s[0], DistinctBy(rest, key, seen + {key(s[0])}), key);
      }
    }
  }

  lemma KeySetCons<T, K>(x: T, s: seq<T>, key: T -> K)
    ensures KeySet([x] + s, key) == {key(x)} + KeySet(s, key)
  {
    var xs := [x] + s;
    assert key(xs[0]) == key(x);
    forall k | k in KeySet(xs, key) ensures k in {key(x)} + KeySet(s, key) {
      var i :| 0 <= i < |xs| && key(xs[i]) == k;
      if i > 0 { assert key(s[i - 1]) == k; }
    }
    forall k | k in KeySet(s, key) ensures k in KeySet(xs, key) {
      var i :| 0 <= i < |s| && key(s[i]) == k;
      assert key(xs[i + 1]) == k;
    }
  }

  /** Enumerating `a + b` is enumerating `a`, then `b` with `a`'s keys seen. */
  lemma {:induction false} DistinctByAppend<T, K>(a: seq<T>, b: seq<T>, key: T -> K, seen: set<K>)
    ensures DistinctBy(a + b, key, seen) == DistinctBy(a, key, seen) + DistinctBy(b, key, seen + KeySet(a, key))
    decreases |a|
  {
    if a == [] {
      assert a + b == b;
      assert KeySet(a, key) == {};
      assert seen + KeySet(a, key) == seen;
    } else {
      assert (a + b)[0] == a[0] && (a + b)[1..] == a[1..] + b;
      KeySetCons(a[0], a[1..], key);
      assert [a[0]] + a[1..] == a;
      if key(a[0]) in seen {
        DistinctByAppend(a[1..], b, key, seen);
        assert seen + KeySet(a[1..], key) == seen + KeySet(a, key);
      } else {
        DistinctByAppend(a[1..], b, key, seen + {key(a[0])});
        assert seen + {key(a[0])} + KeySet(a[1..], key) == seen + KeySet(a, key);
      }
    }
  }

  /** A sequence whose keys are distinct and all unseen passes through unchanged. */
  lemma {:induction false} DistinctByKeepsDistinct<T, K>(s: seq<T>, key: T -> K, seen: set<K>)
    requires DistinctKeys(s, key)
    requires forall i :: 0 <= i < |s| ==> key(s[i]) !in seen
    ensures DistinctBy(s, key, seen) == s
    decreases |s|
  {
    if s != [] {
      DistinctByKeepsDistinct(s[1..], key, seen + {key(s[0])});
    }
  }

  /**
   * The first element of `s` with a given unseen key is the one `DistinctBy` keeps
   * (so a later duplicate never replaces it).
   */
  lemma {:induction false} DistinctByKeepsFirst<T, K>(s: seq<T>, key: T -> K, seen: set<K>, j: nat)
    requires j < |s| && key(s[j]) !in seen
    requires forall m :: 0 <= m < j ==> key(s[m]) != key(s[j])
    ensures s[j] in DistinctBy(s, key, seen)
    decreases |s|
  {
    if j > 0 {
      if key(s[0]) in seen {
        DistinctByKeepsFirst(s[1..], key, seen, j - 1);
      } else {
        DistinctByKeepsFirst(s[1..], key, seen + {key(s[0])}, j - 1);
      }
    }
  }

  /**
   * `Union` with a key comparer: the keys of the result are the keys of both
   * inputs, each once; if `first` has no duplicate keys it is kept as a prefix, in
   * order, so the result is never shorter than `first`.
   */
  lemma UnionWithSpec<T, K>(first: seq<T>, second: seq<T>, key: T -> K)
    ensures KeySet(UnionWith(first, second, key), key) == KeySet(first, key) + KeySet(second, key)
    ensures DistinctKeys(first, key) ==>
      UnionWith(first, second, key) == first + DistinctBy(second, key, KeySet(first, key))
  {
    var s := first + second;
    DistinctByKeys(s, key, {});
    forall k | k in KeySet(s, key) ensures k in KeySet(first, key) + KeySet(second, key) {
      var i :| 0 <= i < |s| && key(s[i]) == k;
      if i < |first| { assert key(first[i]) == k; } else { assert key(second[i - |first|]) == k; }
    }
    forall k | k in KeySet(first, key) + KeySet(second, key) ensures k in KeySet(s, key) {
      if k in KeySet(first, key) {
        var i :| 0 <= i < |first| && key(first[i]) == k;
        assert key(s[i]) == k;
      } else {
        var i :| 0 <= i < |second| && key(second[i]) == k;
        assert key(s[|first| + i]) == k;
      }
    }
    if DistinctKeys(first, key) {
      DistinctByAppend(first, second, key, {});
      DistinctByKeepsDistinct(first, key, {});
      assert {} + KeySet(first, key) == KeySet(first, key);
    }
  }

  /** The elements `Union` yields: those of both inputs, each once, `first`'s first. */
  lemma UnionSpec<T>(first: seq<T>, second: seq<T>)
    ensures var r := Union(first, second);
      && (forall x :: x in r <==> x in first || x in second)
      && ((forall i, j :: 0 <= i < j < |first| ==> first[i] != first[j]) ==> |r| >= |first| && r[..|first|] == first)
  {
    var id := Identity;
    var r := Union(first, second);
    UnionWithSpec(first, second, id);
    forall x ensures x in r <==> x in first || x in second {
      if x in r {
        var i :| 0 <= i < |r| && r[i] == x;
        assert id(r[i]) in KeySet(r, id);
      }
      if x in first {
        var i :| 0 <= i < |first| && first[i] == x;
        assert id(first[i]) in KeySet(first, id);
      }
      if x in second {
        var i :| 0 <= i < |second| && second[i] == x;
        assert id(second[i]) in KeySet(second, id);
      }
    }
  }
}
