/**
 * Generic sequence operations that stand for the JavaScript and Python list
 * primitives the point-of-sale code uses: `find` (first match), `filter` and
 * list comprehensions with a condition, and the de-duplication in first-seen
 * order that a JavaScript object gives when used as an insertion-ordered dictionary.
 */
module Seqs {
  import opened Wrappers

  /** No element occurs twice. */
  predicate Distinct<T(==)>(s: seq<T>) {
    forall i, j :: 0 <= i < j < |s| ==> s[i] != s[j]
  }

  /** The index of the first occurrence of `x` in `s` (`Array.prototype.findIndex`). */
  function FirstIndexOf<T(==)>(s: seq<T>, x: T): (r: Option<nat>)
    ensures r.None? <==> x !in s
    ensures r.Some? ==> r.value < |s| && s[r.value] == x && x !in s[..r.value]
  {
    if s == [] then None
    else if s[0] == x then Some(0)
    else
      match FirstIndexOf(s[1..], x)
      case None => None
      case Some(k) =>
        assert s[..k + 1] == [s[0]] + s[1..][..k];
        Some(k + 1)
  }

  /** The first occurrence is determined by the two facts that characterise it. */
  lemma FirstIndexOfUnique<T>(s: seq<T>, x: T, k: nat)
    requires k < |s| && s[k] == x && x !in s[..k]
    ensures FirstIndexOf(s, x) == Some(k)
  {
    var r := FirstIndexOf(s, x).value;
    forall i | 0 <= i < k ensures s[i] != x { assert s[..k][i] == s[i]; }
    forall i | 0 <= i < r ensures s[i] != x { assert s[..r][i] == s[i]; }
  }

  /** Appending an element does not move the first occurrence of anything already present. */
  lemma FirstIndexOfAppend<T>(s: seq<T>, y: T, x: T)
    ensures FirstIndexOf(s + [y], x) ==
            if x in s then FirstIndexOf(s, x) else if x == y then Some(|s|) else None
  {
    var t := s + [y];
    if x in s {
      var k := FirstIndexOf(s, x).value;
      assert t[..k] == s[..k];
      FirstIndexOfUnique(t, x, k);
    } else if x == y {
      assert t[..|s|] == s;
      FirstIndexOfUnique(t, x, |s|);
    } else {
      assert x !in t;
    }
  }

  /** The elements of `s` that satisfy `p`, in their order in `s` (`filter`, comprehension with `if`). */
  function Filter<T>(s: seq<T>, p: T -> bool): (r: seq<T>)
    ensures |r| <= |s|
    ensures forall i :: 0 <= i < |r| ==> r[i] in s && p(r[i])
    ensures forall i :: 0 <= i < |s| && p(s[i]) ==> s[i] in r
  {
    if s == [] then [] else (if p(s[0]) then [s[0]] else []) + Filter(s[1..], p)
  }

  /** Filtering distributes over concatenation: together with the one-element case this fixes both the
      contents and the order of the result. */
  lemma {:induction false} FilterAppend<T>(a: seq<T>, b: seq<T>, p: T -> bool)
    ensures Filter(a + b, p) == Filter(a, p) + Filter(b, p)
  {
    if a == [] {
      assert a + b == b;
    } else {
      assert (a + b)[1..] == a[1..] + b;
      FilterAppend(a[1..], b, p);
    }
  }

  /** A filter that every element passes returns its input, and one that none passes returns nothing. */
  lemma {:induction false} FilterAllOrNone<T>(s: seq<T>, p: T -> bool)
    ensures (forall i :: 0 <= i < |s| ==> p(s[i])) ==> Filter(s, p) == s
    ensures (forall i :: 0 <= i < |s| ==> !p(s[i])) ==> Filter(s, p) == []
  {
    if s != [] {
      FilterAllOrNone(s[1..], p);
      if forall i :: 0 <= i < |s| ==> p(s[i]) {
        assert forall i :: 0 <= i < |s[1..]| ==> p(s[1..][i]) by {
          forall i | 0 <= i < |s[1..]| ensures p(s[1..][i]) { assert s[1..][i] == s[i + 1]; }
        }
        assert [s[0]] + s[1..] == s;
      }
      if forall i :: 0 <= i < |s| ==> !p(s[i]) {
        assert forall i :: 0 <= i < |s[1..]| ==> !p(s[1..][i]) by {
          forall i | 0 <= i < |s[1..]| ensures !p(s[1..][i]) { assert s[1..][i] == s[i + 1]; }
        }
      }
    }
  }

  /** A filter that exactly one element fails removes that element and keeps the others in order. */
  lemma {:induction false} FilterOmitsOne<T>(s: seq<T>, p: T -> bool, k: nat)
    requires k < |s| && !p(s[k])
    requires forall i :: 0 <= i < |s| && i != k ==> p(s[i])
    ensures Filter(s, p) == s[..k] + s[k + 1..]
  {
    var t := s[1..];
    if k == 0 {
      assert forall i :: 0 <= i < |t| ==> p(t[i]) by {
        forall i | 0 <= i < |t| ensures p(t[i]) { assert t[i] == s[i + 1]; }
      }
      FilterAllOrNone(t, p);
    } else {
      assert forall i :: 0 <= i < |t| && i != k - 1 ==> p(t[i]) by {
        forall i | 0 <= i < |t| && i != k - 1 ensures p(t[i]) { assert t[i] == s[i + 1]; }
      }
      FilterOmitsOne(t, p, k - 1);
      assert s[..k] == [s[0]] + t[..k - 1];
      assert s[k + 1..] == t[k..];
    }
  }

  /** Filtering twice by the same condition is filtering once. */
  lemma FilterIdempotent<T>(s: seq<T>, p: T -> bool)
    ensures Filter(Filter(s, p), p) == Filter(s, p)
  {
    var r := Filter(s, p);
    FilterAllOrNone(r, p);
  }

  /** The distinct elements of `s`, each at the position of its first occurrence: the keys of a
      dictionary filled in the order of `s`. */
  function FirstSeen<T(==)>(s: seq<T>): (r: seq<T>)
    ensures forall i :: 0 <= i < |r| ==> r[i] in s
    ensures forall i :: 0 <= i < |s| ==> s[i] in r
    ensures Distinct(r)
  {
    if s == [] then []
    else
      var p := FirstSeen(s[..|s| - 1]);
      var last := s[|s| - 1];
      assert s == s[..|s| - 1] + [last];
      if last in p then p else p + [last]
  }

  lemma FirstSeenMembers<T>(s: seq<T>, x: T)
    ensures x in FirstSeen(s) <==> x in s
  {
    var r := FirstSeen(s);
    if x in s {
      var i :| 0 <= i < |s| && s[i] == x;
      assert s[i] in r;
    }
  }

  /** Unfolding of FirstSeen on a sequence with one more element. */
  lemma FirstSeenAppend<T>(s: seq<T>, y: T)
    ensures FirstSeen(s + [y]) == if y in s then FirstSeen(s) else FirstSeen(s) + [y]
  {
    assert (s + [y])[..|s|] == s;
  }

  /** FirstSeen keeps the order of first occurrences: an earlier key was seen first earlier. */
  lemma {:induction false} FirstSeenOrder<T>(s: seq<T>, i: nat, j: nat)
    requires i < j < |FirstSeen(s)|
    ensures FirstIndexOf(s, FirstSeen(s)[i]).value < FirstIndexOf(s, FirstSeen(s)[j]).value
  {
    var n := |s|;
    var init, last := s[..n - 1], s[n - 1];
    assert s == init + [last];
    var p := FirstSeen(init);
    var x, y := FirstSeen(s)[i], FirstSeen(s)[j];
    FirstSeenAppend(init, last);
    FirstIndexOfAppend(init, last, x);
    FirstIndexOfAppend(init, last, y);
    if j < |p| {
      FirstSeenOrder(init, i, j);
    } else {
      // y is the new last key: it first occurs at the end, after x's first occurrence in `init`
      assert y == last && y !in init;
      assert x in p;
    }
  }

  /** A sequence without repetitions has as many distinct elements as it is long. */
  lemma {:induction false} DistinctCardinality<T>(s: seq<T>)
    requires Distinct(s)
    ensures |set x | x in s| == |s|
  {
    if s != [] {
      var t := s[1..];
      assert Distinct(t) by {
        forall i, j | 0 <= i < j < |t| ensures t[i] != t[j] { assert t[i] == s[i + 1] && t[j] == s[j + 1]; }
      }
      DistinctCardinality(t);
      assert (set x | x in s) == (set x | x in t) + {s[0]} by {
        forall x | x in s ensures x in t || x == s[0] {
          var k :| 0 <= k < |s| && s[k] == x;
          if k > 0 { assert t[k - 1] == x; }
        }
        assert s == [s[0]] + t;
      }
      assert s[0] !in t by {
        forall k | 0 <= k < |t| ensures t[k] != s[0] { assert t[k] == s[k + 1]; }
      }
    }
  }

  /** FirstSeen returns exactly one key per distinct element: `len(set(s))` counts the groups. */
  lemma FirstSeenCardinality<T>(s: seq<T>)
    ensures |FirstSeen(s)| == |set x | x in s|
  {
    var r := FirstSeen(s);
    DistinctCardinality(r);
    assert (set x | x in r) == (set x | x in s);
  }

  /** How many times `x` occurs in `s`. */
  function Occurrences<T(==)>(s: seq<T>, x: T): (n: nat)
    ensures n <= |s|
    ensures n == 0 <==> x !in s
  {
    if s == [] then 0
    else
      assert s == s[..|s| - 1] + [s[|s| - 1]];
      Occurrences(s[..|s| - 1], x) + (if s[|s| - 1] == x then 1 else 0)
  }

  lemma OccurrencesAppend<T>(s: seq<T>, y: T, x: T)
    ensures Occurrences(s + [y], x) == Occurrences(s, x) + (if y == x then 1 else 0)
  {
    assert (s + [y])[..|s|] == s;
  }

  /** A key of a sequence without repetitions occurs in it exactly once. */
  lemma {:induction false} OccursOnce<T>(keys: seq<T>, y: T)
    requires Distinct(keys) && y in keys
    ensures Occurrences(keys, y) == 1
  {
    var init, last := keys[..|keys| - 1], keys[|keys| - 1];
    assert keys == init + [last];
    if last == y {
      assert y !in init by {
        forall k | 0 <= k < |init| ensures init[k] != y { assert init[k] == keys[k]; }
      }
    } else {
      assert Distinct(init) by {
        forall i, j | 0 <= i < j < |init| ensures init[i] != init[j] { assert init[i] == keys[i] && init[j] == keys[j]; }
      }
      OccursOnce(init, y);
    }
  }

  /** The occurrences in `s` of every key of `keys`, added up. */
  function SumOccurrences<T(==)>(s: seq<T>, keys: seq<T>): nat {
    if keys == [] then 0
    else SumOccurrences(s, keys[..|keys| - 1]) + Occurrences(s, keys[|keys| - 1])
  }

  lemma {:induction false} SumOccurrencesAppend<T>(s: seq<T>, y: T, keys: seq<T>)
    ensures SumOccurrences(s + [y], keys) == SumOccurrences(s, keys) + Occurrences(keys, y)
  {
    if keys != [] {
      var init, last := keys[..|keys| - 1], keys[|keys| - 1];
      SumOccurrencesAppend(s, y, init);
      OccurrencesAppend(s, y, last);
      OccurrencesAppend(init, last, y);
      assert keys == init + [last];
    }
  }

  /** Keys without repetitions that cover every element of `s` count each element of `s` once. */
  lemma {:induction false} SumOccurrencesCover<T>(s: seq<T>, keys: seq<T>)
    requires Distinct(keys)
    requires forall i :: 0 <= i < |s| ==> s[i] in keys
    ensures SumOccurrences(s, keys) == |s|
  {
    if s == [] {
      SumOccurrencesEmpty(keys);
    } else {
      var init, last := s[..|s| - 1], s[|s| - 1];
      assert s == init + [last];
      assert forall i :: 0 <= i < |init| ==> init[i] in keys by {
        forall i | 0 <= i < |init| ensures init[i] in keys { assert init[i] == s[i]; }
      }
      SumOccurrencesCover(init, keys);
      SumOccurrencesAppend(init, last, keys);
      OccursOnce(keys, last);
    }
  }

  lemma {:induction false} SumOccurrencesEmpty<T>(keys: seq<T>)
    ensures SumOccurrences([], keys) == 0
  {
    if keys != [] {
      SumOccurrencesEmpty(keys[..|keys| - 1]);
    }
  }
}
