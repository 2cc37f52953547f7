/**
 * The sort by an integer key that `List.sort(comparing(...))` and
 * `Stream.sorted(comparing(...))` perform, as an insertion sort in which an
 * element goes after every element whose key is not larger. What is proved
 * is that the result is a permutation ordered by the key.
 */
module Sorting {

  /** `s` is in non-decreasing order of `key`. */
  predicate SortedBy<T>(s: seq<T>, key: T -> int)
  {
    forall i, j :: 0 <= i < j < |s| ==> key(s[i]) <= key(s[j])
  }

  /** Inserts `x` after every element of `s` whose key is at most `key(x)`. */
  function Insert<T>(x: T, s: seq<T>, key: T -> int): (r: seq<T>)
    ensures multiset(r) == multiset(s) + multiset{x}
  {
    if s == [] then [x]
    else if key(x) < key(s[0]) then [x] + s
    else
      assert s == [s[0]] + s[1..];
      [s[0]] + Insert(x, s[1..], key)
  }

  lemma {:induction false} InsertSorted<T>(x: T, s: seq<T>, key: T -> int)
    requires SortedBy(s, key)
    ensures SortedBy(Insert(x, s, key), key)
  {
    if s != [] && key(x) >= key(s[0]) {
      var rest := Insert(x, s[1..], key);
      InsertSorted(x, s[1..], key);
      var r := [s[0]] + rest;
      assert Insert(x, s, key) == r;
      forall i, j | 0 <= i < j < |r| ensures key(r[i]) <= key(r[j]) {
        if i == 0 {
          var y := rest[j - 1];
          assert y in multiset(rest);
          assert y == x || y in multiset(s[1..]);
          assert y == x || y in s[1..];
        } else {
          assert r[i] == rest[i - 1] && r[j] == rest[j - 1];
        }
      }
    }
  }

  /** The list sorted by `key`: a permutation of `s` in which keys never decrease. */
  function SortBy<T>(s: seq<T>, key: T -> int): (r: seq<T>)
    ensures multiset(r) == multiset(s)
    ensures SortedBy(r, key)
  {
    if s == [] then []
    else
      assert s == s[..|s| - 1] + [s[|s| - 1]];
      var sorted := SortBy(s[..|s| - 1], key);
      InsertSorted(s[|s| - 1], sorted, key);
      Insert(s[|s| - 1], sorted, key)
  }

  /** An element found at two positions occurs at least twice. */
  lemma DuplicateCounts<T>(s: seq<T>, i: nat, j: nat)
    requires i < j < |s| && s[i] == s[j]
    ensures multiset(s)[s[i]] >= 2
  {
    assert s == s[..j] + [s[j]] + s[j + 1..];
    assert s[i] in s[..j];
    assert multiset(s[..j])[s[i]] >= 1;
  }

  function Map<A, B>(f: A -> B, s: seq<A>): (r: seq<B>)
    ensures |r| == |s| && forall i :: 0 <= i < |s| ==> r[i] == f(s[i])
  {
    seq(|s|, i requires 0 <= i < |s| => f(s[i]))
  }

  lemma MapConcat<A, B>(f: A -> B, x: seq<A>, y: seq<A>)
    ensures Map(f, x + y) == Map(f, x) + Map(f, y)
  {
  }

  /** Mapping two permutations of each other gives two permutations of each other. */
  lemma {:induction false} MapPermutation<A, B>(f: A -> B, a: seq<A>, b: seq<A>)
    requires multiset(a) == multiset(b)
    ensures multiset(Map(f, a)) == multiset(Map(f, b))
    decreases |a|
  {
    if a == [] {
      assert b == [] by {
        assert |multiset(b)| == |b|;
      }
    } else {
      assert a[0] in multiset(b);
      var k :| 0 <= k < |b| && b[k] == a[0];
      var rest := b[..k] + b[k + 1..];
      RemoveOne(a, b, k);
      MapPermutation(f, a[1..], rest);
      var ma, ma1 := Map(f, a), Map(f, a[1..]);
      var mb, mb0, mb1 := Map(f, b), Map(f, b[..k]), Map(f, b[k + 1..]);
      assert ma == [f(a[0])] + ma1;
      assert mb == mb0 + [f(b[k])] + mb1;
      assert Map(f, rest) == mb0 + mb1;
      calc {
        multiset(ma);
        multiset([f(a[0])]) + multiset(ma1);
        multiset([f(a[0])]) + multiset(mb0 + mb1);
        multiset(mb0) + multiset([f(b[k])]) + multiset(mb1);
        multiset(mb);
      }
    }
  }

  lemma RemoveOne<T>(a: seq<T>, b: seq<T>, k: nat)
    requires a != [] && k < |b| && b[k] == a[0]
    requires multiset(a) == multiset(b)
    ensures multiset(a[1..]) == multiset(b[..k] + b[k + 1..])
  {
    var rest := b[..k] + b[k + 1..];
    assert b == b[..k] + [b[k]] + b[k + 1..];
    assert a == [a[0]] + a[1..];
    calc {
      multiset(a[1..]);
      multiset(a) - multiset{a[0]};
      multiset(b) - multiset{b[k]};
      multiset(rest);
    }
  }

  /** The list rotated left by `n` places: a reordering such as a query may hand back. */
  function Rotate<T>(s: seq<T>, n: nat): (r: seq<T>)
    ensures multiset(r) == multiset(s)
  {
    if s == [] then [] else
      var k := n % |s|;
      assert s == s[..k] + s[k..];
      s[k..] + s[..k]
  }
}
