/** Sequence helpers shared by the pool and repair code: filters, permutations, occurrence counts. */
module Collections {

  /** `s.filter(p)`: the elements satisfying `p`, in their original order. */
  function Filter<T>(s: seq<T>, p: T -> bool): (r: seq<T>)
    ensures |r| <= |s|
    ensures forall x :: x in r ==> x in s && p(x)
    ensures forall x :: x in s && p(x) ==> x in r
    ensures forall i :: 0 <= i < |r| ==> p(r[i])
  {
    if s == [] then [] else (if p(s[0]) then [s[0]] else []) + Filter(s[1..], p)
  }

  /** Filtering a sequence whose first element is `h`. */
  lemma FilterCons<T>(s: seq<T>, p: T -> bool)
    requires s != []
    ensures Filter(s, p) == (if p(s[0]) then [s[0]] else []) + Filter(s[1..], p)
  {
  }

  lemma {:induction false} FilterAppend<T>(a: seq<T>, b: seq<T>, p: T -> bool)
    ensures Filter(a + b, p) == Filter(a, p) + Filter(b, p)
    decreases |a|
  {
    if a == [] {
      assert a + b == b;
    } else {
      var ab := a + b;
      assert ab[0] == a[0] && ab[1..] == a[1..] + b;
      var h := if p(a[0]) then [a[0]] else [];
      var fa := Filter(a[1..], p);
      var fb := Filter(b, p);
      FilterAppend(a[1..], b, p);
      calc {
        Filter(ab, p);
        { FilterCons(ab, p); }
        h + Filter(a[1..] + b, p);
        h + (fa + fb);
        (h + fa) + fb;
        { FilterCons(a, p); }
        Filter(a, p) + fb;
      }
    }
  }

  /** Filtering a sequence with one more element at the end. */
  lemma FilterSnoc<T>(s: seq<T>, x: T, p: T -> bool)
    ensures Filter(s + [x], p) == Filter(s, p) + (if p(x) then [x] else [])
  {
    FilterAppend(s, [x], p);
    assert [x][1..] == [];
  }

  /** A filter that keeps everything changes nothing. */
  lemma {:induction false} FilterAll<T>(s: seq<T>, p: T -> bool)
    requires forall x :: x in s ==> p(x)
    ensures Filter(s, p) == s
    decreases |s|
  {
    if s != [] {
      FilterAll(s[1..], p);
    }
  }

  /** A filter that keeps nothing is empty. */
  lemma {:induction false} FilterNone<T>(s: seq<T>, p: T -> bool)
    requires forall x :: x in s ==> !p(x)
    ensures Filter(s, p) == []
    decreases |s|
  {
    if s != [] {
      FilterNone(s[1..], p);
    }
  }

  lemma {:induction false} FilterMultiset<T>(s: seq<T>, p: T -> bool, x: T)
    ensures multiset(Filter(s, p))[x] == if p(x) then multiset(s)[x] else 0
    decreases |s|
  {
    if s != [] {
      FilterMultiset(s[1..], p, x);
      assert s == [s[0]] + s[1..];
    }
  }

  /** `perm` lists each of 0..n-1 exactly once. */
  predicate IsPermutation(perm: seq<int>, n: nat)
  {
    |perm| == n
    && (forall i :: 0 <= i < n ==> 0 <= perm[i] < n)
    && (forall i, j :: 0 <= i < j < n ==> perm[i] != perm[j])
  }

  /** The identity permutation 0, 1, …, n-1. */
  function Identity(n: nat): (perm: seq<int>)
    ensures IsPermutation(perm, n)
  {
    seq(n, i => i)
  }

  /** `s.map(f)`. */
  function Map<T, U>(s: seq<T>, f: T -> U): (r: seq<U>)
    ensures |r| == |s|
    ensures forall i :: 0 <= i < |s| ==> r[i] == f(s[i])
  {
    if s == [] then [] else [f(s[0])] + Map(s[1..], f)
  }

  /** `findIndex` with "not found" as `|s|`: the position of the first element satisfying `p`. */
  function FirstIndex<T>(s: seq<T>, p: T -> bool): (i: nat)
    ensures i <= |s|
    ensures i < |s| ==> p(s[i])
    ensures forall j :: 0 <= j < i ==> !p(s[j])
  {
    if s == [] then 0 else if p(s[0]) then 0 else 1 + FirstIndex(s[1..], p)
  }

  /** Mapping a sequence with one more element at the end. */
  lemma MapSnoc<T, U>(s: seq<T>, x: T, f: T -> U)
    ensures Map(s + [x], f) == Map(s, f) + [f(x)]
  {
  }

  /** Elements of `s` in the order `perm` names them. */
  function Permute<T>(s: seq<T>, perm: seq<int>): (r: seq<T>)
    requires IsPermutation(perm, |s|)
    ensures |r| == |s|
    ensures forall i :: 0 <= i < |s| ==> r[i] == s[perm[i]]
  {
    seq(|s|, i requires 0 <= i < |s| => s[perm[i]])
  }

  /** No two elements share a key. */
  predicate UniqueKeys<T>(s: seq<T>, key: T -> int)
  {
    forall i, j :: 0 <= i < j < |s| ==> key(s[i]) != key(s[j])
  }

  /** The keys after the first element of a sequence with unique keys all differ from the first. */
  lemma HeadKeyFresh<T>(s: seq<T>, key: T -> int)
    requires s != [] && UniqueKeys(s, key)
    ensures UniqueKeys(s[1..], key)
    ensures forall x :: x in s[1..] ==> key(x) != key(s[0])
  {
    var tail := s[1..];
    forall i, j | 0 <= i < j < |tail| ensures key(tail[i]) != key(tail[j]) {
      assert tail[i] == s[i + 1] && tail[j] == s[j + 1];
    }
    forall x | x in tail ensures key(x) != key(s[0]) {
      var k :| 0 <= k < |tail| && tail[k] == x;
      assert s[k + 1] == x;
    }
  }

  /** The keys before the last element of a sequence with unique keys all differ from the last. */
  lemma LastKeyFresh<T>(s: seq<T>, key: T -> int)
    requires s != [] && UniqueKeys(s, key)
    ensures UniqueKeys(s[..|s| - 1], key)
    ensures forall i :: 0 <= i < |s| - 1 ==> key(s[i]) != key(s[|s| - 1])
  {
  }

  /** Putting an element with a fresh key in front keeps keys unique. */
  lemma ConsUniqueKeys<T>(h: T, f: seq<T>, key: T -> int)
    requires UniqueKeys(f, key) && forall x :: x in f ==> key(x) != key(h)
    ensures UniqueKeys([h] + f, key)
  {
    var r := [h] + f;
    forall i, j | 0 <= i < j < |r| ensures key(r[i]) != key(r[j]) {
      assert r[j] == f[j - 1] && r[j] in f;
      if i > 0 {
        assert r[i] == f[i - 1];
      }
    }
  }

  /** A filter keeps keys unique. */
  lemma {:induction false} FilterKeepsUniqueKeys<T>(s: seq<T>, key: T -> int, p: T -> bool)
    requires UniqueKeys(s, key)
    ensures UniqueKeys(Filter(s, p), key)
    decreases |s|
  {
    if s != [] {
      HeadKeyFresh(s, key);
      FilterKeepsUniqueKeys(s[1..], key, p);
      FilterCons(s, p);
      if p(s[0]) {
        ConsUniqueKeys(s[0], Filter(s[1..], p), key);
      }
    }
  }

  /** A rearrangement keeps keys unique. */
  lemma PermutationKeepsUniqueKeys<T>(a: seq<T>, b: seq<T>, key: T -> int)
    requires multiset(a) == multiset(b) && UniqueKeys(a, key)
    ensures UniqueKeys(b, key)
  {
    forall i, j | 0 <= i < j < |b| ensures key(b[i]) != key(b[j]) {
      assert b[i] in multiset(a) && b[j] in multiset(a);
      var x :| 0 <= x < |a| && a[x] == b[i];
      var y :| 0 <= y < |a| && a[y] == b[j];
      TwoCopies(b, i, j);
      OccursOnce(a, key, x);
      assert x != y;
    }
  }

  /** Equal elements at two positions occur at least twice. */
  lemma TwoCopies<T>(b: seq<T>, i: nat, j: nat)
    requires i < j < |b|
    ensures b[i] == b[j] ==> multiset(b)[b[i]] >= 2
  {
    assert b == b[..i] + [b[i]] + b[i + 1..j] + [b[j]] + b[j + 1..];
  }

  /** With unique keys each element occurs once. */
  lemma OccursOnce<T>(a: seq<T>, key: T -> int, x: nat)
    requires x < |a| && UniqueKeys(a, key)
    ensures multiset(a)[a[x]] == 1
  {
    assert a == a[..x] + [a[x]] + a[x + 1..];
    forall k | 0 <= k < x ensures a[k] != a[x] {
      assert key(a[k]) != key(a[x]);
    }
    forall k | x < k < |a| ensures a[k] != a[x] {
      assert key(a[x]) != key(a[k]);
    }
    assert a[x] !in a[..x];
    assert a[x] !in a[x + 1..];
  }

  /** No value occurs twice. */
  predicate Distinct<T(==)>(s: seq<T>)
  {
    forall i, j :: 0 <= i < j < |s| ==> s[i] != s[j]
  }

  /** The values occurring in `s`. */
  function Elements<T(!new)>(s: seq<T>): (r: set<T>)
    ensures forall x :: x in r <==> x in s
  {
    set x | x in s
  }

  /** A duplicate-free sequence has as many elements as its set of values. */
  lemma {:induction false} DistinctCardinality<T(!new)>(s: seq<T>)
    requires Distinct(s)
    ensures |Elements(s)| == |s|
    decreases |s|
  {
    if s != [] {
      var init := s[..|s| - 1];
      var last := s[|s| - 1];
      assert s == init + [last];
      assert Distinct(init);
      DistinctCardinality(init);
      assert forall k :: 0 <= k < |init| ==> init[k] == s[k] != last;
      assert Elements(s) == Elements(init) + {last};
    }
  }

  /** Appending a value not yet present keeps a sequence duplicate-free. */
  lemma DistinctSnoc<T>(s: seq<T>, x: T)
    requires Distinct(s) && x !in s
    ensures Distinct(s + [x])
  {
    var t := s + [x];
    forall i, j | 0 <= i < j < |t| ensures t[i] != t[j] {
      if j == |s| {
        assert t[i] == s[i] && s[i] in s;
      } else {
        assert t[i] == s[i] && t[j] == s[j];
      }
    }
  }

  /** The values of `s + [x]` are those of `s` and `x`. */
  lemma ElementsSnoc<T(!new)>(s: seq<T>, x: T)
    ensures Elements(s + [x]) == Elements(s) + {x}
  {
    assert forall y :: y in s + [x] <==> y in s || y == x;
  }

  /** `Array.from(new Set(ids))`: the first occurrence of each id, in order. */
  function Dedupe<T(==,!new)>(ids: seq<T>): (r: seq<T>)
    ensures Distinct(r)
    ensures forall x :: x in r <==> x in ids
  {
    if ids == [] then []
    else
      var p := Dedupe(ids[..|ids| - 1]);
      var x := ids[|ids| - 1];
      assert forall z :: z in ids <==> z in ids[..|ids| - 1] || z == x;
      if x in p then p else (DistinctSnoc(p, x); p + [x])
  }

  /** Mapping a concatenation maps each part. */
  lemma {:induction false} MapAppend<T, U>(a: seq<T>, b: seq<T>, f: T -> U)
    ensures Map(a + b, f) == Map(a, f) + Map(b, f)
    decreases |a|
  {
    if a != [] {
      assert (a + b)[1..] == a[1..] + b;
      MapAppend(a[1..], b, f);
    } else {
      assert a + b == b;
    }
  }

  /** A sequence is duplicate-free exactly when no value occurs twice in it. */
  lemma {:induction false} DistinctCounts<T>(s: seq<T>)
    ensures Distinct(s) <==> forall x :: multiset(s)[x] <= 1
    decreases |s|
  {
    if Distinct(s) && s != [] {
      var init := s[..|s| - 1];
      var y := s[|s| - 1];
      assert s == init + [y];
      assert Distinct(init) by {
        forall i, j | 0 <= i < j < |init| ensures init[i] != init[j] {
          assert init[i] == s[i] && init[j] == s[j];
        }
      }
      DistinctCounts(init);
      assert forall i :: 0 <= i < |init| ==> init[i] == s[i];
      assert multiset(s) == multiset(init) + multiset{y};
    }
    if forall x :: multiset(s)[x] <= 1 {
      forall i, j | 0 <= i < j < |s| ensures s[i] != s[j] {
        TwoCopies(s, i, j);
      }
    }
  }

  /** Deduplicating a duplicate-free sequence changes nothing. */
  lemma {:induction false} DedupeOfDistinct<T(!new)>(s: seq<T>)
    requires Distinct(s)
    ensures Dedupe(s) == s
    decreases |s|
  {
    if s != [] {
      var init := s[..|s| - 1];
      assert Distinct(init) by {
        forall i, j | 0 <= i < j < |init| ensures init[i] != init[j] {
          assert init[i] == s[i] && init[j] == s[j];
        }
      }
      DedupeOfDistinct(init);
      assert s[|s| - 1] !in init by {
        forall i | 0 <= i < |init| ensures init[i] != s[|s| - 1] {
          assert init[i] == s[i];
        }
      }
      assert s == init + [s[|s| - 1]];
    }
  }

  /**
   * `Array.from(new Set([...ids, x]))`: the deduplicated ids, then `x` unless
   * it was already among them.
   */
  lemma DedupeSnoc<T(!new)>(ids: seq<T>, x: T)
    ensures Dedupe(ids + [x]) == Dedupe(ids) + (if x in ids then [] else [x])
  {
    assert (ids + [x])[..|ids|] == ids;
  }

  /** Appending one id to a duplicate-free sequence and deduplicating adds it once, at the end, if it is new. */
  lemma DedupeAppendOne<T(!new)>(ids: seq<T>, x: T)
    requires Distinct(ids)
    ensures Dedupe(ids + [x]) == ids + (if x in ids then [] else [x])
  {
    DedupeSnoc(ids, x);
    DedupeOfDistinct(ids);
  }

  /** `ids.filter(x => x !== id)`: every other id, as often as before, and `id` never. */
  function Without(ids: seq<int>, id: int): (r: seq<int>)
    ensures id !in r
    ensures forall x :: x != id ==> multiset(r)[x] == multiset(ids)[x]
  {
    var r := Filter(ids, (x: int) => x != id);
    forall x ensures multiset(r)[x] == if x != id then multiset(ids)[x] else 0 {
      FilterMultiset(ids, (x: int) => x != id, x);
    }
    r
  }

  /**
   * `Without` keeps the order of the other ids: it removes nothing from the
   * empty list, and an id appended at the end stays at the end unless it is
   * the one removed.
   */
  lemma WithoutSnoc(ids: seq<int>, x: int, id: int)
    ensures Without([], id) == []
    ensures Without(ids + [x], id) == Without(ids, id) + (if x == id then [] else [x])
  {
    FilterAppend(ids, [x], (y: int) => y != id);
  }
}
