/** Sequence helpers shared by the stages: counting by a predicate, flattening
    (`flatMap`), and the engine's `Array.prototype.sort` modelled as a stable
    insertion sort by an integer key (`SortByStable`). */
module Seqs {

  /** The number of elements of `s` that satisfy `p`. */
  function CountWhere<T>(s: seq<T>, p: T -> bool): (n: nat)
    ensures n <= |s|
  {
    if s == [] then 0 else (if p(s[0]) then 1 else 0) + CountWhere(s[1..], p)
  }

  function Flatten<T>(ss: seq<seq<T>>): seq<T>
  {
    if ss == [] then [] else ss[0] + Flatten(ss[1..])
  }

  ghost predicate SortedBy<T>(s: seq<T>, key: T -> int)
  {
    forall i, j | 0 <= i < j < |s| :: key(s[i]) <= key(s[j])
  }

  /** Inserts `x` in front of the first element whose key is not smaller. `SortBy`
      inserts each head into the sorted tail, so the head goes before the tail's
      elements of the same key and equal keys keep their input order. */
  function Insert<T>(x: T, s: seq<T>, key: T -> int): (r: seq<T>)
    ensures multiset(r) == multiset(s) + multiset{x} && |r| == |s| + 1
  {
    if s == [] then [x]
    else if key(x) <= key(s[0]) then [x] + s
    else
      assert s == [s[0]] + s[1..];
      [s[0]] + Insert(x, s[1..], key)
  }

  /** Inserting into a sorted sequence keeps it sorted; every element of the result is
      `x` or one of `s`. */
  lemma {:induction false} InsertSorted<T>(x: T, s: seq<T>, key: T -> int)
    ensures forall i | 0 <= i < |Insert(x, s, key)| :: Insert(x, s, key)[i] == x || Insert(x, s, key)[i] in s
    ensures SortedBy(s, key) ==> SortedBy(Insert(x, s, key), key)
  {
    if s == [] {
    } else if key(x) <= key(s[0]) {
      if SortedBy(s, key) {
        ConsSorted(x, s, key);
      }
    } else {
      var t := Insert(x, s[1..], key);
      InsertSorted(x, s[1..], key);
      var r := [s[0]] + t;
      assert Insert(x, s, key) == r;
      forall i | 0 <= i < |r| ensures r[i] == x || r[i] in s {
        if i > 0 && t[i - 1] != x {
          assert t[i - 1] in s[1..];
          var j :| 0 <= j < |s[1..]| && s[1..][j] == t[i - 1];
          assert s[j + 1] == r[i];
        }
      }
      if SortedBy(s, key) {
        TailSorted(s, key);
        forall i | 0 <= i < |t| ensures key(s[0]) <= key(t[i]) {
          if t[i] != x {
            var j :| 0 <= j < |s[1..]| && s[1..][j] == t[i];
            assert s[j + 1] == t[i];
          }
        }
        ConsSorted(s[0], t, key);
      }
    }
  }

  /** The tail of a sorted sequence is sorted. */
  lemma TailSorted<T>(s: seq<T>, key: T -> int)
    requires s != [] && SortedBy(s, key)
    ensures SortedBy(s[1..], key)
  {
    forall i, j | 0 <= i < j < |s| - 1 ensures key(s[1..][i]) <= key(s[1..][j]) {
      assert s[1..][i] == s[i + 1] && s[1..][j] == s[j + 1];
    }
  }

  /** A sorted sequence stays sorted under a head no larger than any of its keys. */
  lemma ConsSorted<T>(h: T, t: seq<T>, key: T -> int)
    requires SortedBy(t, key) && forall i | 0 <= i < |t| :: key(h) <= key(t[i])
    ensures SortedBy([h] + t, key)
  {
    var r := [h] + t;
    forall i, j | 0 <= i < j < |r| ensures key(r[i]) <= key(r[j]) {
      assert r[j] == t[j - 1];
      if i > 0 {
        assert r[i] == t[i - 1];
      }
    }
  }

  /** The sorted order that `array.sort((a, b) => key(a) - key(b))` produces. */
  function SortBy<T>(s: seq<T>, key: T -> int): (r: seq<T>)
    ensures multiset(r) == multiset(s) && |r| == |s|
    ensures SortedBy(r, key)
  {
    if s == [] then []
    else
      assert s == [s[0]] + s[1..];
      InsertSorted(s[0], SortBy(s[1..], key), key);
      Insert(s[0], SortBy(s[1..], key), key)
  }

  /** Inserting `x` adds it in front of the elements of its key and leaves the other keys'
      runs alone: it only passes elements of a smaller key. */
  lemma {:induction false} InsertSelect<T>(x: T, s: seq<T>, key: T -> int, k: int)
    ensures Select(Insert(x, s, key), key, k) == (if key(x) == k then [x] else []) + Select(s, key, k)
    decreases |s|
  {
    if s == [] {
      SelectCons(x, s, key, k);
    } else if key(x) <= key(s[0]) {
      SelectCons(x, s, key, k);
    } else {
      var t := s[1..];
      InsertSelect(x, t, key, k);
      SelectCons(s[0], Insert(x, t, key), key, k);
      assert s == [s[0]] + t;
      SelectCons(s[0], t, key, k);
    }
  }

  /** The sort is stable: for every key, the elements of that key come out in their input
      order, as `Array.prototype.sort` guarantees. */
  lemma {:induction false} SortByStable<T>(s: seq<T>, key: T -> int, k: int)
    ensures Select(SortBy(s, key), key, k) == Select(s, key, k)
    decreases |s|
  {
    if s != [] {
      var h, t := s[0], s[1..];
      var sorted := SortBy(t, key);
      assert SortBy(s, key) == Insert(h, sorted, key);
      SortByStable(t, key, k);
      InsertSelect(h, sorted, key, k);
      assert s == [h] + t;
      SelectCons(h, t, key, k);
    }
  }

  // ---------------------------------------------------------------------------
  // Lemmas

  /** Appending an element leaves the earlier positions alone. */
  lemma SnocAt<T>(a: seq<T>, x: T, i: nat)
    requires i < |a|
    ensures (a + [x])[i] == a[i]
  {
  }

  lemma ConcatNil<T>(a: seq<T>)
    ensures a + [] == a
  {
  }

  /** Concatenation is associative; stated once for any element type, so that callers
      with large element types do not reason through sequence extensionality. */
  lemma ConcatAssoc<T>(a: seq<T>, b: seq<T>, c: seq<T>)
    ensures a + (b + c) == (a + b) + c
  {
  }

  lemma {:induction false} CountConcat<T>(a: seq<T>, b: seq<T>, p: T -> bool)
    ensures CountWhere(a + b, p) == CountWhere(a, p) + CountWhere(b, p)
  {
    if a == [] {
      assert a + b == b;
    } else {
      assert (a + b)[1..] == a[1..] + b;
      CountConcat(a[1..], b, p);
    }
  }

  lemma {:induction false} CountAll<T>(s: seq<T>, p: T -> bool)
    requires forall i | 0 <= i < |s| :: p(s[i])
    ensures CountWhere(s, p) == |s|
  {
    if s != [] {
      CountAll(s[1..], p);
    }
  }

  lemma {:induction false} CountNone<T>(s: seq<T>, p: T -> bool)
    requires forall i | 0 <= i < |s| :: !p(s[i])
    ensures CountWhere(s, p) == 0
  {
    if s != [] {
      CountNone(s[1..], p);
    }
  }

  /** The predicate `y => y == x`. */
  function Is<T(==)>(x: T): T -> bool
  {
    y => y == x
  }

  /** Counting the elements equal to `x` gives the multiplicity of `x`. */
  lemma {:induction false} CountIsMultiplicity<T>(s: seq<T>, x: T)
    ensures CountWhere(s, Is(x)) == multiset(s)[x]
  {
    if s != [] {
      CountIsMultiplicity(s[1..], x);
      MultisetHead(s, x);
    }
  }

  /** `s.filter(p)`: the elements that satisfy `p`, in order. */
  function Filter<T>(s: seq<T>, p: T -> bool): (r: seq<T>)
    ensures |r| == CountWhere(s, p)
    ensures forall y | y in r :: y in s && p(y)
  {
    if s == [] then [] else (if p(s[0]) then [s[0]] else []) + Filter(s[1..], p)
  }

  /** Filtering keeps the multiplicity of what satisfies `p` and drops the rest. */
  lemma {:induction false} FilterMultiplicity<T>(s: seq<T>, p: T -> bool, x: T)
    ensures multiset(Filter(s, p))[x] == if p(x) then multiset(s)[x] else 0
  {
    if s != [] {
      FilterMultiplicity(s[1..], p, x);
      MultisetHead(s, x);
    }
  }

  /** Reordering never changes a count: the basis of every count through a shuffle. */
  lemma {:induction false} CountPermutation<T>(a: seq<T>, b: seq<T>, p: T -> bool)
    requires multiset(a) == multiset(b)
    ensures CountWhere(a, p) == CountWhere(b, p)
    decreases |a|
  {
    if a == [] {
      assert |b| == |multiset(b)| == 0;
    } else {
      var x := a[0];
      var i := FindFirst(a, b);
      var b1, b2 := b[..i], b[i + 1..];
      CountPermutation(a[1..], b1 + b2, p);
      CountConcat(b1 + [x], b2, p);
      CountConcat(b1, [x], p);
      CountConcat(b1, b2, p);
      CountConcat([x], a[1..], p);
      assert CountWhere([x], p) == if p(x) then 1 else 0;
    }
  }

  /** A position of `b` that holds the head of its rearrangement `a`; removing it leaves
      a rearrangement of the tail of `a`. */
  lemma FindFirst<T>(a: seq<T>, b: seq<T>) returns (i: nat)
    requires a != [] && multiset(a) == multiset(b)
    ensures i < |b| && b[i] == a[0]
    ensures b == b[..i] + [a[0]] + b[i + 1..] && a == [a[0]] + a[1..]
    ensures multiset(a[1..]) == multiset(b[..i] + b[i + 1..])
  {
    assert a[0] in multiset(b);
    i :| 0 <= i < |b| && b[i] == a[0];
    RemoveAt(b, i);
    assert a == [a[0]] + a[1..];
    assert multiset(a[1..]) == multiset(a) - multiset{a[0]};
  }

  lemma RemoveAt<T>(s: seq<T>, i: nat)
    requires i < |s|
    ensures s == s[..i] + [s[i]] + s[i + 1..]
    ensures multiset(s[..i] + s[i + 1..]) == multiset(s) - multiset{s[i]}
  {
    assert s == s[..i] + [s[i]] + s[i + 1..];
    var m := multiset(s[..i]) + multiset(s[i + 1..]);
    assert multiset(s) == m + multiset{s[i]};
  }

  lemma {:induction false} FlattenConcat<T>(a: seq<seq<T>>, b: seq<seq<T>>)
    ensures Flatten(a + b) == Flatten(a) + Flatten(b)
  {
    if a == [] {
      assert a + b == b;
    } else {
      assert (a + b)[1..] == a[1..] + b;
      FlattenConcat(a[1..], b);
    }
  }

  /** Two sorted orders of the same elements agree when no two elements share a key:
      the order a sort produces is then fixed, whatever algorithm the engine uses. */
  lemma {:induction false} SortedUnique<T>(a: seq<T>, b: seq<T>, key: T -> int)
    requires multiset(a) == multiset(b)
    requires SortedBy(a, key) && SortedBy(b, key)
    requires KeysDistinct(a, key)
    ensures a == b
    decreases |a|
  {
    if a != [] {
      assert |b| == |multiset(b)| == |multiset(a)| == |a|;
      HeadOfSortedPermutation(a, b, key);
      assert a == [a[0]] + a[1..] && b == [b[0]] + b[1..];
      assert multiset(a[1..]) == multiset(a) - multiset{a[0]};
      assert multiset(b[1..]) == multiset(b) - multiset{b[0]};
      TailSorted(a, key);
      TailSorted(b, key);
      TailDistinct(a, key);
      SortedUnique(a[1..], b[1..], key);
    }
  }

  /** No two positions of `s` hold elements with the same key. */
  ghost predicate KeysDistinct<T>(s: seq<T>, key: T -> int)
  {
    forall i, j | 0 <= i < j < |s| :: key(s[i]) != key(s[j])
  }

  /** The tail of a sequence with distinct keys has distinct keys. */
  lemma TailDistinct<T>(s: seq<T>, key: T -> int)
    requires s != [] && KeysDistinct(s, key)
    ensures KeysDistinct(s[1..], key)
  {
    forall i, j | 0 <= i < j < |s| - 1 ensures key(s[1..][i]) != key(s[1..][j]) {
      assert s[1..][i] == s[i + 1] && s[1..][j] == s[j + 1];
    }
  }

  lemma HeadOfSortedPermutation<T>(a: seq<T>, b: seq<T>, key: T -> int)
    requires a != [] && multiset(a) == multiset(b)
    requires SortedBy(a, key) && SortedBy(b, key)
    requires KeysDistinct(a, key)
    ensures b != [] && a[0] == b[0]
  {
    assert a[0] in multiset(b) && b[0] in multiset(a);
    var i :| 0 <= i < |b| && b[i] == a[0];
    var j :| 0 <= j < |a| && a[j] == b[0];
    assert key(a[0]) <= key(a[j]);
    assert key(b[0]) <= key(b[i]);
    assert key(a[j]) == key(a[0]);
    assert j == 0;
  }

  // ---------------------------------------------------------------------------
  // Grouping by an integer key, as a `Map<number, T[]>` filled in input order

  /** The elements of `s` whose key is `k`, in order (the array a `Map` holds for `k`). */
  function Select<T>(s: seq<T>, key: T -> int, k: int): seq<T>
  {
    if s == [] then []
    else Select(s[..|s| - 1], key, k) + (if key(s[|s| - 1]) == k then [s[|s| - 1]] else [])
  }

  /** `Select` read from the front. */
  lemma {:induction false} SelectCons<T>(x: T, s: seq<T>, key: T -> int, k: int)
    ensures Select([x] + s, key, k) == (if key(x) == k then [x] else []) + Select(s, key, k)
    decreases |s|
  {
    var xs := [x] + s;
    if s == [] {
      assert xs[..|xs| - 1] == [];
    } else {
      var init := s[..|s| - 1];
      assert xs[..|xs| - 1] == [x] + init && xs[|xs| - 1] == s[|s| - 1];
      SelectCons(x, init, key, k);
    }
  }

  /** The elements of `s` whose key is not `k`, in order. */
  function Reject<T>(s: seq<T>, key: T -> int, k: int): seq<T>
  {
    if s == [] then []
    else Reject(s[..|s| - 1], key, k) + (if key(s[|s| - 1]) != k then [s[|s| - 1]] else [])
  }

  /** The keys of `s` in order of first occurrence (a `Map`'s iteration order). */
  function DistinctKeys<T>(s: seq<T>, key: T -> int): seq<int>
  {
    if s == [] then []
    else
      var ks := DistinctKeys(s[..|s| - 1], key);
      if key(s[|s| - 1]) in ks then ks else ks + [key(s[|s| - 1])]
  }

  /** The groups of the keys `ks`, one after the other. */
  function Gather<T>(s: seq<T>, key: T -> int, ks: seq<int>): seq<T>
  {
    if ks == [] then [] else Gather(s, key, ks[..|ks| - 1]) + Select(s, key, ks[|ks| - 1])
  }

  /** `flatMap`. */
  function FlatMap<T, U>(s: seq<T>, f: T -> seq<U>): seq<U>
  {
    if s == [] then [] else f(s[0]) + FlatMap(s[1..], f)
  }

  /** What holds of everything each `f(x)` yields holds of everything `FlatMap` yields. */
  lemma {:induction false} FlatMapAll<T, U>(s: seq<T>, f: T -> seq<U>, p: U -> bool)
    requires forall x | x in s :: forall y | y in f(x) :: p(y)
    ensures forall y | y in FlatMap(s, f) :: p(y)
  {
    if s != [] {
      assert s[0] in s;
      assert forall x | x in s[1..] :: x in s;
      FlatMapAll(s[1..], f, p);
    }
  }

  ghost predicate NoDuplicates<T>(s: seq<T>)
  {
    forall i, j | 0 <= i < j < |s| :: s[i] != s[j]
  }

  ghost predicate StrictlyAscending<T>(s: seq<T>, key: T -> int)
  {
    forall i, j | 0 <= i < j < |s| :: key(s[i]) < key(s[j])
  }

  lemma {:induction false} SelectMembers<T>(s: seq<T>, key: T -> int, k: int)
    ensures forall x | x in Select(s, key, k) :: x in s && key(x) == k
    decreases |s|
  {
    if s != [] {
      SelectMembers(s[..|s| - 1], key, k);
    }
  }

  lemma {:induction false} SelectContains<T>(s: seq<T>, key: T -> int, x: T)
    requires x in s
    ensures x in Select(s, key, key(x))
    decreases |s|
  {
    if s[|s| - 1] != x {
      assert s == s[..|s| - 1] + [s[|s| - 1]];
      SelectContains(s[..|s| - 1], key, x);
    }
  }

  lemma {:induction false} DistinctKeysComplete<T>(s: seq<T>, key: T -> int, x: T)
    requires x in s
    ensures key(x) in DistinctKeys(s, key)
    decreases |s|
  {
    if s[|s| - 1] != x {
      assert s == s[..|s| - 1] + [s[|s| - 1]];
      DistinctKeysComplete(s[..|s| - 1], key, x);
    }
  }

  lemma {:induction false} DistinctKeysSound<T>(s: seq<T>, key: T -> int, k: int)
    requires k in DistinctKeys(s, key)
    ensures exists x | x in s :: key(x) == k
    decreases |s|
  {
    var init := s[..|s| - 1];
    if k in DistinctKeys(init, key) {
      DistinctKeysSound(init, key, k);
      var x :| x in init && key(x) == k;
      assert x in s;
    } else {
      assert s[|s| - 1] in s;
    }
  }

  lemma {:induction false} DistinctKeysNoDuplicates<T>(s: seq<T>, key: T -> int)
    ensures NoDuplicates(DistinctKeys(s, key))
    decreases |s|
  {
    if s != [] {
      DistinctKeysNoDuplicates(s[..|s| - 1], key);
    }
  }

  /** Every element is in its own group or in the rest. */
  lemma {:induction false} SelectReject<T>(s: seq<T>, key: T -> int, k: int)
    ensures multiset(Select(s, key, k)) + multiset(Reject(s, key, k)) == multiset(s)
    decreases |s|
  {
    if s != [] {
      SelectReject(s[..|s| - 1], key, k);
      assert s == s[..|s| - 1] + [s[|s| - 1]];
    }
  }

  lemma {:induction false} SelectOfReject<T>(s: seq<T>, key: T -> int, k: int, n: int)
    requires n != k
    ensures Select(Reject(s, key, k), key, n) == Select(s, key, n)
    decreases |s|
  {
    if s != [] {
      var init, x := s[..|s| - 1], s[|s| - 1];
      SelectOfReject(init, key, k, n);
      var r := Reject(init, key, k);
      if key(x) != k {
        var rx := r + [x];
        assert Reject(s, key, k) == rx;
        assert rx[..|rx| - 1] == r && rx[|rx| - 1] == x;
        assert Select(rx, key, n) == Select(r, key, n) + (if key(x) == n then [x] else []);
        assert Select(s, key, n) == Select(init, key, n) + (if key(x) == n then [x] else []);
      } else {
        assert Reject(s, key, k) == r;
        assert Select(s, key, n) == Select(init, key, n);
      }
    }
  }

  lemma {:induction false} GatherOfReject<T>(s: seq<T>, key: T -> int, k: int, ks: seq<int>)
    requires k !in ks
    ensures Gather(Reject(s, key, k), key, ks) == Gather(s, key, ks)
    decreases |ks|
  {
    if ks != [] {
      GatherOfReject(s, key, k, ks[..|ks| - 1]);
      SelectOfReject(s, key, k, ks[|ks| - 1]);
    }
  }

  /** The elements of `s` whose key is none of `ks`, in order. */
  function Outside<T>(s: seq<T>, key: T -> int, ks: seq<int>): seq<T>
  {
    if s == [] then []
    else Outside(s[..|s| - 1], key, ks) + (if key(s[|s| - 1]) !in ks then [s[|s| - 1]] else [])
  }

  lemma {:induction false} OutsideOfNothing<T>(s: seq<T>, key: T -> int)
    ensures Outside(s, key, []) == s
    decreases |s|
  {
    if s != [] {
      OutsideOfNothing(s[..|s| - 1], key);
      assert s == s[..|s| - 1] + [s[|s| - 1]];
    }
  }

  lemma {:induction false} OutsideCovered<T>(s: seq<T>, key: T -> int, ks: seq<int>)
    requires forall x | x in s :: key(x) in ks
    ensures Outside(s, key, ks) == []
    decreases |s|
  {
    if s != [] {
      var init := s[..|s| - 1];
      assert forall x | x in init :: x in s;
      OutsideCovered(init, key, ks);
      assert s[|s| - 1] in s;
    }
  }

  lemma {:induction false} OutsideOfReject<T>(s: seq<T>, key: T -> int, ks: seq<int>)
    requires |ks| >= 1
    ensures Outside(Reject(s, key, ks[|ks| - 1]), key, ks[..|ks| - 1]) == Outside(s, key, ks)
    decreases |s|
  {
    if s != [] {
      var init, x, k := s[..|s| - 1], s[|s| - 1], ks[|ks| - 1];
      OutsideOfReject(init, key, ks);
      var r := Reject(init, key, k);
      assert ks == ks[..|ks| - 1] + [k];
      if key(x) != k {
        var rx := r + [x];
        assert Reject(s, key, k) == rx;
        assert rx[..|rx| - 1] == r && rx[|rx| - 1] == x;
        var lead := ks[..|ks| - 1];
        assert (key(x) in lead) == (key(x) in ks);
        assert Outside(rx, key, lead) == Outside(r, key, lead) + (if key(x) !in lead then [x] else []);
      } else {
        assert Reject(s, key, k) == r;
        assert key(x) in ks;
      }
    }
  }

  /** Grouping by distinct keys is a partition of the elements whose key is listed. */
  lemma {:induction false} GatherPartition<T>(s: seq<T>, key: T -> int, ks: seq<int>)
    requires NoDuplicates(ks)
    ensures multiset(Gather(s, key, ks)) + multiset(Outside(s, key, ks)) == multiset(s)
    decreases |ks|
  {
    if ks == [] {
      OutsideOfNothing(s, key);
    } else {
      var init, k := ks[..|ks| - 1], ks[|ks| - 1];
      var r := Reject(s, key, k);
      assert k !in init;
      GatherPartition(r, key, init);
      GatherOfReject(s, key, k, init);
      OutsideOfReject(s, key, ks);
      SelectReject(s, key, k);
    }
  }

  lemma {:induction false} RejectMembers<T>(s: seq<T>, key: T -> int, k: int)
    ensures forall x | x in Reject(s, key, k) :: x in s && key(x) != k
    decreases |s|
  {
    if s != [] {
      RejectMembers(s[..|s| - 1], key, k);
    }
  }

  /** The groups of all keys of `s`, in first-occurrence order, rearrange `s`. */
  lemma GroupsPartition<T>(s: seq<T>, key: T -> int)
    ensures multiset(Gather(s, key, DistinctKeys(s, key))) == multiset(s)
  {
    DistinctKeysNoDuplicates(s, key);
    forall x | x in s ensures key(x) in DistinctKeys(s, key) {
      DistinctKeysComplete(s, key, x);
    }
    GatherPartition(s, key, DistinctKeys(s, key));
    OutsideCovered(s, key, DistinctKeys(s, key));
  }

  lemma {:induction false} FlatMapConcat<T, U>(a: seq<T>, b: seq<T>, f: T -> seq<U>)
    ensures FlatMap(a + b, f) == FlatMap(a, f) + FlatMap(b, f)
  {
    if a == [] {
      assert a + b == b;
    } else {
      assert (a + b)[1..] == a[1..] + b;
      FlatMapConcat(a[1..], b, f);
    }
  }

  /** Reordering the pieces does not change what `flatMap` collects. */
  lemma {:induction false} FlatMapPermutation<T, U>(a: seq<T>, b: seq<T>, f: T -> seq<U>)
    requires multiset(a) == multiset(b)
    ensures multiset(FlatMap(a, f)) == multiset(FlatMap(b, f))
    decreases |a|
  {
    if a == [] {
      assert |b| == |multiset(b)| == 0;
    } else {
      var x := a[0];
      var i := FindFirst(a, b);
      var b1, b2 := b[..i], b[i + 1..];
      FlatMapPermutation(a[1..], b1 + b2, f);
      FlatMapConcat(b1 + [x], b2, f);
      FlatMapConcat(b1, [x], f);
      FlatMapConcat(b1, b2, f);
      assert FlatMap([x], f) == f(x) + FlatMap([], f);
      var f1, fx, f2 := FlatMap(b1, f), f(x), FlatMap(b2, f);
      assert FlatMap(b, f) == f1 + fx + f2;
      assert FlatMap(a, f) == fx + FlatMap(a[1..], f);
      assert multiset(FlatMap(a[1..], f)) == multiset(f1 + f2);
      assert multiset(f1 + fx + f2) == multiset(fx) + multiset(f1 + f2);
    }
  }

  lemma {:induction false} CountTwo<T>(s: seq<T>, p: T -> bool, i: nat, j: nat)
    requires i < j < |s|
    ensures p(s[i]) && p(s[j]) ==> CountWhere(s, p) >= 2
  {
    if i > 0 {
      CountTwo(s[1..], p, i - 1, j - 1);
    } else if p(s[j]) {
      CountOne(s[1..], p, j - 1);
    }
  }

  lemma {:induction false} CountOne<T>(s: seq<T>, p: T -> bool, i: nat)
    requires i < |s| && p(s[i])
    ensures CountWhere(s, p) >= 1
  {
    if i > 0 {
      CountOne(s[1..], p, i - 1);
    }
  }

  lemma {:induction false} CountAtMostOne<T>(s: seq<T>, key: T -> int, c: int)
    requires KeysDistinct(s, key)
    ensures CountWhere(s, x => key(x) == c) <= 1
  {
    if s != [] {
      if key(s[0]) == c {
        CountNone(s[1..], x => key(x) == c);
      } else {
        CountAtMostOne(s[1..], key, c);
      }
    }
  }

  /** Distinct keys stay distinct under any rearrangement. */
  lemma PermutationKeysDistinct<T>(a: seq<T>, b: seq<T>, key: T -> int)
    requires multiset(a) == multiset(b) && KeysDistinct(a, key)
    ensures KeysDistinct(b, key)
  {
    forall i, j | 0 <= i < j < |b| ensures key(b[i]) != key(b[j]) {
      var p := x => key(x) == key(b[i]);
      CountTwo(b, p, i, j);
      CountPermutation(a, b, p);
      CountAtMostOne(a, key, key(b[i]));
    }
  }

  /** A sort by pairwise distinct keys orders them strictly. */
  lemma SortByStrict<T>(s: seq<T>, key: T -> int)
    requires KeysDistinct(s, key)
    ensures StrictlyAscending(SortBy(s, key), key)
  {
    PermutationKeysDistinct(s, SortBy(s, key), key);
  }

  /** A key that never occurs has an empty group. */
  lemma {:induction false} SelectOutsideKeys<T>(s: seq<T>, key: T -> int, k: int)
    requires k !in DistinctKeys(s, key)
    ensures Select(s, key, k) == []
    decreases |s|
  {
    if s != [] {
      var init := s[..|s| - 1];
      assert DistinctKeys(init, key) <= DistinctKeys(s, key);
      SelectOutsideKeys(init, key, k);
    }
  }

  /** The group of a key that occurs is not empty. */
  lemma SelectOfKey<T>(s: seq<T>, key: T -> int, k: int)
    requires k in DistinctKeys(s, key)
    ensures Select(s, key, k) != []
  {
    DistinctKeysSound(s, key, k);
    var x :| x in s && key(x) == k;
    SelectContains(s, key, x);
  }

  /** `m` and `ks` are the `Map` and its key order after inserting the elements of `s`
      one by one under their key. */
  ghost predicate GroupsOf<T>(m: map<int, seq<T>>, ks: seq<int>, s: seq<T>, key: T -> int)
  {
    && ks == DistinctKeys(s, key)
    && (forall n | n in m :: n in ks)
    && (forall i | 0 <= i < |ks| :: ks[i] in m)
    && (forall n | n in m :: m[n] == Select(s, key, n))
  }

  /** One insertion: create the empty array when the key is new, then append. */
  lemma GroupsOfStep<T>(m: map<int, seq<T>>, ks: seq<int>, s: seq<T>, key: T -> int, x: T)
    requires GroupsOf(m, ks, s, key)
    ensures var k := key(x);
      var m1 := if k in m then m else m[k := []];
      var ks1 := if k in m then ks else ks + [k];
      k in m1 && GroupsOf(m1[k := m1[k] + [x]], ks1, s + [x], key)
  {
    var k := key(x);
    assert (s + [x])[..|s|] == s;
    if k !in m {
      SelectOutsideKeys(s, key, k);
    }
  }

  /** `GroupsOfStep` for the element at index `i`, as a loop over `s` performs it. */
  lemma GroupsOfNext<T>(m: map<int, seq<T>>, ks: seq<int>, s: seq<T>, i: nat, key: T -> int, k: int)
    requires i < |s| && GroupsOf(m, ks, s[..i], key) && k == key(s[i])
    ensures k in m ==> GroupsOf(m[k := m[k] + [s[i]]], ks, s[..i + 1], key)
    ensures k !in m ==> GroupsOf(m[k := [] + [s[i]]], ks + [k], s[..i + 1], key)
  {
    assert s[..i + 1] == s[..i] + [s[i]];
    GroupsOfStep(m, ks, s[..i], key, s[i]);
  }

  /** When exactly the positions `lo..hi-1` satisfy `p`, there are `hi - lo` of them. */
  lemma {:induction false} CountRange<T>(s: seq<T>, p: T -> bool, lo: nat, hi: nat)
    requires lo <= hi <= |s|
    requires forall i | 0 <= i < |s| :: p(s[i]) <==> lo <= i < hi
    ensures CountWhere(s, p) == hi - lo
  {
    if s != [] {
      var t := s[1..];
      if lo > 0 {
        assert forall i | 0 <= i < |t| :: p(t[i]) <==> lo - 1 <= i < hi - 1 by {
          forall i | 0 <= i < |t| ensures p(t[i]) <==> lo - 1 <= i < hi - 1 {
            assert t[i] == s[i + 1];
          }
        }
        CountRange(t, p, lo - 1, hi - 1);
      } else if hi > 0 {
        assert forall i | 0 <= i < |t| :: p(t[i]) <==> 0 <= i < hi - 1 by {
          forall i | 0 <= i < |t| ensures p(t[i]) <==> 0 <= i < hi - 1 {
            assert t[i] == s[i + 1];
          }
        }
        CountRange(t, p, 0, hi - 1);
      } else {
        CountNone(s, p);
      }
    }
  }

  /** `flatMap` over two sequences that agree position by position. */
  lemma {:induction false} FlatMapPointwise<T, U, V>(a: seq<T>, b: seq<U>, f: T -> seq<V>, g: U -> seq<V>)
    requires |a| == |b|
    requires forall i | 0 <= i < |a| :: f(a[i]) == g(b[i])
    ensures FlatMap(a, f) == FlatMap(b, g)
  {
    if a != [] {
      assert forall i | 0 <= i < |a| - 1 :: a[1..][i] == a[i + 1] && b[1..][i] == b[i + 1];
      FlatMapPointwise(a[1..], b[1..], f, g);
    }
  }

  /** Extending a prefix of `all` by its next element gives the next prefix. */
  lemma PrefixNext<T>(s: seq<T>, all: seq<T>, x: T)
    requires |s| < |all| && s == all[..|s|] && x == all[|s|]
    ensures s + [x] == all[..|s| + 1]
  {
  }

  /** The predicate `x => key(x) == k`, as one value that lemmas can share. */
  function KeyIs<T>(key: T -> int, k: int): T -> bool
  {
    x => key(x) == k
  }

  /** A `flatMap` whose `j`-th piece holds `c` matches when `t[j] == x` and none
      otherwise holds `c` for every occurrence of `x` in `t`. */
  lemma {:induction false} CountFlatMapIndexed<T, U, V>(
    s: seq<T>, f: T -> seq<U>, p: U -> bool, t: seq<V>, x: V, c: nat)
    requires |s| == |t|
    requires forall j | 0 <= j < |s| :: CountWhere(f(s[j]), p) == if t[j] == x then c else 0
    ensures CountWhere(FlatMap(s, f), p) == c * multiset(t)[x]
  {
    if s != [] {
      var s', t' := s[1..], t[1..];
      IndexedCountsTail(s, f, p, t, x, c);
      CountFlatMapIndexed(s', f, p, t', x, c);
      CountConcat(f(s[0]), FlatMap(s', f), p);
      var rest := CountWhere(FlatMap(s', f), p);
      var m := multiset(t')[x];
      assert CountWhere(FlatMap(s, f), p) == CountWhere(f(s[0]), p) + rest;
      MultisetHead(t, x);
      if t[0] == x {
        MulSucc(c, m);
      }
    }
  }

  lemma MultisetHead<V>(t: seq<V>, x: V)
    requires t != []
    ensures multiset(t)[x] == multiset(t[1..])[x] + (if t[0] == x then 1 else 0)
  {
    assert t == [t[0]] + t[1..];
  }

  lemma IndexedCountsTail<T, U, V>(s: seq<T>, f: T -> seq<U>, p: U -> bool, t: seq<V>, x: V, c: nat)
    requires |s| == |t| && s != []
    requires forall j | 0 <= j < |s| :: CountWhere(f(s[j]), p) == if t[j] == x then c else 0
    ensures forall j | 0 <= j < |s| - 1 :: CountWhere(f(s[1..][j]), p) == if t[1..][j] == x then c else 0
  {
    forall j | 0 <= j < |s| - 1 ensures CountWhere(f(s[1..][j]), p) == if t[1..][j] == x then c else 0 {
      assert s[1..][j] == s[j + 1] && t[1..][j] == t[j + 1];
    }
  }

  lemma MulSucc(c: nat, m: nat)
    ensures c * (m + 1) == c * m + c
  {
  }

  /** A `flatMap` whose every piece holds `c` matches holds `c` per piece. */
  lemma {:induction false} CountFlatMapConst<T, U>(s: seq<T>, f: T -> seq<U>, p: U -> bool, c: nat)
    requires forall j | 0 <= j < |s| :: CountWhere(f(s[j]), p) == c
    ensures CountWhere(FlatMap(s, f), p) == c * |s|
  {
    if s != [] {
      assert forall j | 0 <= j < |s| - 1 :: s[1..][j] == s[j + 1];
      CountFlatMapConst(s[1..], f, p, c);
      CountConcat(f(s[0]), FlatMap(s[1..], f), p);
      MulSucc(c, |s| - 1);
    }
  }

  /** Filtering keeps every occurrence of an element with the key and drops the others. */
  lemma {:induction false} SelectMultiplicity<T>(s: seq<T>, key: T -> int, k: int, x: T)
    ensures multiset(Select(s, key, k))[x] == if key(x) == k then multiset(s)[x] else 0
  {
    if s != [] {
      var init, last := s[..|s| - 1], s[|s| - 1];
      SelectMultiplicity(init, key, k, x);
      assert s == init + [last];
    }
  }

  /** An element of a sequence whose keys are pairwise distinct occurs exactly once. */
  lemma {:induction false} MultiplicityOne<T>(s: seq<T>, key: T -> int, x: T)
    requires KeysDistinct(s, key) && x in s
    ensures multiset(s)[x] == 1
  {
    assert s == [s[0]] + s[1..];
    assert KeysDistinct(s[1..], key) by {
      forall i, j | 0 <= i < j < |s| - 1 ensures key(s[1..][i]) != key(s[1..][j]) {
        assert s[1..][i] == s[i + 1] && s[1..][j] == s[j + 1];
      }
    }
    if x == s[0] {
      assert x !in s[1..] by {
        forall i | 0 <= i < |s| - 1 ensures s[1..][i] != x {
          assert key(s[0]) != key(s[i + 1]);
        }
      }
    } else {
      MultiplicityOne(s[1..], key, x);
    }
  }

  /** Counting inside a filter is counting the conjunction over the whole. */
  lemma {:induction false} CountSelect<T>(s: seq<T>, key: T -> int, k: int, p: T -> bool, q: T -> bool)
    requires forall j | 0 <= j < |s| :: q(s[j]) <==> key(s[j]) == k && p(s[j])
    ensures CountWhere(Select(s, key, k), p) == CountWhere(s, q)
  {
    if s != [] {
      var init, last := s[..|s| - 1], s[|s| - 1];
      assert forall j | 0 <= j < |init| :: init[j] == s[j];
      CountSelect(init, key, k, p, q);
      assert s == init + [last];
      CountConcat(init, [last], q);
      CountConcat(Select(init, key, k), if key(last) == k then [last] else [], p);
    }
  }

  /** A filter is as long as the number of elements with the key. */
  lemma {:induction false} SelectLength<T>(s: seq<T>, key: T -> int, k: int)
    ensures |Select(s, key, k)| == CountWhere(s, KeyIs(key, k))
  {
    if s != [] {
      var init, last := s[..|s| - 1], s[|s| - 1];
      SelectLength(init, key, k);
      assert s == init + [last];
      CountConcat(init, [last], KeyIs(key, k));
    }
  }

  /** `flatMap` over one more element of a prefix. */
  lemma FlatMapSnoc<T, U>(s: seq<T>, i: nat, f: T -> seq<U>)
    requires i < |s|
    ensures FlatMap(s[..i + 1], f) == FlatMap(s[..i], f) + f(s[i])
  {
    assert s[..i + 1] == s[..i] + [s[i]];
    FlatMapConcat(s[..i], [s[i]], f);
    assert FlatMap([s[i]], f) == f(s[i]) + FlatMap([], f);
  }
  /** Strictly ascending integer keys climb by at least one per position. */
  lemma {:induction false} AscendingGaps<T>(s: seq<T>, key: T -> int, i: nat, j: nat)
    requires StrictlyAscending(s, key) && i <= j < |s|
    ensures key(s[j]) - key(s[i]) >= j - i
    decreases j - i
  {
    if i < j {
      AscendingGaps(s, key, i + 1, j);
    }
  }

  /** Two members of a sequence with pairwise distinct keys that share a key are equal. */
  lemma SameKeySame<T>(s: seq<T>, key: T -> int, x: T, y: T)
    requires KeysDistinct(s, key) && x in s && y in s && key(x) == key(y)
    ensures x == y
  {
    var i :| 0 <= i < |s| && s[i] == x;
    var j :| 0 <= j < |s| && s[j] == y;
    assert i == j;
  }

  /** A filter keeps the keys of a sequence distinct. */
  lemma {:induction false} SelectKeysDistinct<T>(s: seq<T>, key: T -> int, k: int, key2: T -> int)
    requires KeysDistinct(s, key2)
    ensures KeysDistinct(Select(s, key, k), key2)
    decreases |s|
  {
    if s != [] {
      var init, last := s[..|s| - 1], s[|s| - 1];
      assert KeysDistinct(init, key2) by {
        forall i, j | 0 <= i < j < |init| ensures key2(init[i]) != key2(init[j]) {
          assert init[i] == s[i] && init[j] == s[j];
        }
      }
      SelectKeysDistinct(init, key, k, key2);
      SelectMembers(init, key, k);
      var a := Select(init, key, k);
      if key(last) == k {
        forall i | 0 <= i < |a| ensures key2(a[i]) != key2(last) {
          assert a[i] in init;
          var m :| 0 <= m < |init| && init[m] == a[i];
          assert s[m] == a[i] && s[|s| - 1] == last;
        }
      } else {
        assert Select(s, key, k) == a + [];
      }
    }
  }

  /** A `flatMap` whose only matching piece is the one at index `j` holds its `c` matches. */
  lemma {:induction false} CountFlatMapAt<T, U>(s: seq<T>, f: T -> seq<U>, p: U -> bool, j: int, c: nat)
    requires forall i | 0 <= i < |s| :: CountWhere(f(s[i]), p) == if i == j then c else 0
    ensures CountWhere(FlatMap(s, f), p) == if 0 <= j < |s| then c else 0
  {
    if s != [] {
      assert forall i | 0 <= i < |s| - 1 :: s[1..][i] == s[i + 1];
      CountFlatMapAt(s[1..], f, p, j - 1, c);
      CountConcat(f(s[0]), FlatMap(s[1..], f), p);
    }
  }
  /** A `flatMap` whose every piece has length `c` has `c` elements per piece. */
  lemma {:induction false} FlatMapLengthConst<T, U>(s: seq<T>, f: T -> seq<U>, c: nat)
    requires forall j | 0 <= j < |s| :: |f(s[j])| == c
    ensures |FlatMap(s, f)| == c * |s|
  {
    if s != [] {
      assert forall j | 0 <= j < |s| - 1 :: s[1..][j] == s[j + 1];
      FlatMapLengthConst(s[1..], f, c);
      MulSucc(c, |s| - 1);
    }
  }
  /** Two `flatMap`s whose pieces agree in count position by position agree in count. */
  lemma {:induction false} CountFlatMapPointwise<T, U, V>(
    a: seq<T>, f: T -> seq<V>, b: seq<U>, g: U -> seq<V>, p: V -> bool)
    requires |a| == |b|
    requires forall j | 0 <= j < |a| :: CountWhere(f(a[j]), p) == CountWhere(g(b[j]), p)
    ensures CountWhere(FlatMap(a, f), p) == CountWhere(FlatMap(b, g), p)
  {
    if a != [] {
      assert forall j | 0 <= j < |a| - 1 :: a[1..][j] == a[j + 1] && b[1..][j] == b[j + 1];
      CountFlatMapPointwise(a[1..], f, b[1..], g, p);
      CountConcat(f(a[0]), FlatMap(a[1..], f), p);
      CountConcat(g(b[0]), FlatMap(b[1..], g), p);
    }
  }
  /** The count of a `flatMap` is the sum of the counts of its two halves. */
  lemma CountFlatMapSplit<T, U>(s: seq<T>, f: T -> seq<U>, p: U -> bool, n: nat)
    requires n <= |s|
    ensures CountWhere(FlatMap(s, f), p) == CountWhere(FlatMap(s[..n], f), p) + CountWhere(FlatMap(s[n..], f), p)
  {
    assert s == s[..n] + s[n..];
    FlatMapConcat(s[..n], s[n..], f);
    CountConcat(FlatMap(s[..n], f), FlatMap(s[n..], f), p);
  }
}
