// Sequence operations the components borrow from JavaScript's arrays and
// sets: Array.prototype.filter, insertion into a Set (which keeps
// first-insertion order), and the stable Array.prototype.sort.
module Seqs {

  predicate IsSubsequence<T(==)>(a: seq<T>, b: seq<T>)
  {
    if a == [] then true
    else if b == [] then false
    else if a[0] == b[0] then IsSubsequence(a[1..], b[1..])
    else IsSubsequence(a, b[1..])
  }

  lemma {:induction false} SubsequenceRefl<T>(a: seq<T>)
    ensures IsSubsequence(a, a)
  {
    if a != [] {
      SubsequenceRefl(a[1..]);
    }
  }

  predicate NoDuplicates<T(==)>(s: seq<T>)
  {
    forall i, j :: 0 <= i < j < |s| ==> s[i] != s[j]
  }

  /** Two duplicate-free sequences with no element in common concatenate to a duplicate-free one. */
  lemma NoDuplicatesAppend<T>(a: seq<T>, b: seq<T>)
    requires NoDuplicates(a) && NoDuplicates(b)
    requires forall i, j :: 0 <= i < |a| && 0 <= j < |b| ==> a[i] != b[j]
    ensures NoDuplicates(a + b)
  {
    var s := a + b;
    forall i, j | 0 <= i < j < |s| ensures s[i] != s[j] {
      if j < |a| {
        assert s[i] == a[i] && s[j] == a[j];
      } else if i >= |a| {
        assert s[i] == b[i - |a|] && s[j] == b[j - |a|];
      } else {
        assert s[i] == a[i] && s[j] == b[j - |a|];
      }
    }
  }

  /** Array.prototype.filter: the elements `keep` accepts, in their original order. */
  function Filter<T(==)>(s: seq<T>, keep: T -> bool): (r: seq<T>)
    ensures |r| <= |s|
    ensures forall i :: 0 <= i < |r| ==> r[i] in s && keep(r[i])
    ensures forall i :: 0 <= i < |s| && keep(s[i]) ==> s[i] in r
    ensures IsSubsequence(r, s)
  {
    if s == [] then []
    else
      var rest := Filter(s[1..], keep);
      if keep(s[0]) then
        assert ([s[0]] + rest)[1..] == rest;
        [s[0]] + rest
      else
        assert rest == [] || rest[0] in s[1..];
        SubsequenceSkip(rest, s);
        rest
  }

  lemma {:induction false} SubsequenceSkip<T>(a: seq<T>, b: seq<T>)
    requires b != [] && IsSubsequence(a, b[1..])
    ensures IsSubsequence(a, b)
  {
    if a != [] && a[0] == b[0] {
      SubsequenceTail(a, b[1..]);
    }
  }

  lemma {:induction false} SubsequenceTail<T>(a: seq<T>, b: seq<T>)
    requires a != [] && IsSubsequence(a, b)
    ensures IsSubsequence(a[1..], b)
  {
    if b != [] {
      if a[0] == b[0] {
        SubsequenceSkip(a[1..], b);
      } else {
        SubsequenceTail(a, b[1..]);
        SubsequenceSkip(a[1..], b);
      }
    }
  }

  /** Keeping the elements `keep` accepts and those `drop` accepts splits a sequence when they are complements. */
  lemma {:induction false} FilterPartition<T>(s: seq<T>, keep: T -> bool, drop: T -> bool)
    requires forall x :: drop(x) == !keep(x)
    ensures |Filter(s, keep)| + |Filter(s, drop)| == |s|
  {
    if s != [] {
      FilterPartition(s[1..], keep, drop);
    }
  }

  lemma FilterCons<T>(s: seq<T>, keep: T -> bool)
    requires s != []
    ensures Filter(s, keep) == if keep(s[0]) then [s[0]] + Filter(s[1..], keep) else Filter(s[1..], keep)
  {
  }

  /** The two halves of such a split hold, between them, every element exactly as often as the sequence. */
  lemma {:induction false} FilterPartitionMultiset<T>(s: seq<T>, keep: T -> bool, drop: T -> bool)
    requires forall x :: drop(x) == !keep(x)
    ensures multiset(Filter(s, keep)) + multiset(Filter(s, drop)) == multiset(s)
  {
    if s != [] {
      var rest := s[1..];
      FilterPartitionMultiset(rest, keep, drop);
      FilterCons(s, keep);
      FilterCons(s, drop);
      assert keep(s[0]) != drop(s[0]);
      MultisetStep(s[0], Filter(s, keep), Filter(s, drop), Filter(rest, keep), Filter(rest, drop), rest);
      assert s == [s[0]] + rest;
    }
  }

  lemma MultisetStep<T>(x: T, a: seq<T>, b: seq<T>, ra: seq<T>, rb: seq<T>, rest: seq<T>)
    requires multiset(ra) + multiset(rb) == multiset(rest)
    requires (a == [x] + ra && b == rb) || (a == ra && b == [x] + rb)
    ensures multiset(a) + multiset(b) == multiset([x] + rest)
  {
  }

  lemma {:induction false} FilterAppend<T>(a: seq<T>, b: seq<T>, keep: T -> bool)
    ensures Filter(a + b, keep) == Filter(a, keep) + Filter(b, keep)
  {
    if a == [] {
      assert a + b == b;
    } else {
      assert (a + b)[1..] == a[1..] + b;
      FilterAppend(a[1..], b, keep);
    }
  }

  /** Filtering by two predicates that agree everywhere gives the same list. */
  lemma {:induction false} FilterExt<T>(s: seq<T>, p: T -> bool, q: T -> bool)
    requires forall x :: p(x) == q(x)
    ensures Filter(s, p) == Filter(s, q)
  {
    if s != [] {
      FilterExt(s[1..], p, q);
    }
  }

  /** Two filters in a row keep what both accept. */
  lemma {:induction false} FilterFilter<T>(s: seq<T>, p: T -> bool, q: T -> bool, both: T -> bool)
    requires forall x :: both(x) == (p(x) && q(x))
    ensures Filter(Filter(s, p), q) == Filter(s, both)
  {
    if s != [] {
      FilterFilter(s[1..], p, q, both);
      if p(s[0]) {
        assert Filter(s, p) == [s[0]] + Filter(s[1..], p);
        assert ([s[0]] + Filter(s[1..], p))[1..] == Filter(s[1..], p);
      }
    }
  }

  /** A filter that accepts every element changes nothing. */
  lemma {:induction false} FilterAll<T>(s: seq<T>, keep: T -> bool)
    requires forall i :: 0 <= i < |s| ==> keep(s[i])
    ensures Filter(s, keep) == s
  {
    if s != [] {
      FilterAll(s[1..], keep);
    }
  }

  lemma {:induction false} FilterNoDuplicates<T>(s: seq<T>, keep: T -> bool)
    requires NoDuplicates(s)
    ensures NoDuplicates(Filter(s, keep))
  {
    if s != [] {
      assert NoDuplicates(s[1..]);
      FilterNoDuplicates(s[1..], keep);
      var rest := Filter(s[1..], keep);
      if keep(s[0]) {
        assert s[0] !in s[1..];
        assert s[0] !in rest;
        var r := [s[0]] + rest;
        forall i, j | 0 <= i < j < |r| ensures r[i] != r[j] {
          if i > 0 {
            assert r[i] == rest[i - 1] && r[j] == rest[j - 1];
          } else {
            assert r[j] == rest[j - 1];
          }
        }
      }
    }
  }

  /** `s.slice(0, n)` for n >= 0: the first n elements, or all of them when there are fewer. */
  function Take<T>(s: seq<T>, n: nat): (r: seq<T>)
    ensures |r| == if n <= |s| then n else |s|
    ensures r == s[..|r|]
  {
    if n <= |s| then s[..n] else s
  }

  /** Taking at least the first part of a concatenation keeps that part and continues with the second. */
  lemma TakeAppend<T>(a: seq<T>, b: seq<T>, n: nat)
    requires |a| <= n
    ensures var r := Take(a + b, n);
      |a| <= |r| && r[..|a|] == a && forall i :: |a| <= i < |r| ==> r[i] == b[i - |a|]
  {
  }

  /** Set.prototype.add on a set kept as its insertion-ordered element list. */
  function SetInsert<T(==)>(acc: seq<T>, x: T): seq<T>
  {
    if x in acc then acc else acc + [x]
  }

  /** Adding the elements of `s`, left to right, to the set `acc`. */
  function InsertAll<T(==)>(acc: seq<T>, s: seq<T>): (r: seq<T>)
    ensures NoDuplicates(acc) ==> NoDuplicates(r)
    ensures forall i :: 0 <= i < |r| ==> r[i] in acc || r[i] in s
    ensures forall i :: 0 <= i < |s| ==> s[i] in r
    ensures |acc| <= |r| && r[..|acc|] == acc
  {
    if s == [] then acc else SetInsert(InsertAll(acc, s[..|s| - 1]), s[|s| - 1])
  }

  /** Adding a concatenation is adding its two parts in turn. */
  lemma {:induction false} InsertAllAppend<T>(acc: seq<T>, a: seq<T>, b: seq<T>)
    ensures InsertAll(acc, a + b) == InsertAll(InsertAll(acc, a), b)
    decreases |b|
  {
    if b == [] {
      assert a + b == a;
    } else {
      assert (a + b)[..|a + b| - 1] == a + b[..|b| - 1];
      InsertAllAppend(acc, a, b[..|b| - 1]);
    }
  }

  /** `new Set(s)` read back with Array.from: each element once, at its first occurrence. */
  function Dedup<T(==)>(s: seq<T>): seq<T>
  {
    InsertAll([], s)
  }

  lemma DedupProperties<T>(s: seq<T>)
    ensures NoDuplicates(Dedup(s))
    ensures forall i :: 0 <= i < |Dedup(s)| ==> Dedup(s)[i] in s
    ensures forall i :: 0 <= i < |s| ==> s[i] in Dedup(s)
  {
  }

  /** A set that already holds every element of `s` is unchanged by adding them. */
  lemma {:induction false} InsertAllPresent<T>(acc: seq<T>, s: seq<T>)
    requires forall x :: x in s ==> x in acc
    ensures InsertAll(acc, s) == acc
  {
    if s != [] {
      InsertAllPresent(acc, s[..|s| - 1]);
    }
  }

  lemma {:induction false} DedupIdempotent<T>(s: seq<T>)
    ensures Dedup(Dedup(s)) == Dedup(s)
  {
    DedupOfDistinct(Dedup(s));
  }

  /** A list without duplicates is its own set. */
  lemma {:induction false} DedupOfDistinct<T>(s: seq<T>)
    requires NoDuplicates(s)
    ensures Dedup(s) == s
  {
    if s != [] {
      var init := s[..|s| - 1];
      assert NoDuplicates(init);
      DedupOfDistinct(init);
      assert s[|s| - 1] !in init;
      assert init + [s[|s| - 1]] == s;
    }
  }

  // ---------------------------------------------------------------------
  // Stable sorting by a two-part key (smaller keys first)
  // ---------------------------------------------------------------------

  predicate KeyLess(a: (int, int), b: (int, int))
  {
    a.0 < b.0 || (a.0 == b.0 && a.1 < b.1)
  }

  predicate SortedByKey<T>(s: seq<T>, key: T -> (int, int))
  {
    forall i, j :: 0 <= i < j < |s| ==> !KeyLess(key(s[j]), key(s[i]))
  }

  /** The elements of `s` whose key is `k`, in order. */
  function WithKey<T>(s: seq<T>, key: T -> (int, int), k: (int, int)): seq<T>
  {
    if s == [] then [] else (if key(s[0]) == k then [s[0]] else []) + WithKey(s[1..], key, k)
  }

  /** Places `x` after every element whose key is not larger, so equal keys keep their arrival order. */
  function InsertByKey<T>(x: T, s: seq<T>, key: T -> (int, int)): seq<T>
  {
    if s == [] then [x]
    else if KeyLess(key(x), key(s[0])) then [x] + s
    else [s[0]] + InsertByKey(x, s[1..], key)
  }

  /** A stable sort: the outcome of Array.prototype.sort with a comparator that orders by `key`. */
  function SortByKey<T>(s: seq<T>, key: T -> (int, int)): seq<T>
  {
    if s == [] then [] else InsertByKey(s[|s| - 1], SortByKey(s[..|s| - 1], key), key)
  }

  lemma {:induction false} InsertByKeyProperties<T>(x: T, s: seq<T>, key: T -> (int, int))
    requires SortedByKey(s, key)
    ensures multiset(InsertByKey(x, s, key)) == multiset(s) + multiset{x}
    ensures SortedByKey(InsertByKey(x, s, key), key)
  {
    InsertByKeyMultiset(x, s, key);
    if s == [] {
    } else if KeyLess(key(x), key(s[0])) {
      forall j | 0 <= j < |s|
        ensures !KeyLess(key(s[j]), key(x))
      {
        if j > 0 {
          assert !KeyLess(key(s[j]), key(s[0]));
        }
      }
      SortedByKeyCons(x, s, key);
    } else {
      var tail := s[1..];
      assert SortedByKey(tail, key);
      InsertByKeyProperties(x, tail, key);
      var ins := InsertByKey(x, tail, key);
      forall j | 0 <= j < |ins|
        ensures !KeyLess(key(ins[j]), key(s[0]))
      {
        assert ins[j] in multiset(ins);
        assert ins[j] == x || ins[j] in multiset(tail);
      }
      SortedByKeyCons(s[0], ins, key);
    }
  }

  lemma {:induction false} InsertByKeyMultiset<T>(x: T, s: seq<T>, key: T -> (int, int))
    ensures multiset(InsertByKey(x, s, key)) == multiset(s) + multiset{x}
  {
    if s != [] && !KeyLess(key(x), key(s[0])) {
      InsertByKeyMultiset(x, s[1..], key);
      assert s == [s[0]] + s[1..];
    }
  }

  /** A list sorted by key stays sorted behind an element whose key is not larger than any of its keys. */
  lemma SortedByKeyCons<T>(a: T, t: seq<T>, key: T -> (int, int))
    requires SortedByKey(t, key)
    requires forall j :: 0 <= j < |t| ==> !KeyLess(key(t[j]), key(a))
    ensures SortedByKey([a] + t, key)
  {
    var r := [a] + t;
    forall i, j | 0 <= i < j < |r|
      ensures !KeyLess(key(r[j]), key(r[i]))
    {
      assert r[j] == t[j - 1];
      if i > 0 {
        assert r[i] == t[i - 1];
      }
    }
  }

  lemma {:induction false} WithKeyAppend<T>(a: seq<T>, b: seq<T>, key: T -> (int, int), k: (int, int))
    ensures WithKey(a + b, key, k) == WithKey(a, key, k) + WithKey(b, key, k)
  {
    if a == [] {
      assert a + b == b;
    } else {
      assert (a + b)[0] == a[0] && (a + b)[1..] == a[1..] + b;
      WithKeyAppend(a[1..], b, key, k);
      var head := if key(a[0]) == k then [a[0]] else [];
      assert WithKey(a + b, key, k) == head + (WithKey(a[1..], key, k) + WithKey(b, key, k));
    }
  }

  lemma {:induction false} WithKeyInsert<T>(x: T, s: seq<T>, key: T -> (int, int), k: (int, int))
    requires SortedByKey(s, key)
    ensures WithKey(InsertByKey(x, s, key), key, k)
         == WithKey(s, key, k) + (if key(x) == k then [x] else [])
  {
    if s == [] {
    } else if KeyLess(key(x), key(s[0])) {
      // every element of s has a key larger than x's, so none has key k when x has it
      WithKeyAbove(s, key, key(x));
      assert WithKey([x] + s, key, k) == (if key(x) == k then [x] else []) + WithKey(s, key, k) by {
        assert ([x] + s)[1..] == s;
      }
    } else {
      assert SortedByKey(s[1..], key);
      WithKeyInsert(x, s[1..], key, k);
    }
  }

  /** When `k` is below the first key of a sorted list, no element has key `k`. */
  lemma {:induction false} WithKeyAbove<T>(s: seq<T>, key: T -> (int, int), k: (int, int))
    requires SortedByKey(s, key)
    requires s != [] && KeyLess(k, key(s[0]))
    ensures WithKey(s, key, k) == []
  {
    if |s| > 1 {
      assert SortedByKey(s[1..], key);
      assert !KeyLess(key(s[1]), key(s[0]));
      WithKeyAbove(s[1..], key, k);
    }
  }

  /**
   * Sorting yields a permutation, ordered by key, in which the elements
   * sharing any one key appear in their original relative order.
   */
  lemma SortByKeyProperties<T>(s: seq<T>, key: T -> (int, int))
    ensures multiset(SortByKey(s, key)) == multiset(s)
    ensures |SortByKey(s, key)| == |s|
    ensures SortedByKey(SortByKey(s, key), key)
    ensures forall k :: WithKey(SortByKey(s, key), key, k) == WithKey(s, key, k)
  {
    SortByKeyPermutation(s, key);
    forall k
      ensures WithKey(SortByKey(s, key), key, k) == WithKey(s, key, k)
    {
      SortByKeyStable(s, key, k);
    }
  }

  lemma {:induction false} SortByKeyPermutation<T>(s: seq<T>, key: T -> (int, int))
    ensures multiset(SortByKey(s, key)) == multiset(s)
    ensures |SortByKey(s, key)| == |s|
    ensures SortedByKey(SortByKey(s, key), key)
  {
    if s != [] {
      var init, last := s[..|s| - 1], s[|s| - 1];
      SortByKeyPermutation(init, key);
      InsertByKeyProperties(last, SortByKey(init, key), key);
      assert s == init + [last];
      assert |SortByKey(s, key)| == |multiset(SortByKey(s, key))|;
    }
  }

  /** The elements with one key keep their relative order. */
  lemma {:induction false} SortByKeyStable<T>(s: seq<T>, key: T -> (int, int), k: (int, int))
    ensures WithKey(SortByKey(s, key), key, k) == WithKey(s, key, k)
  {
    if s != [] {
      var init, last := s[..|s| - 1], s[|s| - 1];
      SortByKeyStable(init, key, k);
      SortByKeyPermutation(init, key);
      WithKeyInsert(last, SortByKey(init, key), key, k);
      WithKeyAppend(init, [last], key, k);
      assert s == init + [last];
    }
  }

  // ---------------------------------------------------------------------
  // Array.prototype.sort without a comparator, on strings
  // ---------------------------------------------------------------------

  /** `a <= b` between strings: code-unit order, a proper prefix first. */
  predicate StrLeq(a: string, b: string)
    decreases |a|
  {
    a == [] || (b != [] && (a[0] < b[0] || (a[0] == b[0] && StrLeq(a[1..], b[1..]))))
  }

  lemma {:induction false} StrLeqTotal(a: string, b: string)
    ensures StrLeq(a, b) || StrLeq(b, a)
    decreases |a|
  {
    if a != [] && b != [] && a[0] == b[0] {
      StrLeqTotal(a[1..], b[1..]);
    }
  }

  lemma {:induction false} StrLeqTrans(a: string, b: string, c: string)
    requires StrLeq(a, b) && StrLeq(b, c)
    ensures StrLeq(a, c)
    decreases |a|
  {
    if a != [] && a[0] == b[0] && b[0] == c[0] {
      StrLeqTrans(a[1..], b[1..], c[1..]);
    }
  }

  lemma {:induction false} StrLeqAntisym(a: string, b: string)
    requires StrLeq(a, b) && StrLeq(b, a)
    ensures a == b
    decreases |a|
  {
    if a != [] {
      StrLeqAntisym(a[1..], b[1..]);
      assert a == [a[0]] + a[1..] && b == [b[0]] + b[1..];
    }
  }

  predicate StrSorted(s: seq<string>)
  {
    forall i, j :: 0 <= i < j < |s| ==> StrLeq(s[i], s[j])
  }

  function InsertString(x: string, s: seq<string>): seq<string>
  {
    if s == [] then [x]
    else if StrLeq(x, s[0]) then [x] + s
    else [s[0]] + InsertString(x, s[1..])
  }

  /** The list sorted as the comparator-less sort orders strings. */
  function SortStrings(s: seq<string>): seq<string>
  {
    if s == [] then [] else InsertString(s[|s| - 1], SortStrings(s[..|s| - 1]))
  }

  lemma {:induction false} InsertStringMultiset(x: string, s: seq<string>)
    ensures multiset(InsertString(x, s)) == multiset(s) + multiset{x}
  {
    if s != [] && !StrLeq(x, s[0]) {
      InsertStringMultiset(x, s[1..]);
      assert s == [s[0]] + s[1..];
    }
  }

  lemma {:induction false} InsertStringSorted(x: string, s: seq<string>)
    requires StrSorted(s)
    ensures StrSorted(InsertString(x, s))
  {
    if s == [] {
    } else if StrLeq(x, s[0]) {
      forall j | 0 <= j < |s|
        ensures StrLeq(x, s[j])
      {
        if j > 0 {
          StrLeqTrans(x, s[0], s[j]);
        }
      }
      StrSortedCons(x, s);
    } else {
      var tail := s[1..];
      assert s == [s[0]] + tail;
      assert StrSorted(tail);
      InsertStringSorted(x, tail);
      InsertStringMultiset(x, tail);
      var ins := InsertString(x, tail);
      StrLeqTotal(x, s[0]);
      forall j | 0 <= j < |ins|
        ensures StrLeq(s[0], ins[j])
      {
        assert ins[j] in multiset(ins);
        assert ins[j] == x || ins[j] in multiset(tail);
        if ins[j] != x {
          var k :| 0 <= k < |tail| && tail[k] == ins[j];
          assert s[k + 1] == tail[k];
        }
      }
      StrSortedCons(s[0], ins);
    }
  }

  /** A sorted list stays sorted behind a string ordered before all its elements. */
  lemma StrSortedCons(a: string, t: seq<string>)
    requires StrSorted(t)
    requires forall j :: 0 <= j < |t| ==> StrLeq(a, t[j])
    ensures StrSorted([a] + t)
  {
    var r := [a] + t;
    forall i, j | 0 <= i < j < |r|
      ensures StrLeq(r[i], r[j])
    {
      assert r[j] == t[j - 1];
      if i > 0 {
        assert r[i] == t[i - 1];
      }
    }
  }

  lemma {:induction false} InsertStringDistinct(x: string, s: seq<string>)
    requires x !in s && NoDuplicates(s)
    ensures NoDuplicates(InsertString(x, s))
  {
    if s == [] {
    } else if StrLeq(x, s[0]) {
      NoDuplicatesAppend([x], s);
    } else {
      var tail := s[1..];
      assert s == [s[0]] + tail;
      assert NoDuplicates(tail);
      assert s[0] !in tail && s[0] != x;
      InsertStringDistinct(x, tail);
      InsertStringMultiset(x, tail);
      var ins := InsertString(x, tail);
      forall j | 0 <= j < |ins|
        ensures s[0] != ins[j]
      {
        assert ins[j] in multiset(ins);
      }
      NoDuplicatesAppend([s[0]], ins);
    }
  }

  /** Sorting yields an ordered permutation, still without duplicates if there were none. */
  lemma {:induction false} SortStringsProperties(s: seq<string>)
    ensures multiset(SortStrings(s)) == multiset(s)
    ensures StrSorted(SortStrings(s))
    ensures NoDuplicates(s) ==> NoDuplicates(SortStrings(s))
  {
    if s != [] {
      var init, last := s[..|s| - 1], s[|s| - 1];
      SortStringsProperties(init);
      assert s == init + [last];
      if NoDuplicates(s) {
        assert NoDuplicates(init);
        assert last !in init;
        assert last !in multiset(SortStrings(init));
      }
      InsertStringMultiset(last, SortStrings(init));
      InsertStringSorted(last, SortStrings(init));
      if NoDuplicates(s) {
        InsertStringDistinct(last, SortStrings(init));
      }
    }
  }
}
