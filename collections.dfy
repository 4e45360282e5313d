/** Sequence helpers used by the style extractor: counting, first-seen
 *  de-duplication (the insertion order of a JavaScript `Map` or `Set`),
 *  subsequences, and the stable descending sort that ranks sections. */
module Collections {

  /** Number of elements of `s` that satisfy `p`. */
  function CountWhere<T>(s: seq<T>, p: T -> bool): (n: nat)
    ensures n <= |s|
  {
    if |s| == 0 then 0
    else CountWhere(s[..|s| - 1], p) + (if p(s[|s| - 1]) then 1 else 0)
  }

  /** Counting from the front: the first element, then the rest. */
  lemma {:induction false} CountWhereFront<T>(s: seq<T>, p: T -> bool)
    requires |s| > 0
    ensures CountWhere(s, p) == (if p(s[0]) then 1 else 0) + CountWhere(s[1..], p)
    decreases |s|
  {
    if |s| > 1 {
      var init := s[..|s| - 1];
      CountWhereFront(init, p);
      assert init[1..] == s[1..][..|s[1..]| - 1];
    }
  }

  /** Two properties no element has at once count at most `|s|` together. */
  lemma {:induction false} CountDisjoint<T>(s: seq<T>, p: T -> bool, q: T -> bool)
    requires forall i | 0 <= i < |s| :: !(p(s[i]) && q(s[i]))
    ensures CountWhere(s, p) + CountWhere(s, q) <= |s|
  {
    if |s| > 0 {
      var init := s[..|s| - 1];
      assert forall i | 0 <= i < |init| :: init[i] == s[i];
      CountDisjoint(init, p, q);
    }
  }

  /** Number of occurrences of `x` in `s`. */
  function Occurrences<T(==)>(s: seq<T>, x: T): (n: nat)
    ensures n <= |s|
    ensures n > 0 <==> x in s
  {
    if |s| == 0 then 0
    else
      assert s == s[..|s| - 1] + [s[|s| - 1]];
      Occurrences(s[..|s| - 1], x) + (if s[|s| - 1] == x then 1 else 0)
  }

  predicate Distinct<T(==)>(s: seq<T>) {
    forall i, j | 0 <= i < j < |s| :: s[i] != s[j]
  }

  /** The distinct elements of `s` in the order in which they are first seen. */
  function Dedup<T(==)>(s: seq<T>): (d: seq<T>)
    ensures Distinct(d)
    ensures forall x | x in d :: x in s
    ensures forall x | x in s :: x in d
  {
    if |s| == 0 then []
    else
      var d := Dedup(s[..|s| - 1]);
      assert s == s[..|s| - 1] + [s[|s| - 1]];
      if s[|s| - 1] in d then d else d + [s[|s| - 1]]
  }

  /** A sequence is empty iff nothing is a member of it. */
  lemma EmptyIffNoMembers<T>(s: seq<T>)
    ensures s == [] <==> forall x :: x !in s
  {
    if s != [] {
      assert s[0] in s;
    }
  }

  /** `d` lists its elements in the order of their first occurrence in `s`:
   *  wherever a later element of `d` occurs in `s`, every earlier one has
   *  occurred before. */
  predicate InFirstSeenOrder<T(==)>(d: seq<T>, s: seq<T>) {
    forall i, j, k | 0 <= i < j < |d| && 0 <= k < |s| && s[k] == d[j] :: d[i] in s[..k]
  }

  lemma {:induction false} DedupFirstSeenOrder<T>(s: seq<T>)
    ensures InFirstSeenOrder(Dedup(s), s)
  {
    if |s| > 0 {
      var n := |s| - 1;
      var init := s[..n];
      var d0 := Dedup(init);
      var d := Dedup(s);
      DedupFirstSeenOrder(init);
      forall i, j, k | 0 <= i < j < |d| && 0 <= k < |s| && s[k] == d[j] ensures d[i] in s[..k] {
        if k < n {
          assert s[..k] == init[..k];
          assert init[k] in init;
        } else {
          assert d[i] in d0;
          assert s[..k] == init;
        }
      }
    }
  }

  /** `a` is obtained from `b` by deleting elements (order is kept). */
  predicate IsSubsequence<T(==)>(a: seq<T>, b: seq<T>)
    decreases |b|
  {
    if |a| == 0 then true
    else if |b| == 0 then false
    else if a[0] == b[0] then IsSubsequence(a[1..], b[1..])
    else IsSubsequence(a, b[1..])
  }

  lemma {:induction false} SubsequenceMembers<T>(a: seq<T>, b: seq<T>)
    requires IsSubsequence(a, b)
    ensures forall x | x in a :: x in b
    decreases |b|
  {
    if |a| > 0 && |b| > 0 {
      if a[0] == b[0] {
        SubsequenceMembers(a[1..], b[1..]);
        assert forall x | x in a :: x == a[0] || x in a[1..];
      } else {
        SubsequenceMembers(a, b[1..]);
      }
    }
  }

  /** Appending an element to `b` keeps `a` a subsequence, with or without the element. */
  lemma {:induction false} SubsequenceAppend<T>(a: seq<T>, b: seq<T>, x: T)
    requires IsSubsequence(a, b)
    ensures IsSubsequence(a + [x], b + [x]) && IsSubsequence(a, b + [x])
    decreases |b|
  {
    if |b| > 0 {
      assert (b + [x])[1..] == b[1..] + [x];
      if |a| > 0 {
        assert (a + [x])[1..] == a[1..] + [x];
        if a[0] == b[0] {
          SubsequenceAppend(a[1..], b[1..], x);
        } else {
          SubsequenceAppend(a, b[1..], x);
        }
      } else {
        SubsequenceAppend(a, b[1..], x);
      }
    }
  }

  lemma {:induction false} PrefixIsSubsequence<T>(a: seq<T>, b: seq<T>, n: nat)
    requires IsSubsequence(a, b) && n <= |a|
    ensures IsSubsequence(a[..n], b)
    decreases |b|
  {
    if n > 0 && |b| > 0 {
      if a[0] == b[0] {
        PrefixIsSubsequence(a[1..], b[1..], n - 1);
        assert a[..n][1..] == a[1..][..n - 1];
      } else {
        PrefixIsSubsequence(a, b[1..], n);
      }
    }
  }

  /** Dropping the first element of `b` can only lose subsequences. */
  lemma {:induction false} SubsequenceSkipHead<T>(a: seq<T>, b: seq<T>)
    requires |b| > 0 && IsSubsequence(a, b[1..])
    ensures IsSubsequence(a, b)
    decreases |b|, 1
  {
    if |a| > 0 && a[0] == b[0] {
      SubsequenceTail(a, b[1..]);
    }
  }

  /** Dropping the first element of a subsequence keeps it a subsequence. */
  lemma {:induction false} SubsequenceTail<T>(a: seq<T>, b: seq<T>)
    requires |a| > 0 && IsSubsequence(a, b)
    ensures IsSubsequence(a[1..], b)
    decreases |b|, 2
  {
    if a[0] == b[0] {
      SubsequenceSkipHead(a[1..], b);
    } else {
      SubsequenceTail(a, b[1..]);
      SubsequenceSkipHead(a[1..], b);
    }
  }

  // ---------------------------------------------------------------------
  // Stable sort by a natural-number key, largest key first.
  // Processing the input left to right and inserting each element after
  // every element whose key is at least as large keeps elements of equal
  // key in their input order, as JavaScript's (stable) Array.prototype.sort
  // does with the comparator `(a, b) => key(b) - key(a)`.
  // ---------------------------------------------------------------------

  predicate SortedDesc<T>(s: seq<T>, key: T -> nat) {
    forall i, j | 0 <= i < j < |s| :: key(s[i]) >= key(s[j])
  }

  /** The elements of `s` whose key is `v`, in their order in `s`. */
  function WithKey<T>(s: seq<T>, key: T -> nat, v: nat): (r: seq<T>)
    ensures forall x | x in r :: key(x) == v
  {
    if |s| == 0 then []
    else (if key(s[0]) == v then [s[0]] else []) + WithKey(s[1..], key, v)
  }

  lemma {:induction false} WithKeyAppend<T>(a: seq<T>, b: seq<T>, key: T -> nat, v: nat)
    ensures WithKey(a + b, key, v) == WithKey(a, key, v) + WithKey(b, key, v)
  {
    if |a| == 0 {
      assert a + b == b;
    } else {
      assert (a + b)[0] == a[0];
      assert (a + b)[1..] == a[1..] + b;
      WithKeyAppend(a[1..], b, key, v);
    }
  }

  lemma {:induction false} WithKeyNone<T>(s: seq<T>, key: T -> nat, v: nat)
    requires forall i | 0 <= i < |s| :: key(s[i]) < v
    ensures WithKey(s, key, v) == []
  {
    if |s| > 0 {
      WithKeyNone(s[1..], key, v);
    }
  }

  /** Inserts `x` after the leading elements whose key is at least `key(x)`. */
  function InsertDesc<T>(x: T, s: seq<T>, key: T -> nat): (r: seq<T>)
    ensures multiset(r) == multiset(s) + multiset{x}
    ensures |r| == |s| + 1
  {
    if |s| == 0 then [x]
    else if key(s[0]) >= key(x) then
      assert s == [s[0]] + s[1..];
      [s[0]] + InsertDesc(x, s[1..], key)
    else [x] + s
  }

  lemma {:induction false} InsertDescSorted<T>(x: T, s: seq<T>, key: T -> nat)
    requires SortedDesc(s, key)
    ensures SortedDesc(InsertDesc(x, s, key), key)
  {
    if |s| > 0 && key(s[0]) >= key(x) {
      var rest := InsertDesc(x, s[1..], key);
      InsertDescSorted(x, s[1..], key);
      forall j | 0 <= j < |rest| ensures key(s[0]) >= key(rest[j]) {
        assert rest[j] in multiset(rest);
        assert rest[j] == x || rest[j] in multiset(s[1..]);
        if rest[j] != x {
          var k :| 0 <= k < |s[1..]| && s[1..][k] == rest[j];
          assert s[k + 1] == rest[j];
        }
      }
      var r := [s[0]] + rest;
      forall i, j | 0 <= i < j < |r| ensures key(r[i]) >= key(r[j]) {
        if i > 0 {
          assert r[i] == rest[i - 1] && r[j] == rest[j - 1];
        } else {
          assert r[j] == rest[j - 1];
        }
      }
    }
  }

  /** Associativity of concatenation, stated over plain variables: asserted on
   *  the composite terms of `InsertBehind` directly, it exhausts the solver. */
  lemma ConcatAssociative<T>(a: seq<T>, b: seq<T>, c: seq<T>)
    ensures a + (b + c) == (a + b) + c
  {
  }

  /** `x` goes in front of a sorted sequence whose keys are all smaller. */
  lemma InsertInFront<T>(x: T, s: seq<T>, key: T -> nat, v: nat)
    requires SortedDesc(s, key) && (|s| == 0 || key(s[0]) < key(x))
    ensures WithKey(InsertDesc(x, s, key), key, v)
         == WithKey(s, key, v) + (if key(x) == v then [x] else [])
  {
    var tail := if key(x) == v then [x] else [];
    var r := [x] + s;
    assert InsertDesc(x, s, key) == r;
    assert r[0] == x && r[1..] == s;
    assert WithKey(r, key, v) == tail + WithKey(s, key, v);
    if key(x) == v {
      assert forall i | 0 <= i < |s| :: key(s[i]) <= key(s[0]);
      WithKeyNone(s, key, v);
    }
  }

  /** `x` goes behind the first element when its key is not larger. */
  lemma InsertBehind<T>(x: T, s: seq<T>, key: T -> nat, v: nat)
    requires |s| > 0 && key(s[0]) >= key(x)
    requires WithKey(InsertDesc(x, s[1..], key), key, v)
          == WithKey(s[1..], key, v) + (if key(x) == v then [x] else [])
    ensures WithKey(InsertDesc(x, s, key), key, v)
         == WithKey(s, key, v) + (if key(x) == v then [x] else [])
  {
    var tail := if key(x) == v then [x] else [];
    var head := if key(s[0]) == v then [s[0]] else [];
    var rest := InsertDesc(x, s[1..], key);
    var r := [s[0]] + rest;
    assert InsertDesc(x, s, key) == r;
    assert r[0] == s[0] && r[1..] == rest;
    assert WithKey(r, key, v) == head + WithKey(rest, key, v);
    assert WithKey(s, key, v) == head + WithKey(s[1..], key, v);
    ConcatAssociative(head, WithKey(s[1..], key, v), tail);
  }

  /** Inserting into a sorted sequence puts `x` after every element with its key. */
  lemma {:induction false} InsertDescStable<T>(x: T, s: seq<T>, key: T -> nat, v: nat)
    requires SortedDesc(s, key)
    ensures WithKey(InsertDesc(x, s, key), key, v)
         == WithKey(s, key, v) + (if key(x) == v then [x] else [])
  {
    if |s| > 0 && key(s[0]) >= key(x) {
      assert SortedDesc(s[1..], key);
      InsertDescStable(x, s[1..], key, v);
      InsertBehind(x, s, key, v);
    } else {
      InsertInFront(x, s, key, v);
    }
  }

  /** Stable sort of `s`, largest key first. */
  function SortDesc<T>(s: seq<T>, key: T -> nat): (r: seq<T>)
    ensures multiset(r) == multiset(s)
    ensures SortedDesc(r, key)
  {
    if |s| == 0 then []
    else
      var init := SortDesc(s[..|s| - 1], key);
      InsertDescSorted(s[|s| - 1], init, key);
      assert s == s[..|s| - 1] + [s[|s| - 1]];
      InsertDesc(s[|s| - 1], init, key)
  }

  /** Stability: restricted to any one key value, the sort keeps input order. */
  lemma {:induction false} SortDescStable<T>(s: seq<T>, key: T -> nat, v: nat)
    ensures WithKey(SortDesc(s, key), key, v) == WithKey(s, key, v)
  {
    if |s| > 0 {
      var init := s[..|s| - 1];
      var last := s[|s| - 1];
      SortDescStable(init, key, v);
      SortDescLast(s, key);
      InsertDescStable(last, SortDesc(init, key), key, v);
      WithKeyLast(s, key, v);
    }
  }

  lemma SortDescLast<T>(s: seq<T>, key: T -> nat)
    requires |s| > 0
    ensures SortDesc(s, key) == InsertDesc(s[|s| - 1], SortDesc(s[..|s| - 1], key), key)
    ensures SortedDesc(SortDesc(s[..|s| - 1], key), key)
  {
  }

  lemma WithKeyLast<T>(s: seq<T>, key: T -> nat, v: nat)
    requires |s| > 0
    ensures WithKey(s, key, v)
         == WithKey(s[..|s| - 1], key, v) + (if key(s[|s| - 1]) == v then [s[|s| - 1]] else [])
  {
    var last := s[|s| - 1];
    assert s == s[..|s| - 1] + [last];
    WithKeyAppend(s[..|s| - 1], [last], key, v);
    assert WithKey([last], key, v) == (if key(last) == v then [last] else []) + WithKey([], key, v);
  }

  lemma SortDescMembers<T>(s: seq<T>, key: T -> nat)
    ensures forall x | x in SortDesc(s, key) :: x in s
    ensures forall x | x in s :: x in SortDesc(s, key)
  {
    var r := SortDesc(s, key);
    assert multiset(r) == multiset(s);
    forall x | x in r ensures x in s {
      assert x in multiset(r);
    }
    forall x | x in s ensures x in r {
      assert x in multiset(s);
    }
  }

  lemma {:induction false} SortDescDistinct<T>(s: seq<T>, key: T -> nat)
    requires Distinct(s)
    ensures Distinct(SortDesc(s, key))
  {
    if |s| > 0 {
      var init := s[..|s| - 1];
      var last := s[|s| - 1];
      assert Distinct(init);
      SortDescDistinct(init, key);
      SortDescMembers(init, key);
      assert last !in init;
      InsertDescDistinct(last, SortDesc(init, key), key);
    }
  }

  lemma {:induction false} InsertDescDistinct<T>(x: T, s: seq<T>, key: T -> nat)
    requires Distinct(s) && x !in s
    ensures Distinct(InsertDesc(x, s, key))
  {
    if |s| > 0 && key(s[0]) >= key(x) {
      var rest := InsertDesc(x, s[1..], key);
      assert Distinct(s[1..]);
      InsertDescDistinct(x, s[1..], key);
      assert s[0] != x && s[0] !in s[1..];
      assert s[0] !in multiset(rest);
      var r := [s[0]] + rest;
      forall i, j | 0 <= i < j < |r| ensures r[i] != r[j] {
        if i == 0 {
          assert r[j] == rest[j - 1];
          assert rest[j - 1] in multiset(rest);
        } else {
          assert r[i] == rest[i - 1] && r[j] == rest[j - 1];
        }
      }
    }
  }

  /** The sort only looks at the keys of the elements it is given. */
  lemma {:induction false} SortDescCongruent<T>(s: seq<T>, key1: T -> nat, key2: T -> nat)
    requires forall x | x in s :: key1(x) == key2(x)
    ensures SortDesc(s, key1) == SortDesc(s, key2)
  {
    if |s| > 0 {
      var init := s[..|s| - 1];
      SortDescCongruent(init, key1, key2);
      SortDescMembers(init, key1);
      InsertDescCongruent(s[|s| - 1], SortDesc(init, key1), key1, key2);
    }
  }

  lemma {:induction false} InsertDescCongruent<T>(x: T, s: seq<T>, key1: T -> nat, key2: T -> nat)
    requires key1(x) == key2(x)
    requires forall y | y in s :: key1(y) == key2(y)
    ensures InsertDesc(x, s, key1) == InsertDesc(x, s, key2)
  {
    if |s| > 0 {
      assert s[0] in s;
      InsertDescCongruent(x, s[1..], key1, key2);
    }
  }
}
