/** `Array.prototype.sort` with a comparator, modelled as a stable insertion sort by a total
    preorder `ge` ("`a` may come before `b`"), and the facts about distinct sequences that the
    callers of the sort need. */
module Sorting {

  ghost predicate Total<T(!new)>(ge: (T, T) -> bool) {
    forall a: T, b: T :: ge(a, b) || ge(b, a)
  }

  ghost predicate Transitive<T(!new)>(ge: (T, T) -> bool) {
    forall a: T, b: T, c: T :: ge(a, b) && ge(b, c) ==> ge(a, c)
  }

  ghost predicate TotalPreorder<T(!new)>(ge: (T, T) -> bool) {
    Total(ge) && Transitive(ge)
  }

  /** Every element may come before every later one. */
  ghost predicate SortedBy<T>(s: seq<T>, ge: (T, T) -> bool) {
    forall i, j | 0 <= i < j < |s| :: ge(s[i], s[j])
  }

  /** Puts `x` in front of the first element it may precede. */
  function Insert<T(!new)>(x: T, s: seq<T>, ge: (T, T) -> bool): (r: seq<T>)
    requires TotalPreorder(ge)
    requires SortedBy(s, ge)
    ensures multiset(r) == multiset(s) + multiset{x}
    ensures SortedBy(r, ge)
  {
    if s == [] then [x]
    else if ge(x, s[0]) then
      assert forall j | 0 <= j < |s| :: ge(x, s[j]) by {
        forall j | 0 <= j < |s| ensures ge(x, s[j]) {
          if j > 0 { assert ge(s[0], s[j]); }
        }
      }
      [x] + s
    else
      var t := Insert(x, s[1..], ge);
      assert s == [s[0]] + s[1..];
      assert forall y | y in t :: ge(s[0], y) by {
        forall y | y in t ensures ge(s[0], y) {
          assert y in multiset(t);
          if y != x {
            assert y in multiset(s[1..]);
            var j :| 0 <= j < |s[1..]| && s[1..][j] == y;
            assert s[j + 1] == y;
          }
        }
      }
      [s[0]] + t
  }

  /** A permutation of `s` in which every element may come before every later one. */
  function SortBy<T(!new)>(s: seq<T>, ge: (T, T) -> bool): (r: seq<T>)
    requires TotalPreorder(ge)
    ensures multiset(r) == multiset(s)
    ensures SortedBy(r, ge)
  {
    if s == [] then []
    else
      assert s == [s[0]] + s[1..];
      Insert(s[0], SortBy(s[1..], ge), ge)
  }

  /** Any integer key ordered largest first is a total preorder ("newest first"). */
  lemma KeyDescendingIsPreorder<T(!new)>(key: T -> int)
    ensures TotalPreorder((a: T, b: T) => key(a) >= key(b))
  {
  }

  /** Code-point lexicographic order on strings (`a` is at most `b`). */
  predicate LexLe(a: string, b: string)
    decreases |a|
  {
    a == [] || (b != [] && (a[0] < b[0] || (a[0] == b[0] && LexLe(a[1..], b[1..]))))
  }

  lemma {:induction false} LexTotal(a: string, b: string)
    ensures LexLe(a, b) || LexLe(b, a)
    decreases |a|
  {
    if a != [] && b != [] && a[0] == b[0] {
      LexTotal(a[1..], b[1..]);
    }
  }

  lemma {:induction false} LexTransitive(a: string, b: string, c: string)
    requires LexLe(a, b) && LexLe(b, c)
    ensures LexLe(a, c)
    decreases |a|
  {
    if a != [] && a[0] == b[0] && b[0] == c[0] {
      LexTransitive(a[1..], b[1..], c[1..]);
    }
  }

  lemma {:induction false} LexAntisymmetric(a: string, b: string)
    requires LexLe(a, b) && LexLe(b, a)
    ensures a == b
    decreases |a|
  {
    if a != [] {
      LexAntisymmetric(a[1..], b[1..]);
      assert a == [a[0]] + a[1..] && b == [b[0]] + b[1..];
    }
  }

  /** `(a, b) => b.localeCompare(a)` read as code-point order: greatest string first. */
  function LexDescending(a: string, b: string): bool {
    LexLe(b, a)
  }

  lemma LexDescendingIsPreorder()
    ensures TotalPreorder(LexDescending)
  {
    forall a: string, b: string ensures LexDescending(a, b) || LexDescending(b, a) {
      LexTotal(a, b);
    }
    forall a: string, b: string, c: string | LexDescending(a, b) && LexDescending(b, c)
      ensures LexDescending(a, c)
    {
      LexTransitive(c, b, a);
    }
  }

  /** The set of elements of a sequence. */
  function Elems<T(!new)>(s: seq<T>): (r: set<T>)
    ensures forall x :: x in r <==> x in s
  {
    set x | x in s
  }

  lemma ElemsAppend<T(!new)>(s: seq<T>, x: T)
    ensures Elems(s + [x]) == Elems(s) + {x}
  {
  }

  lemma PermutationElems<T(!new)>(s: seq<T>, t: seq<T>)
    requires multiset(s) == multiset(t)
    ensures Elems(s) == Elems(t)
  {
    assert forall x :: x in s <==> x in multiset(s);
    assert forall x :: x in t <==> x in multiset(t);
  }

  /** No element occurs twice. */
  predicate Distinct<T(==)>(s: seq<T>) {
    forall i, j | 0 <= i < j < |s| :: s[i] != s[j]
  }

  lemma {:induction false} DistinctCount<T>(s: seq<T>, x: T)
    requires Distinct(s)
    ensures multiset(s)[x] <= 1
  {
    if s != [] {
      assert s == [s[0]] + s[1..];
      DistinctCount(s[1..], x);
      if s[0] == x {
        assert forall j | 0 <= j < |s[1..]| :: s[1..][j] == s[j + 1] != s[0];
        assert x !in s[1..];
      }
    }
  }

  /** A permutation of a sequence without repeats has no repeats either. */
  lemma PermutationKeepsDistinct<T>(s: seq<T>, t: seq<T>)
    requires multiset(s) == multiset(t) && Distinct(s)
    ensures Distinct(t)
  {
    forall i, j | 0 <= i < j < |t| ensures t[i] != t[j] {
      if t[i] == t[j] {
        var x := t[i];
        assert t == t[..j] + [t[j]] + t[j + 1..];
        assert x in t[..j];
        assert multiset(t)[x] >= 2;
        DistinctCount(s, x);
        assert false;
      }
    }
  }

  /** A sequence without repeats has as many distinct elements as it is long. */
  lemma {:induction false} DistinctCardinality<T(!new)>(s: seq<T>)
    requires Distinct(s)
    ensures |Elems(s)| == |s|
  {
    if s != [] {
      var rest := s[1..];
      DistinctCardinality(rest);
      assert forall j | 0 <= j < |rest| :: rest[j] == s[j + 1] != s[0];
      assert s[0] !in rest;
      assert Elems(s) == {s[0]} + Elems(rest);
    }
  }
}
