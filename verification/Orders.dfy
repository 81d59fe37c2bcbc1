/**
  Strict total orders, lexicographic order, and the one ascending enumeration of a finite
  set: the iteration order of B-tree maps and of ordered tables.
 */
module Orders {

  ghost predicate StrictTotal<T(!new)>(less: (T, T) -> bool) {
    && (forall a, b :: less(a, b) ==> !less(b, a))
    && (forall a, b, c :: less(a, b) && less(b, c) ==> less(a, c))
    && (forall a, b :: a == b || less(a, b) || less(b, a))
  }

  /** Lexicographic order of sequences; a proper prefix comes first. */
  predicate Lex<T(==)>(less: (T, T) -> bool, a: seq<T>, b: seq<T>) {
    b != [] && (a == [] || less(a[0], b[0]) || (a[0] == b[0] && Lex(less, a[1..], b[1..])))
  }

  lemma {:induction false} LexAsymmetric<T(!new)>(less: (T, T) -> bool, a: seq<T>, b: seq<T>)
    requires StrictTotal(less) && Lex(less, a, b)
    ensures !Lex(less, b, a)
  {
    if a != [] && !less(a[0], b[0]) { LexAsymmetric(less, a[1..], b[1..]); }
  }

  lemma {:induction false} LexTransitive<T(!new)>(less: (T, T) -> bool, a: seq<T>, b: seq<T>, c: seq<T>)
    requires StrictTotal(less) && Lex(less, a, b) && Lex(less, b, c)
    ensures Lex(less, a, c)
  {
    if a != [] && !less(a[0], b[0]) && !less(b[0], c[0]) { LexTransitive(less, a[1..], b[1..], c[1..]); }
  }

  lemma {:induction false} LexTotal<T(!new)>(less: (T, T) -> bool, a: seq<T>, b: seq<T>)
    requires StrictTotal(less)
    ensures a == b || Lex(less, a, b) || Lex(less, b, a)
  {
    if a != [] && b != [] && a[0] == b[0] {
      LexTotal(less, a[1..], b[1..]);
      assert a == [a[0]] + a[1..] && b == [b[0]] + b[1..];
    }
  }

  predicate CharLess(a: char, b: char) { a < b }

  predicate StrLess(a: string, b: string) { Lex(CharLess, a, b) }

  lemma StrLessTotal()
    ensures StrictTotal(StrLess)
  {
    assert StrictTotal(CharLess);
    forall a, b | StrLess(a, b) ensures !StrLess(b, a) { LexAsymmetric(CharLess, a, b); }
    forall a, b, c | StrLess(a, b) && StrLess(b, c) ensures StrLess(a, c) { LexTransitive(CharLess, a, b, c); }
    forall a, b ensures a == b || StrLess(a, b) || StrLess(b, a) { LexTotal(CharLess, a, b); }
  }

  /** They agree on their first `k` characters, and then `a` ends or has the lower character. */
  predicate LowerAt(a: string, b: string, k: nat) {
    && k <= |a| && k < |b| && (forall i :: 0 <= i < k ==> a[i] == b[i])
    && (k == |a| || a[k] < b[k])
  }

  /** Strings are ordered by the first character in which they differ; a proper prefix comes first. */
  lemma {:induction false} StrLessIff(a: string, b: string)
    ensures StrLess(a, b) <==> exists k: nat :: LowerAt(a, b, k)
  {
    if a != [] && b != [] && a[0] == b[0] {
      StrLessIff(a[1..], b[1..]);
      if k: nat :| LowerAt(a[1..], b[1..], k) {
        assert forall i :: 0 < i <= k ==> a[i] == a[1..][i - 1] && b[i] == b[1..][i - 1];
        assert LowerAt(a, b, k + 1);
      }
      if k: nat :| LowerAt(a, b, k) { assert LowerAt(a[1..], b[1..], k - 1); }
    } else if StrLess(a, b) {
      assert LowerAt(a, b, 0);
    }
  }

  /** The key of an org-scoped table, and of the membership table. */
  datatype Pair = Pair(org: string, name: string)
  datatype Triple = Triple(org: string, role: string, user: string)

  predicate PairLess(a: Pair, b: Pair) { StrLess(a.org, b.org) || (a.org == b.org && StrLess(a.name, b.name)) }

  predicate TripleLess(a: Triple, b: Triple) {
    StrLess(a.org, b.org) || (a.org == b.org && PairLess(Pair(a.role, a.user), Pair(b.role, b.user)))
  }

  lemma PairLessTotal()
    ensures StrictTotal(PairLess)
  {
    StrLessTotal();
  }

  lemma TripleLessTotal()
    ensures StrictTotal(TripleLess)
  {
    StrLessTotal();
    PairLessTotal();
  }

  // ----- Enumerating a set in order -----------------------------------------------------

  predicate Ascending<T>(less: (T, T) -> bool, s: seq<T>) { forall i, j :: 0 <= i < j < |s| ==> less(s[i], s[j]) }

  predicate IsLeast<T(==)>(less: (T, T) -> bool, s: set<T>, x: T) {
    x in s && forall y :: y in s ==> y == x || less(x, y)
  }

  lemma {:induction false} LeastExists<T(!new)>(less: (T, T) -> bool, s: set<T>)
    requires StrictTotal(less) && s != {}
    ensures exists x :: IsLeast(less, s, x)
    decreases |s|
  {
    var y :| y in s;
    if s == {y} {
      assert IsLeast(less, s, y);
    } else {
      var rest := s - {y};
      assert s == {y} + rest;
      LeastExists(less, rest);
      var x :| IsLeast(less, rest, x);
      assert IsLeast(less, s, if less(y, x) then y else x);
    }
  }

  /** The elements of `s` in ascending order. */
  function Sorted<T(==, !new)>(less: (T, T) -> bool, s: set<T>): (r: seq<T>)
    requires StrictTotal(less)
    ensures Ascending(less, r) && (forall x :: x in r <==> x in s)
    decreases |s|
  {
    if s == {} then []
    else
      LeastExists(less, s);
      var x :| IsLeast(less, s, x);
      var rest := Sorted(less, s - {x});
      assert s == {x} + (s - {x});
      assert forall i :: 0 <= i < |rest| ==> rest[i] in s - {x};
      [x] + rest
  }

  /** An ascending enumeration is determined by its elements. */
  lemma {:induction false} SameElementsSame<T(!new)>(less: (T, T) -> bool, a: seq<T>, b: seq<T>)
    requires StrictTotal(less) && Ascending(less, a) && Ascending(less, b)
    requires forall x :: x in a <==> x in b
    ensures a == b
    decreases |a|
  {
    assert b == [] || b[0] in b;
    if a != [] {
      assert a[0] in b && (b == [] || b[0] in a);
      assert b[0] == a[0];
      var ra, rb := a[1..], b[1..];
      forall x ensures x in ra <==> x in rb {
        TailElements(less, a, x);
        TailElements(less, b, x);
      }
      SameElementsSame(less, ra, rb);
      assert a == [a[0]] + ra && b == [b[0]] + rb;
    }
  }

  lemma TailElements<T(!new)>(less: (T, T) -> bool, a: seq<T>, x: T)
    requires StrictTotal(less) && Ascending(less, a) && a != []
    ensures x in a[1..] <==> x in a && x != a[0]
  {
    assert a == [a[0]] + a[1..];
    assert forall i :: 0 <= i < |a[1..]| ==> a[1..][i] == a[i + 1] && less(a[0], a[i + 1]);
  }

  lemma SortedIsUnique<T(!new)>(less: (T, T) -> bool, a: seq<T>, s: set<T>)
    requires StrictTotal(less) && Ascending(less, a) && forall x :: x in a <==> x in s
    ensures a == Sorted(less, s)
  {
    SameElementsSame(less, a, Sorted(less, s));
  }

  // ----- Filtered scans -----------------------------------------------------------------

  /** The elements a scan keeps, in order. */
  function Filter<T(!new)>(keep: T -> bool, s: seq<T>): (r: seq<T>)
    ensures forall x :: x in r <==> x in s && keep(x)
  {
    if s == [] then []
    else
      var last := s[|s| - 1];
      var front := Filter(keep, s[..|s| - 1]);
      assert s == s[..|s| - 1] + [last];
      if keep(last) then front + [last] else front
  }

  /** A scan that has reached index `i` takes one more element into account. */
  lemma FilterStep<T(!new)>(keep: T -> bool, s: seq<T>, i: nat)
    requires i < |s|
    ensures Filter(keep, s[..i + 1]) == Filter(keep, s[..i]) + if keep(s[i]) then [s[i]] else []
  {
    assert s[..i + 1][..i] == s[..i];
  }

  lemma {:induction false} FilterAscending<T(!new)>(less: (T, T) -> bool, keep: T -> bool, s: seq<T>)
    requires Ascending(less, s)
    ensures Ascending(less, Filter(keep, s))
  {
    if s != [] {
      var front, last := s[..|s| - 1], s[|s| - 1];
      FilterAscending(less, keep, front);
      var kept := Filter(keep, front);
      forall i | 0 <= i < |kept| ensures less(kept[i], last) {
        assert kept[i] in front;
      }
    }
  }
}
