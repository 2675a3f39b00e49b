/** The order in which grouped rows come out: Python compares strings, and
    tuples of strings, lexicographically, and a sorted grouping lists each
    distinct key once in that order. */
module Ordering {

  /** `lt` is irreflexive, transitive and total on distinct values. */
  ghost predicate StrictTotalOrder<T(!new)>(lt: (T, T) -> bool) {
    && (forall x :: !lt(x, x))
    && (forall x, y, z :: lt(x, y) && lt(y, z) ==> lt(x, z))
    && (forall x, y :: x != y ==> lt(x, y) || lt(y, x))
  }

  /** `a` sorts before `b`: the first position where they differ decides by
      `lt`, and a proper prefix sorts first. */
  predicate LexLess<T(==)>(a: seq<T>, b: seq<T>, lt: (T, T) -> bool) {
    if |a| == 0 then |b| > 0
    else |b| > 0 && (lt(a[0], b[0]) || (a[0] == b[0] && LexLess(a[1..], b[1..], lt)))
  }

  lemma {:induction false} LexIrreflexive<T(!new)>(a: seq<T>, lt: (T, T) -> bool)
    requires StrictTotalOrder(lt)
    ensures !LexLess(a, a, lt)
  {
    if |a| > 0 {
      LexIrreflexive(a[1..], lt);
    }
  }

  lemma {:induction false} LexTransitive<T(!new)>(a: seq<T>, b: seq<T>, c: seq<T>, lt: (T, T) -> bool)
    requires StrictTotalOrder(lt)
    requires LexLess(a, b, lt) && LexLess(b, c, lt)
    ensures LexLess(a, c, lt)
  {
    if |a| > 0 && a[0] == b[0] && b[0] == c[0] {
      LexTransitive(a[1..], b[1..], c[1..], lt);
    }
  }

  lemma {:induction false} LexTotal<T(!new)>(a: seq<T>, b: seq<T>, lt: (T, T) -> bool)
    requires StrictTotalOrder(lt)
    requires a != b
    ensures LexLess(a, b, lt) || LexLess(b, a, lt)
  {
    if |a| > 0 && |b| > 0 && a[0] == b[0] {
      assert a == [a[0]] + a[1..] && b == [b[0]] + b[1..];
      LexTotal(a[1..], b[1..], lt);
    }
  }

  /** Lexicographic comparison inherits a strict total order. */
  lemma LexStrictTotalOrder<T(!new)>(lt: (T, T) -> bool)
    requires StrictTotalOrder(lt)
    ensures forall a: seq<T> :: !LexLess(a, a, lt)
    ensures forall a: seq<T>, b: seq<T>, c: seq<T> :: LexLess(a, b, lt) && LexLess(b, c, lt) ==> LexLess(a, c, lt)
    ensures forall a: seq<T>, b: seq<T> :: a != b ==> LexLess(a, b, lt) || LexLess(b, a, lt)
  {
    forall a: seq<T> ensures !LexLess(a, a, lt) {
      LexIrreflexive(a, lt);
    }
    forall a: seq<T>, b: seq<T>, c: seq<T> | LexLess(a, b, lt) && LexLess(b, c, lt)
      ensures LexLess(a, c, lt)
    {
      LexTransitive(a, b, c, lt);
    }
    forall a: seq<T>, b: seq<T> | a != b
      ensures LexLess(a, b, lt) || LexLess(b, a, lt)
    {
      LexTotal(a, b, lt);
    }
  }

  /** Characters compare by code point. */
  function CharLess(x: char, y: char): bool {
    x < y
  }

  /** Python's `<` on `str`. */
  function StrLess(a: string, b: string): bool {
    LexLess(a, b, CharLess)
  }

  /** Python's `<` on tuples of `str` of one length: a group key. */
  function KeyLess(a: seq<string>, b: seq<string>): bool {
    LexLess(a, b, StrLess)
  }

  lemma StrLessIsStrictTotal()
    ensures StrictTotalOrder(StrLess)
  {
    assert StrictTotalOrder(CharLess);
    LexStrictTotalOrder(CharLess);
  }

  /** Group keys are totally ordered, so a sorted listing is well defined. */
  lemma KeyLessIsStrictTotal()
    ensures StrictTotalOrder(KeyLess)
  {
    StrLessIsStrictTotal();
    LexStrictTotalOrder(StrLess);
  }

  /** Each element sorts strictly before every later one. */
  ghost predicate StrictlySorted<T>(xs: seq<T>, lt: (T, T) -> bool) {
    forall i, j :: 0 <= i < j < |xs| ==> lt(xs[i], xs[j])
  }

  /** `k` added to a sorted listing at its place, unless it is there already. */
  function Insert<T(==)>(xs: seq<T>, k: T, lt: (T, T) -> bool): seq<T> {
    if |xs| == 0 then [k]
    else if k == xs[0] then xs
    else if lt(k, xs[0]) then [k] + xs
    else [xs[0]] + Insert(xs[1..], k, lt)
  }

  lemma {:induction false} InsertSorted<T(!new)>(xs: seq<T>, k: T, lt: (T, T) -> bool)
    requires StrictTotalOrder(lt) && StrictlySorted(xs, lt)
    ensures StrictlySorted(Insert(xs, k, lt), lt)
    ensures forall y :: y in Insert(xs, k, lt) <==> y == k || y in xs
  {
    if |xs| > 0 && k != xs[0] && !lt(k, xs[0]) {
      InsertSorted(xs[1..], k, lt);
      var r := Insert(xs[1..], k, lt);
      assert xs == [xs[0]] + xs[1..];
      forall y | y in r ensures lt(xs[0], y) {
        if y != k {
          var j :| 0 <= j < |xs[1..]| && xs[1..][j] == y;
          assert xs[j + 1] == y;
        }
      }
    } else if |xs| > 0 && k != xs[0] {
      forall i, j | 0 <= i < j < |[k] + xs| ensures lt(([k] + xs)[i], ([k] + xs)[j]) {
        if i == 0 && j > 1 {
          assert lt(xs[0], xs[j - 1]);
        }
      }
    }
  }

  /** The distinct elements of `ks`, each once, in increasing order: the
      group enumeration order of a sorting `groupby`. */
  function SortedDistinct<T(==,!new)>(ks: seq<T>, lt: (T, T) -> bool): (r: seq<T>)
    requires StrictTotalOrder(lt)
    ensures StrictlySorted(r, lt)
    ensures forall y :: y in r <==> y in ks
  {
    if |ks| == 0 then []
    else
      var prefix := SortedDistinct(ks[..|ks| - 1], lt);
      InsertSorted(prefix, ks[|ks| - 1], lt);
      assert forall y :: y in ks <==> y in ks[..|ks| - 1] || y == ks[|ks| - 1] by {
        assert ks == ks[..|ks| - 1] + [ks[|ks| - 1]];
      }
      Insert(prefix, ks[|ks| - 1], lt)
  }

  /** Two strictly sorted listings of the same elements are equal: the
      enumeration order is determined by the set of keys alone. */
  lemma {:induction false} SortedListingUnique<T(!new)>(a: seq<T>, b: seq<T>, lt: (T, T) -> bool)
    requires StrictTotalOrder(lt) && StrictlySorted(a, lt) && StrictlySorted(b, lt)
    requires forall y :: y in a <==> y in b
    ensures a == b
  {
    assert |b| > 0 ==> b[0] in b;
    if |a| == 0 {
    } else {
      assert a[0] in b;
      assert b[0] in a;
      if a[0] != b[0] {
        assert false;
      }
      forall y ensures y in a[1..] <==> y in b[1..] {
        if y in a[1..] {
          var i :| 0 <= i < |a[1..]| && a[1..][i] == y;
          assert lt(a[0], a[i + 1]);
          assert y in b && y != b[0];
          assert b == [b[0]] + b[1..];
        }
        if y in b[1..] {
          var j :| 0 <= j < |b[1..]| && b[1..][j] == y;
          assert lt(b[0], b[j + 1]);
          assert y in a && y != a[0];
          assert a == [a[0]] + a[1..];
        }
      }
      SortedListingUnique(a[1..], b[1..], lt);
      assert a == [a[0]] + a[1..] && b == [b[0]] + b[1..];
    }
  }
}
