/** Python's `sorted` on the keys that the dashboard sorts by. */
module Ordering {

  /** Strings in code point order. */
  predicate Leq(a: string, b: string) {
    a == "" || (b != "" && (a[0] < b[0] || (a[0] == b[0] && Leq(a[1..], b[1..]))))
  }

  /** They agree before `n`, and there the first goes on with a lesser character, or is at its end. */
  predicate FirstLessAt(a: string, b: string, n: nat) {
    && n <= |a| && n <= |b| && (forall i :: 0 <= i < n ==> a[i] == b[i])
    && (n == |a| || (n < |b| && a[n] < b[n]))
  }

  /** One string comes before another, or equals it, by the first place where they differ. */
  lemma {:induction false} LeqIff(a: string, b: string)
    ensures Leq(a, b) <==> exists n: nat :: FirstLessAt(a, b, n)
  {
    if a == "" {
      assert FirstLessAt(a, b, 0);
    } else if b != "" {
      if a[0] < b[0] {
        assert FirstLessAt(a, b, 0);
      }
      LeqIff(a[1..], b[1..]);
      if n: nat :| FirstLessAt(a[1..], b[1..], n) && a[0] == b[0] {
        forall i | 0 <= i < n + 1 ensures a[i] == b[i] {
          assert i > 0 ==> a[1..][i - 1] == b[1..][i - 1];
        }
        assert FirstLessAt(a, b, n + 1);
      }
      if n: nat :| FirstLessAt(a, b, n) && n > 0 {
        assert FirstLessAt(a[1..], b[1..], n - 1);
      }
    }
  }

  lemma {:induction false} LeqIsTotal(a: string, b: string)
    ensures Leq(a, b) || Leq(b, a)
  {
    if a != "" && b != "" {
      LeqIsTotal(a[1..], b[1..]);
    }
  }

  lemma {:induction false} LeqIsTransitive(a: string, b: string, c: string)
    requires Leq(a, b) && Leq(b, c)
    ensures Leq(a, c)
  {
    if a != "" && b != "" && c != "" && a[0] == b[0] == c[0] {
      LeqIsTransitive(a[1..], b[1..], c[1..]);
    }
  }

  lemma {:induction false} LeqIsAntisymmetric(a: string, b: string)
    requires Leq(a, b) && Leq(b, a)
    ensures a == b
  {
    if a != "" && b != "" {
      LeqIsAntisymmetric(a[1..], b[1..]);
      assert a == [a[0]] + a[1..] && b == [b[0]] + b[1..];
    }
  }

  /** Pairs of strings, the first deciding. */
  predicate PairLeq(a: (string, string), b: (string, string)) {
    if a.0 == b.0 then Leq(a.1, b.1) else Leq(a.0, b.0)
  }

  /** The second members decide only between equal first ones. */
  lemma PairsByTheFirst(a: (string, string), b: (string, string))
    ensures PairLeq(a, b) <==> Leq(a.0, b.0) && (a.0 == b.0 ==> Leq(a.1, b.1))
  {
    LeqIsTotal(a.0, b.0);
    LeqIsTotal(a.0, a.0);
  }

  lemma PairLeqIsTotal(a: (string, string), b: (string, string))
    ensures PairLeq(a, b) || PairLeq(b, a)
  {
    LeqIsTotal(a.0, b.0);
    LeqIsTotal(a.1, b.1);
  }

  lemma PairLeqIsTransitive(a: (string, string), b: (string, string), c: (string, string))
    requires PairLeq(a, b) && PairLeq(b, c)
    ensures PairLeq(a, c)
  {
    if a.0 == b.0 == c.0 {
      LeqIsTransitive(a.1, b.1, c.1);
    } else if a.0 != b.0 && b.0 != c.0 {
      LeqIsTransitive(a.0, b.0, c.0);
      if a.0 == c.0 {
        LeqIsAntisymmetric(a.0, b.0);
        assert false;
      }
    }
  }

  // ---- Sorting -----------------------------------------------------------------------

  type Key<!T> = T -> (string, string)

  predicate Sorted<T>(xs: seq<T>, key: Key<T>) {
    forall i, j :: 0 <= i < j < |xs| ==> PairLeq(key(xs[i]), key(xs[j]))
  }

  function Insert<T>(x: T, xs: seq<T>, key: Key<T>): seq<T> {
    if xs == [] then [x]
    else if PairLeq(key(x), key(xs[0])) then [x] + xs
    else [xs[0]] + Insert(x, xs[1..], key)
  }

  /** Stable: equal keys keep their order. */
  function SortBy<T>(xs: seq<T>, key: Key<T>): seq<T> {
    if xs == [] then [] else Insert(xs[0], SortBy(xs[1..], key), key)
  }

  lemma {:induction false} InsertAdds<T>(x: T, xs: seq<T>, key: Key<T>)
    ensures multiset(Insert(x, xs, key)) == multiset(xs) + multiset{x}
  {
    if xs != [] {
      assert xs == [xs[0]] + xs[1..];
      InsertAdds(x, xs[1..], key);
    }
  }

  lemma InsertedOrOld<T>(x: T, xs: seq<T>, key: Key<T>, y: T)
    requires y in Insert(x, xs, key)
    ensures y == x || y in xs
  {
    InsertAdds(x, xs, key);
    assert y in multiset(Insert(x, xs, key));
  }

  lemma {:induction false} InsertSorts<T>(x: T, xs: seq<T>, key: Key<T>)
    requires Sorted(xs, key)
    ensures Sorted(Insert(x, xs, key), key)
  {
    if xs != [] {
      if PairLeq(key(x), key(xs[0])) {
        forall j | 0 <= j < |xs| ensures PairLeq(key(x), key(xs[j])) {
          if j > 0 {
            PairLeqIsTransitive(key(x), key(xs[0]), key(xs[j]));
          }
        }
      } else {
        PairLeqIsTotal(key(x), key(xs[0]));
        InsertSorts(x, xs[1..], key);
        var rest := Insert(x, xs[1..], key);
        forall j | 0 <= j < |rest| ensures PairLeq(key(xs[0]), key(rest[j])) {
          InsertedOrOld(x, xs[1..], key, rest[j]);
        }
      }
    }
  }

  /** The result is sorted, and has the same elements as often. */
  lemma {:induction false} SortBySorts<T>(xs: seq<T>, key: Key<T>)
    ensures Sorted(SortBy(xs, key), key) && multiset(SortBy(xs, key)) == multiset(xs)
  {
    if xs != [] {
      SortBySorts(xs[1..], key);
      InsertSorts(xs[0], SortBy(xs[1..], key), key);
      InsertAdds(xs[0], SortBy(xs[1..], key), key);
      assert xs == [xs[0]] + xs[1..];
    }
  }

  predicate NoRepeats<T(==)>(xs: seq<T>) {
    forall i, j :: 0 <= i < j < |xs| ==> xs[i] != xs[j]
  }

  lemma {:induction false} NoRepeatsCount<T>(xs: seq<T>, x: T)
    requires NoRepeats(xs)
    ensures multiset(xs)[x] <= 1
  {
    if xs != [] {
      var n := |xs| - 1;
      NoRepeatsCount(xs[..n], x);
      assert xs == xs[..n] + [xs[n]];
      assert xs[n] !in xs[..n];
    }
  }

  /** Rearranging brings no repetition. */
  lemma RearrangedNoRepeats<T>(xs: seq<T>, ys: seq<T>)
    requires NoRepeats(xs) && multiset(xs) == multiset(ys)
    ensures NoRepeats(ys)
  {
    forall i, j | 0 <= i < j < |ys| ensures ys[i] != ys[j] {
      NoRepeatsCount(xs, ys[i]);
      assert ys == ys[..j] + [ys[j]] + ys[j + 1..];
      assert ys[i] in ys[..j];
    }
  }
}
