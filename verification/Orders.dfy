/** Sorting by a strict order, and the order of strings by code points. */
module Orders {

  ghost predicate Ascending<T(!new)>(xs: seq<T>, less: (T, T) -> bool) {
    forall i, j :: 0 <= i < j < |xs| ==> less(xs[i], xs[j])
  }

  /** A strict order that also tells any two different members of `xs` apart. */
  ghost predicate Separates<T(!new)>(less: (T, T) -> bool, xs: set<T>) {
    && (forall x :: !less(x, x))
    && (forall x, y, z :: less(x, y) && less(y, z) ==> less(x, z))
    && (forall x, y :: x in xs && y in xs ==> x == y || less(x, y) || less(y, x))
  }

  function ToSet<T>(xs: seq<T>): set<T> {
    set x | x in xs
  }

  predicate Distinct<T(==)>(xs: seq<T>) {
    forall i, j :: 0 <= i < j < |xs| ==> xs[i] != xs[j]
  }

  /** A stable insertion: `x` goes before everything that is not below it. */
  function Insert<T>(x: T, xs: seq<T>, less: (T, T) -> bool): seq<T> {
    if xs == [] then [x] else if !less(xs[0], x) then [x] + xs else [xs[0]] + Insert(x, xs[1..], less)
  }

  function Sort<T>(xs: seq<T>, less: (T, T) -> bool): seq<T> {
    if xs == [] then [] else Insert(xs[0], Sort(xs[1..], less), less)
  }

  lemma {:induction false} InsertKeeps<T(!new)>(x: T, xs: seq<T>, less: (T, T) -> bool)
    ensures ToSet(Insert(x, xs, less)) == ToSet(xs) + {x} && |Insert(x, xs, less)| == |xs| + 1
  {
    if xs != [] && less(xs[0], x) {
      InsertKeeps(x, xs[1..], less);
      assert ToSet([xs[0]] + Insert(x, xs[1..], less)) == {xs[0]} + ToSet(Insert(x, xs[1..], less));
      assert ToSet(xs) == {xs[0]} + ToSet(xs[1..]);
    }
  }

  lemma {:induction false} InsertAscends<T(!new)>(x: T, xs: seq<T>, less: (T, T) -> bool)
    requires Ascending(xs, less) && x !in xs && Separates(less, ToSet(xs) + {x})
    ensures Ascending(Insert(x, xs, less), less)
  {
    if xs != [] && less(xs[0], x) {
      assert ToSet(xs[1..]) <= ToSet(xs);
      InsertAscends(x, xs[1..], less);
      var rest := Insert(x, xs[1..], less);
      InsertKeeps(x, xs[1..], less);
      assert less(xs[0], x) by { assert xs[0] in ToSet(xs) + {x}; }
      forall j | 0 <= j < |rest| ensures less(xs[0], rest[j]) {
        assert rest[j] in ToSet(xs[1..]) + {x};
      }
    }
  }

  lemma {:induction false} SortKeeps<T(!new)>(xs: seq<T>, less: (T, T) -> bool)
    ensures ToSet(Sort(xs, less)) == ToSet(xs) && |Sort(xs, less)| == |xs|
    ensures Distinct(Sort(xs, less)) <==> Distinct(xs)
  {
    if xs != [] {
      assert ToSet(xs) == {xs[0]} + ToSet(xs[1..]);
      SortKeeps(xs[1..], less);
      InsertKeeps(xs[0], Sort(xs[1..], less), less);
    }
    DistinctCount(xs);
    DistinctCount(Sort(xs, less));
  }

  /** Sorting keeps the members and puts them in order. */
  lemma {:induction false} SortCorrect<T(!new)>(xs: seq<T>, less: (T, T) -> bool)
    requires Distinct(xs) && Separates(less, ToSet(xs))
    ensures ToSet(Sort(xs, less)) == ToSet(xs) && |Sort(xs, less)| == |xs| && Ascending(Sort(xs, less), less)
  {
    if xs != [] {
      assert ToSet(xs) == {xs[0]} + ToSet(xs[1..]);
      SortCorrect(xs[1..], less);
      var rest := Sort(xs[1..], less);
      assert xs[0] !in ToSet(xs[1..]);
      InsertKeeps(xs[0], rest, less);
      assert ToSet(rest) + {xs[0]} == ToSet(xs);
      InsertAscends(xs[0], rest, less);
    }
  }

  /** Nothing stands before something below it; repetitions are allowed. */
  ghost predicate NoDescent<T(!new)>(xs: seq<T>, less: (T, T) -> bool) {
    forall i, j :: 0 <= i < j < |xs| ==> !less(xs[j], xs[i])
  }

  lemma AscendingIsDistinctNoDescent<T(!new)>(xs: seq<T>, less: (T, T) -> bool)
    requires Separates(less, ToSet(xs))
    ensures Ascending(xs, less) <==> Distinct(xs) && NoDescent(xs, less)
  {
    if Ascending(xs, less) {
      forall i, j | 0 <= i < j < |xs| ensures xs[i] != xs[j] && !less(xs[j], xs[i]) {
        assert less(xs[i], xs[j]);
      }
    }
    if Distinct(xs) && NoDescent(xs, less) {
      forall i, j | 0 <= i < j < |xs| ensures less(xs[i], xs[j]) {
        assert xs[i] in ToSet(xs) && xs[j] in ToSet(xs);
      }
    }
  }

  lemma {:induction false} InsertNoDescent<T(!new)>(x: T, xs: seq<T>, less: (T, T) -> bool)
    requires NoDescent(xs, less) && Separates(less, ToSet(xs) + {x})
    ensures NoDescent(Insert(x, xs, less), less)
  {
    if xs != [] {
      var all := ToSet(xs) + {x};
      if less(xs[0], x) {
        assert ToSet(xs[1..]) + {x} <= all;
        InsertNoDescent(x, xs[1..], less);
        InsertKeeps(x, xs[1..], less);
        var rest := Insert(x, xs[1..], less);
        forall j | 0 <= j < |rest| ensures !less(rest[j], xs[0]) {
          assert rest[j] in ToSet(xs[1..]) + {x};
        }
      } else {
        forall j | 0 <= j < |xs| ensures !less(xs[j], x) {
          assert xs[0] in all && xs[j] in all;
        }
      }
    }
  }

  /** Sorting leaves no descent, and nothing else is its own sorted form. */
  lemma {:induction false} SortedIffNoDescent<T(!new)>(xs: seq<T>, less: (T, T) -> bool)
    requires Separates(less, ToSet(xs))
    ensures NoDescent(Sort(xs, less), less) && (Sort(xs, less) == xs <==> NoDescent(xs, less))
  {
    if xs != [] {
      assert ToSet(xs) == {xs[0]} + ToSet(xs[1..]);
      SortedIffNoDescent(xs[1..], less);
      SortKeeps(xs[1..], less);
      InsertNoDescent(xs[0], Sort(xs[1..], less), less);
      if NoDescent(xs, less) {
        assert NoDescent(xs[1..], less);
        assert xs == [xs[0]] + xs[1..];
      }
    }
  }

  /** The first of an ascending sequence is below all others. */
  lemma {:induction false} AscendingUnique<T(!new)>(xs: seq<T>, ys: seq<T>, less: (T, T) -> bool)
    requires Ascending(xs, less) && Ascending(ys, less) && ToSet(xs) == ToSet(ys)
    requires forall x :: !less(x, x)
    requires forall x, y, z :: less(x, y) && less(y, z) ==> less(x, z)
    ensures xs == ys
  {
    assert ys != [] ==> ys[0] in ToSet(ys);
    if xs != [] {
      assert xs[0] in ToSet(ys);
      assert ys[0] in ToSet(xs);
      assert xs[0] == ys[0];
      RestOf(xs, less);
      RestOf(ys, less);
      AscendingUnique(xs[1..], ys[1..], less);
    }
  }

  lemma RestOf<T(!new)>(xs: seq<T>, less: (T, T) -> bool)
    requires xs != [] && Ascending(xs, less) && forall x :: !less(x, x)
    ensures ToSet(xs[1..]) == ToSet(xs) - {xs[0]} && Ascending(xs[1..], less)
  {
    forall x | x in xs && x != xs[0] ensures x in xs[1..] {
      var i :| 0 <= i < |xs| && xs[i] == x;
      assert xs[1..][i - 1] == x;
    }
    forall i | 0 <= i < |xs[1..]| ensures xs[1..][i] != xs[0] {
      assert less(xs[0], xs[i + 1]);
    }
  }

  function Filter<T>(xs: seq<T>, keep: T -> bool): seq<T> {
    if xs == [] then [] else (if keep(xs[0]) then [xs[0]] else []) + Filter(xs[1..], keep)
  }

  lemma {:induction false} FilterKeeps<T(!new)>(xs: seq<T>, keep: T -> bool)
    ensures forall x :: x in Filter(xs, keep) <==> x in xs && keep(x)
    ensures Distinct(xs) ==> Distinct(Filter(xs, keep))
  {
    if xs != [] {
      FilterKeeps(xs[1..], keep);
      assert xs == [xs[0]] + xs[1..];
    }
  }

  /** As many different members as members: no member stands twice. */
  lemma {:induction false} DistinctCount<T(!new)>(xs: seq<T>)
    ensures |ToSet(xs)| <= |xs|
    ensures |ToSet(xs)| == |xs| <==> Distinct(xs)
  {
    if xs != [] {
      var n := |xs| - 1;
      DistinctCount(xs[..n]);
      assert ToSet(xs) == ToSet(xs[..n]) + {xs[n]};
      DistinctButLast(xs);
    }
  }

  lemma DistinctButLast<T(!new)>(xs: seq<T>)
    requires xs != []
    ensures Distinct(xs) <==> Distinct(xs[..|xs| - 1]) && xs[|xs| - 1] !in ToSet(xs[..|xs| - 1])
  {
    var n := |xs| - 1;
    if Distinct(xs[..n]) && xs[n] !in xs[..n] {
      forall i, j | 0 <= i < j < |xs| ensures xs[i] != xs[j] {
        assert xs[i] == xs[..n][i];
        assert j < n ==> xs[j] == xs[..n][j];
      }
    }
    if xs[n] in xs[..n] {
      var i :| 0 <= i < n && xs[..n][i] == xs[n];
      assert xs[i] == xs[n];
    }
  }

  // ----- strings -----

  /** Order by code points, the shorter string first when it begins the longer one. */
  predicate Below(a: string, b: string) {
    b != [] && (a == [] || a[0] < b[0] || (a[0] == b[0] && Below(a[1..], b[1..])))
  }

  lemma {:induction false} BelowIrreflexive(a: string)
    ensures !Below(a, a)
  {
    if a != [] { BelowIrreflexive(a[1..]); }
  }

  lemma {:induction false} BelowTransitive(a: string, b: string, c: string)
    requires Below(a, b) && Below(b, c)
    ensures Below(a, c)
  {
    if a != [] && a[0] == b[0] && b[0] == c[0] { BelowTransitive(a[1..], b[1..], c[1..]); }
  }

  lemma {:induction false} BelowTotal(a: string, b: string)
    ensures a == b || Below(a, b) || Below(b, a)
  {
    if a != [] && b != [] && a[0] == b[0] {
      BelowTotal(a[1..], b[1..]);
      assert a == [a[0]] + a[1..] && b == [b[0]] + b[1..];
    }
  }

  /** The first place where two strings differ decides, or the shorter one is the beginning of the longer. */
  ghost predicate Precedes(a: string, b: string) {
    exists n: nat :: n <= |a| && n < |b| && a[..n] == b[..n] && (n == |a| || a[n] < b[n])
  }

  lemma SamePrefix(a: string, b: string, n: nat)
    requires n <= |a| && n <= |b| && a[..n] == b[..n]
    ensures n == 0 || a[0] == b[0]
  {
    assert n > 0 ==> a[..n][0] == b[..n][0];
  }

  lemma {:induction false} BelowIsPrecedes(a: string, b: string)
    ensures Below(a, b) <==> Precedes(a, b)
  {
    if a != [] && b != [] && a[0] == b[0] {
      BelowIsPrecedes(a[1..], b[1..]);
      if Precedes(a[1..], b[1..]) {
        var n: nat :| n <= |a[1..]| && n < |b[1..]| && a[1..][..n] == b[1..][..n] && (n == |a[1..]| || a[1..][n] < b[1..][n]);
        assert a[..n + 1] == [a[0]] + a[1..][..n] && b[..n + 1] == [b[0]] + b[1..][..n];
      }
      if Precedes(a, b) {
        var n: nat :| n <= |a| && n < |b| && a[..n] == b[..n] && (n == |a| || a[n] < b[n]);
        assert a[1..][..n - 1] == a[..n][1..] && b[1..][..n - 1] == b[..n][1..];
      }
    } else if b != [] {
      assert a[..0] == b[..0];
      if Precedes(a, b) {
        var n: nat :| n <= |a| && n < |b| && a[..n] == b[..n] && (n == |a| || a[n] < b[n]);
        SamePrefix(a, b, n);
      }
    }
  }
}
