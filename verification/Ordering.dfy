/** Orders and stable sorting, as the language's `sorted` does it. */
module Ordering {

  // ---------- lexicographic order on sequences ----------

  /** Tuples, lists and strings compare element by element; a proper prefix is smaller. */
  predicate LexLess<T>(a: seq<T>, b: seq<T>, code: T -> int)
    decreases |b|
  {
    if b == [] then false
    else if a == [] then true
    else if code(a[0]) != code(b[0]) then code(a[0]) < code(b[0])
    else LexLess(a[1..], b[1..], code)
  }

  lemma {:induction false} LexIrreflexive<T>(a: seq<T>, code: T -> int)
    ensures !LexLess(a, a, code)
  {
    if a != [] {
      LexIrreflexive(a[1..], code);
    }
  }

  lemma {:induction false} LexTransitive<T>(a: seq<T>, b: seq<T>, c: seq<T>, code: T -> int)
    requires LexLess(a, b, code) && LexLess(b, c, code)
    ensures LexLess(a, c, code)
    decreases |b|
  {
    if a != [] && code(a[0]) == code(b[0]) == code(c[0]) {
      LexTransitive(a[1..], b[1..], c[1..], code);
    }
  }

  lemma {:induction false} LexTotal<T(!new)>(a: seq<T>, b: seq<T>, code: T -> int)
    requires forall x, y :: code(x) == code(y) ==> x == y
    requires !LexLess(a, b, code) && !LexLess(b, a, code)
    ensures a == b
    decreases |a|
  {
    if a != [] && b != [] {
      LexTotal(a[1..], b[1..], code);
      assert a == [a[0]] + a[1..] && b == [b[0]] + b[1..];
    }
  }

  lemma {:induction false} LexAfterPrefix<T>(a: seq<T>, b: seq<T>, k: nat, code: T -> int)
    requires k <= |a| && k <= |b| && a[..k] == b[..k]
    ensures LexLess(a, b, code) <==> LexLess(a[k..], b[k..], code)
  {
    if k == 0 {
      assert a[0..] == a && b[0..] == b;
    } else {
      assert a[0] == a[..k][0] && b[0] == b[..k][0];
      assert a[1..][..k - 1] == a[..k][1..] && b[1..][..k - 1] == b[..k][1..];
      LexAfterPrefix(a[1..], b[1..], k - 1, code);
      assert a[1..][k - 1..] == a[k..] && b[1..][k - 1..] == b[k..];
    }
  }

  lemma {:induction false} CommonPrefix<T>(a: seq<T>, b: seq<T>) returns (k: nat)
    ensures k <= |a| && k <= |b| && a[..k] == b[..k] && (k < |a| && k < |b| ==> a[k] != b[k])
  {
    if a == [] || b == [] || a[0] != b[0] {
      k := 0;
    } else {
      var m := CommonPrefix(a[1..], b[1..]);
      k := m + 1;
      assert a[..k] == [a[0]] + a[1..][..m] && b[..k] == [b[0]] + b[1..][..m];
    }
  }

  /** The first difference decides, or the end of the shorter one. */
  lemma LexFirstDifference<T>(a: seq<T>, b: seq<T>, code: T -> int)
    requires forall x, y :: code(x) == code(y) ==> x == y
    ensures LexLess(a, b, code) <==>
            exists k :: 0 <= k <= |a| && k < |b| && a[..k] == b[..k] && (k < |a| ==> code(a[k]) < code(b[k]))
  {
    var m := CommonPrefix(a, b);
    LexAfterPrefix(a, b, m, code);
    if k :| 0 <= k <= |a| && k < |b| && a[..k] == b[..k] && (k < |a| ==> code(a[k]) < code(b[k])) {
      LexAfterPrefix(a, b, k, code);
    }
  }

  // ---------- stable insertion sort ----------

  /** A strict order whose incomparability is transitive. */
  ghost predicate StrictWeak<T(!new)>(less: (T, T) -> bool) {
    && (forall x :: !less(x, x))
    && (forall x, y, z :: less(x, y) && less(y, z) ==> less(x, z))
    && (forall x, y, z :: less(x, z) ==> less(x, y) || less(y, z))
  }

  function Insert<T>(x: T, s: seq<T>, less: (T, T) -> bool): (r: seq<T>)
    ensures |r| == |s| + 1
  {
    if s == [] || !less(s[0], x) then [x] + s else [s[0]] + Insert(x, s[1..], less)
  }

  function Sort<T>(s: seq<T>, less: (T, T) -> bool): (r: seq<T>)
    ensures |r| == |s|
  {
    if s == [] then [] else Insert(s[0], Sort(s[1..], less), less)
  }

  predicate Sorted<T>(s: seq<T>, less: (T, T) -> bool) {
    forall i, j :: 0 <= i < j < |s| ==> !less(s[j], s[i])
  }

  /** No two positions hold incomparable elements. */
  predicate Separated<T>(s: seq<T>, less: (T, T) -> bool) {
    forall i, j :: 0 <= i < j < |s| ==> less(s[i], s[j]) || less(s[j], s[i])
  }

  lemma {:induction false} InsertSorted<T(!new)>(x: T, s: seq<T>, less: (T, T) -> bool)
    requires StrictWeak(less) && Sorted(s, less)
    ensures Sorted(Insert(x, s, less), less)
    ensures multiset(Insert(x, s, less)) == multiset{x} + multiset(s)
  {
    var r := Insert(x, s, less);
    if s == [] || !less(s[0], x) {
      assert multiset([x] + s) == multiset{x} + multiset(s);
      forall i, j | 0 <= i < j < |r| ensures !less(r[j], r[i]) {
        if i == 0 {
          assert j > 1 ==> !less(s[j - 1], s[0]);
        } else {
          assert !less(s[j - 1], s[i - 1]);
        }
      }
    } else {
      var rest := s[1..];
      var t := Insert(x, rest, less);
      assert Sorted(rest, less);
      InsertSorted(x, rest, less);
      assert s == [s[0]] + rest;
      assert multiset(r) == multiset{s[0]} + multiset(t);
      InsertMembers(x, rest, less);
      forall i, j | 0 <= i < j < |r| ensures !less(r[j], r[i]) {
        if i > 0 {
          assert !less(t[j - 1], t[i - 1]);
        }
      }
    }
  }

  lemma {:induction false} InsertMembers<T>(x: T, s: seq<T>, less: (T, T) -> bool)
    ensures forall j :: 0 <= j < |s| + 1 ==> Insert(x, s, less)[j] == x || Insert(x, s, less)[j] in s
  {
    if s != [] && less(s[0], x) {
      InsertMembers(x, s[1..], less);
    }
  }

  /** Sorting permutes and orders. */
  lemma {:induction false} SortSorts<T(!new)>(s: seq<T>, less: (T, T) -> bool)
    requires StrictWeak(less)
    ensures Sorted(Sort(s, less), less)
    ensures multiset(Sort(s, less)) == multiset(s)
  {
    if s != [] {
      SortSorts(s[1..], less);
      InsertSorted(s[0], Sort(s[1..], less), less);
      assert s == [s[0]] + s[1..];
    }
  }

  lemma FirstIsLeast<T(!new)>(s: seq<T>, t: seq<T>, less: (T, T) -> bool)
    requires StrictWeak(less) && s != [] && t != [] && multiset(s) == multiset(t)
    requires Sorted(s, less) && Separated(s, less) && Sorted(t, less)
    ensures s[0] == t[0]
  {
    assert s[0] in multiset(t) && t[0] in multiset(s);
    assert s[0] in t && t[0] in s;
    var i :| 0 <= i < |s| && s[i] == t[0];
    var j :| 0 <= j < |t| && t[j] == s[0];
    if i > 0 {
      assert false;
    }
  }

  lemma RestAgrees<T>(s: seq<T>, t: seq<T>)
    requires s != [] && t != [] && s[0] == t[0] && multiset(s) == multiset(t)
    ensures multiset(s[1..]) == multiset(t[1..])
  {
    assert s == [s[0]] + s[1..] && t == [t[0]] + t[1..];
    assert multiset(s[1..]) == multiset(s) - multiset{s[0]};
    assert multiset(t[1..]) == multiset(t) - multiset{t[0]};
  }

  lemma RestSeparated<T(!new)>(s: seq<T>, less: (T, T) -> bool)
    requires s != [] && Separated(s, less)
    ensures Separated(s[1..], less)
  {
    forall i, j | 0 <= i < j < |s[1..]| ensures less(s[1..][i], s[1..][j]) || less(s[1..][j], s[1..][i]) {
      assert s[1..][i] == s[i + 1] && s[1..][j] == s[j + 1];
    }
  }

  /** When all elements are comparable there is only one sorted arrangement. */
  lemma {:induction false} SortedUnique<T(!new)>(s: seq<T>, t: seq<T>, less: (T, T) -> bool)
    requires StrictWeak(less) && multiset(s) == multiset(t)
    requires Sorted(s, less) && Separated(s, less) && Sorted(t, less)
    ensures s == t
  {
    assert |s| == |multiset(s)| == |multiset(t)| == |t|;
    if s != [] {
      FirstIsLeast(s, t, less);
      assert s == [s[0]] + s[1..] && t == [t[0]] + t[1..];
      RestAgrees(s, t);
      RestSeparated(s, less);
      SortedUnique(s[1..], t[1..], less);
    }
  }

  predicate Distinct<T(==)>(s: seq<T>) {
    forall i, j :: 0 <= i < j < |s| ==> s[i] != s[j]
  }

  /** Distinctness is a property of the multiset. */
  lemma {:induction false} DistinctCount<T>(s: seq<T>)
    ensures Distinct(s) <==> forall x :: x in multiset(s) ==> multiset(s)[x] == 1
  {
    if s != [] {
      var t := s[1..];
      DistinctCount(t);
      assert s == [s[0]] + t;
      assert multiset(s) == multiset{s[0]} + multiset(t);
      if Distinct(s) {
        assert s[0] !in t;
        assert Distinct(t);
      } else if s[0] in t {
        assert s[0] in multiset(t);
        assert multiset(s)[s[0]] >= 2;
      } else {
        var i, j :| 0 <= i < j < |s| && s[i] == s[j];
        assert i > 0;
        assert t[i - 1] == t[j - 1];
        assert !Distinct(t);
        var x :| x in multiset(t) && multiset(t)[x] != 1;
        assert multiset(s)[x] >= multiset(t)[x] >= 2;
      }
    }
  }

  lemma PermutationMembers<T>(s: seq<T>, t: seq<T>)
    requires multiset(s) == multiset(t)
    ensures forall x :: x in s <==> x in t
  {
    forall x ensures x in s <==> x in t {
      assert x in multiset(s) <==> x in multiset(t);
    }
  }

  /** Separation does not depend on the arrangement. */
  lemma SeparatedPermutation<T(!new)>(s: seq<T>, t: seq<T>, less: (T, T) -> bool)
    requires multiset(s) == multiset(t) && Separated(s, less) && StrictWeak(less)
    ensures Separated(t, less)
  {
    assert Distinct(s);
    DistinctCount(s);
    DistinctCount(t);
    PermutationMembers(s, t);
    forall i, j | 0 <= i < j < |t| ensures less(t[i], t[j]) || less(t[j], t[i]) {
      assert t[i] in s && t[j] in s;
      var k :| 0 <= k < |s| && s[k] == t[i];
      var l :| 0 <= l < |s| && s[l] == t[j];
      assert k != l;
    }
  }

  /** Hence sorting forgets the order of its input. */
  lemma SortOrderIndependent<T(!new)>(s: seq<T>, t: seq<T>, less: (T, T) -> bool)
    requires StrictWeak(less) && multiset(s) == multiset(t) && Separated(s, less)
    ensures Sort(s, less) == Sort(t, less)
  {
    SortSorts(s, less);
    SortSorts(t, less);
    SeparatedPermutation(s, Sort(s, less), less);
    SortedUnique(Sort(s, less), Sort(t, less), less);
  }
}
