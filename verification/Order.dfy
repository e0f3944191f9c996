/** Strict total orders and the sorted listing of a finite set.

    The source keeps its sets and maps in ordered collections and relies on the order in
    which they are walked.  Here a collection is a plain `set` or `map`; `Sorted` is the walk. */
module Order {

  ghost predicate StrictTotal<T(!new)>(less: (T, T) -> bool) {
    && (forall x :: !less(x, x))
    && (forall x, y, z :: less(x, y) && less(y, z) ==> less(x, z))
    && (forall x, y :: x == y || less(x, y) || less(y, x))
  }

  predicate StrictlySorted<T>(less: (T, T) -> bool, s: seq<T>) {
    forall i, j :: 0 <= i < j < |s| ==> less(s[i], s[j])
  }

  function Elements<T>(s: seq<T>): set<T> {
    set x | x in s
  }

  predicate IsMinimum<T(==)>(less: (T, T) -> bool, s: set<T>, m: T) {
    m in s && forall x | x in s :: x == m || less(m, x)
  }

  lemma MinimumExists<T(!new)>(less: (T, T) -> bool, s: set<T>)
    requires StrictTotal(less) && s != {}
    ensures exists m :: IsMinimum(less, s, m)
    decreases |s|
  {
    var x :| x in s;
    var rest := s - {x};
    if rest == {} {
      assert s == {x};
      assert IsMinimum(less, s, x);
    } else {
      MinimumExists(less, rest);
      var m :| IsMinimum(less, rest, m);
      if less(m, x) {
        assert IsMinimum(less, s, m);
      } else {
        assert IsMinimum(less, s, x);
      }
    }
  }

  function Minimum<T(==,!new)>(less: (T, T) -> bool, s: set<T>): (m: T)
    requires StrictTotal(less) && s != {}
    ensures IsMinimum(less, s, m)
  {
    MinimumExists(less, s);
    var m :| m in s && IsMinimum(less, s, m);
    m
  }

  lemma ConsSorted<T(!new)>(less: (T, T) -> bool, m: T, rest: seq<T>)
    requires StrictlySorted(less, rest) && forall x :: x in Elements(rest) ==> less(m, x)
    ensures StrictlySorted(less, [m] + rest) && Elements([m] + rest) == {m} + Elements(rest)
  {
    var r := [m] + rest;
    forall i, j | 0 <= i < j < |r| ensures less(r[i], r[j]) {
      assert r[j] == rest[j - 1] && r[j] in Elements(rest);
      if i > 0 { assert r[i] == rest[i - 1]; }
    }
  }

  /** The elements of `s` in ascending order. */
  function Sorted<T(==,!new)>(less: (T, T) -> bool, s: set<T>): (r: seq<T>)
    requires StrictTotal(less)
    ensures StrictlySorted(less, r) && Elements(r) == s && |r| == |s|
    decreases |s|
  {
    if s == {} then
      []
    else
      var m := Minimum(less, s);
      var rest := Sorted(less, s - {m});
      ConsSorted(less, m, rest);
      [m] + rest
  }
}
