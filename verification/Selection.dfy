/** Choosing one row among many: `filter(..).min_by_key(..)`, `max_by_key(..)` and `find(..)`. */
module Selection {
  import opened Order
  import opened Wrappers

  /** Scan `rows` in order; a later row replaces the choice when it `beats` it. */
  function Best<T>(rows: seq<T>, ok: T -> bool, beats: (T, T) -> bool): (r: Option<T>)
    ensures r.Some? ==> r.value in rows && ok(r.value)
    ensures r.None? ==> forall x :: x in rows ==> !ok(x)
  {
    if rows == [] then None
    else
      var n := |rows| - 1;
      var before, last := Best(rows[..n], ok, beats), rows[n];
      assert rows == rows[..n] + [last];
      if ok(last) && (before.None? || beats(last, before.value)) then Some(last) else before
  }

  /** On the rows of `s`, `beats` decides every pair and is transitive. */
  ghost predicate Decides<T>(beats: (T, T) -> bool, s: set<T>) {
    && (forall x, y :: x in s && y in s && x != y ==> (beats(x, y) <==> !beats(y, x)))
    && (forall x, y, z | x in s && y in s && z in s && x != y && y != z && x != z ::
          beats(x, y) && beats(y, z) ==> beats(x, z))
  }

  predicate NoRepeats<T(==)>(rows: seq<T>) {
    forall i, j :: 0 <= i < j < |rows| ==> rows[i] != rows[j]
  }

  /** The choice beats every other matching row. */
  lemma {:induction false} BestBeatsAll<T>(rows: seq<T>, ok: T -> bool, beats: (T, T) -> bool)
    requires NoRepeats(rows) && Decides(beats, Elements(rows)) && Best(rows, ok, beats).Some?
    ensures forall y :: y in rows && ok(y) && y != Best(rows, ok, beats).value ==> beats(Best(rows, ok, beats).value, y)
    decreases |rows|
  {
    var n := |rows| - 1;
    var front, last := rows[..n], rows[n];
    assert rows == front + [last];
    assert forall x :: x in front ==> x in Elements(rows);
    assert last in Elements(rows) && last !in front;
    var before := Best(front, ok, beats);
    if before.Some? {
      assert NoRepeats(front) && Decides(beats, Elements(front));
      BestBeatsAll(front, ok, beats);
    }
  }

  /** Between two matching rows that do not beat each other the first one wins. */
  lemma FirstOfTwo<T>(x: T, y: T, ok: T -> bool, beats: (T, T) -> bool)
    requires ok(x) && ok(y) && !beats(y, x)
    ensures Best([x, y], ok, beats) == Some(x)
  {
    assert [x, y][..1] == [x] && [x][..0] == [];
    assert Best([], ok, beats) == None;
    assert Best([x], ok, beats) == Some(x);
  }

  /** Which row is chosen depends on the rows as a set. */
  lemma BestDependsOnElements<T>(a: seq<T>, b: seq<T>, ok: T -> bool, beats: (T, T) -> bool)
    requires NoRepeats(a) && NoRepeats(b) && Elements(a) == Elements(b) && Decides(beats, Elements(a))
    ensures Best(a, ok, beats) == Best(b, ok, beats)
  {
    var x, y := Best(a, ok, beats), Best(b, ok, beats);
    assert forall v :: v in a <==> v in Elements(a);
    assert forall v :: v in b <==> v in Elements(b);
    if x.Some? && y.Some? {
      BestBeatsAll(a, ok, beats);
      BestBeatsAll(b, ok, beats);
    }
  }

  /** `find`: the first matching row. */
  function Find<T>(rows: seq<T>, ok: T -> bool): (r: Option<T>)
    ensures r.Some? ==> r.value in rows && ok(r.value)
    ensures r.None? ==> forall x :: x in rows ==> !ok(x)
  {
    if rows == [] then None
    else if ok(rows[0]) then Some(rows[0])
    else Find(rows[1..], ok)
  }

  /** When one row matches, `find` finds that row. */
  lemma FindOnly<T>(rows: seq<T>, ok: T -> bool, x: T)
    requires x in rows && ok(x) && forall y :: y in rows && ok(y) ==> y == x
    ensures Find(rows, ok) == Some(x)
  {
  }
}
