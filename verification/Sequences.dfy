/** Sequences of sequences, and the position of an element. */
module Sequences {

  /** All rows, one after the other. */
  function Flatten<T>(rows: seq<seq<T>>): (r: seq<T>) {
    if rows == [] then [] else rows[0] + Flatten(rows[1..])
  }

  lemma ConcatAssoc<T>(a: seq<T>, b: seq<T>, c: seq<T>)
    ensures a + (b + c) == a + b + c
  {
  }

  lemma {:induction false} FlattenAppend<T>(rows: seq<seq<T>>, row: seq<T>)
    ensures Flatten(rows + [row]) == Flatten(rows) + row
  {
    if rows == [] {
      assert [row][1..] == [];
      assert Flatten([row]) == row + Flatten([]);
    } else {
      FlattenAppend(rows[1..], row);
      assert (rows + [row])[1..] == rows[1..] + [row];
    }
  }

  lemma {:induction false} FlattenConcat<T>(a: seq<seq<T>>, b: seq<seq<T>>)
    ensures Flatten(a + b) == Flatten(a) + Flatten(b)
  {
    if a == [] {
      assert a + b == b;
    } else {
      FlattenConcat(a[1..], b);
      assert (a + b)[1..] == a[1..] + b;
      ConcatAssoc(a[0], Flatten(a[1..]), Flatten(b));
    }
  }

  /** The first row is a prefix, and the other rows follow. */
  lemma FlattenHead<T>(rows: seq<seq<T>>)
    requires rows != []
    ensures Flatten(rows) == rows[0] + Flatten(rows[1..])
  {
  }

  lemma FlattenNone<T>()
    ensures Flatten<T>([]) == []
  {
  }

  /** Where x first occurs. */
  function Position<T(==)>(s: seq<T>, x: T): (r: nat)
    requires x in s
    ensures r < |s| && s[r] == x
  {
    if s[0] == x then 0 else 1 + Position(s[1..], x)
  }

  ghost predicate Increasing(s: seq<nat>) {
    forall i, j :: 0 <= i < j < |s| ==> s[i] < s[j]
  }

  lemma PositionUnique(s: seq<nat>, i: nat)
    requires Increasing(s) && i < |s|
    ensures Position(s, s[i]) == i
  {
    var r := Position(s, s[i]);
    assert r == i;
  }
}
