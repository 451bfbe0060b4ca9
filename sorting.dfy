/** The stable sort by descending key that `Array.prototype.sort` performs
    with the comparator `(a, b) => b.score - a.score`, written as an
    insertion sort. */
module Sorting {

  /** Keys never increase along `s`. */
  ghost predicate Descending<T>(s: seq<T>, key: T -> int) {
    forall i, j :: 0 <= i < j < |s| ==> key(s[i]) >= key(s[j])
  }

  /** Places `x` into `s` after the leading run of elements whose key is at
      least that of `x`. */
  function Insert<T>(x: T, s: seq<T>, key: T -> int): (r: seq<T>)
    ensures multiset(r) == multiset(s) + multiset{x}
    ensures |r| == |s| + 1
  {
    if s == [] then [x]
    else if key(s[0]) >= key(x) then
      assert s == [s[0]] + s[1..];
      [s[0]] + Insert(x, s[1..], key)
    else [x] + s
  }

  /** Inserting into a descending sequence keeps it descending. */
  lemma {:induction false} InsertDescending<T>(x: T, s: seq<T>, key: T -> int)
    requires Descending(s, key)
    ensures Descending(Insert(x, s, key), key)
  {
    if s != [] && key(s[0]) >= key(x) {
      var rest := Insert(x, s[1..], key);
      InsertDescending(x, s[1..], key);
      assert rest[0] == (if |s| > 1 && key(s[1]) >= key(x) then s[1] else x);
      assert forall i :: 0 <= i < |rest| ==> key(s[0]) >= key(rest[0]) >= key(rest[i]);
      var r := Insert(x, s, key);
      assert r == [s[0]] + rest;
      forall i, j | 0 <= i < j < |r| ensures key(r[i]) >= key(r[j]) {
        if i > 0 {
          assert r[i] == rest[i - 1] && r[j] == rest[j - 1];
        } else {
          assert r[j] == rest[j - 1];
        }
      }
    }
  }

  /** `s` sorted by descending key; elements with equal keys keep their
      relative order. */
  function SortDesc<T>(s: seq<T>, key: T -> int): (r: seq<T>)
    ensures Descending(r, key)
    ensures multiset(r) == multiset(s)
    ensures |r| == |s|
  {
    if s == [] then []
    else
      assert s == s[..|s| - 1] + [s[|s| - 1]];
      var sorted := SortDesc(s[..|s| - 1], key);
      InsertDescending(s[|s| - 1], sorted, key);
      Insert(s[|s| - 1], sorted, key)
  }

  /** The head of the descending rearrangement carries the largest key. */
  lemma HeadIsMax<T>(s: seq<T>, key: T -> int, i: nat)
    requires i < |s|
    ensures |SortDesc(s, key)| == |s|
    ensures key(SortDesc(s, key)[0]) >= key(s[i])
  {
    var r := SortDesc(s, key);
    assert s[i] in multiset(r);
    var j :| 0 <= j < |r| && r[j] == s[i];
  }
}
