/**
 * `Array.prototype.sort((a, b) => key(b) - key(a))`: a stable sort that puts
 * larger keys first. JavaScript's sort is stable; insertion sort is the
 * stable sort used as its definition here.
 */
module Sorting {

  predicate SortedDesc<T>(s: seq<T>, key: T -> real) {
    forall i, j :: 0 <= i < j < |s| ==> key(s[i]) >= key(s[j])
  }

  /** Put `x` before the first element whose key is not larger than its own. */
  function InsertDesc<T>(x: T, s: seq<T>, key: T -> real): seq<T> {
    if s == [] || key(x) >= key(s[0]) then [x] + s
    else [s[0]] + InsertDesc(x, s[1..], key)
  }

  function SortDesc<T>(s: seq<T>, key: T -> real): seq<T> {
    if s == [] then [] else InsertDesc(s[0], SortDesc(s[1..], key), key)
  }

  lemma {:induction false} InsertDescMultiset<T>(x: T, s: seq<T>, key: T -> real)
    ensures multiset(InsertDesc(x, s, key)) == multiset(s) + multiset{x}
  {
    if s != [] && key(x) < key(s[0]) {
      InsertDescMultiset(x, s[1..], key);
      assert s == [s[0]] + s[1..];
    }
  }

  lemma {:induction false} InsertDescCorrect<T>(x: T, s: seq<T>, key: T -> real)
    requires SortedDesc(s, key)
    ensures multiset(InsertDesc(x, s, key)) == multiset(s) + multiset{x}
    ensures SortedDesc(InsertDesc(x, s, key), key)
  {
    InsertDescMultiset(x, s, key);
    if s != [] && key(x) < key(s[0]) {
      InsertDescCorrect(x, s[1..], key);
      var r := InsertDesc(x, s[1..], key);
      forall k | 0 <= k < |r| ensures key(s[0]) >= key(r[k]) {
        InsertDescMultiset(x, s[1..], key);
        assert r[k] in multiset(r);
        if r[k] != x {
          assert r[k] in multiset(s[1..]);
          var j :| 0 <= j < |s[1..]| && s[1..][j] == r[k];
          assert s[j + 1] == r[k];
        }
      }
    }
  }

  /** The result is ordered by key, largest first, and is a permutation of the input. */
  lemma {:induction false} SortDescCorrect<T>(s: seq<T>, key: T -> real)
    ensures SortedDesc(SortDesc(s, key), key)
    ensures multiset(SortDesc(s, key)) == multiset(s)
  {
    if s != [] {
      SortDescCorrect(s[1..], key);
      InsertDescCorrect(s[0], SortDesc(s[1..], key), key);
      assert s == [s[0]] + s[1..];
    }
  }
}
