/**
 * A JavaScript object used as a record keyed by strings (`Record<string, V>`):
 * a list of (key, value) entries in insertion order, as `Object.keys`,
 * `Object.values` and `Object.entries` list them. Assigning an existing key
 * keeps its position; a new key goes last.
 */
module Dict {
  import opened Wrappers

  type Dict<V> = seq<(string, V)>

  function Keys<V>(d: Dict<V>): seq<string> {
    seq(|d|, i requires 0 <= i < |d| => d[i].0)
  }

  /** `Object.values(d)` */
  function Values<V>(d: Dict<V>): seq<V> {
    seq(|d|, i requires 0 <= i < |d| => d[i].1)
  }

  /** No key appears twice, as in every JavaScript object. */
  predicate DistinctKeys<V>(d: Dict<V>) {
    forall i, j :: 0 <= i < j < |d| ==> d[i].0 != d[j].0
  }

  /** `d[k]`, `None` for `undefined`. */
  function Get<V>(d: Dict<V>, k: string): (r: Option<V>)
    ensures r.Some? <==> k in Keys(d)
  {
    if d == [] then None
    else if d[0].0 == k then
      assert Keys(d)[0] == k;
      Some(d[0].1)
    else
      assert Keys(d) == [d[0].0] + Keys(d[1..]);
      Get(d[1..], k)
  }

  /** `{ ...d, [k]: v }` */
  function Put<V>(d: Dict<V>, k: string, v: V): (r: Dict<V>)
    ensures Keys(r) == if k in Keys(d) then Keys(d) else Keys(d) + [k]
    ensures forall k' :: Get(r, k') == if k' == k then Some(v) else Get(d, k')
  {
    if d == [] then [(k, v)]
    else
      ConsParts(d[0], d[1..]);
      assert d == [d[0]] + d[1..];
      if d[0].0 == k then
        ConsParts((k, v), d[1..]);
        [(k, v)] + d[1..]
      else
        ConsParts(d[0], Put(d[1..], k, v));
        [d[0]] + Put(d[1..], k, v)
  }

  /** The keys and the lookups of a record with one entry put in front. */
  lemma ConsParts<V>(x: (string, V), rest: Dict<V>)
    ensures Keys([x] + rest) == [x.0] + Keys(rest)
    ensures forall k' :: Get([x] + rest, k') == if k' == x.0 then Some(x.1) else Get(rest, k')
  {
    assert ([x] + rest)[1..] == rest;
  }

  /** `const { [k]: _, ...rest } = d` : every entry except the one under `k`. */
  function Remove<V>(d: Dict<V>, k: string): (r: Dict<V>)
    ensures forall k' :: k' in Keys(r) <==> k' in Keys(d) && k' != k
    ensures forall k' :: Get(r, k') == if k' == k then None else Get(d, k')
    ensures |r| <= |d|
  {
    if d == [] then []
    else if d[0].0 == k then
      assert Keys(d) == [d[0].0] + Keys(d[1..]);
      Remove(d[1..], k)
    else
      var r := [d[0]] + Remove(d[1..], k);
      assert Keys(d) == [d[0].0] + Keys(d[1..]);
      assert Keys(r) == [d[0].0] + Keys(Remove(d[1..], k));
      r
  }

  lemma {:induction false} PutDistinct<V>(d: Dict<V>, k: string, v: V)
    requires DistinctKeys(d)
    ensures DistinctKeys(Put(d, k, v))
  {
    if d != [] && d[0].0 != k {
      var rest := Put(d[1..], k, v);
      PutDistinct(d[1..], k, v);
      HeadNotInTail(d);
      assert d[0].0 !in Keys(rest);
      DistinctCons(d[0], rest);
    }
  }

  /** In a record without repeated keys the first key does not come back. */
  lemma HeadNotInTail<V>(d: Dict<V>)
    requires d != [] && DistinctKeys(d)
    ensures d[0].0 !in Keys(d[1..])
  {
    forall j | 0 <= j < |d| - 1 ensures Keys(d[1..])[j] != d[0].0 {
      assert Keys(d[1..])[j] == d[j + 1].0;
    }
  }

  /** An entry whose key is new, put in front of a record without repeated keys, repeats none. */
  lemma DistinctCons<V>(x: (string, V), rest: Dict<V>)
    requires DistinctKeys(rest) && x.0 !in Keys(rest)
    ensures DistinctKeys([x] + rest)
  {
    var r := [x] + rest;
    forall j | 0 < j < |r| ensures r[0].0 != r[j].0 {
      assert r[j].0 == Keys(rest)[j - 1];
    }
  }

  lemma {:induction false} RemoveDistinct<V>(d: Dict<V>, k: string)
    requires DistinctKeys(d)
    ensures DistinctKeys(Remove(d, k))
  {
    if d != [] {
      RemoveDistinct(d[1..], k);
      if d[0].0 != k {
        var r := Remove(d, k);
        assert Keys(d) == [d[0].0] + Keys(d[1..]);
        forall j | 0 < j < |r| ensures r[0].0 != r[j].0 {
          var rest := Remove(d[1..], k);
          assert r[j] == rest[j - 1];
          assert Keys(rest)[j - 1] == r[j].0;
          assert r[j].0 in Keys(d[1..]);
        }
      }
    }
  }

  /** Looking up in a record with one more entry at the end: earlier entries win. */
  lemma {:induction false} GetAppend<V>(d: Dict<V>, k: string, v: V, k': string)
    ensures Get(d + [(k, v)], k') == if k' in Keys(d) then Get(d, k') else if k' == k then Some(v) else None
  {
    if d != [] {
      GetAppend(d[1..], k, v, k');
      assert (d + [(k, v)])[1..] == d[1..] + [(k, v)];
      assert Keys(d) == [d[0].0] + Keys(d[1..]);
    } else {
      assert Keys(d + [(k, v)]) == [k];
    }
  }
}
