/**
 * Python's insertion-ordered dictionaries (`OrderedDict`, and `dict` since
 * Python 3.7): a list of distinct keys in insertion order and the mapping
 * they index.
 */
module OrderedDicts {

  datatype OrderedDict<K(==,!new), V> = OrderedDict(keys: seq<K>, values: map<K, V>)

  /** Every key occurs once in the order, and the order lists exactly the mapped keys. */
  ghost predicate Valid<K(!new), V>(d: OrderedDict<K, V>)
  {
    && (forall i, j :: 0 <= i < j < |d.keys| ==> d.keys[i] != d.keys[j])
    && (forall k :: k in d.values <==> k in d.keys)
  }

  function Empty<K(==,!new), V>(): (r: OrderedDict<K, V>)
    ensures Valid(r) && |r.keys| == 0 && r.values == map[]
  {
    OrderedDict([], map[])
  }

  /**
   * `d[k] = v`: an existing key keeps its place and gets the new value, a new
   * key goes last.
   */
  function Put<K(==,!new), V>(d: OrderedDict<K, V>, k: K, v: V): (r: OrderedDict<K, V>)
    requires Valid(d)
    ensures Valid(r)
    ensures r.values == d.values[k := v]
    ensures k in d.values ==> r.keys == d.keys
    ensures k !in d.values ==> r.keys == d.keys + [k]
  {
    if k in d.values then d.(values := d.values[k := v])
    else OrderedDict(d.keys + [k], d.values[k := v])
  }
}
