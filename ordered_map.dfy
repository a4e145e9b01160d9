/** The insertion-ordered, key-unique map that JavaScript's `Map` provides and
    that FieldsMap, PassImages and the manifest fold rely on: `set` on a new key
    appends it, `set` on an existing key replaces the value in place and keeps
    the key's position. */
module OrderedMaps {

  datatype OrderedMap<V> = OrderedMap(keys: seq<string>, values: map<string, V>) {

    /** Keys are unique and are exactly the keys of `values`. */
    ghost predicate Valid() {
      && (forall i, j :: 0 <= i < j < |keys| ==> keys[i] != keys[j])
      && (forall k :: k in values <==> k in keys)
    }

    function Size(): nat {
      |keys|
    }

    /** `Map.prototype.set` */
    function Set(k: string, v: V): (m: OrderedMap<V>)
      requires Valid()
      ensures m.Valid()
      ensures m.values == values[k := v]
      ensures k in values ==> m.keys == keys
      ensures k !in values ==> m.keys == keys + [k]
    {
      OrderedMap(if k in values then keys else keys + [k], values[k := v])
    }

    /** The entries in iteration order. */
    function Entries(): (es: seq<(string, V)>)
      requires Valid()
      ensures |es| == |keys|
      ensures forall i :: 0 <= i < |es| ==> es[i].0 == keys[i] && es[i].1 == values[keys[i]]
    {
      seq(|keys|, i requires 0 <= i < |keys| && Valid() => (keys[i], values[keys[i]]))
    }
  }

  function Empty<V>(): (m: OrderedMap<V>)
    ensures m.Valid() && m.Size() == 0
  {
    OrderedMap([], map[])
  }

  /** Setting a key never moves an existing key and never drops one: the old
      key order is a prefix of the new one, and the size grows by at most one. */
  lemma SetKeepsOrder<V>(m: OrderedMap<V>, k: string, v: V)
    requires m.Valid()
    ensures m.keys <= m.Set(k, v).keys
    ensures m.Set(k, v).Size() == m.Size() + (if k in m.values then 0 else 1)
    ensures m.Set(k, v).keys[|m.Set(k, v).keys| - 1] == k || k in m.values
  {
  }

  /** The keys a list of pairs mentions. */
  function PairKeys<V>(pairs: seq<(string, V)>): set<string> {
    set i | 0 <= i < |pairs| :: pairs[i].0
  }

  /** Folding `Set` over a list of pairs, as `reduce` does when it assigns
      `res[path] = ...` for each member: the old key order is kept as a prefix,
      and the keys are the old ones plus those the list mentions. */
  function SetAll<V>(m: OrderedMap<V>, pairs: seq<(string, V)>): (r: OrderedMap<V>)
    requires m.Valid()
    ensures r.Valid()
    ensures m.keys <= r.keys
    ensures r.values.Keys == m.values.Keys + PairKeys(pairs)
    decreases |pairs|
  {
    if pairs == [] then m
    else
      assert PairKeys(pairs) == {pairs[0].0} + PairKeys(pairs[1..]) by {
        forall k | k in PairKeys(pairs) ensures k in {pairs[0].0} + PairKeys(pairs[1..]) {
          var i :| 0 <= i < |pairs| && pairs[i].0 == k;
          if i > 0 { assert pairs[1..][i - 1].0 == k; }
        }
        forall k | k in PairKeys(pairs[1..]) ensures k in PairKeys(pairs) {
          var i :| 0 <= i < |pairs[1..]| && pairs[1..][i].0 == k;
          assert pairs[i + 1].0 == k;
        }
      }
      SetAll(m.Set(pairs[0].0, pairs[0].1), pairs[1..])
  }

  /** After the fold, a key holds the value of its last occurrence in the list. */
  lemma {:induction false} SetAllLastWins<V>(m: OrderedMap<V>, pairs: seq<(string, V)>, i: nat)
    requires m.Valid()
    requires i < |pairs|
    requires forall j :: i < j < |pairs| ==> pairs[j].0 != pairs[i].0
    ensures pairs[i].0 in SetAll(m, pairs).values
    ensures SetAll(m, pairs).values[pairs[i].0] == pairs[i].1
    decreases |pairs|
  {
    var m' := m.Set(pairs[0].0, pairs[0].1);
    if i == 0 {
      SetAllUntouched(m', pairs[1..], pairs[0].0);
    } else {
      SetAllLastWins(m', pairs[1..], i - 1);
    }
  }

  /** A key that the list never mentions keeps its value through the fold. */
  lemma {:induction false} SetAllUntouched<V>(m: OrderedMap<V>, pairs: seq<(string, V)>, k: string)
    requires m.Valid()
    requires k in m.values
    requires forall j :: 0 <= j < |pairs| ==> pairs[j].0 != k
    ensures k in SetAll(m, pairs).values && SetAll(m, pairs).values[k] == m.values[k]
    decreases |pairs|
  {
    if pairs != [] {
      SetAllUntouched(m.Set(pairs[0].0, pairs[0].1), pairs[1..], k);
    }
  }
}
