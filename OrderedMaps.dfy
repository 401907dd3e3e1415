/** An insertion-ordered dictionary with string keys: the key order a JavaScript `Map` or a
    plain object with string keys keeps. A new key goes to the end, writing an
    existing key keeps its place, deleting a key closes the gap. */
module OrderedMaps {
  import opened JsValues

  ghost predicate Distinct<K>(s: seq<K>) {
    forall i, j :: 0 <= i < j < |s| ==> s[i] != s[j]
  }

  datatype OrderedMap<V> = OrderedMap(keys: seq<string>, values: map<string, V>)
  {
    /** The keys are listed once each, and exactly the keys of `values` are listed. */
    ghost predicate Valid() {
      && Distinct(keys)
      && (forall k :: k in values <==> k in keys)
    }

    /** `m.get(k)`. */
    function Get(k: string): (r: Option<V>)
      ensures r.Some? <==> k in values
      ensures r.Some? ==> r.value == values[k]
    {
      if k in values then Some(values[k]) else None
    }

    /** `m.set(k, v)` / `o[k] = v`. */
    function Set(k: string, v: V): (r: OrderedMap<V>)
      ensures Valid() ==> r.Valid()
      ensures r.values == values[k := v]
      ensures k in values ==> r.keys == keys
      ensures k !in values ==> r.keys == keys + [k]
    {
      var r := OrderedMap(if k in values then keys else keys + [k], values[k := v]);
      assert Valid() ==> r.Valid() by {
        if Valid() && k !in values {
          forall i, j | 0 <= i < j < |r.keys| ensures r.keys[i] != r.keys[j] {
            if j == |keys| { assert r.keys[i] in keys; }
          }
        }
      }
      r
    }

    /** `m.delete(k)` (the boolean it returns is `k in values`). */
    function Delete(k: string): (r: OrderedMap<V>)
      ensures Valid() ==> r.Valid()
      ensures r.values == values - {k}
      ensures r.keys == Without(keys, k)
      ensures Valid() ==> forall p :: 0 <= p < |keys| && keys[p] == k ==> r.keys == keys[..p] + keys[p + 1..]
    {
      assert Valid() ==> forall p :: 0 <= p < |keys| && keys[p] == k ==> Without(keys, k) == keys[..p] + keys[p + 1..] by {
        if Valid() {
          forall p | 0 <= p < |keys| && keys[p] == k
            ensures Without(keys, k) == keys[..p] + keys[p + 1..]
          {
            WithoutClosesGap(keys, k, p);
          }
        }
      }
      OrderedMap(Without(keys, k), values - {k})
    }

    /** `Array.from(m.values())`: the values in key order. */
    function Values(): (r: seq<V>)
      requires Valid()
      ensures |r| == |keys|
      ensures forall i :: 0 <= i < |keys| ==> r[i] == values[keys[i]]
    {
      seq(|keys|, i requires 0 <= i < |keys| => values[keys[i]])
    }
  }

  function Empty<V>(): (r: OrderedMap<V>)
    ensures r.Valid() && r.keys == [] && r.values == map[]
  {
    OrderedMap([], map[])
  }

  /** `s` with every occurrence of `k` removed, the rest in their order. */
  function Without(s: seq<string>, k: string): (r: seq<string>)
    ensures forall x :: x in r <==> x in s && x != k
    ensures Distinct(s) ==> Distinct(r)
    ensures k !in s ==> r == s
  {
    if s == [] then []
    else
      var rest := Without(s[1..], k);
      var r := (if s[0] == k then [] else [s[0]]) + rest;
      assert Distinct(s) ==> Distinct(r) by {
        if Distinct(s) {
          assert Distinct(s[1..]) by {
            forall i, j | 0 <= i < j < |s[1..]| ensures s[1..][i] != s[1..][j] {
              assert s[1..][i] == s[i + 1] && s[1..][j] == s[j + 1];
            }
          }
          if s[0] != k {
            assert s[0] !in s[1..] by {
              forall j | 0 <= j < |s[1..]| ensures s[1..][j] != s[0] {
                assert s[1..][j] == s[j + 1];
              }
            }
            forall i, j | 0 <= i < j < |r| ensures r[i] != r[j] {
              if i == 0 { assert r[j] == rest[j - 1]; }
              else { assert r[i] == rest[i - 1] && r[j] == rest[j - 1]; }
            }
          }
        }
      }
      assert k !in s ==> r == s by {
        if k !in s { assert s == [s[0]] + s[1..]; }
      }
      r
  }

  /** `{ ...base, ...top }` for flat objects: each entry of `top`, in its key
      order, written over a copy of `base`. */
  function Spread<V>(base: OrderedMap<V>, top: OrderedMap<V>): (r: OrderedMap<V>)
    ensures base.Valid() ==> r.Valid()
    ensures top.Valid() ==> r.values == base.values + top.values
  {
    assert base.Valid() ==> SpreadKeys(base, top.keys, top.values).Valid() by {
      if base.Valid() { SpreadKeysValid(base, top.keys, top.values); }
    }
    var r := SpreadKeys(base, top.keys, top.values);
    assert top.Valid() ==> r.values == base.values + top.values by {
      if top.Valid() {
        SpreadKeysValues(base, top.keys, top.values);
        assert r.values.Keys == (base.values + top.values).Keys;
      }
    }
    r
  }

  function SpreadKeys<V>(acc: OrderedMap<V>, ks: seq<string>, src: map<string, V>): OrderedMap<V>
    decreases |ks|
  {
    if ks == [] then acc
    else SpreadKeys(if ks[0] in src then acc.Set(ks[0], src[ks[0]]) else acc, ks[1..], src)
  }

  lemma {:induction false} SpreadKeysValid<V>(acc: OrderedMap<V>, ks: seq<string>, src: map<string, V>)
    requires acc.Valid()
    ensures SpreadKeys(acc, ks, src).Valid()
    decreases |ks|
  {
    if ks != [] {
      SpreadKeysValid(if ks[0] in src then acc.Set(ks[0], src[ks[0]]) else acc, ks[1..], src);
    }
  }

  lemma {:induction false} SpreadKeysValues<V>(acc: OrderedMap<V>, ks: seq<string>, src: map<string, V>)
    ensures forall k :: k in SpreadKeys(acc, ks, src).values <==> k in acc.values || (k in ks && k in src)
    ensures forall k :: k in ks && k in src ==> SpreadKeys(acc, ks, src).values[k] == src[k]
    ensures forall k :: k in acc.values && !(k in ks && k in src) ==> SpreadKeys(acc, ks, src).values[k] == acc.values[k]
    decreases |ks|
  {
    if ks != [] {
      var next := if ks[0] in src then acc.Set(ks[0], src[ks[0]]) else acc;
      SpreadKeysValues(next, ks[1..], src);
      assert forall k :: k in ks <==> k == ks[0] || k in ks[1..];
    }
  }

  /** Deleting a key present once closes the gap: the keys before it and the
      keys after it stay, in their order. */
  lemma {:induction false} WithoutClosesGap(s: seq<string>, k: string, p: nat)
    requires Distinct(s) && p < |s| && s[p] == k
    ensures Without(s, k) == s[..p] + s[p + 1..]
    decreases |s|
  {
    var tail := s[1..];
    assert Distinct(tail) by {
      forall i, j | 0 <= i < j < |tail| ensures tail[i] != tail[j] {
        assert tail[i] == s[i + 1] && tail[j] == s[j + 1];
      }
    }
    if p == 0 {
      assert k !in tail by {
        forall j | 0 <= j < |tail| ensures tail[j] != k {
          assert tail[j] == s[j + 1];
        }
      }
    } else {
      assert s[0] != k;
      WithoutClosesGap(tail, k, p - 1);
      assert s[..p] == [s[0]] + tail[..p - 1];
      assert s[p + 1..] == tail[p..];
    }
  }
}
