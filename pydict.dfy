/** Python's `dict` as the modelled code uses it: a map together with the
    order in which its keys were first inserted. Overwriting a key keeps
    its place, deleting it removes it from the order, and iteration follows
    the order. */
module PyDict {

  predicate Distinct<K(==,!new)>(s: seq<K>) {
    forall i, j :: 0 <= i < j < |s| ==> s[i] != s[j]
  }

  /** `s` with `k` taken out, the rest in order. */
  function Without<K(==,!new)>(s: seq<K>, k: K): (r: seq<K>)
    ensures forall x :: x in r <==> x in s && x != k
    ensures Distinct(s) ==> Distinct(r)
    ensures Distinct(s) && k in s ==> |r| == |s| - 1
    ensures k !in s ==> r == s
    decreases |s|
  {
    if |s| == 0 then []
    else
      var rest := Without(s[1..], k);
      WithoutStep(s, k, rest);
      if s[0] == k then rest else [s[0]] + rest
  }

  /** The inductive step of Without, given what holds of the tail. */
  lemma WithoutStep<K(!new)>(s: seq<K>, k: K, rest: seq<K>)
    requires |s| > 0
    requires forall x :: x in rest <==> x in s[1..] && x != k
    requires Distinct(s[1..]) ==> Distinct(rest)
    requires Distinct(s[1..]) && k in s[1..] ==> |rest| == |s| - 2
    requires k !in s[1..] ==> rest == s[1..]
    ensures var r := if s[0] == k then rest else [s[0]] + rest;
      && (forall x :: x in r <==> x in s && x != k)
      && (Distinct(s) ==> Distinct(r))
      && (Distinct(s) && k in s ==> |r| == |s| - 1)
      && (k !in s ==> r == s)
  {
    assert s == [s[0]] + s[1..];
    assert forall x :: x in s <==> x == s[0] || x in s[1..];
    if Distinct(s) {
      DistinctTail(s);
      assert s[0] !in s[1..] by {
        forall i | 0 <= i < |s[1..]| ensures s[1..][i] != s[0] {
          assert s[1..][i] == s[i + 1];
        }
      }
      if s[0] != k {
        var r := [s[0]] + rest;
        forall i, j | 0 <= i < j < |r| ensures r[i] != r[j] {
          if i == 0 {
            assert r[j] == rest[j - 1] && rest[j - 1] in rest;
          } else {
            assert r[i] == rest[i - 1] && r[j] == rest[j - 1];
          }
        }
      }
    }
  }

  lemma DistinctTail<K(!new)>(s: seq<K>)
    requires |s| > 0 && Distinct(s)
    ensures Distinct(s[1..])
  {
    forall i, j | 0 <= i < j < |s[1..]| ensures s[1..][i] != s[1..][j] {
      assert s[1..][i] == s[i + 1] && s[1..][j] == s[j + 1];
    }
  }

  /** The values in key order. */
  function ValuesOf<K(==,!new), V>(keys: seq<K>, m: map<K, V>): (r: seq<V>)
    requires forall k :: k in keys ==> k in m
    ensures |r| == |keys|
    ensures forall i :: 0 <= i < |keys| ==> r[i] == m[keys[i]]
    decreases |keys|
  {
    if |keys| == 0 then [] else [m[keys[0]]] + ValuesOf(keys[1..], m)
  }

  datatype Dict<K(==,!new), V> = Dict(keys: seq<K>, m: map<K, V>) {

    /** Every key occurs once in the order, and the order holds exactly the
        keys of the map. */
    ghost predicate Valid() {
      Distinct(keys) && forall k :: k in m <==> k in keys
    }

    /** `d[k] = v` */
    function Put(k: K, v: V): (d: Dict<K, V>)
      ensures d.m == m[k := v]
      ensures k in m ==> d.keys == keys
      ensures k !in m ==> d.keys == keys + [k]
      ensures Valid() ==> d.Valid()
    {
      if k in m then Dict(keys, m[k := v])
      else
        var d := Dict(keys + [k], m[k := v]);
        assert Valid() ==> d.Valid() by {
          if Valid() {
            forall i, j | 0 <= i < j < |d.keys| ensures d.keys[i] != d.keys[j] {
              if j == |keys| {
                assert d.keys[i] == keys[i];
                assert keys[i] in m;
              }
            }
          }
        }
        d
    }

    /** `del d[k]` for a present key. */
    function Remove(k: K): (d: Dict<K, V>)
      requires k in m
      ensures d.m == m - {k}
      ensures d.keys == Without(keys, k)
      ensures Valid() ==> d.Valid()
    {
      Dict(Without(keys, k), m - {k})
    }

    /** `d.values()` */
    function Values(): (r: seq<V>)
      requires Valid()
      ensures |r| == |keys|
      ensures forall i :: 0 <= i < |keys| ==> r[i] == m[keys[i]]
    {
      ValuesOf(keys, m)
    }
  }

  function Empty<K(==,!new), V>(): (d: Dict<K, V>)
    ensures d.Valid() && |d.keys| == 0 && d.m == map[]
  {
    Dict([], map[])
  }

  /** Inserting and then deleting a fresh key gives back the same dict. */
  lemma PutRemove<K(!new), V>(d: Dict<K, V>, k: K, v: V)
    requires d.Valid() && k !in d.m
    ensures d.Put(k, v).Remove(k) == d
  {
    WithoutLast(d.keys, k);
    assert d.m[k := v] - {k} == d.m;
  }

  lemma {:induction false} WithoutLast<K(!new)>(s: seq<K>, k: K)
    requires k !in s
    ensures Without(s + [k], k) == s
    decreases |s|
  {
    if |s| == 0 {
      assert Without([k], k) == Without([k][1..], k);
      assert [k][1..] == [];
    } else {
      assert (s + [k])[1..] == s[1..] + [k];
      WithoutLast(s[1..], k);
      assert [s[0]] + s[1..] == s;
    }
  }

  lemma {:induction false} DistinctCard<K(!new)>(s: seq<K>)
    requires Distinct(s)
    ensures |set x | x in s| == |s|
    decreases |s|
  {
    if |s| > 0 {
      var init := s[..|s| - 1];
      assert Distinct(init) by {
        forall i, j | 0 <= i < j < |init| ensures init[i] != init[j] {
          assert init[i] == s[i] && init[j] == s[j];
        }
      }
      DistinctCard(init);
      assert s[|s| - 1] !in init by {
        forall i | 0 <= i < |init| ensures init[i] != s[|s| - 1] {
          assert init[i] == s[i];
        }
      }
      assert s == init + [s[|s| - 1]];
      assert (set x | x in s) == (set x | x in init) + {s[|s| - 1]};
    }
  }

  /** `len(d)` is the length of the key order. */
  lemma DictSize<K(!new), V>(d: Dict<K, V>)
    requires d.Valid()
    ensures |d.m| == |d.keys|
  {
    assert d.m.Keys == set x | x in d.keys;
    DistinctCard(d.keys);
  }
}

