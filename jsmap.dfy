/**
 * JavaScript's `Map`: a finite map that also remembers the order in which
 * its keys were first inserted. `set` on a present key replaces the value
 * and keeps the key's position, `set` on a new key appends it, `delete`
 * removes the key wherever it is. Iteration (`entries()`, `values()`,
 * `for ... of`) follows `order`.
 */
module JsMap {
  import opened Wrappers

  /** No key occurs twice in `s`. */
  ghost predicate NoDup<K>(s: seq<K>) {
    forall i, j :: 0 <= i < j < |s| ==> s[i] != s[j]
  }

  /** `s` without any occurrence of `k`, other elements in their order. */
  function Without<K(==, !new)>(s: seq<K>, k: K): (r: seq<K>)
    ensures forall x :: x in r <==> x in s && x != k
    ensures |r| <= |s|
    ensures k !in s ==> r == s
  {
    if s == [] then []
    else if s[0] == k then Without(s[1..], k)
    else [s[0]] + Without(s[1..], k)
  }

  /** Removing `k` from a concatenation removes it from each part, so the order of the others is kept. */
  lemma {:induction false} WithoutConcat<K(!new)>(a: seq<K>, b: seq<K>, k: K)
    ensures Without(a + b, k) == Without(a, k) + Without(b, k)
  {
    if a != [] {
      assert (a + b)[0] == a[0] && (a + b)[1..] == a[1..] + b;
      WithoutConcat(a[1..], b, k);
    } else {
      assert a + b == b;
    }
  }

  lemma {:induction false} WithoutNoDup<K(!new)>(s: seq<K>, k: K)
    requires NoDup(s)
    ensures NoDup(Without(s, k))
    ensures k in s ==> |Without(s, k)| == |s| - 1
    ensures k !in s ==> Without(s, k) == s
  {
    if s != [] {
      assert NoDup(s[1..]) by {
        forall i, j | 0 <= i < j < |s[1..]| ensures s[1..][i] != s[1..][j] {
          assert s[1..][i] == s[i + 1] && s[1..][j] == s[j + 1];
        }
      }
      WithoutNoDup(s[1..], k);
      if s[0] != k {
        var r := [s[0]] + Without(s[1..], k);
        assert s[0] !in s[1..] by {
          forall j | 0 <= j < |s[1..]| ensures s[1..][j] != s[0] {
            assert s[1..][j] == s[j + 1];
          }
        }
        forall i, j | 0 <= i < j < |r| ensures r[i] != r[j] {
          if i == 0 {
            assert r[j] in Without(s[1..], k);
          } else {
            assert r[i] == Without(s[1..], k)[i - 1] && r[j] == Without(s[1..], k)[j - 1];
          }
        }
      } else {
        assert k !in s[1..] by {
          forall j | 0 <= j < |s[1..]| ensures s[1..][j] != k {
            assert s[1..][j] == s[j + 1];
          }
        }
      }
    }
  }

  datatype OMap<K(==, !new), V> = OMap(order: seq<K>, entries: map<K, V>) {

    /** The order lists every key exactly once. */
    ghost predicate Valid() {
      NoDup(order) && forall k :: k in entries <==> k in order
    }

    /** `map.has(k)`. */
    predicate Has(k: K) {
      k in entries
    }

    /** `map.get(k)` for a present key. */
    function Get(k: K): V
      requires Has(k)
    {
      entries[k]
    }

    /** `map.size`. */
    function Size(): nat {
      |order|
    }

    /** `map.set(k, v)`. */
    function Set(k: K, v: V): (r: OMap<K, V>)
      requires Valid()
      ensures r.Valid()
      ensures r.entries == entries[k := v]
      ensures r.Size() == if Has(k) then Size() else Size() + 1
      ensures Has(k) ==> r.order == order
      ensures !Has(k) ==> r.order == order + [k]
    {
      if k in entries then OMap(order, entries[k := v])
      else
        var r := OMap(order + [k], entries[k := v]);
        assert NoDup(r.order) by {
          forall i, j | 0 <= i < j < |r.order| ensures r.order[i] != r.order[j] {
            if j == |order| { assert r.order[i] in order; }
          }
        }
        r
    }

    /** `map.delete(k)`; a missing key leaves the map as it was. */
    function Delete(k: K): (r: OMap<K, V>)
      requires Valid()
      ensures r.Valid()
      ensures r.entries == entries - {k}
      ensures r.Size() == if Has(k) then Size() - 1 else Size()
      ensures !Has(k) ==> r == this
      ensures r.order == Without(order, k)
    {
      WithoutNoDup(order, k);
      OMap(Without(order, k), entries - {k})
    }

    /** The `i`-th entry of `[...map.entries()]`. */
    function EntryAt(i: nat): (e: (K, V))
      requires Valid() && i < Size()
      ensures e.0 in entries && e.1 == entries[e.0]
    {
      (order[i], entries[order[i]])
    }
  }

  /** `new Map()`. */
  function Empty<K(==, !new), V>(): (r: OMap<K, V>)
    ensures r.Valid() && r.Size() == 0 && r.entries == map[]
  {
    OMap([], map[])
  }

  /** Removing a key appended to a list that did not hold it gives the list back. */
  lemma {:induction false} WithoutAppended<K(!new)>(s: seq<K>, k: K)
    requires k !in s
    ensures Without(s + [k], k) == s
  {
    if s == [] {
      assert s + [k] == [k];
      assert [k][1..] == [];
    } else {
      assert (s + [k])[0] == s[0] && (s + [k])[1..] == s[1..] + [k];
      WithoutAppended(s[1..], k);
      assert [s[0]] + s[1..] == s;
    }
  }

  /** `set` of a new key followed by `delete` of it leaves the map as it was, order included. */
  lemma SetThenDelete<K(!new), V>(m: OMap<K, V>, k: K, v: V)
    requires m.Valid() && !m.Has(k)
    ensures m.Set(k, v).Delete(k) == m
  {
    WithoutAppended(m.order, k);
    assert m.entries[k := v] - {k} == m.entries;
  }

  lemma SizeIsCount<K(!new), V>(m: OMap<K, V>)
    requires m.Valid()
    ensures m.Size() == 0 <==> m.entries == map[]
  {
    if m.Size() > 0 {
      assert m.order[0] in m.entries;
    }
  }

  /** Position `j`, at `i` or later, holds `v` and no position from `i` up to it does. */
  ghost predicate FirstMatchAt<K(!new), V>(m: OMap<K, V>, v: V, i: int, j: int)
    requires m.Valid()
  {
    0 <= i <= j < |m.order| && m.entries[m.order[j]] == v
    && forall l :: i <= l < j ==> m.entries[m.order[l]] != v
  }

  /** The first key at position `i` or later in the order whose value is `v`. */
  function FindFrom<K(==, !new), V(==)>(m: OMap<K, V>, v: V, i: nat): (r: Option<K>)
    requires m.Valid() && i <= m.Size()
    ensures r.Some? ==> m.Has(r.value) && m.entries[r.value] == v
    ensures r.Some? ==> exists j :: FirstMatchAt(m, v, i, j) && m.order[j] == r.value
    ensures r.None? ==> forall j :: i <= j < m.Size() ==> m.entries[m.order[j]] != v
    decreases m.Size() - i
  {
    if i == m.Size() then None
    else if m.entries[m.order[i]] == v then
      assert FirstMatchAt(m, v, i, i);
      Some(m.order[i])
    else
      var r := FindFrom(m, v, i + 1);
      assert r.Some? ==> exists j :: FirstMatchAt(m, v, i, j) && m.order[j] == r.value by {
        if r.Some? {
          var j :| FirstMatchAt(m, v, i + 1, j) && m.order[j] == r.value;
          assert FirstMatchAt(m, v, i, j);
        }
      }
      r
  }

  /** `for (const [k, x] of map.entries()) if (x === v) { hitKey = k; break; }`. */
  function FindKey<K(==, !new), V(==)>(m: OMap<K, V>, v: V): (r: Option<K>)
    requires m.Valid()
    ensures r.Some? ==> m.Has(r.value) && m.entries[r.value] == v
    ensures r.None? <==> forall k :: m.Has(k) ==> m.entries[k] != v
    ensures r.Some? ==> exists j :: FirstMatchAt(m, v, 0, j) && m.order[j] == r.value
  {
    NotFoundAnywhere(m, v);
    FindFrom(m, v, 0)
  }

  lemma NotFoundAnywhere<K(!new), V>(m: OMap<K, V>, v: V)
    requires m.Valid()
    ensures FindFrom(m, v, 0).None? ==> forall k :: m.Has(k) ==> m.entries[k] != v
  {
    if FindFrom(m, v, 0).None? {
      forall k | m.Has(k) ensures m.entries[k] != v {
        var j :| 0 <= j < |m.order| && m.order[j] == k;
      }
    }
  }

  /** The entry-search loop itself: walks the entries in order and stops at the first match. */
  method SearchEntries<K(==, !new), V(==)>(m: OMap<K, V>, v: V) returns (hit: Option<K>)
    requires m.Valid()
    ensures hit == FindKey(m, v)
  {
    var i := 0;
    while i < |m.order|
      invariant 0 <= i <= |m.order|
      invariant FindFrom(m, v, i) == FindFrom(m, v, 0)
    {
      var k := m.order[i];
      if m.entries[k] == v {
        return Some(k);
      }
      i := i + 1;
    }
    return None;
  }
}
