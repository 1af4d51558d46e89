/**
  `SortedVector` and `KeyedVector` of libutils: sorted, duplicate-free sequences in
  which adding an equal key replaces the old item.  A keyed vector stands for a map,
  and the map determines it: two sorted vectors with the same map are the same vector.
*/
module SortedVectors {
  import opened Basics

  type Less<!K> = (K, K) -> bool
  type Keyed<K, V> = seq<(K, V)>

  ghost predicate StrictTotal<K(!new)>(less: Less<K>) {
    && (forall a :: !less(a, a))
    && (forall a, b :: a != b ==> less(a, b) || less(b, a))
    && (forall a, b, c :: less(a, b) && less(b, c) ==> less(a, c))
  }

  ghost predicate Sorted<K, V>(less: Less<K>, kv: Keyed<K, V>) {
    forall i, j :: 0 <= i < j < |kv| ==> less(kv[i].0, kv[j].0)
  }

  function Add<K(==), V>(less: Less<K>, kv: Keyed<K, V>, k: K, v: V): (r: Keyed<K, V>)
    decreases |kv|
  {
    if kv == [] then [(k, v)]
    else if kv[0].0 == k then [(k, v)] + kv[1..]
    else if less(k, kv[0].0) then [(k, v)] + kv
    else [kv[0]] + Add(less, kv[1..], k, v)
  }

  function AddAll<K(==), V>(less: Less<K>, pairs: seq<(K, V)>): Keyed<K, V> {
    if pairs == [] then []
    else Add(less, AddAll(less, pairs[..|pairs| - 1]), pairs[|pairs| - 1].0, pairs[|pairs| - 1].1)
  }

  /** The map a list of assignments stands for: later ones win. */
  function Assign<K(!new), V>(pairs: seq<(K, V)>): (m: map<K, V>)
    ensures forall k :: k in m <==> exists i :: 0 <= i < |pairs| && pairs[i].0 == k
    ensures forall k :: k in m ==> (k, m[k]) in pairs
  {
    if pairs == [] then map[]
    else
      var m := Assign(pairs[..|pairs| - 1]);
      var (k, v) := pairs[|pairs| - 1];
      assert pairs == pairs[..|pairs| - 1] + [(k, v)];
      m[k := v]
  }

  function Find<K(==), V>(kv: Keyed<K, V>, k: K): Option<V> {
    if kv == [] then None
    else if kv[0].0 == k then Some(kv[0].1)
    else Find(kv[1..], k)
  }

  // ------------------------------------------------------------------- lemmas

  /** An added key replaces an equal one and leaves the other members alone. */
  lemma {:induction false} AddMembers<K(!new), V>(less: Less<K>, kv: Keyed<K, V>, k: K, v: V)
    requires StrictTotal(less) && Sorted(less, kv)
    ensures forall x, y :: (x, y) in Add(less, kv, k, v) <==> if x == k then y == v else (x, y) in kv
    decreases |kv|
  {
    if kv == [] {
    } else {
      assert kv == [kv[0]] + kv[1..];
      if kv[0].0 == k {
      } else if less(k, kv[0].0) {
        assert forall i :: 0 <= i < |kv| ==> kv[i].0 == kv[0].0 || less(kv[0].0, kv[i].0);
      } else {
        AddMembers(less, kv[1..], k, v);
      }
    }
  }

  lemma {:induction false} AddKeeps<K(!new), V>(less: Less<K>, kv: Keyed<K, V>, k: K, v: V)
    requires StrictTotal(less) && Sorted(less, kv)
    ensures Sorted(less, Add(less, kv, k, v))
    ensures forall x, y :: (x, y) in Add(less, kv, k, v) <==> if x == k then y == v else (x, y) in kv
  {
    AddMembers(less, kv, k, v);
    AddSorted(less, kv, k, v);
  }

  lemma {:induction false} AddSorted<K(!new), V>(less: Less<K>, kv: Keyed<K, V>, k: K, v: V)
    requires StrictTotal(less) && Sorted(less, kv)
    ensures Sorted(less, Add(less, kv, k, v))
    decreases |kv|
  {
    if kv == [] {
    } else if kv[0].0 == k || less(k, kv[0].0) {
      assert forall i :: 0 <= i < |kv| ==> kv[i].0 == kv[0].0 || less(kv[0].0, kv[i].0);
    } else {
      AddSorted(less, kv[1..], k, v);
      AllAbove(less, kv, k, v);
      SortedCons(less, kv[0], Add(less, kv[1..], k, v));
    }
  }

  ghost predicate Above<K, V>(less: Less<K>, k: K, kv: Keyed<K, V>) { forall j :: 0 <= j < |kv| ==> less(k, kv[j].0) }

  lemma SortedCons<K(!new), V>(less: Less<K>, p: (K, V), kv: Keyed<K, V>)
    requires Sorted(less, kv) && Above(less, p.0, kv)
    ensures Sorted(less, [p] + kv)
  {
  }

  /** Behind a smaller first key, adding keeps every key above it. */
  lemma AllAbove<K(!new), V>(less: Less<K>, kv: Keyed<K, V>, k: K, v: V)
    requires StrictTotal(less) && Sorted(less, kv) && kv != [] && less(kv[0].0, k)
    ensures Above(less, kv[0].0, Add(less, kv[1..], k, v))
  {
    AddMembers(less, kv[1..], k, v);
    var r := Add(less, kv[1..], k, v);
    forall j | 0 <= j < |r| ensures less(kv[0].0, r[j].0) {
      var (x, y) := r[j];
      assert (x, y) in r;
      if x != k {
        var i :| 0 <= i < |kv[1..]| && kv[1..][i] == (x, y);
        assert less(kv[0].0, kv[i + 1].0);
      }
    }
  }

  /** In a sorted vector, membership, look-up and the map it stands for agree. */
  lemma {:induction false} FindMember<K(!new), V(!new)>(less: Less<K>, kv: Keyed<K, V>, k: K)
    requires StrictTotal(less) && Sorted(less, kv)
    ensures forall v :: Find(kv, k) == Some(v) <==> (k, v) in kv
    ensures Find(kv, k).Some? <==> k in Assign(kv)
    ensures Find(kv, k).Some? ==> Assign(kv)[k] == Find(kv, k).value
  {
    FindFirst(kv, k);
    forall v | (k, v) in kv ensures Find(kv, k) == Some(v) {
      var i :| 0 <= i < |kv| && kv[i] == (k, v);
      var j :| 0 <= j < |kv| && kv[j] == (k, Find(kv, k).value);
      assert i < j ==> less(kv[i].0, kv[j].0);
      assert j < i ==> less(kv[j].0, kv[i].0);
    }
  }

  lemma {:induction false} FindFirst<K, V>(kv: Keyed<K, V>, k: K)
    ensures Find(kv, k).Some? ==> (k, Find(kv, k).value) in kv
    ensures Find(kv, k).None? ==> forall i :: 0 <= i < |kv| ==> kv[i].0 != k
  {
    if kv == [] {
    } else {
      FindFirst(kv[1..], k);
      assert kv == [kv[0]] + kv[1..];
    }
  }

  /** Adding is map update. */
  lemma {:induction false} AddAssigns<K(!new), V(!new)>(less: Less<K>, kv: Keyed<K, V>, k: K, v: V)
    requires StrictTotal(less) && Sorted(less, kv)
    ensures Sorted(less, Add(less, kv, k, v))
    ensures Assign(Add(less, kv, k, v)) == Assign(kv)[k := v]
  {
    AddKeeps(less, kv, k, v);
    var r := Add(less, kv, k, v);
    forall x ensures x in Assign(r) <==> x in Assign(kv)[k := v] {
      if x in Assign(kv) && x != k { assert (x, Assign(kv)[x]) in r; }
      assert (k, v) in r;
    }
    forall x | x in Assign(r) ensures Assign(r)[x] == Assign(kv)[k := v][x] {
      FindMember(less, r, x);
      FindMember(less, kv, x);
      assert (x, Assign(r)[x]) in r;
    }
  }

  lemma {:induction false} AddAllAssigns<K(!new), V(!new)>(less: Less<K>, pairs: seq<(K, V)>)
    requires StrictTotal(less)
    ensures Sorted(less, AddAll(less, pairs)) && Assign(AddAll(less, pairs)) == Assign(pairs)
  {
    if pairs == [] {
    } else {
      var front := pairs[..|pairs| - 1];
      var (k, v) := pairs[|pairs| - 1];
      AddAllAssigns(less, front);
      AddAssigns(less, AddAll(less, front), k, v);
    }
  }

  /** The map determines the sorted vector. */
  lemma {:induction false} Canonical<K(!new), V(!new)>(less: Less<K>, a: Keyed<K, V>, b: Keyed<K, V>)
    requires StrictTotal(less) && Sorted(less, a) && Sorted(less, b)
    requires forall p :: p in a <==> p in b
    ensures a == b
    decreases |a|
  {
    if a == [] {
      HasMember(b);
    } else {
      assert a[0] in b;
      assert b[0] in a;
      assert a[0] == b[0] by {
        var i :| 0 <= i < |b| && b[i] == a[0];
        var j :| 0 <= j < |a| && a[j] == b[0];
        assert i > 0 ==> less(b[0].0, b[i].0);
        assert j > 0 ==> less(a[0].0, a[j].0);
      }
      forall p ensures p in a[1..] <==> p in b[1..] {
        TailMember(less, a, p);
        TailMember(less, b, p);
      }
      Canonical(less, a[1..], b[1..]);
      assert a == [a[0]] + a[1..] && b == [b[0]] + b[1..];
    }
  }

  lemma HasMember<T>(s: seq<T>)
    ensures s == [] || exists x :: x in s
  {
    if s != [] { assert s[0] in s; }
  }

  lemma TailMember<K(!new), V>(less: Less<K>, a: Keyed<K, V>, p: (K, V))
    requires StrictTotal(less) && Sorted(less, a) && a != []
    ensures p in a[1..] <==> p in a && p != a[0]
  {
    assert a == [a[0]] + a[1..];
    if p in a[1..] {
      var i :| 0 <= i < |a[1..]| && a[1..][i] == p;
      assert less(a[0].0, a[i + 1].0);
    }
  }

  lemma {:induction false} MapDetermines<K(!new), V(!new)>(less: Less<K>, a: Keyed<K, V>, b: Keyed<K, V>)
    requires StrictTotal(less) && Sorted(less, a) && Sorted(less, b) && Assign(a) == Assign(b)
    ensures a == b
  {
    forall p ensures p in a <==> p in b {
      FindMember(less, a, p.0);
      FindMember(less, b, p.0);
    }
    Canonical(less, a, b);
  }

  /** Adding the items of a sorted vector one by one rebuilds it. */
  lemma {:induction false} AddAllSorted<K(!new), V(!new)>(less: Less<K>, kv: Keyed<K, V>)
    requires StrictTotal(less) && Sorted(less, kv)
    ensures AddAll(less, kv) == kv
  {
    AddAllAssigns(less, kv);
    MapDetermines(less, AddAll(less, kv), kv);
  }

  // ------------------------------------------------------------------- orders

  predicate IntLess(a: int, b: int) { a < b }

  /** `strcmp` order of C strings. */
  predicate StrLess(a: string, b: string) {
    b != [] && (a == [] || a[0] < b[0] || (a[0] == b[0] && StrLess(a[1..], b[1..])))
  }

  lemma {:induction false} StrIrreflexive(a: string)
    ensures !StrLess(a, a)
  {
    if a == [] {
    } else {
      StrIrreflexive(a[1..]);
    }
  }

  lemma {:induction false} StrTotal(a: string, b: string)
    ensures a == b || StrLess(a, b) || StrLess(b, a)
  {
    if a != [] && b != [] && a[0] == b[0] {
      StrTotal(a[1..], b[1..]);
      assert a == [a[0]] + a[1..] && b == [b[0]] + b[1..];
    }
  }

  lemma {:induction false} StrTransitive(a: string, b: string, c: string)
    requires StrLess(a, b) && StrLess(b, c)
    ensures StrLess(a, c)
  {
    if a != [] && a[0] == b[0] == c[0] { StrTransitive(a[1..], b[1..], c[1..]); }
  }

  lemma OrdersTotal()
    ensures StrictTotal(StrLess) && StrictTotal(IntLess)
  {
    forall a ensures !StrLess(a, a) { StrIrreflexive(a); }
    forall a, b ensures a != b ==> StrLess(a, b) || StrLess(b, a) { StrTotal(a, b); }
    forall a, b, c ensures StrLess(a, b) && StrLess(b, c) ==> StrLess(a, c) {
      if StrLess(a, b) && StrLess(b, c) { StrTransitive(a, b, c); }
    }
  }
}
