/**
 * JavaScript's `Map` as the download pool uses it: an association list that
 * remembers insertion order. `set` on a present key replaces the value in
 * place, `set` on a new key appends, `delete` removes the entry and keeps the
 * order of the rest, and `new Map(entries)` is a sequence of `set` calls.
 */
module OrderedMaps {
  import opened Wrappers

  datatype Entry<K, V> = Entry(key: K, value: V)

  function Keys<K, V>(m: seq<Entry<K, V>>): seq<K> {
    seq(|m|, i requires 0 <= i < |m| => m[i].key)
  }

  predicate DistinctKeys<K(==), V>(m: seq<Entry<K, V>>) {
    forall i, j :: 0 <= i < j < |m| ==> m[i].key != m[j].key
  }

  predicate HasKey<K(==), V>(m: seq<Entry<K, V>>, k: K) {
    exists i :: 0 <= i < |m| && m[i].key == k
  }

  /** Position of the entry for `k`, the first one if keys repeat. */
  function Find<K(==), V>(m: seq<Entry<K, V>>, k: K): (r: Option<nat>)
    ensures r.Some? ==> r.value < |m| && m[r.value].key == k
    ensures r.Some? ==> forall j :: 0 <= j < r.value ==> m[j].key != k
    ensures r.None? <==> !HasKey(m, k)
  {
    if m == [] then None
    else if m[0].key == k then Some(0)
    else match Find(m[1..], k)
      case None => None
      case Some(i) => Some(i + 1)
  }

  /** The first entry with key `k` is where `Find` stops. */
  lemma FindFirst<K, V>(m: seq<Entry<K, V>>, k: K, i: nat)
    requires i < |m| && m[i].key == k
    requires forall j :: 0 <= j < i ==> m[j].key != k
    ensures Find(m, k) == Some(i)
  {
  }

  /** Which keys a map holds, and where, depends on its keys alone. */
  lemma {:induction false} SameKeys<K, V, W>(a: seq<Entry<K, V>>, b: seq<Entry<K, W>>, k: K)
    requires Keys(a) == Keys(b)
    ensures DistinctKeys(a) ==> DistinctKeys(b)
    ensures Find(a, k) == Find(b, k)
  {
    assert |a| == |Keys(a)| == |Keys(b)| == |b|;
    assert forall j :: 0 <= j < |a| ==> a[j].key == Keys(a)[j] == Keys(b)[j] == b[j].key;
    if a != [] {
      assert Keys(a[1..]) == Keys(a)[1..];
      assert Keys(b[1..]) == Keys(b)[1..];
      SameKeys(a[1..], b[1..], k);
    }
  }

  /** `map.get(k)`, with `None` for `undefined`. */
  function Get<K(==), V>(m: seq<Entry<K, V>>, k: K): (r: Option<V>)
    ensures r.Some? <==> HasKey(m, k)
  {
    match Find(m, k)
    case None => None
    case Some(i) => Some(m[i].value)
  }

  /** `map.set(k, v)`. */
  function Set<K(==), V>(m: seq<Entry<K, V>>, k: K, v: V): (r: seq<Entry<K, V>>)
    ensures HasKey(m, k) ==> |r| == |m|
    ensures !HasKey(m, k) ==> r == m + [Entry(k, v)]
  {
    match Find(m, k)
    case None => m + [Entry(k, v)]
    case Some(i) => m[i := Entry(k, v)]
  }

  /** `map.delete(k)`. */
  function Delete<K(==), V>(m: seq<Entry<K, V>>, k: K): (r: seq<Entry<K, V>>)
    ensures |r| <= |m|
    ensures !HasKey(r, k)
  {
    if m == [] then []
    else if m[0].key == k then Delete(m[1..], k)
    else [m[0]] + Delete(m[1..], k)
  }

  /** `new Map(entries)`: the entries are `set` one after the other. */
  function FromEntries<K(==), V>(es: seq<Entry<K, V>>): seq<Entry<K, V>>
  {
    if es == [] then [] else Set(FromEntries(es[..|es| - 1]), es[|es| - 1].key, es[|es| - 1].value)
  }

  /** Setting a key makes `get` return the new value and leaves every other key's value alone. */
  lemma SetGet<K, V>(m: seq<Entry<K, V>>, k: K, v: V, k': K)
    requires DistinctKeys(m)
    ensures Get(Set(m, k, v), k') == if k' == k then Some(v) else Get(m, k')
  {
    var r := Set(m, k, v);
    match Find(m, k)
    case None =>
      if k' != k {
        match Find(m, k')
        case None =>
        case Some(i) =>
          FindFirst(r, k', i);
      } else {
        FindFirst(r, k, |m|);
      }
    case Some(i) =>
      if k' != k {
        match Find(m, k')
        case None =>
          assert !HasKey(r, k');
        case Some(j) =>
          FindFirst(r, k', j);
      } else {
        FindFirst(r, k, i);
      }
  }

  /** `set` keeps the keys in place and appends a new key at the end, so keys stay distinct. */
  lemma SetKeys<K, V>(m: seq<Entry<K, V>>, k: K, v: V)
    requires DistinctKeys(m)
    ensures Keys(Set(m, k, v)) == if HasKey(m, k) then Keys(m) else Keys(m) + [k]
    ensures DistinctKeys(Set(m, k, v))
  {
  }

  /** On distinct keys `delete` cuts out the one entry `Find` locates. */
  lemma {:induction false} DeleteCutsOut<K, V>(m: seq<Entry<K, V>>, k: K)
    requires DistinctKeys(m)
    ensures Find(m, k).None? ==> Delete(m, k) == m
    ensures Find(m, k).Some? ==> Delete(m, k) == m[..Find(m, k).value] + m[Find(m, k).value + 1..]
  {
    if m != [] {
      DeleteCutsOut(m[1..], k);
      if m[0].key == k {
        assert Find(m[1..], k).None?;
      } else {
        match Find(m[1..], k)
        case None =>
        case Some(i) =>
          assert m[..i + 1] == [m[0]] + m[1..][..i];
          assert m[i + 2..] == m[1..][i + 1..];
      }
    }
  }

  /** Cutting one entry out of a map with distinct keys keeps the keys distinct and every other key's value. */
  lemma CutOutDistinct<K, V>(m: seq<Entry<K, V>>, i: nat)
    requires DistinctKeys(m) && i < |m|
    ensures DistinctKeys(m[..i] + m[i + 1..])
  {
    var r := m[..i] + m[i + 1..];
    assert forall j :: 0 <= j < |r| ==> r[j] == if j < i then m[j] else m[j + 1];
  }

  lemma CutOut<K, V>(m: seq<Entry<K, V>>, i: nat, k': K)
    requires DistinctKeys(m) && i < |m| && k' != m[i].key
    ensures Get(m[..i] + m[i + 1..], k') == Get(m, k')
  {
    var r := m[..i] + m[i + 1..];
    assert forall j :: 0 <= j < |r| ==> r[j] == if j < i then m[j] else m[j + 1];
    if HasKey(m, k') {
      var j := Find(m, k').value;
      FindFirst(r, k', if j < i then j else j - 1);
    } else {
      forall j | 0 <= j < |r| ensures r[j].key != k' {
        if j < i {
          assert r[j] == m[j];
        } else {
          assert r[j] == m[j + 1];
        }
      }
      assert !HasKey(r, k');
    }
  }

  /** `delete` removes exactly the entry for `k` and keeps every other entry, in order. */
  lemma {:induction false} DeleteSpec<K, V>(m: seq<Entry<K, V>>, k: K)
    requires DistinctKeys(m)
    ensures DistinctKeys(Delete(m, k))
    ensures HasKey(m, k) ==> |Delete(m, k)| == |m| - 1
    ensures !HasKey(m, k) ==> Delete(m, k) == m
    ensures forall k' :: k' != k ==> Get(Delete(m, k), k') == Get(m, k')
  {
    DeleteCutsOut(m, k);
    if HasKey(m, k) {
      var i := Find(m, k).value;
      forall k' | k' != k ensures Get(Delete(m, k), k') == Get(m, k') {
        CutOut(m, i, k');
      }
      CutOutDistinct(m, i);
    }
  }

  /** Building a map from entries whose keys are distinct keeps the entries as they are. */
  lemma {:induction false} FromDistinctEntries<K, V>(es: seq<Entry<K, V>>)
    requires DistinctKeys(es)
    ensures FromEntries(es) == es
  {
    if es != [] {
      var init := es[..|es| - 1];
      FromDistinctEntries(init);
      assert !HasKey(init, es[|es| - 1].key);
      assert init + [es[|es| - 1]] == es;
    }
  }

  /** `new Map([...a, ...b])` is `a` followed by `b` when no key repeats. */
  lemma Concat<K, V>(a: seq<Entry<K, V>>, b: seq<Entry<K, V>>)
    requires DistinctKeys(a) && DistinctKeys(b) && Disjoint(a, b)
    ensures FromEntries(a + b) == a + b
    ensures DistinctKeys(a + b)
  {
    FromDistinctEntries(a + b);
  }

  /** Every entry `delete` keeps was in the map. */
  lemma {:induction false} DeleteSubset<K, V>(m: seq<Entry<K, V>>, k: K)
    ensures forall e :: e in Delete(m, k) ==> e in m
  {
    if m != [] {
      DeleteSubset(m[1..], k);
    }
  }

  lemma HasKeyIn<K, V>(m: seq<Entry<K, V>>, k: K)
    ensures HasKey(m, k) <==> k in Keys(m)
  {
    if k in Keys(m) {
      var j :| 0 <= j < |Keys(m)| && Keys(m)[j] == k;
      assert m[j].key == k;
    }
    if HasKey(m, k) {
      var j :| 0 <= j < |m| && m[j].key == k;
      assert Keys(m)[j] == k;
    }
  }

  lemma KeysAppend<K, V>(a: seq<Entry<K, V>>, b: seq<Entry<K, V>>)
    ensures Keys(a + b) == Keys(a) + Keys(b)
  {
  }

  /** An entry of a map carries one of its keys. */
  lemma EntryKey<K, V>(m: seq<Entry<K, V>>, e: Entry<K, V>)
    requires e in m
    ensures HasKey(m, e.key)
  {
    var j :| 0 <= j < |m| && m[j] == e;
    assert m[j].key == e.key;
  }

  /** A map made of entries of `m` holds only keys of `m`. */
  lemma SubsetKeys<K, V>(q: seq<Entry<K, V>>, m: seq<Entry<K, V>>)
    requires forall e :: e in q ==> e in m
    ensures forall k :: HasKey(q, k) ==> HasKey(m, k)
  {
    forall k | HasKey(q, k) ensures HasKey(m, k) {
      var j :| 0 <= j < |q| && q[j].key == k;
      EntryKey(m, q[j]);
    }
  }

  /** The keys `set` leaves in a map: the old ones and the one set. */
  lemma SetHasKey<K, V>(m: seq<Entry<K, V>>, k: K, v: V, k': K)
    requires DistinctKeys(m)
    ensures HasKey(Set(m, k, v), k') <==> HasKey(m, k') || k' == k
  {
    SetKeys(m, k, v);
    HasKeyIn(Set(m, k, v), k');
    HasKeyIn(m, k');
  }

  /** The entries `set` leaves in a map: old ones and the one set. */
  lemma SetEntries<K, V>(m: seq<Entry<K, V>>, k: K, v: V)
    ensures forall e :: e in Set(m, k, v) ==> e in m || e == Entry(k, v)
  {
    var r := Set(m, k, v);
    forall e | e in r ensures e in m || e == Entry(k, v) {
      var j :| 0 <= j < |r| && r[j] == e;
      if j < |m| && r[j] != Entry(k, v) {
        assert r[j] == m[j];
      }
    }
  }

  /** `new Map(entries)` has distinct keys, holds exactly the keys of `entries` and only entries taken from it. */
  lemma {:induction false} FromEntriesSpec<K, V>(es: seq<Entry<K, V>>)
    ensures DistinctKeys(FromEntries(es))
    ensures forall e :: e in FromEntries(es) ==> e in es
    ensures forall k :: HasKey(FromEntries(es), k) <==> HasKey(es, k)
  {
    if es != [] {
      var init, last := es[..|es| - 1], es[|es| - 1];
      FromEntriesSpec(init);
      var fi := FromEntries(init);
      SetKeys(fi, last.key, last.value);
      SetEntries(fi, last.key, last.value);
      assert es == init + [last];
      forall k ensures HasKey(FromEntries(es), k) <==> HasKey(es, k) {
        SetHasKey(fi, last.key, last.value, k);
        HasKeyIn(es, k);
        HasKeyIn(init, k);
        KeysAppend(init, [last]);
      }
    }
  }

  /** With `new Map(entries)`, a later entry for a key wins over an earlier one. */
  lemma FromEntriesLast<K, V>(es: seq<Entry<K, V>>, e: Entry<K, V>, k: K)
    ensures Get(FromEntries(es + [e]), k) == if k == e.key then Some(e.value) else Get(FromEntries(es), k)
  {
    assert (es + [e])[..|es|] == es;
    FromEntriesSpec(es);
    SetGet(FromEntries(es), e.key, e.value, k);
  }

  /**
   * The candidates whose keys `m` lacks, gathered with `set` into a map of
   * their own: a later candidate for a key replaces an earlier one in place.
   */
  function Admit<K(==), V>(m: seq<Entry<K, V>>, cs: seq<Entry<K, V>>): seq<Entry<K, V>> {
    if cs == [] then []
    else
      var a := Admit(m, cs[..|cs| - 1]);
      var c := cs[|cs| - 1];
      if HasKey(m, c.key) then a else Set(a, c.key, c.value)
  }

  /** The candidates whose keys `m` lacks, in their order. */
  function Absent<K(==), V>(m: seq<Entry<K, V>>, cs: seq<Entry<K, V>>): seq<Entry<K, V>> {
    if cs == [] then []
    else
      var a := Absent(m, cs[..|cs| - 1]);
      var c := cs[|cs| - 1];
      if HasKey(m, c.key) then a else a + [c]
  }

  /** `Admit` yields distinct keys and only candidates whose keys `m` lacks. */
  lemma {:induction false} AdmitEntries<K, V>(m: seq<Entry<K, V>>, cs: seq<Entry<K, V>>)
    ensures DistinctKeys(Admit(m, cs))
    ensures forall e :: e in Admit(m, cs) ==> e in cs && !HasKey(m, e.key)
  {
    if cs != [] {
      var init, c := cs[..|cs| - 1], cs[|cs| - 1];
      AdmitEntries(m, init);
      assert cs == init + [c];
      if !HasKey(m, c.key) {
        SetKeys(Admit(m, init), c.key, c.value);
        SetEntries(Admit(m, init), c.key, c.value);
      }
    }
  }

  /** `Admit` holds exactly the candidate keys that `m` lacks. */
  lemma {:induction false} AdmitKeys<K, V>(m: seq<Entry<K, V>>, cs: seq<Entry<K, V>>, k: K)
    ensures HasKey(Admit(m, cs), k) <==> HasKey(cs, k) && !HasKey(m, k)
  {
    if cs != [] {
      var init, c := cs[..|cs| - 1], cs[|cs| - 1];
      AdmitKeys(m, init, k);
      AdmitEntries(m, init);
      assert cs == init + [c];
      HasKeyIn(cs, k);
      HasKeyIn(init, k);
      KeysAppend(init, [c]);
      if !HasKey(m, c.key) {
        SetHasKey(Admit(m, init), c.key, c.value, k);
      }
    }
  }

  /** For a key `m` lacks, `Admit` keeps the value `new Map(candidates)` would: the last candidate's. */
  lemma {:induction false} AdmitGet<K, V>(m: seq<Entry<K, V>>, cs: seq<Entry<K, V>>, k: K)
    requires !HasKey(m, k)
    ensures Get(Admit(m, cs), k) == Get(FromEntries(cs), k)
  {
    if cs != [] {
      var init, c := cs[..|cs| - 1], cs[|cs| - 1];
      AdmitGet(m, init, k);
      AdmitEntries(m, init);
      assert cs == init + [c];
      FromEntriesLast(init, c, k);
      if !HasKey(m, c.key) {
        SetGet(Admit(m, init), c.key, c.value, k);
      }
    }
  }

  /** For candidates with distinct keys, `Admit` keeps the absent ones in their order. */
  lemma {:induction false} AdmitDistinct<K, V>(m: seq<Entry<K, V>>, cs: seq<Entry<K, V>>)
    requires DistinctKeys(cs)
    ensures Admit(m, cs) == Absent(m, cs)
  {
    if cs != [] {
      var init, c := cs[..|cs| - 1], cs[|cs| - 1];
      AdmitDistinct(m, init);
      AdmitKeys(m, init, c.key);
      HasKeyIn(init, c.key);
      assert !HasKey(init, c.key);
    }
  }

  /**
   * `addDownloaders` on the map: the admitted candidates spliced in where the
   * entry keyed `r` was, when `r` is present, and appended otherwise.
   */
  function AddBatch<K(==), V>(m: seq<Entry<K, V>>, cs: seq<Entry<K, V>>, r: Option<K>): seq<Entry<K, V>> {
    var added := Admit(m, cs);
    if r.Some? && HasKey(m, r.value) then
      var i := Find(m, r.value).value;
      FromEntries(m[..i] + added + m[i + 1..])
    else FromEntries(m + added)
  }

  /** Entries of `a` and `b` never share a key. */
  predicate Disjoint<K(==), V>(a: seq<Entry<K, V>>, b: seq<Entry<K, V>>) {
    forall i, j :: 0 <= i < |a| && 0 <= j < |b| ==> a[i].key != b[j].key
  }

  /** Admitted entries share no key with any part of the map. */
  lemma AdmitDisjoint<K, V>(m: seq<Entry<K, V>>, cs: seq<Entry<K, V>>, part: seq<Entry<K, V>>)
    requires forall e :: e in part ==> e in m
    ensures Disjoint(part, Admit(m, cs)) && Disjoint(Admit(m, cs), part)
  {
    var added := Admit(m, cs);
    AdmitEntries(m, cs);
    forall i, j | 0 <= i < |part| && 0 <= j < |added| ensures part[i].key != added[j].key {
      assert added[j] in added;
      EntryKey(m, part[i]);
    }
  }

  /** Spliced at a present key `r`, the rebuilt map is the plain concatenation, with distinct keys. */
  lemma AddBatchSplice<K, V>(m: seq<Entry<K, V>>, cs: seq<Entry<K, V>>, i: nat)
    requires DistinctKeys(m) && i < |m|
    ensures DistinctKeys(m[..i] + Admit(m, cs) + m[i + 1..])
    ensures FromEntries(m[..i] + Admit(m, cs) + m[i + 1..]) == m[..i] + Admit(m, cs) + m[i + 1..]
  {
    var added := Admit(m, cs);
    var before, after := m[..i], m[i + 1..];
    AdmitEntries(m, cs);
    assert forall e :: e in before ==> e in m;
    assert forall e :: e in after ==> e in m;
    AdmitDisjoint(m, cs, before);
    AdmitDisjoint(m, cs, after);
    assert Disjoint(before, after) by {
      forall a, b | 0 <= a < |before| && 0 <= b < |after| ensures before[a].key != after[b].key {
        assert before[a] == m[a] && after[b] == m[i + 1 + b];
      }
    }
    Concat(before, added);
    assert Disjoint(before + added, after);
    Concat(before + added, after);
  }

  /**
   * On a map with distinct keys the rebuilt map is the plain concatenation:
   * the entries before `r`, the admitted candidates, the entries after `r`
   * (or the whole map and the admitted candidates), and its keys are distinct.
   */
  lemma AddBatchShape<K, V>(m: seq<Entry<K, V>>, cs: seq<Entry<K, V>>, r: Option<K>)
    requires DistinctKeys(m)
    ensures r.Some? && HasKey(m, r.value) ==>
      AddBatch(m, cs, r) == m[..Find(m, r.value).value] + Admit(m, cs) + m[Find(m, r.value).value + 1..]
    ensures !(r.Some? && HasKey(m, r.value)) ==> AddBatch(m, cs, r) == m + Admit(m, cs)
    ensures DistinctKeys(AddBatch(m, cs, r))
  {
    if r.Some? && HasKey(m, r.value) {
      AddBatchSplice(m, cs, Find(m, r.value).value);
    } else {
      AdmitEntries(m, cs);
      AdmitDisjoint(m, cs, m);
      Concat(m, Admit(m, cs));
    }
  }

  /**
   * `addDownloaders` keeps every entry of the map except the replaced one,
   * drops the replaced key, adds only admitted candidates, and adds every
   * candidate key the map lacked.
   */
  lemma AddBatchSpec<K, V>(m: seq<Entry<K, V>>, cs: seq<Entry<K, V>>, r: Option<K>)
    requires DistinctKeys(m)
    ensures DistinctKeys(AddBatch(m, cs, r))
    ensures forall e :: e in m && Some(e.key) != r ==> e in AddBatch(m, cs, r)
    ensures forall e :: e in AddBatch(m, cs, r) ==> (e in m && Some(e.key) != r) || (e in cs && !HasKey(m, e.key))
    ensures r.Some? && HasKey(m, r.value) ==> !HasKey(AddBatch(m, cs, r), r.value)
    ensures forall k :: HasKey(cs, k) && !HasKey(m, k) ==> HasKey(AddBatch(m, cs, r), k)
  {
    AddBatchShape(m, cs, r);
    AdmitEntries(m, cs);
    var res := AddBatch(m, cs, r);
    var added := Admit(m, cs);
    forall k | HasKey(cs, k) && !HasKey(m, k) ensures HasKey(res, k) {
      AdmitKeys(m, cs, k);
      var j :| 0 <= j < |added| && added[j].key == k;
      assert added[j] in res;
      EntryKey(res, added[j]);
    }
    if r.Some? && HasKey(m, r.value) {
      var i := Find(m, r.value).value;
      CutEntries(m, i);
      forall e | e in res ensures (e in m && Some(e.key) != r) || (e in cs && !HasKey(m, e.key)) {
        if e !in added {
          assert e in m[..i] + m[i + 1..];
        }
      }
      if HasKey(res, r.value) {
        var j :| 0 <= j < |res| && res[j].key == r.value;
        assert res[j] in res;
      }
    } else {
      forall e | e in res ensures (e in m && Some(e.key) != r) || (e in cs && !HasKey(m, e.key)) {
        if e in m {
          EntryKey(m, e);
        }
      }
    }
  }

  /** Cutting out the entry at `i` keeps every other entry, and only those. */
  lemma CutEntries<K, V>(m: seq<Entry<K, V>>, i: nat)
    requires DistinctKeys(m) && i < |m|
    ensures forall e :: e in m[..i] + m[i + 1..] <==> e in m && e.key != m[i].key
  {
    var d := m[..i] + m[i + 1..];
    assert forall j :: 0 <= j < |d| ==> d[j] == if j < i then m[j] else m[j + 1];
    forall e | e in m && e.key != m[i].key ensures e in d {
      var j :| 0 <= j < |m| && m[j] == e;
      assert d[if j < i then j else j - 1] == e;
    }
  }
}
