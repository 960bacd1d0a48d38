/** A Python dict as an insertion-ordered association list with unique keys.
    Assigning to an existing key keeps its position; a new key goes last,
    exactly as CPython dicts iterate. */
module OrderedDict {
  import opened Wrappers

  type Dict<K, V> = seq<(K, V)>

  ghost predicate UniqueKeys<K, V>(d: Dict<K, V>) {
    forall i, j :: 0 <= i < j < |d| ==> d[i].0 != d[j].0
  }

  /** The keys, in iteration order. */
  function Keys<K, V>(d: Dict<K, V>): (ks: seq<K>)
    ensures |ks| == |d|
  {
    seq(|d|, i requires 0 <= i < |d| => d[i].0)
  }

  /** Position of key `k`, the first one if there were several. */
  function Find<K(==), V>(d: Dict<K, V>, k: K): (r: Option<nat>)
    ensures r.Some? ==> r.value < |d| && d[r.value].0 == k
    ensures r.Some? ==> forall j :: 0 <= j < r.value ==> d[j].0 != k
    ensures r.None? ==> forall j :: 0 <= j < |d| ==> d[j].0 != k
  {
    if d == [] then None
    else if d[0].0 == k then Some(0)
    else match Find(d[1..], k)
      case None => None
      case Some(i) => Some(i + 1)
  }

  predicate HasKey<K(==), V>(d: Dict<K, V>, k: K) {
    Find(d, k).Some?
  }

  /** `d.get(k)`. */
  function Get<K(==), V>(d: Dict<K, V>, k: K): (r: Option<V>)
    ensures r.Some? <==> HasKey(d, k)
  {
    match Find(d, k)
    case None => None
    case Some(i) => Some(d[i].1)
  }

  /** `d[k] = v`. */
  function Put<K(==,!new), V>(d: Dict<K, V>, k: K, v: V): (r: Dict<K, V>)
    ensures UniqueKeys(d) ==> UniqueKeys(r)
    ensures Get(r, k) == Some(v)
    ensures forall k' :: k' != k ==> Get(r, k') == Get(d, k')
    ensures HasKey(d, k) ==> r == d[Find(d, k).value := (k, v)]
    ensures !HasKey(d, k) ==> r == d + [(k, v)]
  {
    match Find(d, k)
    case None =>
      var r := d + [(k, v)];
      assert forall k' :: k' != k ==> Find(r, k') == Find(d, k') by {
        forall k' | k' != k ensures Find(r, k') == Find(d, k') {
          FindInExtension(d, (k, v), k');
        }
      }
      FindAppended(d, v, k);
      r
    case Some(i) =>
      var r := d[i := (k, v)];
      assert forall k' :: k' != k ==> Find(r, k') == Find(d, k') by {
        forall k' | k' != k ensures Find(r, k') == Find(d, k') {
          FindAfterUpdate(d, i, v, k');
        }
      }
      FindUpdated(d, i, v);
      assert r == d[i := (d[i].0, v)];
      r
  }

  lemma {:induction false} FindInExtension<K, V>(d: Dict<K, V>, p: (K, V), k: K)
    requires p.0 != k
    ensures Find(d + [p], k) == Find(d, k)
  {
    if d != [] {
      assert (d + [p])[1..] == d[1..] + [p];
      FindInExtension(d[1..], p, k);
    } else {
      assert (d + [p])[1..] == [];
    }
  }

  lemma {:induction false} FindAfterUpdate<K, V>(d: Dict<K, V>, i: nat, v: V, k: K)
    requires i < |d| && d[i].0 != k
    ensures Find(d[i := (d[i].0, v)], k) == Find(d, k)
  {
    if i > 0 {
      assert d[i := (d[i].0, v)][1..] == d[1..][i - 1 := (d[i].0, v)];
      FindAfterUpdate(d[1..], i - 1, v, k);
    }
  }

  lemma {:induction false} FindAppended<K, V>(d: Dict<K, V>, v: V, k: K)
    requires Find(d, k).None?
    ensures Find(d + [(k, v)], k) == Some(|d|)
  {
    if d != [] {
      assert (d + [(k, v)])[1..] == d[1..] + [(k, v)];
      FindAppended(d[1..], v, k);
    }
  }

  lemma {:induction false} FindUpdated<K, V>(d: Dict<K, V>, i: nat, v: V)
    requires i < |d| && Find(d, d[i].0) == Some(i)
    ensures Find(d[i := (d[i].0, v)], d[i].0) == Some(i)
  {
    if i > 0 {
      assert d[i := (d[i].0, v)][1..] == d[1..][i - 1 := (d[i].0, v)];
      FindUpdated(d[1..], i - 1, v);
    }
  }

  /** `k in d.keys()` is `HasKey`. */
  lemma KeysHas<K, V>(d: Dict<K, V>, k: K)
    ensures k in Keys(d) <==> HasKey(d, k)
  {
    if k in Keys(d) {
      var i :| 0 <= i < |d| && Keys(d)[i] == k;
      assert d[i].0 == k;
    }
    if HasKey(d, k) {
      assert Keys(d)[Find(d, k).value] == k;
    }
  }

  /** With unique keys every entry is found at its own position. */
  lemma {:induction false} FindUnique<K, V>(d: Dict<K, V>, i: nat)
    requires UniqueKeys(d) && i < |d|
    ensures Find(d, d[i].0) == Some(i)
  {
    match Find(d, d[i].0)
    case None =>
    case Some(j) =>
  }

  /** With unique keys, the value of an entry is what `Get` returns for its key. */
  lemma GetEntry<K, V>(d: Dict<K, V>, i: nat)
    requires UniqueKeys(d) && i < |d|
    ensures Get(d, d[i].0) == Some(d[i].1)
  {
    FindUnique(d, i);
  }

  /** Reassigning a present key keeps the key order. */
  lemma PutKeys<K(!new), V>(d: Dict<K, V>, k: K, v: V)
    requires HasKey(d, k)
    ensures Keys(Put(d, k, v)) == Keys(d)
  {
  }

  /** With unique keys, `Get` finds exactly the pairs of the list. */
  lemma GetIffMember<K, V>(d: Dict<K, V>, k: K, v: V)
    requires UniqueKeys(d)
    ensures Get(d, k) == Some(v) <==> (k, v) in d
  {
    if Get(d, k) == Some(v) {
      var i := Find(d, k).value;
      assert d[i] == (k, v);
    }
    if (k, v) in d {
      var i :| 0 <= i < |d| && d[i] == (k, v);
    }
  }

  /** Assigns the pairs one after the other: `for k, v in ps: d[k] = v`. */
  function PutAll<K(==,!new), V>(d: Dict<K, V>, ps: seq<(K, V)>): (r: Dict<K, V>)
    ensures UniqueKeys(d) ==> UniqueKeys(r)
  {
    if ps == [] then d else Put(PutAll(d, ps[..|ps| - 1]), ps[|ps| - 1].0, ps[|ps| - 1].1)
  }

  /** `dict(pairs)`: later pairs overwrite earlier ones with the same key. */
  function FromPairs<K(==,!new), V>(ps: seq<(K, V)>): (r: Dict<K, V>)
    ensures UniqueKeys(r)
  {
    PutAll([], ps)
  }

  /** A list whose keys are already unique converts to the same dict. */
  lemma {:induction false} FromPairsOfUnique<K(!new), V>(ps: seq<(K, V)>)
    requires UniqueKeys(ps)
    ensures FromPairs(ps) == ps
  {
    if ps != [] {
      var init, last := ps[..|ps| - 1], ps[|ps| - 1];
      assert UniqueKeys(init) by {
        forall i, j | 0 <= i < j < |init| ensures init[i].0 != init[j].0 {
          assert init[i] == ps[i] && init[j] == ps[j];
        }
      }
      FromPairsOfUnique(init);
      assert last.0 !in Keys(init) by {
        forall j | 0 <= j < |init| ensures Keys(init)[j] != last.0 {
          assert init[j] == ps[j];
        }
      }
      assert FromPairs(ps) == Put(FromPairs(init), last.0, last.1);
      assert init + [last] == ps;
    }
  }

  /** What `Get` returns is the value of an entry of the dict. */
  lemma GetIsEntry<K, V>(d: Dict<K, V>, k: K)
    requires Get(d, k).Some?
    ensures (k, Get(d, k).value) in d
  {
    var i := Find(d, k).value;
    assert d[i] == (k, Get(d, k).value);
  }

  /** An assignment adds or replaces one entry and leaves the others. */
  lemma PutEntries<K(!new), V>(d: Dict<K, V>, k: K, v: V, p: (K, V))
    requires p in Put(d, k, v)
    ensures p == (k, v) || p in d
  {
    match Find(d, k)
    case None =>
    case Some(i) =>
      var j :| 0 <= j < |d| && Put(d, k, v)[j] == p;
      if j != i {
        assert d[j] == p;
      }
  }
}
