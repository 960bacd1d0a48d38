/** The dict-to-dict operations of lib/condorMonitor.py that run on fetched
    data: `applyConstraint`, which keeps the values a predicate accepts, and
    `doGroup` / `doNestedGroup`, which partition a dict by a key computed from
    each value. The caller's functions are total and side-effect free here. */
module Grouping {
  import opened Wrappers
  import opened OrderedDict

  // ----- applyConstraint -----

  /** The entries whose value satisfies `f`, in their original order. */
  function Filter<K, V>(d: Dict<K, V>, f: V -> bool): (r: Dict<K, V>)
    ensures |r| <= |d|
  {
    if d == [] then []
    else Filter(d[..|d| - 1], f) + if f(d[|d| - 1].1) then [d[|d| - 1]] else []
  }

  function ConstraintSpec<K, V>(d: Dict<K, V>, constraint: Option<V -> bool>): Dict<K, V> {
    match constraint
    case None => d
    case Some(f) => Filter(d, f)
  }

  /** `applyConstraint(data, constraint_func)`. */
  method ApplyConstraint<K(==,!new), V>(data: Dict<K, V>, constraint: Option<V -> bool>) returns (out: Dict<K, V>)
    requires UniqueKeys(data)
    ensures out == ConstraintSpec(data, constraint)
  {
    if constraint.None? {
      return data;
    }
    var f := constraint.value;
    out := [];
    for i := 0 to |data|
      invariant out == Filter(data[..i], f)
      invariant forall p :: p in out ==> p in data[..i]
    {
      assert data[..i + 1][..i] == data[..i];
      var (key, val) := data[i];
      if f(val) {
        forall q | 0 <= q < |out|
          ensures out[q].0 != key
        {
          assert out[q] in data[..i];
          var m :| 0 <= m < i && data[m] == out[q];
        }
        out := Put(out, key, val);
      }
    }
    assert data[..|data|] == data;
  }

  /** An entry is kept exactly when it was in the data and its value satisfies the constraint. */
  lemma {:induction false} FilterMembers<K, V>(d: Dict<K, V>, f: V -> bool, p: (K, V))
    ensures p in Filter(d, f) <==> p in d && f(p.1)
  {
    if d != [] {
      FilterMembers(d[..|d| - 1], f, p);
      assert d == d[..|d| - 1] + [d[|d| - 1]];
    }
  }

  /** Constraining twice by the same constraint is constraining once. */
  lemma {:induction false} ConstraintIdempotent<K, V>(d: Dict<K, V>, constraint: Option<V -> bool>)
    ensures ConstraintSpec(ConstraintSpec(d, constraint), constraint) == ConstraintSpec(d, constraint)
  {
    if constraint.Some? {
      FilterIdempotent(d, constraint.value);
    }
  }

  lemma {:induction false} FilterIdempotent<K, V>(d: Dict<K, V>, f: V -> bool)
    ensures Filter(Filter(d, f), f) == Filter(d, f)
  {
    if d != [] {
      var init, last := d[..|d| - 1], d[|d| - 1];
      FilterIdempotent(init, f);
      var r := Filter(init, f);
      if f(last.1) {
        var r' := r + [last];
        assert r'[..|r'| - 1] == r && r'[|r'| - 1] == last;
        assert Filter(d, f) == r';
        assert Filter(r', f) == Filter(r, f) + [last];
        assert Filter(r, f) == r;
      } else {
        assert Filter(d, f) == r + [];
        assert r + [] == r;
      }
    }
  }

  // ----- doGroup and doNestedGroup -----

  /** What `doGroup` collects about an entry: its value. */
  function ValueOf<K, V>(k: K, v: V): V {
    v
  }

  /** What `doNestedGroup` collects about an entry: the pair itself. */
  function EntryOf<K, V>(k: K, v: V): (K, V) {
    (k, v)
  }

  /** `gdata`: the groups in order of first appearance, each listing what `elem`
      makes of its entries in data order. */
  function Groups<K, V, G(==,!new), X>(d: Dict<K, V>, keyf: V -> G, elem: (K, V) -> X): Dict<G, seq<X>> {
    if d == [] then []
    else
      var g := Groups(d[..|d| - 1], keyf, elem);
      var (k, v) := d[|d| - 1];
      match Get(g, keyf(v))
      case None => Put(g, keyf(v), [elem(k, v)])
      case Some(xs) => Put(g, keyf(v), xs + [elem(k, v)])
  }

  /** What `elem` makes of the entries whose group key is `x`, in data order. */
  function Members<K, V, G(==), X>(d: Dict<K, V>, keyf: V -> G, elem: (K, V) -> X, x: G): seq<X> {
    if d == [] then []
    else
      Members(d[..|d| - 1], keyf, elem, x)
      + if keyf(d[|d| - 1].1) == x then [elem(d[|d| - 1].0, d[|d| - 1].1)] else []
  }

  /** Applies `f` to every value, keeping the keys and their order. */
  function MapValues<G, A, B>(d: Dict<G, A>, f: A -> B): (r: Dict<G, B>)
    ensures |r| == |d|
    ensures forall i :: 0 <= i < |d| ==> r[i] == (d[i].0, f(d[i].1))
  {
    seq(|d|, i requires 0 <= i < |d| => (d[i].0, f(d[i].1)))
  }

  /** Mapping the values keeps every key, and its position: the summary of `x` is under `x`. */
  lemma {:induction false} MapValuesGet<G, A, B>(d: Dict<G, A>, f: A -> B, x: G)
    ensures Get(MapValues(d, f), x) == if Get(d, x).None? then None else Some(f(Get(d, x).value))
  {
    MapValuesFind(d, f, x);
  }

  lemma {:induction false} MapValuesFind<G, A, B>(d: Dict<G, A>, f: A -> B, x: G)
    ensures Find(MapValues(d, f), x) == Find(d, x)
  {
    if d != [] {
      assert MapValues(d, f)[1..] == MapValues(d[1..], f);
      MapValuesFind(d[1..], f, x);
    }
  }

  /** The first loop of `doGroup` and of `doNestedGroup`. */
  method CollectGroups<K, V, G(==,!new), X>(indata: Dict<K, V>, keyf: V -> G, elem: (K, V) -> X)
    returns (gdata: Dict<G, seq<X>>)
    ensures gdata == Groups(indata, keyf, elem)
  {
    gdata := [];
    for i := 0 to |indata|
      invariant gdata == Groups(indata[..i], keyf, elem)
    {
      assert indata[..i + 1][..i] == indata[..i];
      var (k, inel) := indata[i];
      var gkey := keyf(inel);
      if HasKey(gdata, gkey) {
        gdata := Put(gdata, gkey, Get(gdata, gkey).value + [elem(k, inel)]);
      } else {
        gdata := Put(gdata, gkey, [elem(k, inel)]);
      }
    }
    assert indata[..|indata|] == indata;
  }

  /** The second loop: each group summarised by `f`, groups in the same order. */
  method SummariseGroups<G(==,!new), X, S>(gdata: Dict<G, seq<X>>, f: seq<X> -> S) returns (outdata: Dict<G, S>)
    requires UniqueKeys(gdata)
    ensures outdata == MapValues(gdata, f)
  {
    outdata := [];
    for i := 0 to |gdata|
      invariant outdata == MapValues(gdata[..i], f)
    {
      forall j | 0 <= j < |outdata| ensures outdata[j].0 != gdata[i].0 {
        assert outdata[j].0 == gdata[j].0;
      }
      outdata := Put(outdata, gdata[i].0, f(gdata[i].1));
    }
    assert gdata[..|gdata|] == gdata;
  }

  /** `doGroup(indata, group_key_func, group_data_func)`. */
  method DoGroup<K, V, G(==,!new), S>(indata: Dict<K, V>, keyf: V -> G, dataf: seq<V> -> S) returns (outdata: Dict<G, S>)
    ensures outdata == MapValues(Groups(indata, keyf, ValueOf), dataf)
  {
    var gdata := CollectGroups(indata, keyf, ValueOf);
    GroupsShape(indata, keyf, ValueOf);
    outdata := SummariseGroups(gdata, dataf);
  }

  /** `dict(group)` for a group with distinct keys is the group itself. */
  function GroupDict<K(==,!new), V>(group: seq<(K, V)>): Dict<K, V> {
    FromPairs(group)
  }

  /** `doNestedGroup(indata, group_key_func, group_element_func)`; without an element function
      each group becomes `dict` of its (key, value) pairs. */
  method DoNestedGroup<K(==,!new), V, G(==,!new)>(indata: Dict<K, V>, keyf: V -> G, elemf: Option<seq<(K, V)> -> Dict<K, V>>)
    returns (outdata: Dict<G, Dict<K, V>>)
    ensures outdata == MapValues(Groups(indata, keyf, EntryOf), if elemf.Some? then elemf.value else GroupDict)
  {
    var gdata := CollectGroups(indata, keyf, EntryOf);
    GroupsShape(indata, keyf, EntryOf);
    if elemf.Some? {
      outdata := SummariseGroups(gdata, elemf.value);
    } else {
      outdata := SummariseGroups(gdata, GroupDict);
    }
  }

  // ----- What the groups hold -----

  /** Every group key comes from some value, every value's key names a group, and each group
      lists exactly the entries with that key, in data order. */
  lemma {:induction false} GroupsShape<K, V, G(!new), X>(d: Dict<K, V>, keyf: V -> G, elem: (K, V) -> X)
    ensures UniqueKeys(Groups(d, keyf, elem))
    ensures forall x :: Get(Groups(d, keyf, elem), x)
                        == if Members(d, keyf, elem, x) == [] then None else Some(Members(d, keyf, elem, x))
  {
    if d != [] {
      var init := d[..|d| - 1];
      GroupsShape(init, keyf, elem);
      var g := Groups(init, keyf, elem);
      var (k, v) := d[|d| - 1];
      forall x
        ensures Get(Groups(d, keyf, elem), x)
                == if Members(d, keyf, elem, x) == [] then None else Some(Members(d, keyf, elem, x))
      {
        if x == keyf(v) {
          var m := Members(init, keyf, elem, x);
          assert Members(d, keyf, elem, x) == m + [elem(k, v)];
          if m == [] {
            assert Get(g, x) == None;
            assert m + [elem(k, v)] == [elem(k, v)];
          } else {
            assert Get(g, x) == Some(m);
          }
        } else {
          assert Members(d, keyf, elem, x) == Members(init, keyf, elem, x);
        }
      }
    }
  }

  /** Something is collected under `x` exactly when some entry's value has group key `x`. */
  lemma {:induction false} MembersNonEmpty<K, V, G, X>(d: Dict<K, V>, keyf: V -> G, elem: (K, V) -> X, x: G)
    ensures Members(d, keyf, elem, x) != [] <==> exists i :: 0 <= i < |d| && keyf(d[i].1) == x
  {
    if d != [] {
      var init := d[..|d| - 1];
      MembersNonEmpty(init, keyf, elem, x);
      assert forall i :: 0 <= i < |init| ==> init[i] == d[i];
      if exists i :: 0 <= i < |d| && keyf(d[i].1) == x {
        var i :| 0 <= i < |d| && keyf(d[i].1) == x;
        if i < |init| {
          assert keyf(init[i].1) == x;
        }
      }
    }
  }

  /** A nested group holds exactly the entries of the data whose value has that group key:
      the groups are disjoint and together hold every entry, unchanged. */
  lemma {:induction false} NestedMembers<K, V, G>(d: Dict<K, V>, keyf: V -> G, x: G, p: (K, V))
    ensures p in Members(d, keyf, EntryOf, x) <==> p in d && keyf(p.1) == x
  {
    if d != [] {
      NestedMembers(d[..|d| - 1], keyf, x, p);
      assert d == d[..|d| - 1] + [d[|d| - 1]];
    }
  }

  /** A nested group is a subsequence of the data, so its keys are distinct when the data's are. */
  lemma {:induction false} NestedMembersUnique<K, V, G>(d: Dict<K, V>, keyf: V -> G, x: G)
    requires UniqueKeys(d)
    ensures UniqueKeys(Members(d, keyf, EntryOf, x))
  {
    if d != [] {
      var init, last := d[..|d| - 1], d[|d| - 1];
      NestedMembersUnique(init, keyf, x);
      var m := Members(init, keyf, EntryOf, x);
      if keyf(last.1) == x {
        forall q | 0 <= q < |m|
          ensures m[q].0 != last.0
        {
          NestedMembers(init, keyf, x, m[q]);
          var j :| 0 <= j < |init| && init[j] == m[q];
          assert d[j] == m[q];
        }
        assert Members(d, keyf, EntryOf, x) == m + [EntryOf(last.0, last.1)];
      }
    }
  }

  /** Without an element function, each nested group is the sub-dict of the data with that
      group key, in data order. */
  lemma NestedGroupVerbatim<K(!new), V, G(!new)>(d: Dict<K, V>, keyf: V -> G, x: G)
    requires UniqueKeys(d)
    ensures Get(MapValues(Groups(d, keyf, EntryOf), GroupDict), x)
            == if Members(d, keyf, EntryOf, x) == [] then None else Some(Members(d, keyf, EntryOf, x))
  {
    GroupsShape(d, keyf, EntryOf);
    MapValuesGet(Groups(d, keyf, EntryOf), GroupDict, x);
    NestedMembersUnique(d, keyf, x);
    FromPairsOfUnique(Members(d, keyf, EntryOf, x));
  }

  /** With `doGroup`, the summary under `x` is `group_data_func` of the values with group key `x`. */
  lemma DoGroupGet<K, V, G(!new), S>(d: Dict<K, V>, keyf: V -> G, dataf: seq<V> -> S, x: G)
    ensures Get(MapValues(Groups(d, keyf, ValueOf), dataf), x)
            == if Members(d, keyf, ValueOf, x) == [] then None else Some(dataf(Members(d, keyf, ValueOf, x)))
  {
    GroupsShape(d, keyf, ValueOf);
    MapValuesGet(Groups(d, keyf, ValueOf), dataf, x);
  }
}
