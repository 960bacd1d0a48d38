/** `list2dict` of lib/condorMonitor.py without the HTCondor bindings: the
    decoded classads become a dict whose key is the value of one attribute, or
    the tuple of the values of several, and whose value is the classad without
    the key attributes. */
module List2Dict {
  import opened Wrappers
  import opened OrderedDict
  import opened ClassAd

  /** `attr_name`: one attribute name, or a list or tuple of names. */
  datatype KeyAttr = Single(name: string) | Several(names: seq<string>)

  /** `list_el[attr_name]` on a classad without that attribute. */
  datatype KeyError = KeyError(name: string)

  /** `attr_list`: the names left out of every value. */
  function AttrList(attr: KeyAttr): seq<string> {
    match attr
    case Single(n) => [n]
    case Several(ns) => ns
  }

  function LowerChar(c: char): char {
    if 'A' <= c <= 'Z' then (c as int + 32) as char else c
  }

  /** `str.lower()` on ASCII letters. */
  function Lower(s: string): (r: string)
    ensures |r| == |s|
  {
    seq(|s|, i requires 0 <= i < |s| => LowerChar(s[i]))
  }

  /** Position of the first attribute, in classad order, whose name equals `an` ignoring case. */
  function FoldedMatch(r: Record, an: string): (res: Option<nat>)
    ensures res.Some? ==> res.value < |r| && Lower(r[res.value].0) == Lower(an)
    ensures res.Some? ==> forall j :: 0 <= j < res.value ==> Lower(r[j].0) != Lower(an)
    ensures res.None? ==> forall j :: 0 <= j < |r| ==> Lower(r[j].0) != Lower(an)
  {
    if r == [] then None
    else if Lower(r[0].0) == Lower(an) then Some(0)
    else match FoldedMatch(r[1..], an)
      case None => None
      case Some(j) => Some(j + 1)
  }

  /** The value contributed by `an` to a tuple key: exact name first, then any spelling. */
  function Component(r: Record, an: string): Option<Value> {
    match Get(r, an)
    case Some(v) => Some(v)
    case None =>
      match FoldedMatch(r, an)
      case Some(j) => Some(r[j].1)
      case None => None
  }

  /** The tuple key; a name matching no attribute contributes nothing, so the tuple gets shorter. */
  function TupleKey(r: Record, names: seq<string>): seq<Value> {
    if names == [] then []
    else
      TupleKey(r, names[..|names| - 1])
      + match Component(r, names[|names| - 1]) case Some(v) => [v] case None => []
  }

  function KeyOf(r: Record, attr: KeyAttr): Result<Key, KeyError> {
    match attr
    case Single(n) =>
      (match Get(r, n)
       case Some(v) => Ok(One(v))
       case None => Err(KeyError(n)))
    case Several(ns) => Ok(Tuple(TupleKey(r, ns)))
  }

  /** `dict_el`: the attributes whose name is not, exactly, one of the key names. */
  function Body(r: Record, attrList: seq<string>): Record {
    if r == [] then []
    else Body(r[..|r| - 1], attrList) + if r[|r| - 1].0 in attrList then [] else [r[|r| - 1]]
  }

  /** What `list2dict` returns or raises; the last classad with a given key wins. */
  function List2DictSpec(list: seq<Record>, attr: KeyAttr): Result<Dict<Key, Record>, KeyError> {
    if list == [] then Ok([])
    else
      match List2DictSpec(list[..|list| - 1], attr)
      case Err(e) => Err(e)
      case Ok(d) =>
        match KeyOf(list[|list| - 1], attr)
        case Err(e) => Err(e)
        case Ok(k) => Ok(Put(d, k, Body(list[|list| - 1], AttrList(attr))))
  }

  /** `dict_name`: the key of one classad. */
  method KeyOfClassAd(el: Record, attr: KeyAttr) returns (r: Result<Key, KeyError>)
    ensures r == KeyOf(el, attr)
  {
    match attr {
      case Several(names) =>
        var parts: seq<Value> := [];
        for j := 0 to |names|
          invariant parts == TupleKey(el, names[..j])
        {
          assert names[..j + 1][..j] == names[..j];
          var an := names[j];
          if HasKey(el, an) {
            parts := parts + [Get(el, an).value];
          } else {
            var folded := LowerCaseLookup(el, an);
            if folded.Some? {
              parts := parts + [folded.value];
            }
          }
        }
        assert names[..|names|] == names;
        r := Ok(Tuple(parts));
      case Single(n) =>
        if !HasKey(el, n) {
          return Err(KeyError(n));
        }
        r := Ok(One(Get(el, n).value));
    }
  }

  /** The scan for a differently spelt key name: the first attribute whose name matches ignoring case. */
  method LowerCaseLookup(el: Record, an: string) returns (found: Option<Value>)
    ensures found.Some? <==> FoldedMatch(el, an).Some?
    ensures found.Some? ==> found.value == el[FoldedMatch(el, an).value].1
  {
    found := None;
    var m := 0;
    while m < |el|
      invariant 0 <= m <= |el|
      invariant forall m' :: 0 <= m' < m ==> Lower(el[m'].0) != Lower(an)
    {
      if Lower(an) == Lower(el[m].0) {
        assert FoldedMatch(el, an) == Some(m);
        return Some(el[m].1);
      }
      m := m + 1;
    }
  }

  /** `dict_el`: copies the classad attribute by attribute, skipping the key names. */
  method StripKeys(el: Record, attrList: seq<string>) returns (body: Record)
    requires UniqueKeys(el)
    ensures body == Body(el, attrList)
  {
    body := [];
    for j := 0 to |el|
      invariant body == Body(el[..j], attrList)
      invariant forall p :: p in body ==> p in el[..j]
    {
      assert el[..j + 1][..j] == el[..j];
      if el[j].0 !in attrList {
        forall q | 0 <= q < |body|
          ensures body[q].0 != el[j].0
        {
          assert body[q] in el[..j];
          var m :| 0 <= m < j && el[m] == body[q];
        }
        body := Put(body, el[j].0, el[j].1);
      }
    }
    assert el[..|el|] == el;
  }

  /** `list2dict(list_data, attr_name)`; each classad has unique attribute names, as a dict does. */
  method List2Dict(list: seq<Record>, attr: KeyAttr) returns (r: Result<Dict<Key, Record>, KeyError>)
    requires forall i :: 0 <= i < |list| ==> UniqueKeys(list[i])
    ensures r == List2DictSpec(list, attr)
  {
    var attrList := AttrList(attr);
    var d: Dict<Key, Record> := [];
    for i := 0 to |list|
      invariant List2DictSpec(list[..i], attr) == Ok(d)
    {
      assert list[..i + 1][..i] == list[..i];
      var name := KeyOfClassAd(list[i], attr);
      if name.Err? {
        assert List2DictSpec(list[..i + 1], attr) == Err(name.error);
        ErrorStops(list, attr, i + 1);
        return Err(name.error);
      }
      var body := StripKeys(list[i], attrList);
      assert List2DictSpec(list[..i + 1], attr) == Ok(Put(d, name.value, body));
      d := Put(d, name.value, body);
    }
    assert list[..|list|] == list;
    r := Ok(d);
  }

  /** The first classad without its key stops the whole conversion. */
  lemma {:induction false} ErrorStops(list: seq<Record>, attr: KeyAttr, n: nat)
    requires n <= |list| && List2DictSpec(list[..n], attr).Err?
    ensures List2DictSpec(list, attr) == List2DictSpec(list[..n], attr)
    decreases |list|
  {
    if n < |list| {
      var init := list[..|list| - 1];
      assert init[..n] == list[..n];
      ErrorStops(init, attr, n);
    } else {
      assert list[..n] == list;
    }
  }

  // ----- What the dict holds -----

  /** The value kept for a classad: exactly its attributes not named in the key list. */
  lemma {:induction false} BodyMembers(r: Record, attrList: seq<string>, p: (string, Value))
    ensures p in Body(r, attrList) <==> p in r && p.0 !in attrList
  {
    if r != [] {
      BodyMembers(r[..|r| - 1], attrList, p);
      assert r == r[..|r| - 1] + [r[|r| - 1]];
    }
  }

  /** One more classad succeeds exactly when the earlier ones did and it has a key. */
  lemma SpecOkSnoc(list: seq<Record>, attr: KeyAttr)
    requires list != []
    ensures List2DictSpec(list, attr).Ok?
        <==> List2DictSpec(list[..|list| - 1], attr).Ok? && KeyOf(list[|list| - 1], attr).Ok?
  {
  }

  /** With a single key attribute the call succeeds exactly when every classad has that attribute. */
  lemma {:induction false} SingleKeyFails(list: seq<Record>, n: string)
    ensures List2DictSpec(list, Single(n)).Ok? <==> forall i :: 0 <= i < |list| ==> HasKey(list[i], n)
  {
    if list != [] {
      var init, last := list[..|list| - 1], list[|list| - 1];
      SingleKeyFails(init, n);
      SpecOkSnoc(list, Single(n));
      assert KeyOf(last, Single(n)).Ok? <==> HasKey(last, n);
      if forall i :: 0 <= i < |list| ==> HasKey(list[i], n) {
        forall i | 0 <= i < |init| ensures HasKey(init[i], n) {
          assert init[i] == list[i];
        }
      } else {
        var i :| 0 <= i < |list| && !HasKey(list[i], n);
        if i < |init| {
          assert init[i] == list[i];
        }
      }
    }
  }

  /** With a single key attribute, the only error is the KeyError of that attribute. */
  lemma {:induction false} SingleKeyError(list: seq<Record>, n: string)
    ensures List2DictSpec(list, Single(n)).Err? ==> List2DictSpec(list, Single(n)).error == KeyError(n)
  {
    if list != [] {
      SingleKeyError(list[..|list| - 1], n);
    }
  }

  /** With several key attributes the call never fails. */
  lemma {:induction false} SeveralKeysSucceed(list: seq<Record>, ns: seq<string>)
    ensures List2DictSpec(list, Several(ns)).Ok?
  {
    if list != [] {
      SeveralKeysSucceed(list[..|list| - 1], ns);
    }
  }

  predicate ProducesKey(list: seq<Record>, attr: KeyAttr, k: Key) {
    exists i :: 0 <= i < |list| && KeyOf(list[i], attr) == Ok(k)
  }

  lemma ProducesKeySnoc(list: seq<Record>, attr: KeyAttr, k: Key)
    requires list != []
    ensures ProducesKey(list, attr, k)
        <==> ProducesKey(list[..|list| - 1], attr, k) || KeyOf(list[|list| - 1], attr) == Ok(k)
  {
    var init := list[..|list| - 1];
    if ProducesKey(list, attr, k) {
      var i :| 0 <= i < |list| && KeyOf(list[i], attr) == Ok(k);
      if i < |init| {
        assert init[i] == list[i];
      }
    }
    if ProducesKey(init, attr, k) {
      var i :| 0 <= i < |init| && KeyOf(init[i], attr) == Ok(k);
      assert list[i] == init[i];
    }
  }

  /** One entry per distinct key, and no key that no classad produced. */
  lemma {:induction false} List2DictKeys(list: seq<Record>, attr: KeyAttr, k: Key)
    requires List2DictSpec(list, attr).Ok?
    ensures UniqueKeys(List2DictSpec(list, attr).value)
    ensures HasKey(List2DictSpec(list, attr).value, k) <==> ProducesKey(list, attr, k)
  {
    if list != [] {
      var init, last := list[..|list| - 1], list[|list| - 1];
      List2DictKeys(init, attr, k);
      ProducesKeySnoc(list, attr, k);
      var d := List2DictSpec(init, attr).value;
      var k' := KeyOf(last, attr).value;
      var d' := Put(d, k', Body(last, AttrList(attr)));
      assert List2DictSpec(list, attr).value == d';
      if k != k' {
        assert Get(d', k) == Get(d, k);
      }
    }
  }

  /** The value under a key is the body of the LAST classad that produced that key. */
  lemma {:induction false} LastWins(list: seq<Record>, attr: KeyAttr, i: nat)
    requires List2DictSpec(list, attr).Ok?
    requires i < |list| && KeyOf(list[i], attr).Ok?
    requires forall j :: i < j < |list| ==> KeyOf(list[j], attr) != KeyOf(list[i], attr)
    ensures Get(List2DictSpec(list, attr).value, KeyOf(list[i], attr).value) == Some(Body(list[i], AttrList(attr)))
  {
    var init := list[..|list| - 1];
    if i < |list| - 1 {
      assert forall j :: 0 <= j < |init| ==> init[j] == list[j];
      LastWins(init, attr, i);
    }
  }

  /** A tuple key has at most one value per name, and exactly the attribute values, in name
      order, when every name is present with its exact spelling. */
  lemma {:induction false} TupleKeyExact(r: Record, ns: seq<string>)
    ensures |TupleKey(r, ns)| <= |ns|
    ensures (forall j :: 0 <= j < |ns| ==> HasKey(r, ns[j])) ==>
              |TupleKey(r, ns)| == |ns| && forall j :: 0 <= j < |ns| ==> Some(TupleKey(r, ns)[j]) == Get(r, ns[j])
  {
    if ns != [] {
      var init := ns[..|ns| - 1];
      TupleKeyExact(r, init);
      assert forall j :: 0 <= j < |init| ==> init[j] == ns[j];
    }
  }

  /** A key attribute is dropped from the value only under its exact spelling. */
  lemma KeyNamesRemoved(r: Record, attr: KeyAttr, n: string)
    requires n in AttrList(attr)
    ensures !HasKey(Body(r, AttrList(attr)), n)
  {
    var body := Body(r, AttrList(attr));
    if HasKey(body, n) {
      var p := body[Find(body, n).value];
      BodyMembers(r, AttrList(attr), p);
    }
  }
}
