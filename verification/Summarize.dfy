/** The counting helpers of lib/condorMonitor.py: `fetch2count`, which counts
    the fetched classads by a hash value (a list hash nests the counters one
    dict per list element), and `addDict`, which adds one such nested count
    into another. */
module Summarize {
  import opened Wrappers
  import opened OrderedDict
  import opened Grouping

  /** What `hash_func` returns for a classad that is counted: one key, or a list of keys. */
  datatype HashValue<H> = Scalar(h: H) | Path(hs: seq<H>)

  /** A counter: a number, or a dict of further counters. */
  datatype Tally<H> = Count(n: nat) | Nested(d: Dict<H, Tally<H>>)

  /** The exceptions the counting code lets escape. */
  datatype CountError =
    | EmptyPath     // `hid[-1]` on an empty list hash: IndexError
    | NotADict      // `h in cel` where `cel` is a number: TypeError
    | NotANumber    // `cel[hid] + 1` or `+=` where the counter is a dict: TypeError

  function Sum(s: seq<nat>): nat {
    if s == [] then 0 else Sum(s[..|s| - 1]) + s[|s| - 1]
  }

  /** The sum of all the numbers in a counter. */
  function Total<H>(t: Tally<H>): nat {
    match t
    case Count(n) => n
    case Nested(d) => Sum(seq(|d|, i requires 0 <= i < |d| => Total(d[i].1)))
  }

  // ----- fetch2count -----

  /** One classad counted under `path` then `last`: the walk of `cel` down the list hash,
      creating the missing levels, and the increment at the end. */
  function Bump<H(==,!new)>(cel: Dict<H, Tally<H>>, path: seq<H>, last: H): Result<Dict<H, Tally<H>>, CountError>
    decreases |path|
  {
    if path == [] then Increment(cel, last)
    else
      var found: Option<Tally<H>> := Get(cel, path[0]);
      if found.Some? && found.value.Count? then Err(NotADict)
      else
        var sub := if found.Some? then found.value.d else [];
        match Bump(sub, path[1..], last)
        case Err(e) => Err(e)
        case Ok(sub') => Ok(Put(cel, path[0], Nested(sub')))
  }

  /** `cel[hid] = cel[hid] + 1`, or 1 for a new key. */
  function Increment<H(==,!new)>(cel: Dict<H, Tally<H>>, last: H): Result<Dict<H, Tally<H>>, CountError> {
    var found: Option<Tally<H>> := Get(cel, last);
    match found
    case None => Ok(Put(cel, last, Count(1)))
    case Some(Count(n)) => Ok(Put(cel, last, Count(n + 1)))
    case Some(Nested(_)) => Err(NotANumber)
  }

  /** One classad's hash value added to the counts. */
  function CountOne<H(==,!new)>(count: Dict<H, Tally<H>>, hv: HashValue<H>): Result<Dict<H, Tally<H>>, CountError> {
    match hv
    case Scalar(h) => Bump(count, [], h)
    case Path(hs) => if hs == [] then Err(EmptyPath) else Bump(count, hs[..|hs| - 1], hs[|hs| - 1])
  }

  /** What `fetch2count` returns or raises. */
  function CountSpec<K, R, H(==,!new)>(data: Dict<K, R>, hashf: R -> Option<HashValue<H>>): Result<Dict<H, Tally<H>>, CountError> {
    if data == [] then Ok([])
    else
      match CountSpec(data[..|data| - 1], hashf)
      case Err(e) => Err(e)
      case Ok(count) =>
        match hashf(data[|data| - 1].1)
        case None => Ok(count)
        case Some(hv) => CountOne(count, hv)
  }

  /** `fetch2count(data, hash_func)`. */
  method Fetch2Count<K, R, H(==,!new)>(data: Dict<K, R>, hashf: R -> Option<HashValue<H>>)
    returns (r: Result<Dict<H, Tally<H>>, CountError>)
    ensures r == CountSpec(data, hashf)
  {
    var count: Dict<H, Tally<H>> := [];
    for i := 0 to |data|
      invariant CountSpec(data[..i], hashf) == Ok(count)
    {
      assert data[..i + 1][..i] == data[..i];
      var hid := hashf(data[i].1);
      if hid.None? {
        // An element hashed to None is not counted.
        continue;
      }
      var next := CountOne(count, hid.value);
      if next.Err? {
        CountErrorStops(data, hashf, i + 1);
        return next;
      }
      count := next.value;
    }
    assert data[..|data|] == data;
    r := Ok(count);
  }

  lemma {:induction false} CountErrorStops<K, R, H(!new)>(data: Dict<K, R>, hashf: R -> Option<HashValue<H>>, n: nat)
    requires n <= |data| && CountSpec(data[..n], hashf).Err?
    ensures CountSpec(data, hashf) == CountSpec(data[..n], hashf)
    decreases |data|
  {
    if n < |data| {
      assert data[..|data| - 1][..n] == data[..n];
      CountErrorStops(data[..|data| - 1], hashf, n);
    } else {
      assert data[..n] == data;
    }
  }

  // ----- What the counts hold -----

  lemma {:induction false} SumSnoc(s: seq<nat>, x: nat)
    ensures Sum(s + [x]) == Sum(s) + x
  {
    assert (s + [x])[..|s|] == s;
  }

  lemma {:induction false} SumUpdate(s: seq<nat>, i: nat, x: nat)
    requires i < |s|
    ensures Sum(s[i := x]) == Sum(s) - s[i] + x
  {
    var n := |s| - 1;
    if i < n {
      assert s[i := x][..n] == s[..n][i := x];
      SumUpdate(s[..n], i, x);
    } else {
      assert s[i := x][..n] == s[..n];
    }
  }

  /** Replacing or adding one counter changes the total by the difference. */
  lemma PutTotal<H(!new)>(d: Dict<H, Tally<H>>, k: H, v: Tally<H>)
    ensures Total(Nested(Put(d, k, v))) as int
            == Total(Nested(d)) - (match Get(d, k) case Some(t) => Total(t) case None => 0) + Total(v)
  {
    var s := seq(|d|, i requires 0 <= i < |d| => Total(d[i].1));
    var r := Put(d, k, v);
    var s' := seq(|r|, i requires 0 <= i < |r| => Total(r[i].1));
    match Find(d, k)
    case None =>
      assert s' == s + [Total(v)];
      SumSnoc(s, Total(v));
    case Some(i) =>
      assert s' == s[i := Total(v)];
      SumUpdate(s, i, Total(v));
  }

  /** Each successful increment adds exactly one to the total. */
  lemma {:induction false} BumpTotal<H(!new)>(cel: Dict<H, Tally<H>>, path: seq<H>, last: H)
    requires Bump(cel, path, last).Ok?
    ensures Total(Nested(Bump(cel, path, last).value)) == Total(Nested(cel)) + 1
    decreases |path|
  {
    if path == [] {
      var found: Option<Tally<H>> := Get(cel, last);
      var next := if found.None? then Count(1) else Count(found.value.n + 1);
      assert Bump(cel, path, last) == Ok(Put(cel, last, next));
      PutTotal(cel, last, next);
    } else {
      var found := Get(cel, path[0]);
      var sub := if found.Some? then found.value.d else [];
      BumpTotal(sub, path[1..], last);
      var sub' := Bump(sub, path[1..], last).value;
      PutTotal(cel, path[0], Nested(sub'));
      assert found.Some? ==> Total(found.value) == Total(Nested(sub));
    }
  }

  /** The predicate "this classad is counted". */
  function Hashed<R, H>(hashf: R -> Option<HashValue<H>>): R -> bool {
    v => hashf(v).Some?
  }

  /** Classads whose hash is None make no difference to the counts. */
  lemma {:induction false} UnhashedIgnored<K, R, H(!new)>(data: Dict<K, R>, hashf: R -> Option<HashValue<H>>)
    ensures CountSpec(data, hashf) == CountSpec(Filter(data, Hashed(hashf)), hashf)
  {
    if data != [] {
      var init, last := data[..|data| - 1], data[|data| - 1];
      UnhashedIgnored(init, hashf);
      var fi := Filter(init, Hashed(hashf));
      if hashf(last.1).Some? {
        var fd := fi + [last];
        assert Filter(data, Hashed(hashf)) == fd;
        assert fd[..|fd| - 1] == fi && fd[|fd| - 1] == last;
      } else {
        assert Filter(data, Hashed(hashf)) == fi + [];
        assert fi + [] == fi;
      }
    }
  }

  /** On success the counters add up to the number of classads with a hash. */
  lemma {:induction false} CountTotal<K, R, H(!new)>(data: Dict<K, R>, hashf: R -> Option<HashValue<H>>)
    requires CountSpec(data, hashf).Ok?
    ensures Total(Nested(CountSpec(data, hashf).value)) == |Filter(data, Hashed(hashf))|
  {
    if data != [] {
      var init, last := data[..|data| - 1], data[|data| - 1];
      CountTotal(init, hashf);
      var count := CountSpec(init, hashf).value;
      match hashf(last.1) {
        case None =>
          assert Filter(data, Hashed(hashf)) == Filter(init, Hashed(hashf)) + [];
        case Some(hv) =>
          assert Filter(data, Hashed(hashf)) == Filter(init, Hashed(hashf)) + [last];
          match hv {
            case Scalar(h) => BumpTotal(count, [], h);
            case Path(hs) => BumpTotal(count, hs[..|hs| - 1], hs[|hs| - 1]);
          }
      }
    } else {
      var empty: Dict<H, Tally<H>> := [];
      assert Total(Nested(empty)) == Sum([]);
    }
  }

  /** How many classads hash to the single key `h`. */
  function ScalarCount<K, R, H(==)>(data: Dict<K, R>, hashf: R -> Option<HashValue<H>>, h: H): nat {
    if data == [] then 0
    else ScalarCount(data[..|data| - 1], hashf, h) + if hashf(data[|data| - 1].1) == Some(Scalar(h)) then 1 else 0
  }

  /** With single-key hashes only, the result is flat and counts each key's classads. */
  lemma {:induction false} ScalarCounts<K, R, H(!new)>(data: Dict<K, R>, hashf: R -> Option<HashValue<H>>, h: H)
    requires forall i :: 0 <= i < |data| ==> hashf(data[i].1).None? || hashf(data[i].1).value.Scalar?
    ensures CountSpec(data, hashf).Ok?
    ensures Get(CountSpec(data, hashf).value, h)
            == if ScalarCount(data, hashf, h) == 0 then None else Some(Count(ScalarCount(data, hashf, h)))
  {
    if data != [] {
      var init, last := data[..|data| - 1], data[|data| - 1];
      assert forall i :: 0 <= i < |init| ==> init[i] == data[i];
      ScalarCounts(init, hashf, h);
      var count := CountSpec(init, hashf).value;
      var hid := hashf(last.1);
      if hid.None? {
        assert CountSpec(data, hashf) == Ok(count);
        assert ScalarCount(data, hashf, h) == ScalarCount(init, hashf, h);
      } else {
        var x := hid.value.h;
        ScalarCounts(init, hashf, x);
        ScalarBump(count, x, ScalarCount(init, hashf, x), h);
        assert CountSpec(data, hashf) == Bump(count, [], x);
        assert ScalarCount(data, hashf, h) == ScalarCount(init, hashf, h) + if h == x then 1 else 0;
      }
    }
  }

  lemma ScalarBump<H(!new)>(count: Dict<H, Tally<H>>, x: H, c: nat, h: H)
    requires Get(count, x) == if c == 0 then None else Some(Count(c))
    ensures Bump(count, [], x) == Ok(Put(count, x, Count(c + 1)))
    ensures Get(Bump(count, [], x).value, h) == if h == x then Some(Count(c + 1)) else Get(count, h)
  {
    assert Increment(count, x) == Ok(Put(count, x, Count(c + 1)));
  }

  /** The counts of a single classad with list hash [h1, ..., hn]: {h1: {h2: ... {hn: 1}}}. */
  function Chain<H>(hs: seq<H>): Dict<H, Tally<H>>
    requires hs != []
  {
    if |hs| == 1 then [(hs[0], Count(1))] else [(hs[0], Nested(Chain(hs[1..])))]
  }

  lemma {:induction false} BumpFresh<H(!new)>(path: seq<H>, last: H)
    ensures Bump([], path, last) == Ok(Chain(path + [last]))
  {
    var empty: Dict<H, Tally<H>> := [];
    if path == [] {
      assert path + [last] == [last];
      var x := (last, Count(1));
      assert Get(empty, last) == None;
      assert Put(empty, last, Count(1)) == empty + [x];
      assert empty + [x] == [x];
    } else {
      assert (path + [last])[1..] == path[1..] + [last];
      assert (path + [last])[0] == path[0] && |path + [last]| > 1;
      BumpFresh(path[1..], last);
      assert Get(empty, path[0]) == None;
      var x := (path[0], Nested(Chain(path[1..] + [last])));
      assert Put(empty, path[0], x.1) == empty + [x];
      assert empty + [x] == [x];
    }
  }

  /** A list hash nests one dict per list element before the last, whose counter is 1. */
  lemma PathNesting<K, R, H(!new)>(k: K, v: R, hashf: R -> Option<HashValue<H>>, hs: seq<H>)
    requires hashf(v) == Some(Path(hs)) && hs != []
    ensures CountSpec([(k, v)], hashf) == Ok(Chain(hs))
  {
    var d := [(k, v)];
    assert d[..0] == [] && d[0] == (k, v);
    assert CountSpec(d[..0], hashf) == Ok([]);
    assert CountSpec(d, hashf) == CountOne([], Path(hs));
    BumpFresh(hs[..|hs| - 1], hs[|hs| - 1]);
    assert hs[..|hs| - 1] + [hs[|hs| - 1]] == hs;
  }

  /** A list hash that is empty makes the whole count fail. */
  lemma EmptyPathFails<K, R, H(!new)>(data: Dict<K, R>, hashf: R -> Option<HashValue<H>>, i: nat)
    requires i < |data| && hashf(data[i].1) == Some(Path([]))
    requires CountSpec(data[..i], hashf).Ok?
    ensures CountSpec(data, hashf) == Err(EmptyPath)
  {
    assert data[..i + 1][..i] == data[..i];
    assert data[..i + 1][i] == data[i];
    CountErrorStops(data, hashf, i + 1);
  }

  // ----- Uniform nesting -----

  /** Every counter sits exactly `depth` dicts below this one. */
  ghost predicate Shaped<H>(d: Dict<H, Tally<H>>, depth: nat)
    decreases depth, 1
  {
    forall i :: 0 <= i < |d| ==> TallyShaped(d[i].1, depth)
  }

  ghost predicate TallyShaped<H>(t: Tally<H>, depth: nat)
    decreases depth, 0
  {
    match t
    case Count(_) => depth == 0
    case Nested(sub) => depth > 0 && Shaped(sub, depth - 1)
  }

  lemma PutShaped<H(!new)>(d: Dict<H, Tally<H>>, k: H, v: Tally<H>, depth: nat)
    requires Shaped(d, depth) && TallyShaped(v, depth)
    ensures Shaped(Put(d, k, v), depth)
  {
    var r := Put(d, k, v);
    forall i | 0 <= i < |r| ensures TallyShaped(r[i].1, depth) {
      PutEntries(d, k, v, r[i]);
    }
  }

  /** Counting a hash whose length matches the nesting depth never fails and keeps the shape. */
  lemma {:induction false} BumpShaped<H(!new)>(cel: Dict<H, Tally<H>>, path: seq<H>, last: H)
    requires Shaped(cel, |path|)
    ensures Bump(cel, path, last).Ok? && Shaped(Bump(cel, path, last).value, |path|)
    decreases |path|
  {
    if path == [] {
      if Get(cel, last).Some? {
        GetIsEntry(cel, last);
      }
      var found: Option<Tally<H>> := Get(cel, last);
      var next := if found.None? then Count(1) else Count(found.value.n + 1);
      assert Bump(cel, path, last) == Ok(Put(cel, last, next));
      PutShaped(cel, last, next, 0);
    } else {
      var found := Get(cel, path[0]);
      if found.Some? {
        GetIsEntry(cel, path[0]);
        assert TallyShaped(found.value, |path|);
      }
      var sub := if found.Some? then found.value.d else [];
      assert Shaped(sub, |path[1..]|);
      BumpShaped(sub, path[1..], last);
      var sub' := Bump(sub, path[1..], last).value;
      PutShaped(cel, path[0], Nested(sub'), |path|);
    }
  }

  /** The hash of every counted classad has `depth + 1` keys (one key when `depth` is 0). */
  ghost predicate UniformHashes<K, R, H>(data: Dict<K, R>, hashf: R -> Option<HashValue<H>>, depth: nat) {
    forall i :: 0 <= i < |data| ==>
      match hashf(data[i].1)
      case None => true
      case Some(Scalar(_)) => depth == 0
      case Some(Path(hs)) => |hs| == depth + 1
  }

  /** Hashes of one length never make `fetch2count` fail, and every counter ends up at that depth. */
  lemma {:induction false} UniformCountsSucceed<K, R, H(!new)>(data: Dict<K, R>, hashf: R -> Option<HashValue<H>>, depth: nat)
    requires UniformHashes(data, hashf, depth)
    ensures CountSpec(data, hashf).Ok? && Shaped(CountSpec(data, hashf).value, depth)
  {
    if data != [] {
      var init, last := data[..|data| - 1], data[|data| - 1];
      assert UniformHashes(init, hashf, depth) by {
        forall i | 0 <= i < |init| ensures init[i] == data[i] { }
      }
      UniformCountsSucceed(init, hashf, depth);
      var count := CountSpec(init, hashf).value;
      assert hashf(data[|data| - 1].1) == hashf(last.1);
      match hashf(last.1) {
        case None =>
        case Some(Scalar(h)) => BumpShaped(count, [], h);
        case Some(Path(hs)) => BumpShaped(count, hs[..|hs| - 1], hs[|hs| - 1]);
      }
    }
  }

  // ----- addDict -----

  /** The first `n` keys of `added` added into `base`, in order. */
  function AddFrom<H(==,!new)>(base: Dict<H, Tally<H>>, added: Dict<H, Tally<H>>, n: nat): Result<Dict<H, Tally<H>>, CountError>
    requires n <= |added|
    decreases Nested(added), 0, n
  {
    if n == 0 then Ok(base)
    else
      match AddFrom(base, added, n - 1)
      case Err(e) => Err(e)
      case Ok(b) => AddEntry(b, added[n - 1].0, added[n - 1].1)
  }

  /** One key of `new_dict` added into `b`: copied when absent, otherwise the two counters merged. */
  function AddEntry<H(==,!new)>(b: Dict<H, Tally<H>>, k: H, newEl: Tally<H>): Result<Dict<H, Tally<H>>, CountError>
    decreases newEl, 2
  {
    match Get(b, k)
    case None => Ok(Put(b, k, newEl))
    case Some(baseEl) =>
      match Merge(baseEl, newEl)
      case Err(e) => Err(e)
      case Ok(t) => Ok(Put(b, k, t))
  }

  /** Two counters under the same key: dicts are added key by key, numbers are summed, and an
      empty dict added to a number leaves it alone. */
  function Merge<H(==,!new)>(baseEl: Tally<H>, newEl: Tally<H>): Result<Tally<H>, CountError>
    decreases newEl, 1
  {
    match newEl
    case Nested(nd) =>
      (match baseEl
       case Nested(bd) =>
         (match AddFrom(bd, nd, |nd|)
          case Err(e) => Err(e)
          case Ok(merged) => Ok(Nested(merged)))
       case Count(_) => if nd == [] then Ok(baseEl) else Err(NotADict))
    case Count(n) =>
      match baseEl
      case Count(m) => Ok(Count(m + n))
      case Nested(_) => Err(NotANumber)
  }

  /** What `addDict(base_dict, new_dict)` leaves in `base_dict`, or raises. */
  function AddDictSpec<H(==,!new)>(base: Dict<H, Tally<H>>, added: Dict<H, Tally<H>>): Result<Dict<H, Tally<H>>, CountError> {
    AddFrom(base, added, |added|)
  }

  /** `addDict(base_dict, new_dict)`, returning the new value of `base_dict`. */
  method AddDict<H(==,!new)>(base: Dict<H, Tally<H>>, added: Dict<H, Tally<H>>) returns (r: Result<Dict<H, Tally<H>>, CountError>)
    ensures r == AddDictSpec(base, added)
    decreases Nested(added), 0
  {
    var b := base;
    for i := 0 to |added|
      invariant AddFrom(base, added, i) == Ok(b)
    {
      var step := AddKey(b, added[i].0, added[i].1);
      if step.Err? {
        AddErrorStops(base, added, i + 1);
        return step;
      }
      b := step.value;
    }
    r := Ok(b);
  }

  /** The body of the loop of `addDict` for one key of `new_dict`. */
  method AddKey<H(==,!new)>(b: Dict<H, Tally<H>>, k: H, newEl: Tally<H>) returns (step: Result<Dict<H, Tally<H>>, CountError>)
    ensures step == AddEntry(b, k, newEl)
    decreases newEl, 2
  {
    if !HasKey(b, k) {
      // A key the base lacks takes the new value as it is.
      return Ok(Put(b, k, newEl));
    }
    var baseEl := Get(b, k).value;
    var merged := MergeInPlace(baseEl, newEl);
    if merged.Err? {
      return Err(merged.error);
    }
    step := Ok(Put(b, k, merged.value));
  }

  /** `addDict(base_dict[k], new_el)` or `base_dict[k] += new_el`. */
  method MergeInPlace<H(==,!new)>(baseEl: Tally<H>, newEl: Tally<H>) returns (r: Result<Tally<H>, CountError>)
    ensures r == Merge(baseEl, newEl)
    decreases newEl, 1
  {
    match newEl {
      case Nested(nd) =>
        match baseEl {
          case Nested(bd) =>
            // another dictionary, recurse
            var merged := AddDict(bd, nd);
            r := if merged.Err? then Err(merged.error) else Ok(Nested(merged.value));
          case Count(_) =>
            r := if nd == [] then Ok(baseEl) else Err(NotADict);
        }
      case Count(n) =>
        match baseEl {
          case Count(m) => r := Ok(Count(m + n));
          case Nested(_) => r := Err(NotANumber);
        }
    }
  }

  lemma {:induction false} AddErrorStops<H(!new)>(base: Dict<H, Tally<H>>, added: Dict<H, Tally<H>>, n: nat)
    requires n <= |added| && AddFrom(base, added, n).Err?
    ensures AddFrom(base, added, |added|) == AddFrom(base, added, n)
    decreases |added| - n
  {
    if n < |added| {
      AddErrorStops(base, added, n + 1);
    }
  }

  /** The totals of the first `n` counters of `added`. */
  function PrefixTotal<H>(added: Dict<H, Tally<H>>, n: nat): nat
    requires n <= |added|
  {
    Sum(seq(n, i requires 0 <= i < n => Total(added[i].1)))
  }

  lemma PrefixTotalStep<H>(added: Dict<H, Tally<H>>, n: nat)
    requires 0 < n <= |added|
    ensures PrefixTotal(added, n) == PrefixTotal(added, n - 1) + Total(added[n - 1].1)
  {
    var s := seq(n, i requires 0 <= i < n => Total(added[i].1));
    assert s[..n - 1] == seq(n - 1, i requires 0 <= i < n - 1 => Total(added[i].1));
  }

  /** Adding counts adds their totals. */
  lemma {:induction false} AddFromTotal<H(!new)>(base: Dict<H, Tally<H>>, added: Dict<H, Tally<H>>, n: nat)
    requires n <= |added| && AddFrom(base, added, n).Ok?
    ensures Total(Nested(AddFrom(base, added, n).value)) == Total(Nested(base)) + PrefixTotal(added, n)
    decreases Nested(added), 0, n
  {
    if n > 0 {
      AddFromTotal(base, added, n - 1);
      PrefixTotalStep(added, n);
      AddEntryTotal(AddFrom(base, added, n - 1).value, added[n - 1].0, added[n - 1].1);
    } else {
      assert PrefixTotal(added, 0) == Sum([]);
    }
  }

  lemma {:induction false} AddEntryTotal<H(!new)>(b: Dict<H, Tally<H>>, k: H, newEl: Tally<H>)
    requires AddEntry(b, k, newEl).Ok?
    ensures Total(Nested(AddEntry(b, k, newEl).value)) == Total(Nested(b)) + Total(newEl)
    decreases newEl, 2
  {
    match Get(b, k) {
      case None => PutTotal(b, k, newEl);
      case Some(baseEl) =>
        MergeTotal(baseEl, newEl);
        PutTotal(b, k, Merge(baseEl, newEl).value);
    }
  }

  lemma {:induction false} MergeTotal<H(!new)>(baseEl: Tally<H>, newEl: Tally<H>)
    requires Merge(baseEl, newEl).Ok?
    ensures Total(Merge(baseEl, newEl).value) == Total(baseEl) + Total(newEl)
    decreases newEl, 1
  {
    match newEl {
      case Nested(nd) =>
        match baseEl {
          case Nested(bd) =>
            AddFromTotal(bd, nd, |nd|);
            assert PrefixTotal(nd, |nd|) == Total(newEl);
          case Count(_) =>
            assert Total(newEl) == Sum([]);
        }
      case Count(n) =>
    }
  }

  /** The grand total of `addDict` is the sum of the two grand totals. */
  lemma AddDictTotal<H(!new)>(base: Dict<H, Tally<H>>, added: Dict<H, Tally<H>>)
    requires AddDictSpec(base, added).Ok?
    ensures Total(Nested(AddDictSpec(base, added).value)) == Total(Nested(base)) + Total(Nested(added))
  {
    AddFromTotal(base, added, |added|);
  }

  /** After `addDict` the base has exactly its old keys and the keys of `new_dict`. */
  lemma {:induction false} AddFromKeys<H(!new)>(base: Dict<H, Tally<H>>, added: Dict<H, Tally<H>>, n: nat, k: H)
    requires n <= |added| && AddFrom(base, added, n).Ok?
    ensures HasKey(AddFrom(base, added, n).value, k) <==> HasKey(base, k) || exists i :: 0 <= i < n && added[i].0 == k
  {
    if n > 0 {
      AddFromKeys(base, added, n - 1, k);
      var b := AddFrom(base, added, n - 1).value;
      AddEntryKeys(b, added[n - 1].0, added[n - 1].1, k);
      assert AddFrom(base, added, n).value == AddEntry(b, added[n - 1].0, added[n - 1].1).value;
    }
  }

  lemma AddEntryKeys<H(!new)>(b: Dict<H, Tally<H>>, k: H, newEl: Tally<H>, k': H)
    requires AddEntry(b, k, newEl).Ok?
    ensures HasKey(AddEntry(b, k, newEl).value, k') <==> HasKey(b, k') || k' == k
  {
    var b' := AddEntry(b, k, newEl).value;
    if k' != k {
      assert Get(b', k') == Get(b, k');
    } else {
      assert Get(b', k).Some?;
    }
  }

  /** Counts of the same nesting depth always add, and the sum keeps that depth. */
  lemma {:induction false} AddFromShaped<H(!new)>(base: Dict<H, Tally<H>>, added: Dict<H, Tally<H>>, n: nat, depth: nat)
    requires n <= |added| && Shaped(base, depth) && Shaped(added, depth)
    ensures AddFrom(base, added, n).Ok? && Shaped(AddFrom(base, added, n).value, depth)
    decreases Nested(added), 0, n
  {
    if n > 0 {
      AddFromShaped(base, added, n - 1, depth);
      AddEntryShaped(AddFrom(base, added, n - 1).value, added[n - 1].0, added[n - 1].1, depth);
    }
  }

  lemma {:induction false} AddEntryShaped<H(!new)>(b: Dict<H, Tally<H>>, k: H, newEl: Tally<H>, depth: nat)
    requires Shaped(b, depth) && TallyShaped(newEl, depth)
    ensures AddEntry(b, k, newEl).Ok? && Shaped(AddEntry(b, k, newEl).value, depth)
    decreases newEl, 2
  {
    match Get(b, k) {
      case None => PutShaped(b, k, newEl, depth);
      case Some(baseEl) =>
        GetIsEntry(b, k);
        MergeShaped(baseEl, newEl, depth);
        PutShaped(b, k, Merge(baseEl, newEl).value, depth);
    }
  }

  lemma {:induction false} MergeShaped<H(!new)>(baseEl: Tally<H>, newEl: Tally<H>, depth: nat)
    requires TallyShaped(baseEl, depth) && TallyShaped(newEl, depth)
    ensures Merge(baseEl, newEl).Ok? && TallyShaped(Merge(baseEl, newEl).value, depth)
    decreases newEl, 1
  {
    if newEl.Nested? {
      AddFromShaped(baseEl.d, newEl.d, |newEl.d|, depth - 1);
    }
  }
}
