/** The format lists of lib/condorMonitor.py: `complete_format_list`, which adds
    the attributes a query needs for its keys, and the two helpers that turn a
    constraint and a format list into what the HTCondor bindings take. */
module FormatList {
  import opened Wrappers
  import opened OrderedDict

  /** `(attr_name, attr_type)`, the type being "s", "i", "r" or "b". A format list is a
      sequence of these pairs, so its attribute names are its `Keys`. */
  type FormatEl = (string, string)

  /** The required elements whose name the input list does not have, in required order.
      The input is what is searched, so two required elements with the same absent name
      are both kept. */
  function Missing(inList: seq<FormatEl>, req: seq<FormatEl>): seq<FormatEl> {
    if req == [] then []
    else Missing(inList, req[..|req| - 1]) + if req[|req| - 1].0 in Keys(inList) then [] else [req[|req| - 1]]
  }

  /** The scan of the input list for one required name. */
  method HasName(inList: seq<FormatEl>, name: string) returns (found: bool)
    ensures found <==> name in Keys(inList)
  {
    found := false;
    for j := 0 to |inList|
      invariant !found
      invariant forall j' :: 0 <= j' < j ==> inList[j'].0 != name
    {
      if inList[j].0 == name {
        assert Keys(inList)[j] == name;
        found := true;
        break;
      }
    }
    if !found {
      forall k | 0 <= k < |inList| ensures Keys(inList)[k] != name {
      }
    }
  }

  /** `complete_format_list(in_format_list, req_format_els)`. */
  method CompleteFormatList(inList: seq<FormatEl>, req: seq<FormatEl>) returns (out: seq<FormatEl>)
    ensures out == inList + Missing(inList, req)
  {
    out := inList;
    for i := 0 to |req|
      invariant out == inList + Missing(inList, req[..i])
    {
      assert req[..i + 1][..i] == req[..i];
      var found := HasName(inList, req[i].0);
      if !found {
        out := out + [req[i]];
      }
    }
    assert req[..|req|] == req;
  }

  /** What the completed list adds: exactly the required elements with a name the input lacks. */
  lemma {:induction false} MissingMembers(inList: seq<FormatEl>, req: seq<FormatEl>, e: FormatEl)
    ensures e in Missing(inList, req) <==> e in req && e.0 !in Keys(inList)
  {
    if req != [] {
      var init := req[..|req| - 1];
      MissingMembers(inList, init, e);
      assert req == init + [req[|req| - 1]];
    }
  }

  /** When the input has none of the required names, all required elements are appended, in order. */
  lemma {:induction false} AllMissing(inList: seq<FormatEl>, req: seq<FormatEl>)
    requires forall i :: 0 <= i < |req| ==> req[i].0 !in Keys(inList)
    ensures Missing(inList, req) == req
  {
    if req != [] {
      var init := req[..|req| - 1];
      assert forall i :: 0 <= i < |init| ==> init[i] == req[i];
      AllMissing(inList, init);
      assert init + [req[|req| - 1]] == req;
    }
  }

  /** When the input already has every required name, the list comes back unchanged. */
  lemma {:induction false} NoneMissing(inList: seq<FormatEl>, req: seq<FormatEl>)
    requires forall i :: 0 <= i < |req| ==> req[i].0 in Keys(inList)
    ensures inList + Missing(inList, req) == inList
  {
    if req != [] {
      var init := req[..|req| - 1];
      assert forall i :: 0 <= i < |init| ==> init[i] == req[i];
      NoneMissing(inList, init);
      assert Missing(inList, req) == Missing(inList, init) + [];
    }
    assert inList + [] == inList;
  }

  /** Every required name is in the completed list, and a name the input already had is not
      added again. */
  lemma CompletedNames(inList: seq<FormatEl>, req: seq<FormatEl>, n: string)
    ensures (exists e :: e in req && e.0 == n) ==> n in Keys(inList + Missing(inList, req))
    ensures n in Keys(inList) ==> forall e :: e in Missing(inList, req) ==> e.0 != n
  {
    var out := inList + Missing(inList, req);
    if exists e :: e in req && e.0 == n {
      var e :| e in req && e.0 == n;
      if n in Keys(inList) {
        var j :| 0 <= j < |inList| && Keys(inList)[j] == n;
        assert Keys(out)[j] == n;
      } else {
        MissingMembers(inList, req, e);
        var j :| 0 <= j < |Missing(inList, req)| && Missing(inList, req)[j] == e;
        assert Keys(out)[|inList| + j] == n;
      }
    }
    forall e | e in Missing(inList, req)
      ensures e.0 != n || n !in Keys(inList)
    {
      MissingMembers(inList, req, e);
    }
  }

  /** The constraint handed to the bindings: no constraint means "true". */
  datatype BindingsConstraint = AlwaysTrue | Expr(text: string)

  /** `bindings_friendly_constraint(constraint)`. */
  function BindingsFriendlyConstraint(constraint: Option<string>): (r: BindingsConstraint)
    ensures constraint.None? <==> r == AlwaysTrue
    ensures constraint.Some? ==> r == Expr(constraint.value)
  {
    match constraint
    case None => AlwaysTrue
    case Some(c) => Expr(c)
  }

  /** `bindings_friendly_attrs(format_list)`: the attribute names, or none. */
  function BindingsFriendlyAttrs(formatList: Option<seq<FormatEl>>): (attrs: seq<string>)
    ensures formatList.None? ==> attrs == []
    ensures formatList.Some? ==> |attrs| == |formatList.value|
                                 && forall i :: 0 <= i < |attrs| ==> attrs[i] == formatList.value[i].0
  {
    match formatList
    case None => []
    case Some(fl) => Keys(fl)
  }

  /** The names the bindings get from a completed format list include every required name,
      and keep the caller's names first and in order. */
  lemma CompletedAttrs(inList: seq<FormatEl>, req: seq<FormatEl>, n: string)
    ensures (exists e :: e in req && e.0 == n) ==> n in BindingsFriendlyAttrs(Some(inList + Missing(inList, req)))
    ensures BindingsFriendlyAttrs(Some(inList + Missing(inList, req)))[..|inList|] == BindingsFriendlyAttrs(Some(inList))
  {
    CompletedNames(inList, req, n);
  }
}
