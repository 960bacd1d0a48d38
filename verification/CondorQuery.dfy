/** The query classes of lib/condorMonitor.py as far as their own logic goes:
    the integrity and encryption settings, the refusal of a security object
    that holds saved state, the save/restore bracket around the condor command,
    the command line `fetch_using_exe` builds and the decoding and keying of its
    output, `load`, the `CondorQ`/`CondorStatus` completions of the format
    list, and the length check of `CondorQEdit.executeAll`.

    The condor command is the parameter `exe`; it sees the security settings in
    force while it runs. */
module CondorQuery {
  import opened Wrappers
  import opened OrderedDict
  import opened ClassAd
  import opened Xml2List
  import opened List2Dict
  import opened FormatList
  import opened ScheddCache

  // ----- The integrity and encryption levels -----

  const Required := "REQUIRED"
  const Optional := "OPTIONAL"

  /** `require_integrity` / `require_encryption`: None, True or False to the condor value. */
  function CondorVal(requested: Option<bool>): (v: Option<string>)
    ensures v.None? <==> requested.None?
    ensures v.Some? ==> (v.value == Required <==> requested.value) && (v.value == Optional <==> !requested.value)
  {
    match requested
    case None => None
    case Some(true) => Some(Required)
    case Some(false) => Some(Optional)
  }

  /** `get_requested_integrity` / `get_requested_encryption`: anything but REQUIRED reads as False. */
  function Requested(condorVal: Option<string>): (r: Option<bool>)
    ensures r.None? <==> condorVal.None?
    ensures r.Some? ==> (r.value <==> condorVal.value == Required)
  {
    match condorVal
    case None => None
    case Some(v) => Some(v == Required)
  }

  /** What is set is what is read back. */
  lemma RequestedRoundTrip(requested: Option<bool>)
    ensures Requested(CondorVal(requested)) == requested
  {
  }

  // ----- The security object -----

  type Settings = map<(string, string), string>

  /** The part of a security request object the query classes use: the settings per
      (context, feature), and a stack of saved settings. */
  class SecurityContext {
    var settings: Settings
    var saved: seq<Settings>

    constructor()
      ensures settings == map[] && saved == []
    {
      settings := map[];
      saved := [];
    }

    predicate HasSavedState()
      reads this
    {
      saved != []
    }

    function Get(context: string, feature: string): Option<string>
      reads this
    {
      if (context, feature) in settings then Some(settings[(context, feature)]) else None
    }

    /** `set(context, feature, value)`; None clears the setting. */
    method Set(context: string, feature: string, v: Option<string>)
      modifies this
      ensures saved == old(saved)
      ensures settings == if v.None? then old(settings) - {(context, feature)} else old(settings)[(context, feature) := v.value]
      ensures Get(context, feature) == v
    {
      if v.None? {
        settings := settings - {(context, feature)};
      } else {
        settings := settings[(context, feature) := v.value];
      }
    }

    method SaveState()
      modifies this
      ensures settings == old(settings) && saved == old(saved) + [old(settings)]
    {
      saved := saved + [settings];
    }

    method RestoreState()
      requires HasSavedState()
      modifies this
      ensures settings == old(saved[|saved| - 1]) && saved == old(saved[..|saved| - 1])
    {
      settings := saved[|saved| - 1];
      saved := saved[..|saved| - 1];
    }

    /** `copy.deepcopy(security_obj)`. */
    method Copy() returns (c: SecurityContext)
      ensures fresh(c) && c.settings == settings && c.saved == saved
    {
      c := new SecurityContext();
      c.settings := settings;
      c.saved := saved;
    }
  }

  // ----- The command line -----

  /** Why `fetch` raises. */
  datatype FetchError =
    | BadFormatType(attrType: string)   // a format type other than s, i, r, b: KeyError
    | ExeFailed(msg: string)            // the condor command failed
    | Decode(decodeError: DecodeError)       // xml2list raised
    | NoneClassAd                       // list2dict on a None element: TypeError
    | MissingKey(keyError: KeyError)       // list2dict raised

  /** The printf format for a format type. */
  function PrintfFormat(attrType: string): Option<string> {
    if attrType == "s" then Some("%s")
    else if attrType == "i" then Some("%i")
    else if attrType == "r" then Some("%f")
    else if attrType == "b" then Some("%i")
    else None
  }

  /** `-format "%x" "Name"` for each element, stopping at the first unknown type. */
  function FormatArgs(fl: seq<FormatEl>): Result<seq<string>, FetchError> {
    if fl == [] then Ok([])
    else
      match FormatArgs(fl[..|fl| - 1])
      case Err(e) => Err(e)
      case Ok(args) =>
        var (name, attrType) := fl[|fl| - 1];
        match PrintfFormat(attrType)
        case None => Err(BadFormatType(attrType))
        case Some(f) => Ok(args + ["-format \"" + f + "\" \"" + name + "\""])
  }

  /** The loop that builds `format_arr`. */
  method BuildFormatArgs(fl: seq<FormatEl>) returns (r: Result<seq<string>, FetchError>)
    ensures r == FormatArgs(fl)
  {
    var args: seq<string> := [];
    for i := 0 to |fl|
      invariant FormatArgs(fl[..i]) == Ok(args)
    {
      assert fl[..i + 1][..i] == fl[..i];
      var (name, attrType) := fl[i];
      var f := PrintfFormat(attrType);
      if f.None? {
        assert FormatArgs(fl[..i + 1]) == Err(BadFormatType(attrType));
        FormatErrorStops(fl, i + 1);
        return Err(BadFormatType(attrType));
      }
      args := args + ["-format \"" + f.value + "\" \"" + name + "\""];
    }
    assert fl[..|fl|] == fl;
    r := Ok(args);
  }

  lemma {:induction false} FormatErrorStops(fl: seq<FormatEl>, n: nat)
    requires n <= |fl| && FormatArgs(fl[..n]).Err?
    ensures FormatArgs(fl) == FormatArgs(fl[..n])
    decreases |fl|
  {
    if n < |fl| {
      assert fl[..|fl| - 1][..n] == fl[..n];
      FormatErrorStops(fl[..|fl| - 1], n);
    } else {
      assert fl[..n] == fl;
    }
  }

  /** Each known format type gives one argument, in order; only an unknown type fails. */
  lemma {:induction false} FormatArgsShape(fl: seq<FormatEl>)
    ensures FormatArgs(fl).Ok? <==> forall i :: 0 <= i < |fl| ==> PrintfFormat(fl[i].1).Some?
    ensures FormatArgs(fl).Ok? ==> |FormatArgs(fl).value| == |fl|
  {
    if fl != [] {
      var init := fl[..|fl| - 1];
      FormatArgsShape(init);
      if forall i :: 0 <= i < |fl| ==> PrintfFormat(fl[i].1).Some? {
        forall i | 0 <= i < |init| ensures PrintfFormat(init[i].1).Some? {
          assert init[i] == fl[i];
        }
      } else {
        var i :| 0 <= i < |fl| && PrintfFormat(fl[i].1).None?;
        if i < |init| {
          assert init[i] == fl[i];
        }
      }
    }
  }

  /** `" ".join(parts)`. */
  function Join(parts: seq<string>): string {
    if parts == [] then ""
    else if |parts| == 1 then parts[0]
    else parts[0] + " " + Join(parts[1..])
  }

  function ConstraintStr(constraint: Option<string>): string {
    match constraint
    case None => ""
    case Some(c) => "-constraint '" + c + "'"
  }

  function PoolStr(poolName: Option<string>): string {
    match poolName
    case None => ""
    case Some(p) => "-pool " + p
  }

  /** The arguments of the condor command: full XML without a format list, else the
      `-format` options first. */
  function CommandArgs(resourceStr: string, poolStr: string, constraint: Option<string>, formatList: Option<seq<FormatEl>>)
    : Result<string, FetchError>
  {
    match formatList
    case None => Ok(resourceStr + " -xml " + poolStr + " " + ConstraintStr(constraint))
    case Some(fl) =>
      match FormatArgs(fl)
      case Err(e) => Err(e)
      case Ok(args) => Ok(resourceStr + " " + Join(args) + " -xml " + poolStr + " " + ConstraintStr(constraint))
  }

  // ----- From decoded classads to the result dict -----

  /** Position of the first None, or the length. */
  function FirstNone(list: seq<Option<Record>>): (n: nat)
    ensures n <= |list|
    ensures forall i :: 0 <= i < n ==> list[i].Some?
    ensures n < |list| ==> list[n].None?
  {
    if list == [] then 0
    else if list[0].None? then 0
    else 1 + FirstNone(list[1..])
  }

  function Records(list: seq<Option<Record>>): (rs: seq<Record>)
    requires forall i :: 0 <= i < |list| ==> list[i].Some?
    ensures |rs| == |list| && forall i :: 0 <= i < |list| ==> Some(rs[i]) == list[i]
  {
    seq(|list|, i requires 0 <= i < |list| => list[i].value)
  }

  /** `list2dict` over the decoded list: it stops at the first classad without the key, or
      at the first None, whichever comes first. */
  function KeyedSpec(list: seq<Option<Record>>, attr: KeyAttr): Result<Dict<Key, Record>, FetchError> {
    var n := FirstNone(list);
    match List2DictSpec(Records(list[..n]), attr)
    case Err(e) => Err(MissingKey(e))
    case Ok(d) => if n < |list| then Err(NoneClassAd) else Ok(d)
  }

  method ListToDict(list: seq<Option<Record>>, attr: KeyAttr) returns (r: Result<Dict<Key, Record>, FetchError>)
    requires forall i :: 0 <= i < |list| && list[i].Some? ==> UniqueKeys(list[i].value)
    ensures r == KeyedSpec(list, attr)
  {
    var n := FirstNone(list);
    var recs := Records(list[..n]);
    assert forall i :: 0 <= i < |recs| ==> recs[i] == list[i].value;
    var d := List2Dict.List2Dict(recs, attr);
    if d.Err? {
      return Err(MissingKey(d.error));
    }
    if n < |list| {
      return Err(NoneClassAd);
    }
    r := Ok(d.value);
  }

  /** Keying by one attribute, in terms of the decoded list: success iff there is no None and
      every classad has the attribute; NoneClassAd iff a None comes before any classad without
      it; otherwise the KeyError of that attribute. */
  lemma {:induction false} KeyedBySingle(list: seq<Option<Record>>, n: string)
    ensures KeyedSpec(list, Single(n)).Ok? <==>
              forall i :: 0 <= i < |list| ==> list[i].Some? && HasKey(list[i].value, n)
    ensures KeyedSpec(list, Single(n)) == Err(NoneClassAd) <==>
              exists j :: 0 <= j < |list| && list[j].None?
                && forall i :: 0 <= i < j ==> list[i].Some? && HasKey(list[i].value, n)
    ensures KeyedSpec(list, Single(n)).Err? && KeyedSpec(list, Single(n)) != Err(NoneClassAd) ==>
              KeyedSpec(list, Single(n)) == Err(MissingKey(KeyError(n)))
  {
    var m := FirstNone(list);
    var recs := Records(list[..m]);
    assert forall i :: 0 <= i < m ==> recs[i] == list[i].value;
    SingleKeyFails(recs, n);
    SingleKeyError(recs, n);
    var prefixKeyed := forall i :: 0 <= i < m ==> HasKey(list[i].value, n);
    assert prefixKeyed <==> forall i :: 0 <= i < |recs| ==> HasKey(recs[i], n);
    if exists j :: 0 <= j < |list| && list[j].None? && forall i :: 0 <= i < j ==> list[i].Some? && HasKey(list[i].value, n) {
      var j :| 0 <= j < |list| && list[j].None? && forall i :: 0 <= i < j ==> list[i].Some? && HasKey(list[i].value, n);
      assert j == m;
    }
  }

  /** Keying by a tuple of attributes fails only on a None in the decoded list. */
  lemma KeyedBySeveral(list: seq<Option<Record>>, ns: seq<string>)
    ensures KeyedSpec(list, Several(ns)).Ok? <==> forall i :: 0 <= i < |list| ==> list[i].Some?
    ensures KeyedSpec(list, Several(ns)).Err? ==> KeyedSpec(list, Several(ns)) == Err(NoneClassAd)
  {
    SeveralKeysSucceed(Records(list[..FirstNone(list)]), ns);
  }

  /** A keyed result is `list2dict` of all the decoded classads. */
  lemma KeyedOk(list: seq<Option<Record>>, attr: KeyAttr)
    requires KeyedSpec(list, attr).Ok?
    ensures forall i :: 0 <= i < |list| ==> list[i].Some?
    ensures List2DictSpec(Records(list), attr) == Ok(KeyedSpec(list, attr).value)
  {
    assert list[..|list|] == list;
  }

  // ----- The query object -----

  /** Why a query object cannot be made. */
  datatype InitError = SavedState | Lookup(cause: EnvError)

  /** The condor command: executable, arguments, environment and the security settings in
      force, to the lines it prints or a failure. */
  type Exe = (string, string, Env, Settings) -> Result<seq<string>, string>

  class Query {
    const exeName: string
    const resourceStr: string
    const groupAttr: KeyAttr
    const poolName: Option<string>
    const poolStr: string
    const env: Env
    /** The elements `fetch` adds to a format list: ClusterId and ProcId for condor_q, Name
        for condor_status, none for the plain class. */
    const required: seq<FormatEl>
    const security: SecurityContext
    /** `stored_data`: the empty dict until the first successful `load`. */
    var storedData: Dict<Key, Record>

    constructor Init(exeName: string, resourceStr: string, groupAttr: KeyAttr, poolName: Option<string>,
                     security: SecurityContext, env: Env, required: seq<FormatEl>)
      ensures this.exeName == exeName && this.resourceStr == resourceStr && this.groupAttr == groupAttr
      ensures this.poolName == poolName && this.poolStr == PoolStr(poolName) && this.env == env
      ensures this.security == security && this.required == required && storedData == []
    {
      this.exeName := exeName;
      this.resourceStr := resourceStr;
      this.groupAttr := groupAttr;
      this.poolName := poolName;
      this.poolStr := PoolStr(poolName);
      this.env := env;
      this.security := security;
      this.required := required;
      storedData := [];
    }

    /** `CondorQuery.__init__`: a given security object with saved state is refused, any
        other is copied; without one the query gets fresh, empty settings. */
    static method New(exeName: string, resourceStr: string, groupAttr: KeyAttr, poolName: Option<string>,
                      securityObj: Option<SecurityContext>, env: Env, required: seq<FormatEl>)
      returns (r: Result<Query, InitError>)
      ensures r.Err? <==> securityObj.Some? && securityObj.value.HasSavedState()
      ensures r.Err? ==> r.error == SavedState
      ensures r.Ok? ==> fresh(r.value) && fresh(r.value.security)
      ensures r.Ok? ==> r.value.security.saved == []
                        && r.value.security.settings == if securityObj.Some? then securityObj.value.settings else map[]
      ensures r.Ok? ==> r.value.exeName == exeName && r.value.resourceStr == resourceStr && r.value.groupAttr == groupAttr
                        && r.value.poolStr == PoolStr(poolName) && r.value.env == env && r.value.required == required
                        && r.value.storedData == []
    {
      var sec: SecurityContext;
      if securityObj.Some? {
        if securityObj.value.HasSavedState() {
          return Err(SavedState);
        }
        sec := securityObj.value.Copy();
      } else {
        sec := new SecurityContext();
      }
      var q := new Query.Init(exeName, resourceStr, groupAttr, poolName, sec, env, required);
      r := Ok(q);
    }

    function GetRequestedIntegrity(): Option<bool>
      reads this, security
    {
      Requested(security.Get("CLIENT", "INTEGRITY"))
    }

    function GetRequestedEncryption(): Option<bool>
      reads this, security
    {
      Requested(security.Get("CLIENT", "ENCRYPTION"))
    }

    method RequireIntegrity(requested: Option<bool>)
      modifies security
      ensures security.settings == if requested.None? then old(security.settings) - {("CLIENT", "INTEGRITY")}
                                   else old(security.settings)[("CLIENT", "INTEGRITY") := CondorVal(requested).value]
      ensures security.saved == old(security.saved)
      ensures GetRequestedIntegrity() == requested
      ensures GetRequestedEncryption() == old(GetRequestedEncryption())
    {
      security.Set("CLIENT", "INTEGRITY", CondorVal(requested));
    }

    method RequireEncryption(requested: Option<bool>)
      modifies security
      ensures security.settings == if requested.None? then old(security.settings) - {("CLIENT", "ENCRYPTION")}
                                   else old(security.settings)[("CLIENT", "ENCRYPTION") := CondorVal(requested).value]
      ensures security.saved == old(security.saved)
      ensures GetRequestedEncryption() == requested
      ensures GetRequestedIntegrity() == old(GetRequestedIntegrity())
    {
      security.Set("CLIENT", "ENCRYPTION", CondorVal(requested));
    }

    /** What `fetch_using_exe` returns or raises when the command runs under `settings`. */
    function FetchSpec(constraint: Option<string>, formatList: Option<seq<FormatEl>>, exe: Exe,
                       expat: string -> ExpatOutput, settings: Settings): Result<Dict<Key, Record>, FetchError>
    {
      match CommandArgs(resourceStr, poolStr, constraint, formatList)
      case Err(e) => Err(e)
      case Ok(args) =>
        match exe(exeName, args, env, settings)
        case Err(msg) => Err(ExeFailed(msg))
        case Ok(lines) =>
          match Xml2ListSpec(lines, expat)
          case Err(e) => Err(Decode(e))
          case Ok(list) => KeyedSpec(list, groupAttr)
    }

    /** `fetch_using_exe`: the command runs between `save_state` and `restore_state`, so the
        security object is left as it was, whether or not the command fails. */
    method FetchUsingExe(constraint: Option<string>, formatList: Option<seq<FormatEl>>, exe: Exe,
                         expat: string -> ExpatOutput) returns (r: Result<Dict<Key, Record>, FetchError>)
      modifies security
      ensures security.settings == old(security.settings) && security.saved == old(security.saved)
      ensures r == FetchSpec(constraint, formatList, exe, expat, security.settings)
    {
      var args: Result<string, FetchError>;
      if formatList.None? {
        args := Ok(resourceStr + " -xml " + poolStr + " " + ConstraintStr(constraint));
      } else {
        var formatArr := BuildFormatArgs(formatList.value);
        if formatArr.Err? {
          return Err(formatArr.error);
        }
        args := Ok(resourceStr + " " + Join(formatArr.value) + " -xml " + poolStr + " " + ConstraintStr(constraint));
      }
      security.SaveState();
      var out := exe(exeName, args.value, env, security.settings);
      security.RestoreState();
      if out.Err? {
        return Err(ExeFailed(out.error));
      }
      var list := Xml2List.Xml2List(out.value, expat);
      if list.Err? {
        return Err(Decode(list.error));
      }
      DecodedNamesDistinct(out.value, expat);
      r := ListToDict(list.value, groupAttr);
    }

    /** The format list `fetch` passes on: completed with the required elements, if given. */
    function Completed(formatList: Option<seq<FormatEl>>): Option<seq<FormatEl>> {
      match formatList
      case None => None
      case Some(fl) => Some(fl + Missing(fl, required))
    }

    /** `fetch`, of `CondorQuery`, `CondorQ` or `CondorStatus` as `required` says. */
    method Fetch(constraint: Option<string>, formatList: Option<seq<FormatEl>>, exe: Exe,
                 expat: string -> ExpatOutput) returns (r: Result<Dict<Key, Record>, FetchError>)
      modifies security
      ensures security.settings == old(security.settings) && security.saved == old(security.saved)
      ensures r == FetchSpec(constraint, Completed(formatList), exe, expat, security.settings)
    {
      var fl := formatList;
      if formatList.Some? {
        var completed := CompleteFormatList(formatList.value, required);
        fl := Some(completed);
      }
      r := FetchUsingExe(constraint, fl, exe, expat);
    }

    /** `load`: the result is stored; on an error nothing is. */
    method Load(constraint: Option<string>, formatList: Option<seq<FormatEl>>, exe: Exe,
                expat: string -> ExpatOutput) returns (err: Option<FetchError>)
      modifies this, security
      ensures security.settings == old(security.settings) && security.saved == old(security.saved)
      ensures var r := FetchSpec(constraint, Completed(formatList), exe, expat, security.settings);
              (r.Ok? ==> err.None? && storedData == r.value)
              && (r.Err? ==> err == Some(r.error) && storedData == old(storedData))
    {
      var r := Fetch(constraint, formatList, exe, expat);
      if r.Err? {
        return Some(r.error);
      }
      storedData := r.value;
      err := None;
    }
  }

  /** The key attributes and the completion of `CondorQ`. */
  const JobKey := Several(["ClusterId", "ProcId"])
  const JobFormat: seq<FormatEl> := [("ClusterId", "i"), ("ProcId", "i")]

  /** `CondorQ(schedd_name, pool_name, security_obj, schedd_lookup_cache)`: the schedd option
      and environment come from the lookup cache, or from `NoneScheddCache` without one. */
  method NewCondorQ(scheddName: Option<string>, poolName: Option<string>, securityObj: Option<SecurityContext>,
                    lookup: Option<LocalScheddCache>) returns (r: Result<Query, InitError>)
    requires lookup.Some? ==> lookup.value.Valid()
    modifies if lookup.Some? then {lookup.value, lookup.value.disk} else {}
    ensures r.Ok? ==> fresh(r.value) && r.value.exeName == "condor_q" && r.value.groupAttr == JobKey
                      && r.value.required == JobFormat && r.value.poolStr == PoolStr(poolName)
                      && r.value.storedData == []
    // The security object is copied as `CondorQuery.__init__` does.
    ensures r.Ok? ==> r.value.security.saved == []
                      && r.value.security.settings == if securityObj.Some? then securityObj.value.settings else map[]
    ensures securityObj.Some? && securityObj.value.HasSavedState() ==> r.Err?
    ensures r == Err(SavedState) ==> securityObj.Some? && securityObj.value.HasSavedState()
    ensures lookup.None? ==> (r.Ok? <==> !(securityObj.Some? && securityObj.value.HasSavedState()))
    ensures lookup.None? && r.Ok? ==> (r.value.resourceStr, r.value.env) == NoneGetScheddId(scheddName, poolName)
    // With a lookup cache: the default schedd needs no option, a disabled cache gives the
    // `-name` option, and otherwise the pair is the one the cache holds for (schedd, pool).
    ensures lookup.Some? ==> lookup.value.Valid() && old(lookup.value.cache) <= lookup.value.cache
                             && lookup.value.enabled == old(lookup.value.enabled)
    ensures r.Ok? && scheddName.None? ==> (r.value.resourceStr, r.value.env) == ("", [])
    ensures r.Ok? && lookup.Some? && scheddName.Some? && !lookup.value.enabled ==>
              (r.value.resourceStr, r.value.env) == (CmdScheddStr(scheddName), [])
    ensures r.Ok? && lookup.Some? && scheddName.Some? && lookup.value.enabled ==>
              Get(lookup.value.cache, (scheddName.value, poolName)) == Some((r.value.resourceStr, r.value.env))
    // A lookup error is raised only by a first lookup, and is the error `iGetEnv` raised.
    ensures r.Err? && r.error.Lookup? ==>
              lookup.Some? && scheddName.Some? && old(lookup.value.enabled)
              && !HasKey(old(lookup.value.cache), (scheddName.value, poolName))
              && lookup.value.EnvSpec(old(lookup.value.Ads(scheddName.value, poolName)), scheddName.value) == Err(r.error.cause)
    ensures lookup.Some? && scheddName.Some? && old(lookup.value.enabled)
            && !HasKey(old(lookup.value.cache), (scheddName.value, poolName))
            && lookup.value.EnvSpec(old(lookup.value.Ads(scheddName.value, poolName)), scheddName.value).Err? ==>
              r == Err(Lookup(lookup.value.EnvSpec(old(lookup.value.Ads(scheddName.value, poolName)), scheddName.value).error))
  {
    var id: (string, Env);
    if lookup.None? {
      id := NoneGetScheddId(scheddName, poolName);
    } else {
      var found := lookup.value.GetScheddId(scheddName, poolName);
      if found.Err? {
        return Err(Lookup(found.error));
      }
      id := found.value;
    }
    r := Query.New("condor_q", id.0, JobKey, poolName, securityObj, id.1, JobFormat);
  }

  /** `CondorStatus(subsystem_name, pool_name, security_obj)`: keyed by Name. */
  method NewCondorStatus(subsystemName: Option<string>, poolName: Option<string>, securityObj: Option<SecurityContext>)
    returns (r: Result<Query, InitError>)
    ensures r.Ok? <==> !(securityObj.Some? && securityObj.value.HasSavedState())
    ensures r.Ok? ==> r.value.security.saved == []
                      && r.value.security.settings == if securityObj.Some? then securityObj.value.settings else map[]
    ensures r.Ok? ==> r.value.poolStr == PoolStr(poolName) && r.value.storedData == []
    ensures r.Ok? ==> fresh(r.value) && r.value.exeName == "condor_status" && r.value.groupAttr == Single("Name")
                      && r.value.required == [("Name", "s")] && r.value.env == []
                      && r.value.resourceStr == if subsystemName.None? then "" else "-" + subsystemName.value
  {
    var subsystemStr := if subsystemName.None? then "" else "-" + subsystemName.value;
    r := Query.New("condor_status", subsystemStr, Single("Name"), poolName, securityObj, [], [("Name", "s")]);
  }

  // ----- CondorQEdit.executeAll -----

  /** `x or []`. */
  function OrEmpty<T>(x: Option<seq<T>>): seq<T> {
    if x.None? then [] else x.value
  }

  /** `executeAll(joblist, attributes, values)`: one edit per position, in order, after the
      three lists are found to have the same length. */
  method ExecuteAll<J>(joblist: Option<seq<J>>, attributes: Option<seq<string>>, values: Option<seq<string>>)
    returns (r: Result<seq<(J, string, string)>, string>)
    ensures r.Ok? <==> |OrEmpty(joblist)| == |OrEmpty(attributes)| == |OrEmpty(values)|
    ensures r.Ok? ==> |r.value| == |OrEmpty(joblist)|
                      && forall i :: 0 <= i < |r.value| ==>
                           r.value[i] == (OrEmpty(joblist)[i], OrEmpty(attributes)[i], OrEmpty(values)[i])
  {
    var jobs, attrs, vals := OrEmpty(joblist), OrEmpty(attributes), OrEmpty(values);
    if !(|jobs| == |attrs| == |vals|) {
      return Err("Arguments to QEdit.executeAll should have the same length");
    }
    var edits: seq<(J, string, string)> := [];
    for i := 0 to |jobs|
      invariant |edits| == i
      invariant forall k :: 0 <= k < i ==> edits[k] == (jobs[k], attrs[k], vals[k])
    {
      edits := edits + [(jobs[i], attrs[i], vals[i])];
    }
    r := Ok(edits);
  }
}
