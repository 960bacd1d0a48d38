/** The schedd lookup of lib/condorMonitor.py: `NoneScheddCache`, which always
    names the schedd on the command line, and `LocalScheddCache`, which
    remembers, per (schedd, pool), whether the schedd is better reached through
    its spool directory on this host. The host's addresses, the "is a directory"
    test, the condor_status query and the disk store are given from outside. */
module ScheddCache {
  import opened Wrappers
  import opened OrderedDict

  /** Environment variables handed to the condor commands. */
  type Env = Dict<string, string>

  /** What the schedd query returns: schedd Name to its attributes, all fetched as strings. */
  type StatusData = Dict<string, Dict<string, string>>

  const SpoolAttr := "SPOOL_DIR_STRING"
  const LocalAttr := "LOCAL_DIR_STRING"
  const IpAttr := "ScheddIpAddr"
  const SpoolVar := "_CONDOR_SPOOL"

  /** `iGetCmdScheddStr(schedd_name)`: the `-name` option, or nothing for the default schedd. */
  function CmdScheddStr(scheddName: Option<string>): (s: string)
    ensures scheddName.None? <==> s == ""
    ensures scheddName.Some? ==> s == "-name " + scheddName.value + " "
  {
    match scheddName
    case None => ""
    case Some(n) => "-name " + n + " "
  }

  /** `NoneScheddCache.getScheddId`: always the option, never an environment. */
  function NoneGetScheddId(scheddName: Option<string>, poolName: Option<string>): (r: (string, Env))
    ensures r.1 == []
    ensures scheddName.Some? ==> r.0 == "-name " + scheddName.value + " "
    ensures scheddName.None? ==> r.0 == ""
  {
    (CmdScheddStr(scheddName), [])
  }

  /** The text before the first `c`, or all of `s`: `s.split(c)[0]`. */
  function Before(s: string, c: char): (r: string)
    ensures |r| <= |s| && r == s[..|r|]
    ensures c !in r
    ensures |r| < |s| ==> s[|r|] == c
  {
    if s == [] || s[0] == c then [] else [s[0]] + Before(s[1..], c)
  }

  /** `addr[1:].split(":")[0]`: the host part of a sinful string such as `<1.2.3.4:9618?...>`. */
  function IpOf(addr: string): string {
    Before(if addr == [] then [] else addr[1..], ':')
  }

  /** Why `iGetEnv` raises. */
  datatype EnvError =
    | QueryFailed(msg: string)     // the schedd query itself failed
    | ScheddNotFound(name: string)
    | NoScheddIpAddr(name: string)

  /** The decision of `iGetEnv` once the schedd ads are known. */
  function EnvFromStatus(data: StatusData, name: string, myIps: seq<string>, isDir: string -> bool)
    : (r: Result<Option<Env>, EnvError>)
    ensures r == Err(ScheddNotFound(name)) <==> !HasKey(data, name)
    ensures r == Err(NoScheddIpAddr(name)) <==>
              HasKey(data, name)
              && var el := Get(data, name).value;
                 (HasKey(el, SpoolAttr) || HasKey(el, LocalAttr)) && !HasKey(el, IpAttr)
    ensures r.Err? ==> r.error.ScheddNotFound? || r.error.NoScheddIpAddr?
  {
    if !HasKey(data, name) then Err(ScheddNotFound(name))
    else
      var el := Get(data, name).value;
      if !HasKey(el, SpoolAttr) && !HasKey(el, LocalAttr) then Ok(None)
      else if !HasKey(el, IpAttr) then Err(NoScheddIpAddr(name))
      else if IpOf(Get(el, IpAttr).value) !in myIps then Ok(None)
      else
        var lDir := if HasKey(el, SpoolAttr) then Get(el, SpoolAttr).value else Get(el, LocalAttr).value;
        if !isDir(lDir) then Ok(None)
        else if HasKey(el, SpoolAttr) then Ok(Some([(SpoolVar, lDir)]))
        else if isDir(lDir + "/spool") then Ok(Some([(SpoolVar, lDir + "/spool")]))
        else Ok(None)
  }

  /** A schedd the query did not return is an error, whatever else holds. */
  lemma AbsentScheddFails(data: StatusData, name: string, myIps: seq<string>, isDir: string -> bool)
    requires !HasKey(data, name)
    ensures EnvFromStatus(data, name, myIps, isDir) == Err(ScheddNotFound(name))
  {
  }

  /** An environment comes back only for a schedd on one of this host's addresses, and it
      sets only the spool variable, to an existing directory: the advertised spool directory
      if there is one, else the `spool` subdirectory of the advertised local directory. */
  lemma EnvOnlyForLocalSchedd(data: StatusData, name: string, myIps: seq<string>, isDir: string -> bool)
    requires EnvFromStatus(data, name, myIps, isDir).Ok? && EnvFromStatus(data, name, myIps, isDir).value.Some?
    ensures var el := Get(data, name).value;
            var env := EnvFromStatus(data, name, myIps, isDir).value.value;
            HasKey(data, name) && HasKey(el, IpAttr) && IpOf(Get(el, IpAttr).value) in myIps
            && |env| == 1 && env[0].0 == SpoolVar && isDir(env[0].1)
            && (if HasKey(el, SpoolAttr) then env[0].1 == Get(el, SpoolAttr).value
                else isDir(Get(el, LocalAttr).value) && env[0].1 == Get(el, LocalAttr).value + "/spool")
  {
  }

  /** A schedd on one of this host's addresses whose advertised spool directory exists is
      reached through that directory. */
  lemma LocalSpoolGivesEnv(data: StatusData, name: string, myIps: seq<string>, isDir: string -> bool)
    requires HasKey(data, name)
    requires var el := Get(data, name).value;
             HasKey(el, SpoolAttr) && HasKey(el, IpAttr) && IpOf(Get(el, IpAttr).value) in myIps
             && isDir(Get(el, SpoolAttr).value)
    ensures EnvFromStatus(data, name, myIps, isDir)
         == Ok(Some([(SpoolVar, Get(Get(data, name).value, SpoolAttr).value)]))
  {
  }

  /** A schedd on one of this host's addresses that advertises only an existing local
      directory is reached through its `spool` subdirectory when that exists, and by name
      when it does not. */
  lemma LocalDirGivesEnv(data: StatusData, name: string, myIps: seq<string>, isDir: string -> bool)
    requires HasKey(data, name)
    requires var el := Get(data, name).value;
             !HasKey(el, SpoolAttr) && HasKey(el, LocalAttr) && HasKey(el, IpAttr)
             && IpOf(Get(el, IpAttr).value) in myIps && isDir(Get(el, LocalAttr).value)
    ensures var spool := Get(Get(data, name).value, LocalAttr).value + "/spool";
            EnvFromStatus(data, name, myIps, isDir) == (if isDir(spool) then Ok(Some([(SpoolVar, spool)])) else Ok(None))
  {
  }

  /** A schedd that advertises neither directory, or sits on another host, is reached by name. */
  lemma NotLocalGivesNone(data: StatusData, name: string, myIps: seq<string>, isDir: string -> bool)
    requires HasKey(data, name)
    requires var el := Get(data, name).value;
             (!HasKey(el, SpoolAttr) && !HasKey(el, LocalAttr))
             || (HasKey(el, IpAttr) && IpOf(Get(el, IpAttr).value) !in myIps)
    ensures EnvFromStatus(data, name, myIps, isDir) == Ok(None)
  {
  }

  /** The address is cut after the first character and before the first colon. */
  lemma IpOfSinful(host: string, rest: string)
    requires ':' !in host
    ensures IpOf("<" + host + ":" + rest) == host
  {
    var addr := "<" + host + ":" + rest;
    assert addr[1..] == host + (":" + rest);
    BeforeStops(host, ':', ":" + rest);
  }

  lemma {:induction false} BeforeStops(s: string, c: char, t: string)
    requires c !in s && t != [] && t[0] == c
    ensures Before(s + t, c) == s
  {
    if s != [] {
      assert (s + t)[1..] == s[1..] + t;
      BeforeStops(s[1..], c, t);
      assert [s[0]] + s[1..] == s;
    } else {
      assert s + t == t;
    }
  }

  /** The disk store the lookups go through; `keeps` is false for `NoneDiskCache`, whose
      `get` always misses and whose `save` does nothing. */
  class DiskCache {
    var stored: map<string, StatusData>
    const keeps: bool

    constructor(keeps: bool)
      ensures this.keeps == keeps && stored == map[]
    {
      this.keeps := keeps;
      stored := map[];
    }

    /** `get(objid)`. */
    function Lookup(id: string): Option<StatusData>
      reads this
    {
      if keeps && id in stored then Some(stored[id]) else None
    }

    /** `save(objid, obj)`. */
    method Save(id: string, obj: StatusData)
      modifies this
      ensures stored == if keeps then old(stored)[id := obj] else old(stored)
      ensures Lookup(id) == if keeps then Some(obj) else None
    {
      if keeps {
        stored := stored[id := obj];
      }
    }
  }

  /** The key under which `iGetEnv` keeps the schedd ads on disk. */
  function DiskKey(scheddName: string): string {
    scheddName + ".igetenv"
  }

  /** The cached pair for a schedd: by name when no environment helps, else no option and the environment. */
  function Entry(scheddName: string, env: Option<Env>): (string, Env) {
    match env
    case None => (CmdScheddStr(Some(scheddName)), [])
    case Some(e) => ("", e)
  }

  class LocalScheddCache {
    var enabled: bool
    /** `(schedd_name, pool_name) => (cms arg schedd string, env)`. */
    var cache: Dict<(string, Option<string>), (string, Env)>
    const myIps: seq<string>
    const isDir: string -> bool
    /** `CondorStatus("schedd", pool_name).fetch(...)` for one schedd name. */
    const status: (Option<string>, string) -> Result<StatusData, string>
    const disk: DiskCache

    /** Every cached pair is one `getScheddId` could have stored for its schedd. */
    ghost predicate Valid()
      reads this
    {
      UniqueKeys(cache)
      && forall i :: 0 <= i < |cache| ==>
           cache[i].1 == Entry(cache[i].0.0, None) || cache[i].1.0 == ""
    }

    constructor(myIps: seq<string>, isDir: string -> bool,
                status: (Option<string>, string) -> Result<StatusData, string>, disk: DiskCache)
      ensures enabled && cache == [] && Valid()
      ensures this.myIps == myIps && this.isDir == isDir && this.status == status && this.disk == disk
    {
      enabled := true;
      cache := [];
      this.myIps := myIps;
      this.isDir := isDir;
      this.status := status;
      this.disk := disk;
    }

    method Enable()
      modifies this
      ensures enabled && cache == old(cache)
    {
      enabled := true;
    }

    method Disable()
      modifies this
      ensures !enabled && cache == old(cache)
    {
      enabled := false;
    }

    /** The schedd ads `iGetEnv` works from: the disk copy, else a fresh query. */
    function Ads(scheddName: string, poolName: Option<string>): Result<StatusData, string>
      reads this, disk
    {
      match disk.Lookup(DiskKey(scheddName))
      case Some(d) => Ok(d)
      case None => status(poolName, scheddName)
    }

    /** What `iGetEnv` returns or raises, given the ads. */
    function EnvSpec(ads: Result<StatusData, string>, scheddName: string): Result<Option<Env>, EnvError> {
      match ads
      case Err(msg) => Err(QueryFailed(msg))
      case Ok(data) => EnvFromStatus(data, scheddName, myIps, isDir)
    }

    /** `iGetEnv(schedd_name, pool_name)`; a freshly queried answer is saved to disk. */
    method IGetEnv(scheddName: string, poolName: Option<string>) returns (r: Result<Option<Env>, EnvError>)
      modifies disk
      ensures r == EnvSpec(old(Ads(scheddName, poolName)), scheddName)
      ensures old(disk.Lookup(DiskKey(scheddName))).Some? ==> disk.stored == old(disk.stored)
      ensures old(disk.Lookup(DiskKey(scheddName))).None? && old(Ads(scheddName, poolName)).Ok? && disk.keeps
              ==> disk.stored == old(disk.stored)[DiskKey(scheddName) := old(Ads(scheddName, poolName)).value]
      // A failed query saves nothing, and `NoneDiskCache` never stores.
      ensures old(disk.Lookup(DiskKey(scheddName))).None? && (old(Ads(scheddName, poolName)).Err? || !disk.keeps)
              ==> disk.stored == old(disk.stored)
    {
      var data := disk.Lookup(DiskKey(scheddName));
      if data.None? {
        var fetched := status(poolName, scheddName);
        if fetched.Err? {
          return Err(QueryFailed(fetched.error));
        }
        disk.Save(DiskKey(scheddName), fetched.value);
        data := Some(fetched.value);
      }
      r := EnvFromStatus(data.value, scheddName, myIps, isDir);
    }

    /** `getScheddId(schedd_name, pool_name)`. */
    method GetScheddId(scheddName: Option<string>, poolName: Option<string>) returns (r: Result<(string, Env), EnvError>)
      requires Valid()
      modifies this, disk
      ensures Valid() && enabled == old(enabled)
      ensures old(cache) <= cache
      // A schedd is reached either by name, with no environment, or through an environment.
      ensures r.Ok? && scheddName.Some? ==> r.value == (CmdScheddStr(scheddName), []) || r.value.0 == ""
      // While enabled, what is returned is what the cache now holds for the schedd.
      ensures r.Ok? && scheddName.Some? && enabled ==> Get(cache, (scheddName.value, poolName)) == Some(r.value)
      // The default schedd is never cached.
      ensures scheddName.None? ==> r == Ok(("", [])) && cache == old(cache) && disk.stored == old(disk.stored)
      // Disabled: just the option.
      ensures scheddName.Some? && !old(enabled) ==>
                r == Ok((CmdScheddStr(scheddName), [])) && cache == old(cache) && disk.stored == old(disk.stored)
      // Already cached: the stored pair, with no lookup.
      ensures scheddName.Some? && old(enabled) && HasKey(old(cache), (scheddName.value, poolName)) ==>
                r == Ok(Get(old(cache), (scheddName.value, poolName)).value)
                && cache == old(cache) && disk.stored == old(disk.stored)
      // First time: the pair `iGetEnv` leads to is stored and returned; an error stores nothing.
      ensures scheddName.Some? && old(enabled) && !HasKey(old(cache), (scheddName.value, poolName)) ==>
                var env := EnvSpec(old(Ads(scheddName.value, poolName)), scheddName.value);
                (env.Err? ==> r == Err(env.error) && cache == old(cache))
                && (env.Ok? ==> r == Ok(Entry(scheddName.value, env.value))
                                && cache == old(cache) + [((scheddName.value, poolName), r.value)])
      // First time, on disk: the ads freshly queried are saved when the store keeps them.
      ensures scheddName.Some? && old(enabled) && !HasKey(old(cache), (scheddName.value, poolName)) ==>
                var key := DiskKey(scheddName.value);
                var ads := old(Ads(scheddName.value, poolName));
                (old(disk.Lookup(key)).None? && ads.Ok? && disk.keeps ==> disk.stored == old(disk.stored)[key := ads.value])
                && (old(disk.Lookup(key)).Some? || ads.Err? || !disk.keeps ==> disk.stored == old(disk.stored))
    {
      if scheddName.None? {
        return Ok(("", []));
      }
      var name := scheddName.value;
      if !enabled {
        return Ok((CmdScheddStr(scheddName), []));
      }
      var k := (name, poolName);
      if !HasKey(cache, k) {
        var env := IGetEnv(name, poolName);
        if env.Err? {
          return Err(env.error);
        }
        var entry := Entry(name, env.value);
        ghost var before := cache;
        cache := Put(cache, k, entry);
        assert cache == before + [(k, entry)];
        assert forall i :: 0 <= i < |before| ==> cache[i] == before[i];
      }
      var i := Find(cache, k).value;
      assert Get(cache, k).value == cache[i].1;
      r := Ok(Get(cache, k).value);
    }
  }
}
