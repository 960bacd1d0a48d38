# glideinWMS condor monitoring and entry-group supervision, in Dafny

This project models two pieces of glideinWMS.

The first piece is the HTCondor query layer of `lib/condorMonitor.py`:
- the XML decoder `xml2list`, with its three expat handlers;
- `list2dict`, which keys decoded classads by one attribute or by a tuple of attributes;
- the dictionary utilities `applyConstraint`, `doGroup`, `doNestedGroup`, `fetch2count` and `addDict`;
- `complete_format_list` and the two bindings helpers;
- the schedd lookup caches (`NoneScheddCache`, `LocalScheddCache`);
- the `CondorQuery` object: the integrity/encryption settings, the refusal of a security object with saved state, and the save/restore bracket around the condor command in `fetch_using_exe`;
- `load`, the `CondorQ`/`CondorStatus` constructors and the completion of their format lists;
- the argument check of `CondorQEdit.executeAll`.

The second piece is the supervision of entry-group children in `factory/glideFactory.py`:
- `entry_grouper`;
- `is_crashing_often`;
- the window of the last startup times kept per group (`children_uptime[group]`).

The models are shaped as follows:
- A Python dict is an insertion-ordered association list with unique keys (`OrderedDict`). Assignment to a present key keeps its position; a new key goes last, as in CPython.
- Each exception the source raises is an error value of a `Result`.
- The expat parser, the condor command, the disk cache backend, the host's addresses, `os.path.isdir` and the clock are parameters.
- Code that changes state step by step is a method with loop invariants, proved equal to a specification function. The source's promises are proved as lemmas about those functions:
  - `decode(encode(x)) == x` for the XML form;
  - one dict entry per key, with the last classad winning;
  - a verbatim partition for nested groups;
  - leaf counts that add up to the number of hashed elements;
  - a restart window that always holds the last `restart_attempts` start times, in order;
  - and others, listed in the table below.

Modules:
- `Wrappers`, `OrderedDict`, `ClassAd` and `IntText` are shared foundations: Option/Result, dicts, classad values, and `int()`/`str()` on decimal text.
- `Xml2List`, `List2Dict`, `Grouping`, `Summarize`, `FormatList`, `ScheddCache` and `CondorQuery` model `lib/condorMonitor.py`.
- `GlideFactory` models `factory/glideFactory.py`.

## Model

| member | source | states |
|---|---|---|
| FormatList.HasName | lib/condorMonitor.py:1073-1077 | The inner scan finds a match iff the required name is one of the input list's attribute names. |
| FormatList.CompleteFormatList | lib/condorMonitor.py:1061-1080 | The result is the input list unchanged, followed by the required elements whose name the input lacks, in required order. |
| FormatList.MissingMembers | lib/condorMonitor.py:1072-1079 | An element is appended iff it is required and its name is not among the input's names. |
| FormatList.AllMissing | lib/condorMonitor.py:1072-1079 | If the input has none of the required names, every required element is appended, in order. |
| FormatList.NoneMissing | lib/condorMonitor.py:1061-1080 | If the input already has every required name, the list comes back unchanged. |
| FormatList.CompletedNames | lib/condorMonitor.py:1061-1080 | Every required name ends up in the completed list, and a name the input already had is never added again. |
| FormatList.BindingsFriendlyConstraint | lib/condorMonitor.py:1639-1643 | No constraint becomes the constant true; any other constraint is passed through unchanged. |
| FormatList.BindingsFriendlyAttrs | lib/condorMonitor.py:1646-1652 | No format list gives no attributes; otherwise the attribute names, one per element, in order. |
| FormatList.CompletedAttrs | lib/condorMonitor.py:1646-1652 | The attribute names of a completed format list include every required name and start with the caller's names, in order. |
| Xml2List.UnescapeEscape | lib/condorMonitor.py:1232 | Replacing `\"` by `"` undoes the escaping used by the encoder. |
| Xml2List.StartStep | lib/condorMonitor.py:1111-1146 | An element name other than c, a, i, r, b, un, s, e, classads is an "Unsupported type" error, and only such a name is; an opening tag never changes the collected list. |
| Xml2List.EndStep | lib/condorMonitor.py:1149-1189 | An unknown name is an "Unexpected type" error, and only such a name is. `</c>` appends the open classad (None when none is open) and closes it. Other end tags leave the list as it is. |
| Xml2List.CharStep | lib/condorMonitor.py:1192-1233 | Text outside an attribute is ignored. Text never changes the collected list, the open classad or the current type. |
| Xml2List.Parser.constructor | lib/condorMonitor.py:1260-1263 | The four decoder globals start empty. |
| Xml2List.Parser.StartElement | lib/condorMonitor.py:1111-1146 | The handler updates the decoder state as `StartStep` says, or fails with its error. |
| Xml2List.Parser.EndElement | lib/condorMonitor.py:1149-1189 | The handler updates the decoder state as `EndStep` says, or fails with its error. |
| Xml2List.Parser.CharData | lib/condorMonitor.py:1192-1233 | The handler updates the decoder state as `CharStep` says, or fails with its error. |
| Xml2List.FindHeader | lib/condorMonitor.py:1274-1279 | The result is the first line starting with `<?xml`; it is None iff no line does. |
| Xml2List.Xml2List | lib/condorMonitor.py:1236-1291 | The method returns exactly the specification: the handlers run over the parser's events from the header line on, and a parser or handler error fails the call. |
| Xml2List.NoHeaderNoRecords | lib/condorMonitor.py:1282-1291 | Output without an `<?xml` line decodes to the empty list. |
| Xml2List.UnknownElementFails | lib/condorMonitor.py:1145-1146 | Any opening or closing tag with an unknown name makes the whole decode fail. |
| Xml2List.StrValue | lib/condorMonitor.py:1141-1142 | A string value decodes to the same string. |
| Xml2List.StringAttribute | lib/condorMonitor.py:1230-1233 | The text chunks of an `s` or `e` element are concatenated, each with `\"` unescaped, and stored under the attribute's name. |
| Xml2List.IntValue | lib/condorMonitor.py:1127-1128 | An `i` element holding a decimal integer decodes to that int. |
| Xml2List.IntChars | lib/condorMonitor.py:1216-1217 | `int()` of the text of an integer gives the integer back. |
| Xml2List.RealValue | lib/condorMonitor.py:1218-1219 | An `r` element keeps its number text. |
| Xml2List.BoolValue | lib/condorMonitor.py:1131-1134 | The writer's `<b v="t"/>` and `<b v="f"/>` decode back to the boolean written. |
| Xml2List.BoolFromAttribute | lib/condorMonitor.py:1131-1134 | A `b` element with any `v` attribute stores true iff `v` is T, t or 1, and any text inside the element is ignored. |
| Xml2List.IgnoredChunks | lib/condorMonitor.py:1220-1229 | Text under `un`, or under `b` once its value is known, leaves the decoder state unchanged, however it is split. |
| Xml2List.BoolFromText | lib/condorMonitor.py:1220-1226 | A `b` element without `v` decodes to true iff its text starts with T, t or 1. |
| Xml2List.UndefinedValue | lib/condorMonitor.py:1138-1140 | The writer's `<un/>` decodes to None. |
| Xml2List.UndefinedAttribute | lib/condorMonitor.py:1138-1140 | An `un` element stores None under the attribute's name, whatever text it holds. |
| Xml2List.AttrRoundTrip | lib/condorMonitor.py:1179-1181 | An encoded attribute decodes to that name and value in the open classad. |
| Xml2List.AttrsRoundTrip | lib/condorMonitor.py:1179-1181 | A sequence of encoded attributes is assigned into the open classad one after the other. |
| Xml2List.AdRoundTrip | lib/condorMonitor.py:1176-1178 | An encoded classad is appended to the list as the dict of its attributes. |
| Xml2List.AdsRoundTrip | lib/condorMonitor.py:1176-1178 | Encoded classads are appended in order. |
| Xml2List.DocumentRoundTrip | lib/condorMonitor.py:1143-1144 | The events of an encoded document decode to its classads. |
| Xml2List.DecodeRoundTrip | lib/condorMonitor.py:1236-1291 | When the parser turns the text from the header line on into an encoded document, `xml2list` returns its classads: decode(encode(x)) == x. |
| Xml2List.StepKeepsDistinct | lib/condorMonitor.py:1180 | Assigning attributes by name keeps the names of every classad distinct. |
| Xml2List.RunKeepsDistinct | lib/condorMonitor.py:1180 | Attribute names stay distinct over any run of events. |
| Xml2List.DecodedNamesDistinct | lib/condorMonitor.py:1236-1291 | Every classad `xml2list` returns has distinct attribute names. |
| List2Dict.FoldedMatch | lib/condorMonitor.py:1337-1340 | The result is the first attribute whose name equals the wanted one ignoring ASCII case, or None when no attribute's does. |
| List2Dict.LowerCaseLookup | lib/condorMonitor.py:1337-1340 | The loop finds a value iff some name matches ignoring case, and the value is that of the first match. |
| List2Dict.KeyOfClassAd | lib/condorMonitor.py:1330-1343 | The key of a classad: the single attribute's value (KeyError if absent), or the tuple of the values present, exact names first, then case-insensitively. |
| List2Dict.StripKeys | lib/condorMonitor.py:1345-1363 | The body is the classad without the key attributes. |
| List2Dict.List2Dict | lib/condorMonitor.py:1294-1369 | The method returns exactly the specification fold over the classads. |
| List2Dict.ErrorStops | lib/condorMonitor.py:1329-1343 | A KeyError at one classad is the result of the whole call. |
| List2Dict.BodyMembers | lib/condorMonitor.py:1345-1363 | An attribute is in the body iff it is in the classad and is not a key attribute. |
| List2Dict.SingleKeyFails | lib/condorMonitor.py:1342-1343 | With a single key attribute, the call succeeds iff every classad has that attribute. |
| List2Dict.SingleKeyError | lib/condorMonitor.py:1342-1343 | With a single key attribute, the only error raised is the KeyError for that attribute. |
| List2Dict.SeveralKeysSucceed | lib/condorMonitor.py:1330-1341 | With a list of key attributes, the call never raises. |
| List2Dict.List2DictKeys | lib/condorMonitor.py:1328-1368 | The result has one entry per key, and a key is present iff some classad produces it. |
| List2Dict.LastWins | lib/condorMonitor.py:1368 | For a key, the entry is the body of the last classad with that key. |
| List2Dict.TupleKeyExact | lib/condorMonitor.py:1330-1341 | A tuple key has at most one component per key name. When every name is present, it is exactly their values in order. |
| List2Dict.KeyNamesRemoved | lib/condorMonitor.py:1346-1347 | No key attribute remains in a body. |
| Grouping.ApplyConstraint | lib/condorMonitor.py:1372-1392 | No constraint returns the data itself; otherwise the loop keeps exactly the entries whose value passes, in order. |
| Grouping.FilterMembers | lib/condorMonitor.py:1388-1391 | An entry is kept iff it is in the data and its value satisfies the constraint. |
| Grouping.FilterIdempotent | lib/condorMonitor.py:1388-1391 | Filtering twice by the same constraint is filtering once. |
| Grouping.ConstraintIdempotent | lib/condorMonitor.py:1372-1392 | Applying a constraint (or none) twice equals applying it once. |
| Grouping.MapValues | lib/condorMonitor.py:1418-1421 | Each group key keeps its position, and its value is the group function of its members. |
| Grouping.MapValuesGet | lib/condorMonitor.py:1418-1421 | Looking up a key in the summarised dict gives the function of that key's group, or nothing. |
| Grouping.CollectGroups | lib/condorMonitor.py:1410-1416 | The loop gathers the elements of each group key, in input order, with keys in order of first appearance. |
| Grouping.SummariseGroups | lib/condorMonitor.py:1418-1421 | The second loop applies the group function to every group. |
| Grouping.DoGroup | lib/condorMonitor.py:1395-1423 | The result is the group function applied to the values collected under each group key. |
| Grouping.DoNestedGroup | lib/condorMonitor.py:1426-1463 | The result is the element function (or `dict`) applied to the (key, value) pairs collected under each group key. |
| Grouping.GroupsShape | lib/condorMonitor.py:1410-1416 | Group keys are unique. A key has a group iff some element maps to it, and the group is exactly that key's members. |
| Grouping.MembersNonEmpty | lib/condorMonitor.py:1413-1416 | A group is non-empty iff some element maps to its key. |
| Grouping.NestedMembers | lib/condorMonitor.py:1445-1451 | A pair is in a key's nested group iff it is an entry of the input whose value maps to that key: a verbatim partition. |
| Grouping.NestedMembersUnique | lib/condorMonitor.py:1445-1451 | Nested groups of a dict have unique keys. |
| Grouping.NestedGroupVerbatim | lib/condorMonitor.py:1459-1461 | Without an element function, each group is the dict of its input entries, verbatim. |
| Grouping.DoGroupGet | lib/condorMonitor.py:1418-1421 | `doGroup`'s entry for a key is the group function of that key's values, and absent keys stay absent. |
| Summarize.Fetch2Count | lib/condorMonitor.py:1466-1509 | The method returns exactly the specification fold over the entries. |
| Summarize.CountErrorStops | lib/condorMonitor.py:1483-1507 | An error at one entry is the result of the whole call. |
| Summarize.UnhashedIgnored | lib/condorMonitor.py:1487-1489 | Entries hashed to None are skipped: counting the data equals counting only the hashed entries. |
| Summarize.BumpTotal | lib/condorMonitor.py:1492-1507 | One counted entry adds exactly 1 to the sum of all leaves. |
| Summarize.PutTotal | lib/condorMonitor.py:1507 | Replacing an entry changes the leaf total by the difference. |
| Summarize.CountTotal | lib/condorMonitor.py:1466-1509 | The leaves of the count add up to the number of entries whose hash is not None. |
| Summarize.ScalarCounts | lib/condorMonitor.py:1503-1507 | With scalar hashes, the count of each hash value is the number of entries with that hash. |
| Summarize.ScalarBump | lib/condorMonitor.py:1503-1507 | A scalar hash starts its count at 1 or adds 1 to it, and leaves other counts alone. |
| Summarize.BumpFresh | lib/condorMonitor.py:1495-1507 | A list hash on an empty count builds the nested chain down to a leaf of 1. |
| Summarize.PathNesting | lib/condorMonitor.py:1495-1501 | A list hash nests one level per element but the last. |
| Summarize.EmptyPathFails | lib/condorMonitor.py:1501 | An empty list hash is an IndexError. |
| Summarize.PutShaped | lib/condorMonitor.py:1507 | Storing a count of the right depth keeps a count of uniform depth. |
| Summarize.BumpShaped | lib/condorMonitor.py:1495-1507 | On a count of uniform depth, a hash of that length never fails, and the depth stays uniform. |
| Summarize.UniformCountsSucceed | lib/condorMonitor.py:1466-1509 | When all hashes are lists of one length (or scalars), the count never fails and is uniformly nested. |
| Summarize.AddDict | lib/condorMonitor.py:1590-1608 | The method returns exactly the specification of the in-place merge. |
| Summarize.AddKey | lib/condorMonitor.py:1599-1608 | One key of the new dict is added, or merged into the existing entry. |
| Summarize.MergeInPlace | lib/condorMonitor.py:1604-1608 | Nested dicts merge recursively, numbers add, and mixing a number with a dict is an error. |
| Summarize.AddErrorStops | lib/condorMonitor.py:1598-1608 | An error at one key is the result of the whole call. |
| Summarize.AddFromTotal | lib/condorMonitor.py:1598-1608 | After a prefix of keys, the leaf total is the base total plus the totals added. |
| Summarize.AddEntryTotal | lib/condorMonitor.py:1599-1608 | Adding one entry adds its total. |
| Summarize.MergeTotal | lib/condorMonitor.py:1604-1608 | Merging two counts adds their totals. |
| Summarize.AddDictTotal | lib/condorMonitor.py:1590-1608 | The merged count's leaves add up to the sum of both inputs' leaves. |
| Summarize.AddFromKeys | lib/condorMonitor.py:1598-1602 | The merged keys are the base keys plus the new dict's keys. |
| Summarize.AddEntryKeys | lib/condorMonitor.py:1600-1602 | Adding an entry adds exactly its key. |
| Summarize.AddFromShaped | lib/condorMonitor.py:1590-1608 | Counts of the same uniform depth always merge, and stay of that depth. |
| Summarize.AddEntryShaped | lib/condorMonitor.py:1599-1608 | One entry of the right depth always merges. |
| Summarize.MergeShaped | lib/condorMonitor.py:1604-1608 | Two counts of the same depth always merge. |
| ScheddCache.CmdScheddStr | lib/condorMonitor.py:118-133 | No schedd gives the empty option; a schedd name gives `-name <name> `. |
| ScheddCache.NoneGetScheddId | lib/condorMonitor.py:104-116 | The option for the schedd and an empty environment. |
| ScheddCache.Before | lib/condorMonitor.py:242 | `split(":")[0]`: the longest prefix without a colon. |
| ScheddCache.IpOfSinful | lib/condorMonitor.py:242 | For `<host:rest` the address used is `host`, the text between the first character and the first colon. |
| ScheddCache.BeforeStops | lib/condorMonitor.py:242 | The split stops at the first colon. |
| ScheddCache.EnvFromStatus | lib/condorMonitor.py:231-256 | `iGetEnv` raises "not found" iff the schedd is absent. It raises "not advertising ScheddIpAddr" iff the schedd advertises a directory but no address. It raises nothing else. |
| ScheddCache.LocalSpoolGivesEnv | lib/condorMonitor.py:242-247 | A schedd on one of this host's addresses whose advertised spool directory exists gives `{_CONDOR_SPOOL: spool dir}`. |
| ScheddCache.LocalDirGivesEnv | lib/condorMonitor.py:242-250 | A local schedd that advertises only an existing local directory gives `{_CONDOR_SPOOL: <dir>/spool}` when that subdirectory exists, and None when it does not. |
| ScheddCache.AbsentScheddFails | lib/condorMonitor.py:231-232 | A schedd missing from the query result is an error. |
| ScheddCache.NotLocalGivesNone | lib/condorMonitor.py:235-256 | A schedd that advertises neither directory, or is on another host, gives None. |
| ScheddCache.EnvOnlyForLocalSchedd | lib/condorMonitor.py:242-250 | An environment is returned only for a schedd on one of this host's addresses. It sets only `_CONDOR_SPOOL`, to an existing directory: the spool directory if advertised, else `<local dir>/spool`. |
| ScheddCache.DiskCache.Save | lib/condorMonitor.py:262-274 | The disk cache stores the object only when it is a real cache; the default one forgets. |
| ScheddCache.LocalScheddCache.constructor | lib/condorMonitor.py:143-158 | A new cache is enabled and empty. |
| ScheddCache.LocalScheddCache.Enable | lib/condorMonitor.py:160-165 | Enabling keeps the cached pairs. |
| ScheddCache.LocalScheddCache.Disable | lib/condorMonitor.py:167-172 | Disabling keeps the cached pairs. |
| ScheddCache.LocalScheddCache.IGetEnv | lib/condorMonitor.py:204-256 | The method reads the ads from the disk cache, else queries them, and then decides as the specification function says. Ads are saved only after a successful query and only by a store that keeps them. A disk hit, a failed query or `NoneDiskCache` leaves the store unchanged. |
| ScheddCache.LocalScheddCache.GetScheddId | lib/condorMonitor.py:174-199 | A named schedd is reached either by `-name` with no environment, or with no option and an environment. While enabled, the pair returned is the one the cache holds for (schedd, pool). Each of the four cases leaves the cache as follows: (1) no schedd gives ("", {}) and leaves the cache untouched; (2) disabled gives the `-name` option; (3) the first call stores and returns the pair iGetEnv leads to, with the disk store changed only as `IGetEnv` says; (4) later calls return the stored pair without a lookup or a disk change. |
| CondorQuery.CondorVal | lib/condorMonitor.py:499-512 | None stays None; True gives REQUIRED and False gives OPTIONAL. |
| CondorQuery.Requested | lib/condorMonitor.py:514-523 | None stays None; any value reads as True iff it is REQUIRED. |
| CondorQuery.RequestedRoundTrip | lib/condorMonitor.py:499-549 | The requested level reads back as it was set. |
| CondorQuery.SecurityContext.Set | lib/condorMonitor.py:512 | The setting is assigned (None clears it) and the saved stack is untouched. |
| CondorQuery.SecurityContext.SaveState | lib/condorMonitor.py:604 | The current settings are pushed. |
| CondorQuery.SecurityContext.RestoreState | lib/condorMonitor.py:621 | The last saved settings are popped back. |
| CondorQuery.SecurityContext.Copy | lib/condorMonitor.py:494 | The copy is fresh and has equal contents. |
| CondorQuery.Query.New | lib/condorMonitor.py:471-497 | Fails iff the given security object has saved state. Otherwise the query gets a fresh copy (or fresh empty settings) and the pool option `-pool <name>`. |
| CondorQuery.Query.RequireIntegrity | lib/condorMonitor.py:499-512 | The integrity level reads back as requested, and the encryption level is unchanged. |
| CondorQuery.Query.RequireEncryption | lib/condorMonitor.py:525-538 | The encryption level reads back as requested, and the integrity level is unchanged. |
| CondorQuery.BuildFormatArgs | lib/condorMonitor.py:596-601 | The loop gives one `-format` option per element, in order, failing at the first unknown type. |
| CondorQuery.FormatErrorStops | lib/condorMonitor.py:597-599 | An unknown type at one element is the result of the whole call. |
| CondorQuery.FormatArgsShape | lib/condorMonitor.py:596-601 | The options are built iff every type is s, i, r or b, and then there is one per element. |
| CondorQuery.ListToDict | lib/condorMonitor.py:625 | The method is proved equal to keying the classads before the first None and then failing on that None; the three lemmas below state the outcome in terms of the decoded list. |
| CondorQuery.KeyedBySingle | lib/condorMonitor.py:1330-1343 | With one key attribute, keying succeeds iff no element is None and every classad has the attribute. It fails on None iff a None comes before any classad without the attribute. Otherwise it is the KeyError of that attribute. |
| CondorQuery.KeyedBySeveral | lib/condorMonitor.py:1330-1341 | With several key attributes, keying fails only on a None element, and succeeds iff there is none. |
| CondorQuery.KeyedOk | lib/condorMonitor.py:1294-1369 | A successful keying is `list2dict` of all the decoded classads. |
| CondorQuery.Query.FetchUsingExe | lib/condorMonitor.py:577-626 | The security settings and saved stack are the same after the call, whether or not the command fails. The result is the command line, run under those settings, then decoded and keyed. |
| CondorQuery.Query.Fetch | lib/condorMonitor.py:697-711 | A given format list is completed with the required elements (ClusterId/ProcId, Name, or none) before the fetch. |
| CondorQuery.Query.Load | lib/condorMonitor.py:645-653 | The stored data starts as the empty dict. On success the result is stored; on an error the stored data is unchanged. |
| CondorQuery.NewCondorQ | lib/condorMonitor.py:679-695 | A condor_q query keyed by (ClusterId, ProcId), with the security settings copied as `CondorQuery.__init__` does. Without a lookup cache, the option and environment come from `NoneScheddCache`. With one, the cache only grows. The default schedd needs no option, and a disabled cache gives `-name`. Otherwise the option and environment are the pair the cache holds for (schedd, pool). A lookup error is raised only by a first lookup, and only when `iGetEnv` raised it. |
| CondorQuery.NewCondorStatus | lib/condorMonitor.py:766-778 | A condor_status query keyed by Name, with `-<subsystem>`, an empty environment and the security settings copied. It fails iff the security object has saved state. |
| CondorQuery.ExecuteAll | lib/condorMonitor.py:400-436 | Fails iff the three lists (None read as empty) differ in length. Otherwise there is one (job, attribute, value) edit per position, in order. |
| GlideFactory.EntryGrouper | factory/glideFactory.py:308-336 | A size of 0 gives []; a positive size gives the entries cut into consecutive slices of that size (a single group when they fit); a negative size gives [] for no entries and an UnboundLocalError otherwise. |
| GlideFactory.FullSlices | factory/glideFactory.py:330-331 | The loop appends the `len // size` full slices, in order, and leaves `group` at the last index. |
| GlideFactory.FullPrefixChunks | factory/glideFactory.py:330-334 | The full slices are the front of the grouping, and what is left after them is the remainder group. |
| GlideFactory.GrouperTail | factory/glideFactory.py:333-334 | The remainder is appended iff there is one. |
| GlideFactory.FloorDivNegative | factory/glideFactory.py:330 | With a negative size, `range(len // size)` is empty. |
| GlideFactory.ChunksConcat | factory/glideFactory.py:308-336 | The groups, concatenated, are the entries. |
| GlideFactory.ChunksSizes | factory/glideFactory.py:308-336 | Every group but the last has exactly `size` entries. The last has at most `size`, and at least one when there are entries. |
| GlideFactory.ChunksCount | factory/glideFactory.py:308-336 | There are ceil(len / size) groups. |
| GlideFactory.IsCrashingOften | factory/glideFactory.py:340-365 | Not crashing while fewer starts than attempts are recorded. Always crashing with one attempt allowed. An IndexError exactly when no start is recorded and attempts <= 0. |
| GlideFactory.PushedWindow | factory/glideFactory.py:735-737 | Popping the oldest when full, then appending, turns the window of a history into the window of the history plus the new start. |
| GlideFactory.WindowBounds | factory/glideFactory.py:560-561 | A window is never empty, holds at most `restart_attempts` times when that is positive, and ends with the latest start. |
| GlideFactory.CrashCheckOfWindow | factory/glideFactory.py:705 | On a window the check never raises. With two or more attempts it says crashing iff at least that many starts happened and the one `restart_attempts` starts back was less than `restart_interval` before now. |
| GlideFactory.StartupTimes.constructor | factory/glideFactory.py:560-561 | The window starts with the one startup time. |
| GlideFactory.StartupTimes.Restart | factory/glideFactory.py:735-737 | The oldest time is popped when the window holds `restart_attempts` times, then the new time is appended. The window stays the last starts, in order. |
| GlideFactory.StartupTimes.OnExit | factory/glideFactory.py:705-737 | An exited child makes the factory quit iff it is crashing too often; otherwise it is restarted and its start time recorded. |

## Left out

- The HTCondor Python bindings backend: `fetch_using_bindings`, the bindings branch of `list2dict` (`ExprTree` evaluation and dropping `Undefined`), and `htcondor_full_reload`. `CondorQEdit.executeAll` is modelled only up to the list of edits; the schedd transaction and the error text are left out.
- The expat parser is a parameter: it maps the joined text to its events and to whether the text is well formed. The model covers what the handlers and `xml2list` do with those events, not XML syntax.
- `float()` is not modelled: a real value keeps its text.
- `int()` accepts ASCII whitespace, a sign and ASCII digits; the Unicode digits and underscores Python also accepts are left out. `str.lower()` is ASCII lower-casing.
- `condorExe.exe_cmd` is the parameter `exe`. It gets the executable, the argument string, the environment and the security settings in force, which stand for the variables `enforce_requests` sets. condorExe is not part of this model.
- condorSecurity is not part of this model. Its `ProtoRequest` is modelled as `SecurityContext`: a map of (context, feature) settings and a stack of saved settings, with `set(..., None)` clearing a setting.
- `fetch` wraps every error in a `QueryError` with a message. The model keeps the cause (`FetchError`) and drops the message text.
- `socket.gethostbyname_ex`, `os.path.isdir`, the schedd status query and the disk cache backend are parameters of `LocalScheddCache`. `DiskCache` with `keeps == false` is the default `NoneDiskCache`.
- The global `local_schedd_cache` default of `CondorQ` is not modelled; the caller passes the cache or none.
- Summarize.Fetch2Count: the cursor `cel`, which aliases nested dicts of `count`, is modelled as a rebuild of the nested values, so the aliasing itself is not represented. A hash path whose prefix meets a number rather than a dict is an error, where Python raises a TypeError.
- Python's key equality is not modelled: classad values compare structurally, so `1`, `1.0` and `True` are three keys here where a Python dict holds one. This applies to the keys made by `list2dict`, `doGroup`, `fetch2count` and `addDict`.
- Summarize.AddDict: `addDict` works in place, and the model keeps only the resulting dict. Two effects are not represented. First, a copied `base_dict[k] = new_el` shares the nested dict with `new_dict`, so a later merge into the base also changes `new_dict`. Second, on a TypeError the base keeps the keys merged before the failing one; the model returns only the error.
- The disk store behind `iGetEnv` is an in-memory map whose entries never expire. The real disk cache (the `disk_cache` module, which is not part of this model) keeps its entries in files that other processes read, and drops an entry once its cache duration has passed.
- `fetch2count_flat`, `fetch2list`, `SummarizeMulti`, `CondorQLite` and the other queries of `lib/condorMonitor.py` are outside the modelled core.
- GlideFactory.IsCrashingOften and GlideFactory.StartupTimes: `time.time()` is an integer parameter (`now`, `checkTime`, `restartTime`); fractional seconds are not modelled.
- GlideFactory.StartupTimes.OnExit: the child processes, their pipes, logging and the `RuntimeError` that stops the factory are left out. Quitting is the returned flag.
