# pservers control plane, modelled in Dafny

pservers is a small server daemon. It publishes local directories over
HTTP, FTP and git, advertises the host's names through Avahi, and lets
local clients register reverse-proxy virtual hosts over a Unix-domain
API socket. The clients' reverse proxies go through one main Apache
process; the slave HTTP server runs its own Apache, and FTP and git run
their own daemons. The main server
keeps a dictionary of configuration fragments, keyed by id. It merges
their module dependencies with five base modules and writes one
`<VirtualHost *>` section per fragment. Then it asks the running Apache
to reload.

This project models the control logic of that daemon and proves
properties about it:

- `PyDict`: insertion-ordered dictionaries, as Python's `dict` keeps them.
- `Text`: the string operations the configuration writers use.
- `PsUtil`, `DirRegistry`: path overlap, `rreplace`, comment stripping
  and the name and real-path check that guards every registration.
- `MainHttpd` / `HttpdObject`: the main Apache server's fragment store,
  the module merge and the generated configuration text.
- `Api` / `ApiObject`: the API server's handlers, which turn client
  notifications into proxy fragments.
- `DnsName`, `Avahi` / `AvahiRegister`: the RDATA encoder and the
  domain-name registration state machine.
- `SlaveServers` / `SlaveObjects`: the HTTP, FTP and git slave servers
  and the dispatch of advertised directories.
- `PsServers`: the server manager and the per-server object.
- `Ftpd`: the FTP daemon's configuration loader.
- `VirtualFs`: the virtual filesystem's path translation.
- `OldFtp`: the older ProFTPD configuration writer.
- `PsClient` / `PsClientObject`: the client library's registration
  protocol.

Code that computes values becomes functions over datatypes. Objects that
update their fields become classes. Each class has a `Snapshot()` of its
state, and each of its methods is proved to produce exactly the step
that a pure step function computes from the old snapshot. The properties
are proved as lemmas about those step functions. Python exceptions
become an `Outcome` (`Done` or `Raised(exc)`). The outcomes modelled are
failed asserts, `KeyError`, `TypeError`, `AttributeError` for names the
code reads but nothing defines, and the explicit `raise`s; the failures
of the operating system and of the programs the daemon launches are not
modelled (see "## Left out").

Where the code does not do what it evidently means to do, the model
keeps both versions. An `AsWritten…` member follows the code as written,
with a lemma that exhibits the defect. The corrected member carries the
intended property and is the one the rest of the model uses (see
"## Findings").

## Model

| member | source | states |
|---|---|---|
| PyDict.Dict.Put | lib/ps_main_httpd.py:30 | `d[k] = v` maps `k` to `v`, keeps the key order for a present key and appends a new one, and keeps keys and map in agreement |
| PyDict.Dict.Remove | lib/ps_main_httpd.py:34 | `del d[k]` drops `k` from the map and from the order, the other keys staying in order |
| PyDict.Dict.Values | lib/ps_main_httpd.py:66 | `d.values()` lists the value of each key in insertion order |
| PyDict.PutRemove | lib/ps_main_httpd.py:26 | inserting a fresh key and deleting it again gives back the same dictionary, order included |
| PyDict.DictSize | lib/ps_main_httpd.py:21 | the number of entries equals the length of the insertion order |
| MainHttpd.MergeRaisesAssertion | lib/ps_main_httpd.py:66-71 | the module merge can fail only on the assertion that a module already present is given the same file |
| MainHttpd.MergeOkIff | lib/ps_main_httpd.py:59-71 | the merge succeeds if and only if every dependency of a base module names the base file and no two dependencies give one module different files |
| MainHttpd.MergeExtends | lib/ps_main_httpd.py:66-69 | a successful merge keeps the base modules first, in order and with their files, and stays a well-formed dictionary |
| MainHttpd.MergeCovers | lib/ps_main_httpd.py:66-69 | after a successful merge every dependency's module maps to that dependency's file |
| MainHttpd.MergeOnly | lib/ps_main_httpd.py:59-69 | a merged table holds only base modules and modules some fragment depends on |
| MainHttpd.MergeTable | lib/ps_main_httpd.py:59-71 | the merged table: base modules first and unchanged, every dependency present with its file, nothing else |
| MainHttpd.LoadModuleLines | lib/ps_main_httpd.py:74-75 | one `LoadModule` line per merged module, in the table's order, naming the module and its file under the modules directory |
| MainHttpd.MergeModules | lib/ps_main_httpd.py:59-71 | the nested loop over the fragments' dependencies computes exactly the merge of the base table with all dependency pairs, failing on the first conflict |
| MainHttpd.MergeDeps | lib/ps_main_httpd.py:67-71 | the inner loop over one fragment's dependencies either advances the merge by those pairs or fails exactly where the whole merge fails |
| MainHttpd.WriteModuleLines | lib/ps_main_httpd.py:73-75 | the appended buffer is the `LoadModule` lines of the merged table, one per line |
| MainHttpd.WriteBlocks | lib/ps_main_httpd.py:91-95 | the appended buffer is one virtual-host block per fragment, in store order |
| MainHttpd.BuildConfig | lib/ps_main_httpd.py:56-95 | the generated text is the module lines, the fixed header and the blocks, or the merge's assertion failure |
| MainHttpd.GenerateOkIff | lib/ps_main_httpd.py:56-71 | generating the configuration succeeds if and only if the fragments' dependencies agree with the base modules and with each other |
| MainHttpd.GeneratedTable | lib/ps_main_httpd.py:56-95 | a generated configuration loads the five base modules first, then every dependency with its own file |
| MainHttpd.ConfigModuleLines | lib/ps_main_httpd.py:73-76 | the first lines of the configuration are exactly the `LoadModule` lines, one per merged module |
| MainHttpd.SegmentIndented | lib/ps_main_httpd.py:93 | replacing each line break by a line break and four spaces indents every line of the segment by four spaces |
| MainHttpd.BlockLines | lib/ps_main_httpd.py:92-95 | a block is the opening tag, the segment's lines indented, the closing tag glued onto the segment's last line, and a blank line |
| MainHttpd.RemoveEachStore | lib/ps_main_httpd.py:38-39 | the batch loop deletes exactly the ids before the one it stops at |
| MainHttpd.RemoveEachStops | lib/ps_main_httpd.py:38-39 | every id the loop deleted was present and not repeated, and the loop stops only on an id no longer in the store |
| MainHttpd.RefreshEffect | lib/ps_main_httpd.py:99-102 | a refresh does nothing while Apache is not running; otherwise it writes the generated text and signals one reload, or fails with the merge's assertion and changes nothing |
| MainHttpd.RefreshStable | lib/ps_main_httpd.py:99-102 | two refreshes with no change in between write the same text and signal two reloads |
| MainHttpd.AddConfigEffect | lib/ps_main_httpd.py:24-27 | adding an id already present fails on the assertion and changes nothing; a new id is appended with its fragment and then refreshed |
| MainHttpd.UpdateConfigEffect | lib/ps_main_httpd.py:29-31 | updating overwrites in place (or appends an absent id) and then refreshes |
| MainHttpd.RemoveConfigEffect | lib/ps_main_httpd.py:33-35 | removing an absent id raises `KeyError` and changes nothing; a present one is deleted from store and order and then refreshed |
| MainHttpd.BatchRemoveAll | lib/ps_main_httpd.py:37-40 | a batch of distinct present ids deletes all of them and then refreshes once |
| MainHttpd.BatchRemoveFails | lib/ps_main_httpd.py:37-40 | a batch that raises `KeyError` has deleted the ids before the failing one, and neither wrote the configuration nor signalled a reload |
| MainHttpd.BatchRemoveFailsOnlyOnMissing | lib/ps_main_httpd.py:37-40 | a batch fails only when an id is missing or repeated |
| MainHttpd.StopThenRefresh | lib/ps_main_httpd.py:49-53 | after `stop` no process is held, so a refresh does nothing, and a second `stop` changes nothing |
| MainHttpd.StartEffect | lib/ps_main_httpd.py:42-47 | corrected to wait with `waitTcpServiceForProc` (lib/ps_util.py:277), `start` with a process held fails on its assertion; otherwise it succeeds exactly when the configuration generates, writes that text, and a second `start` fails until `stop` |
| MainHttpd.AsWrittenStartRaises | lib/ps_main_httpd.py:43-47 | as written, `start` never succeeds: where the corrected start succeeds it writes the configuration, holds the launched process and then raises `AttributeError` on `waitSocketPortForProc`, which lib/ps_util.py does not define, so every later `start` fails its assertion; its other outcomes are the corrected ones |
| HttpdObject.MainHttpServer.constructor | lib/ps_main_httpd.py:13-22 | a new server has an empty fragment dictionary and no process |
| HttpdObject.MainHttpServer.AddConfig | lib/ps_main_httpd.py:24-27 | the object's new state and outcome are `addConfig`'s step |
| HttpdObject.MainHttpServer.UpdateConfig | lib/ps_main_httpd.py:29-31 | the object's new state and outcome are `updateConfig`'s step |
| HttpdObject.MainHttpServer.RemoveConfig | lib/ps_main_httpd.py:33-35 | the object's new state and outcome are `removeConfig`'s step |
| HttpdObject.MainHttpServer.RemoveIds | lib/ps_main_httpd.py:38-39 | the deleting loop leaves the dictionary the batch removal describes and reports how many ids it deleted |
| HttpdObject.MainHttpServer.BatchRemoveConfig | lib/ps_main_httpd.py:37-40 | the object's new state and outcome are `batchRemoveConfig`'s step |
| HttpdObject.MainHttpServer.Refresh | lib/ps_main_httpd.py:99-102 | the object's new state and outcome are `_refresh`'s step |
| HttpdObject.MainHttpServer.Start | lib/ps_main_httpd.py:42-47 | the object's new state and outcome are `start`'s step: assert no process, generate, launch, then as written raise on the missing wait helper, corrected succeed |
| HttpdObject.MainHttpServer.Stop | lib/ps_main_httpd.py:49-54 | the object's new state is `stop`'s: no process held |
| Api.ProxyLines | lib/ps_api_server.py:49-51 | one `ProxyPass` and one `ProxyPassReverse` line per url-map entry, in the map's order, both naming the entry's source and destination |
| Api.AsWrittenToApacheConfig | lib/ps_api_server.py:38-60 | a message without `domain-name` raises that field's error, one with it but without `url-map` raises the other; otherwise the fragment depends on exactly the two proxy modules |
| Api.ToApacheConfig | lib/ps_api_server.py:38-60 | the same error cases and module dependencies as written, the segment holding only the directives |
| Api.WriteProxyLines | lib/ps_api_server.py:49-51 | the loop over the url map appends exactly the proxy lines, each indented, one per line |
| Api.AsWrittenBuildFragment | lib/ps_api_server.py:41-60 | building the buffer step by step gives the as-written fragment, or its error |
| Api.BuildFragment | lib/ps_api_server.py:41-60 | building the directives step by step gives the corrected fragment, or its error |
| Api.AsWrittenSegmentText | lib/ps_api_server.py:46-53 | the as-written segment is the opening tag, the indented `ServerName` and proxy lines, the closing tag and a blank line |
| Api.SegmentLines | lib/ps_api_server.py:48-51 | for single-line fields the corrected segment splits into exactly the directive lines |
| Api.CorrectedBlockLines | lib/ps_main_httpd.py:91-95 | inside the main configuration a corrected fragment becomes the opening tag, its directives indented and the closing tag |
| Api.CorrectedOpensOnce | lib/ps_api_server.py:46-53 | the block of a corrected fragment opens exactly one virtual-host section, on its first line |
| Api.AsWrittenFirstLine | lib/ps_api_server.py:47 | the as-written segment starts with its own `<VirtualHost *>` line |
| Api.AsWrittenNestsVirtualHosts | lib/ps_api_server.py:47 | as written, the main server wraps the fragment so that its first two lines both open a virtual-host section |
| Api.ProxyPairs | lib/ps_api_server.py:55-59 | every dependency pair of proxy fragments is one of the two proxy modules |
| Api.ProxyPairsConsistent | lib/ps_api_server.py:55-59 | the proxy dependencies agree with the base modules and with each other |
| Api.ProxyStoreGenerates | lib/ps_main_httpd.py:66-71 | a store holding only proxy fragments always passes the merge assertion |
| Api.ProxyKeyInjective | lib/ps_api_server.py:31 | two sockets with different descriptors get different `proxy-<fd>` ids |
| Api.RegisteredKeys | lib/ps_api_server.py:16 | the keys handed to the batch removal are exactly the `proxy-<fd>` ids of the clients that have sent a message |
| Api.RegisteredKeysDistinct | lib/ps_api_server.py:16 | those keys are pairwise distinct |
| Api.SharedStoreGenerates | lib/ps_main_httpd.py:66-71 | a store shared with other fragments passes the merge assertion whenever its proxy fragments carry the proxy modules and the other fragments' dependencies agree with the base modules, the proxy modules and each other |
| Api.NoStrayFragment | lib/ps_api_server.py:19-22 | a socket that is not a client has no fragment in the store |
| Api.InitialInv | lib/ps_api_server.py:10-13 | no clients over a main server whose fragments are the servers' own, agree with each other, the base and the proxy modules, and use no `proxy-<fd>` or socket key satisfy the invariant: one `proxy-<fd>` fragment per client that has sent a message, built from its last message, the other fragments left to their owners |
| Api.RefreshSharedStore | lib/ps_main_httpd.py:99-102 | a refresh over such a shared store never fails and keeps the store |
| Api.InvRefreshes | lib/ps_main_httpd.py:99-102 | under the invariant the main server reloads without error and keeps its store |
| Api.AppearKeepsInv | lib/ps_api_server.py:19-22 | a known socket fails the assertion and changes nothing; a new one is appended without a message and the store is untouched; the invariant holds |
| Api.NotifyKeepsInv | lib/ps_api_server.py:30-36 | a notification succeeds exactly when both fields are present, then records the message and adds or updates that client's fragment; on error nothing changes; the invariant holds |
| Api.DisappearKeepsInv | lib/ps_api_server.py:24-28 | a client that goes away is dropped along with its fragment, and the invariant holds |
| Api.RegisteredCoverStore | lib/ps_api_server.py:15-16 | of the stored fragments, those under a key the disposal passes are exactly the `proxy-<fd>` ones |
| Api.RegisteredRemoved | lib/ps_api_server.py:15-16 | the batch over the registered keys removes exactly them and refreshes |
| Api.DisposeClears | lib/ps_api_server.py:15-17 | disposal succeeds, removes exactly the registered clients' `proxy-<fd>` fragments, keeps every other fragment of the shared store with its value, and leaves the clients as they were |
| Api.AsWrittenNotifyNeverRegisters | lib/ps_api_server.py:33 | as written, calling `self._toApacheConfig(data)` on a function without `self` raises `TypeError` and changes nothing, where the corrected handler stores the fragment |
| Api.AsWrittenDisappearLeaks | lib/ps_api_server.py:27 | as written, a registered client's disconnect removes the bare descriptor, so its fragment stays: with nothing under that number it raises `KeyError` and changes nothing, otherwise it deletes that other fragment instead |
| Api.AsWrittenDisposeFails | lib/ps_api_server.py:16 | as written, disposal with any client connected passes sockets as ids and raises `KeyError` |
| ApiObject.ApiServer.constructor | lib/ps_api_server.py:10-13 | a new API server has no clients and shares the main server |
| ApiObject.ApiServer.ClientAppear | lib/ps_api_server.py:19-22 | the object's new state and outcome are `_clientAppearFunc`'s step |
| ApiObject.ApiServer.ClientNotify | lib/ps_api_server.py:30-36 | the object's new state, and the main server's, are `_clientNotifyFunc`'s step |
| ApiObject.ApiServer.ClientDisappear | lib/ps_api_server.py:24-28 | the object's new state, and the main server's, are `_clientDisappearFunc`'s step |
| ApiObject.ApiServer.Dispose | lib/ps_api_server.py:15-17 | the main server's new state is `dispose`'s step |
| Text.PathJoin | lib/ps_server.py:34 | `os.path.join(a, b)` gives `b` when `b` is absolute; otherwise it starts with `a` and ends with `b`, with one `/` between them exactly when `a` is non-empty and does not already end with one, and nothing between them otherwise |
| Text.IndexOf | lib/ps_util.py:240-241 | `s.find(sub)` is the first position where `sub` occurs, or none when it never occurs |
| Text.LastIndexOf | lib/ps_util.py:49 | the last position where `sub` occurs, the one `rsplit` with a count of one splits at, or none |
| Text.ReplaceAllKeepsSuffix | lib/ps_server.py:41 | replacing every occurrence of a word that cannot overlap itself turns a trailing occurrence into the replacement |
| Text.Split | lib/ps_util.py:538 | `s.split(c)` always yields at least one part |
| Text.SplitParts | lib/ps_util.py:538 | no part of `s.split(c)` holds `c`, and joining the parts with `c` gives `s` back |
| Text.SplitUnlines | lib/ps_main_httpd.py:73-76 | text written as newline-terminated lines splits back into those lines and an empty tail |
| Text.IndentLines | lib/ps_main_httpd.py:93 | prefixing `p` and replacing every line break by a line break and `p` prefixes `p` to every line |
| Text.DecStr | lib/ps_api_server.py:31 | `%d` of a natural number is a non-empty string of decimal digits |
| Text.DecRoundTrip | lib/ps_api_server.py:31 | reading the digits of `%d` back gives the number |
| Text.DecStrInjective | lib/ps_api_server.py:31 | different numbers print differently |
| Text.LexLeTotal | old/virtualfs.py:141 | the string order `sorted` uses is total |
| Text.LexLeTrans | old/virtualfs.py:141 | the string order `sorted` uses is transitive |
| Text.Insert | old/virtualfs.py:141 | inserting into a sorted list keeps it sorted and adds exactly the one element |
| Text.Sort | old/virtualfs.py:141 | `sorted(xs)` is in ascending order and is a permutation of `xs` |
| PsUtil.IsPathOverlap | lib/ps_util.py:52-56 | the answer is true if and only if some listed path equals `path`, lies under it or lies above it; never for an empty list; always when `path` is listed |
| PsUtil.OverlapSymmetric | lib/ps_util.py:54 | whether two paths overlap does not depend on which one is being added |
| PsUtil.RReplaceOnce | lib/ps_util.py:47-49 | with a count of one only the last occurrence of `sub` is replaced, and a string without `sub` comes back unchanged |
| PsUtil.RReplaceSuffix | lib/ps_util.py:47-49 | a string ending in `sub` loses exactly that suffix, replaced by `dst` |
| PsUtil.Strip | lib/ps_util.py:242 | `strip()` is empty exactly for an all-blank string; otherwise it neither starts nor ends with a blank; it is the input with a run of blanks cut from each end, so it is a slice `s[i..j]` of the input with only blanks before `i` and after `j` |
| PsUtil.BeforeComment | lib/ps_util.py:240-241 | the text before the first `#` is a prefix of the line without `#`, followed in the line by `#` when shorter |
| PsUtil.LineWithoutBlankAndComment | lib/ps_util.py:239-243 | `None` exactly when the line is blank up to its comment; otherwise a non-empty text without `#` and without blanks at either end, namely the part of the line before its first `#` with the blank runs at both ends cut off |
| DirRegistry.CheckNameAndRealPath | lib/ps_slave_servers.py:261-268 | a name and directory are accepted if and only if the name is new, the path is absolute without a trailing slash, and it overlaps no registered directory |
| DirRegistry.CheckIffWellFormed | lib/ps_slave_servers.py:261-268 | for a new name the check accepts exactly the directories that keep the registry well formed: absolute, no trailing slash, pairwise non-overlapping |
| DnsName.ToAscii | lib/ps_util.py:534 | IDNA `ToASCII` of an ASCII name succeeds exactly for lengths 1 to 63 and leaves the name unchanged |
| DnsName.EncodeLabels | lib/ps_util.py:538-542 | length-prefixing each label succeeds exactly when every label is shorter than 256 octets, and ends with a zero octet |
| DnsName.EncodeRdata | lib/ps_util.py:536-543 | the loop that appends length and label for each part computes the RDATA encoding |
| DnsName.RdataLength | lib/ps_util.py:536-543 | an encoded name is two octets longer than the name |
| DnsName.RdataDefinedIffAscii | lib/ps_util.py:536-543 | the encoding fails exactly when `ToASCII` does, so the one-octet length can never overflow |
| DnsName.DecodeEncodeLabels | lib/ps_util.py:538-542 | decoding the length-prefixed labels gives the labels back |
| DnsName.RdataRoundTrip | lib/ps_util.py:536-543 | decoding the RDATA of a name without empty labels gives its dot-separated labels, which join back into the name |
| Avahi.CnameRecord | lib/ps_util.py:472-479 | each record is added for any interface and protocol, with class IN, type CNAME, TTL 60, the domain's encoded name and the host's RDATA |
| Avahi.AddDomainName | lib/ps_util.py:405-407 | `add_domain_name` appends the name and changes nothing else |
| Avahi.RecordsFor | lib/ps_util.py:471-479 | the records of a registration exist exactly when every domain name encodes; then there is one CNAME record per domain, in order, all pointing at the host |
| Avahi.Unregister | lib/ps_util.py:487-502 | `_unregister` cancels the retry timer and drops the entry group, whatever the group's state, and changes nothing else |
| Avahi.RegisterKeepsInv | lib/ps_util.py:464-485 | with a server held and nothing registered, `_register` never raises: it keeps a committed group or arms the retry timer, keeping the invariant (a group or retry timer only with a server, a create timer only with nothing held) |
| Avahi.CreateServerKeepsInv | lib/ps_util.py:437-448 | with nothing held, the corrected `_createServer` never raises and keeps the invariant |
| Avahi.InvPreserved | lib/ps_util.py:409-531 | every event the object can receive keeps the invariant in the corrected machine |
| Avahi.RaiseChangesNothing | lib/ps_util.py:423-513 | an event that fails an assertion in the corrected machine changes no field |
| Avahi.TimersNeverRaise | lib/ps_util.py:519-531 | a pending timer fires without an assertion failure, as the comments on both timeouts claim |
| Avahi.RunKeepsInv | lib/ps_util.py:409-531 | any sequence of enabled events keeps the invariant |
| Avahi.ReachableInv | lib/ps_util.py:394-403 | every state reachable from a new object satisfies the invariant |
| Avahi.UnregisterIdempotent | lib/ps_util.py:487-502 | `_unregister` twice is `_unregister` once |
| Avahi.RegisterRecords | lib/ps_util.py:464-481 | a registration that ends holding a group has read the host name, encoded it, and added one CNAME record per domain, in order |
| Avahi.RegisterFailureRetries | lib/ps_util.py:482-485 | a registration that fails at any D-Bus call holds no group and arms the retry timer |
| Avahi.StopClears | lib/ps_util.py:416-421 | `stop` succeeds and drops the server, the group, both timers and the owner watch, so a second `stop` changes nothing |
| Avahi.OwnerChanges | lib/ps_util.py:423-435 | when the daemon appears with no server held the server is created; when it vanishes everything is released; any other change of the daemon's name fails the assertion |
| Avahi.GroupStates | lib/ps_util.py:504-513 | uncommitted, registering and established change nothing; a collision drops the group and arms the retry; failure and unknown states fail the assertion |
| Avahi.AsWrittenCreateServerEscapes | lib/ps_util.py:440-448 | as written, a refused signal connection after a successful registration makes `_releaseServer`'s assertion escape with the server and group still held; corrected, the server is released and a retry armed |
| Avahi.AsWrittenReachesTrap | lib/ps_util.py:440-448 | as written, a start where the group and the signal are both refused ends with both retry timers pending and no server, which breaks the invariant |
| Avahi.AsWrittenTrapIsPermanent | lib/ps_util.py:519-531 | from that state, each timer firing returns to the same state while the daemon runs, so the domain names are never registered |
| AvahiRegister.DomainNameRegister.constructor | lib/ps_util.py:394-403 | a new object holds nothing and watches nothing |
| AvahiRegister.DomainNameRegister.AddDomainName | lib/ps_util.py:405-407 | the object's new fields are `add_domain_name`'s |
| AvahiRegister.DomainNameRegister.Start | lib/ps_util.py:409-414 | the object's new fields and outcome are `start`'s step, and the invariant is kept |
| AvahiRegister.DomainNameRegister.Stop | lib/ps_util.py:416-421 | the object's new fields and outcome are `stop`'s step |
| AvahiRegister.DomainNameRegister.OnNameOwnerChanged | lib/ps_util.py:423-435 | the object's new fields and outcome are `onNameOwnerChanged`'s step, and the invariant is kept |
| AvahiRegister.DomainNameRegister.CreateServer | lib/ps_util.py:437-448 | the object's new fields and outcome are the corrected `_createServer`'s step |
| AvahiRegister.DomainNameRegister.ReleaseServer | lib/ps_util.py:450-455 | the object's new fields and outcome are `_releaseServer`'s step |
| AvahiRegister.DomainNameRegister.OnServerStateChanged | lib/ps_util.py:457-462 | the object's new fields and outcome are `onSeverStateChanged`'s step, and the invariant is kept |
| AvahiRegister.DomainNameRegister.RegisterAttempt | lib/ps_util.py:466-481 | the body of `_register`'s `try` succeeds exactly when every D-Bus call does, and then holds the group with its records |
| AvahiRegister.DomainNameRegister.AddRecords | lib/ps_util.py:471-479 | the loop adds one record per domain, and fails on the first name that does not encode or the first refused `AddRecord` |
| AvahiRegister.DomainNameRegister.Register | lib/ps_util.py:464-485 | the object's new fields and outcome are `_register`'s step |
| AvahiRegister.DomainNameRegister.Unregister | lib/ps_util.py:487-502 | the object's new fields are `_unregister`'s |
| AvahiRegister.DomainNameRegister.OnEntryGroupStateChanged | lib/ps_util.py:504-513 | the object's new fields and outcome are `onEntryGroupStateChanged`'s step, and the invariant is kept |
| AvahiRegister.DomainNameRegister.RetryCreateServer | lib/ps_util.py:515-517 | the object's new fields and outcome are `_retryCreateServer`'s step |
| AvahiRegister.DomainNameRegister.TimeoutCreateServer | lib/ps_util.py:519-522 | the object's new fields and outcome are the create timer's step, and the invariant is kept |
| AvahiRegister.DomainNameRegister.RetryRegisterService | lib/ps_util.py:524-526 | the object's new fields and outcome are `_retryRegisterService`'s step |
| AvahiRegister.DomainNameRegister.TimeoutRegisterService | lib/ps_util.py:528-531 | the object's new fields and outcome are the register timer's step, and the invariant is kept |
| SlaveServers.GeneratedFiles | lib/ps_slave_servers.py:106-131 | after `_generateFiles` every git directory has its htdigest and WSGI file names under the temporary directory, and no other entry changes |
| SlaveServers.NoVirtualHost | lib/ps_slave_servers.py:137-158 | lines without an opening `<VirtualHost *>` name no virtual host |
| SlaveServers.FileBlocksNames | lib/ps_slave_servers.py:160-169 | the file-directory blocks declare one virtual host per name, in dictionary order |
| SlaveServers.GitBlocksNames | lib/ps_slave_servers.py:171-176 | the git blocks declare one virtual host per name, in dictionary order |
| SlaveServers.HeaderNames | lib/ps_slave_servers.py:137-158 | the fixed header (modules, logs, listener, root directory) declares no virtual host and ends with a blank line |
| SlaveServers.HttpConfigHosts | lib/ps_slave_servers.py:133-179 | the generated configuration declares exactly the file names and then the git names as virtual hosts, each once, in order |
| SlaveServers.FtpSelected | lib/ps_slave_servers.py:198-204 | the FTP start serves `fpemud-distfiles.local` when registered and otherwise requires exactly one directory, failing the assertion otherwise |
| SlaveServers.TmpDictSelected | lib/ps_slave_servers.py:199-204 | the temporary dictionary holds exactly the selected directory |
| SlaveServers.FtpStartServesOne | lib/ps_slave_servers.py:195-217 | the FTP start succeeds exactly when nothing runs yet, a directory is selectable, the port it waits on and the FTP port are known and the libexec directory (read at :215, before the launch) is defined; it then runs one daemon, for the selected directory on the FTP port, with a configuration the daemon accepts |
| SlaveServers.FtpCfgLoads | lib/ps_slave_servers.py:208-214 | the configuration handed to the FTP daemon names the directory and port and passes the daemon's own loader |
| SlaveServers.AsWrittenFtpProbesGitPort | lib/ps_slave_servers.py:216 | as written, the start waits on the git port, which is not the port the FTP daemon was given |
| SlaveServers.FtpProbesOwnPort | lib/ps_slave_servers.py:213-216 | corrected, the start waits on the port it gave the daemon |
| SlaveServers.GitStartServesOne | lib/ps_slave_servers.py:238-253 | the git start succeeds exactly when nothing runs yet, one directory is registered and the git port is known; it then runs `git-daemon` on that port with that base path |
| SlaveServers.MissingPortsFailStart | lib/ps_slave_servers.py:213-215 | with the constants as defined, without FTP or git port or libexec directory, neither the FTP nor the git start can succeed |
| SlaveServers.Route | lib/ps_slave_servers.py:22-43 | one pass of the registration loop keeps every sub-server's dictionaries consistent |
| SlaveServers.RegisterAdvs | lib/ps_slave_servers.py:22-43 | the loop over one server's advertise types keeps them consistent |
| SlaveServers.RegisterAll | lib/ps_slave_servers.py:21-43 | the loop over all servers, reading each server's advertise types as the corrected code does, keeps them consistent |
| SlaveServers.RouteRejects | lib/ps_slave_servers.py:43 | a pair of server type and advertise type other than the four known ones fails `assert False` and changes nothing |
| SlaveServers.RoutePlaces | lib/ps_slave_servers.py:23-42 | a successful pass creates the sub-server when absent and registers the directory under its domain name with it, losing nothing registered before |
| SlaveServers.RegisterAdvsPlaces | lib/ps_slave_servers.py:22-42 | after a server's advertise types are registered, each is placed with its sub-server |
| SlaveServers.RegisterAllPlaces | lib/ps_slave_servers.py:21-42 | after the registration loop succeeds, every advertise type of every server is placed with its sub-server |
| SlaveServers.HttpAddKeepsInv | lib/ps_slave_servers.py:81-90 | adding a file or git directory keeps the HTTP server's registries well formed, with git file entries exactly for the git names |
| SlaveServers.RouteKeepsInv | lib/ps_slave_servers.py:22-43 | whatever a pass does, every registry stays well formed |
| SlaveServers.RegisterAdvsKeepsInv | lib/ps_slave_servers.py:22-43 | the loop over one server keeps every registry well formed |
| SlaveServers.RegisterAllKeepsInv | lib/ps_slave_servers.py:21-43 | the registration loop keeps every registry well formed |
| SlaveServers.StartAllStarts | lib/ps_slave_servers.py:45-51 | a successful start leaves the HTTP server running and one FTP and one git daemon, for each sub-server present |
| SlaveServers.AsWrittenConstructFails | lib/ps_slave_servers.py:21-22 | as written, the first read of `advertiseTypeList`, which `PsServer` (lib/ps_server.py:24-53) never sets, raises `AttributeError` before any sub-server exists, whatever the constants; with no server the constructor starts nothing and succeeds |
| SlaveServers.MissingConstsFailConstruct | lib/ps_slave_servers.py:14-51 | with the constants as defined, a construction whose registration succeeds and that advertises any server over FTP or git raises, as written and corrected |
| SlaveServers.MissingPortsFailStartAll | lib/ps_slave_servers.py:45-51 | with an FTP or git sub-server present the start sequence raises under the constants as defined |
| SlaveServers.DisposeStopsAll | lib/ps_slave_servers.py:53-59 | `dispose` stops every sub-server present: HTTP no longer running, no FTP or git process left, registries unchanged |
| SlaveObjects.HttpServer.constructor | lib/ps_slave_servers.py:64-79 | a new HTTP server has empty registries and no process |
| SlaveObjects.HttpServer.AddFileDir | lib/ps_slave_servers.py:81-84 | the object's new fields and outcome are `addFileDir`'s step |
| SlaveObjects.HttpServer.AddGitDir | lib/ps_slave_servers.py:86-90 | the object's new fields and outcome are `addGitDir`'s step |
| SlaveObjects.HttpServer.Start | lib/ps_slave_servers.py:92-98 | the object's new fields and outcome are `start`'s step |
| SlaveObjects.HttpServer.Stop | lib/ps_slave_servers.py:100-104 | the object's new fields are `stop`'s |
| SlaveObjects.HttpServer.GenerateFiles | lib/ps_slave_servers.py:106-131 | the loop records the generated file names of every git directory |
| SlaveObjects.HttpServer.GenerateCfg | lib/ps_slave_servers.py:133-179 | the written configuration is the header, the file blocks and the git blocks |
| SlaveObjects.WithGitFiles | lib/ps_slave_servers.py:111-131 | the loop over the git directories gives each its file names and keeps the other entries |
| SlaveObjects.AppendFileBlocks | lib/ps_slave_servers.py:160-169 | the loop appends one file block per directory, in order |
| SlaveObjects.AppendGitBlocks | lib/ps_slave_servers.py:171-176 | the loop appends one git block per directory, in order |
| SlaveObjects.FtpServer.constructor | lib/ps_slave_servers.py:184-188 | a new FTP server has no directory and no process |
| SlaveObjects.FtpServer.AddFileDir | lib/ps_slave_servers.py:190-193 | the object's new fields and outcome are `addFileDir`'s step |
| SlaveObjects.FtpServer.Start | lib/ps_slave_servers.py:195-217 | the object's new fields and outcome are `start`'s step |
| SlaveObjects.FtpServer.Stop | lib/ps_slave_servers.py:219-222 | the object holds no process afterwards |
| SlaveObjects.GitServer.constructor | lib/ps_slave_servers.py:227-231 | a new git server has no directory and no process |
| SlaveObjects.GitServer.AddGitDir | lib/ps_slave_servers.py:233-236 | the object's new fields and outcome are `addGitDir`'s step |
| SlaveObjects.GitServer.Start | lib/ps_slave_servers.py:238-253 | the object's new fields and outcome are `start`'s step |
| SlaveObjects.GitServer.Stop | lib/ps_slave_servers.py:255-258 | the object holds no process afterwards |
| SlaveObjects.PsSlaveServers.constructor | lib/ps_slave_servers.py:14-18 | no sub-server exists before registration |
| SlaveObjects.PsSlaveServers.Setup | lib/ps_slave_servers.py:14-51 | registration and start leave the objects in the state `__init__` computes, or raise as it does: as written on the first server's `advertiseTypeList`, corrected where the dispatch or a start raises |
| SlaveObjects.PsSlaveServers.RegisterServers | lib/ps_slave_servers.py:21-43 | the registration loop creates only fresh sub-servers and leaves the registration step: as written `AttributeError` with nothing created for any server, corrected the loop over all servers |
| SlaveObjects.PsSlaveServers.RegisterServer | lib/ps_slave_servers.py:22-43 | the inner loop over one server's advertise types leaves the step of registering them in order, stopping at the first that raises |
| SlaveObjects.PsSlaveServers.Dispatch | lib/ps_slave_servers.py:22-43 | one pass of the registration loop, creating a sub-server only when absent |
| SlaveObjects.PsSlaveServers.HttpAdd | lib/ps_slave_servers.py:23-27 | the HTTP branch: create the server when absent and add the file or git directory |
| SlaveObjects.PsSlaveServers.FtpAdd | lib/ps_slave_servers.py:28-32 | the FTP branch: create the server when absent and add the directory |
| SlaveObjects.PsSlaveServers.GitAdd | lib/ps_slave_servers.py:38-42 | the git branch: create the server when absent and add the directory |
| SlaveObjects.PsSlaveServers.StartEach | lib/ps_slave_servers.py:45-51 | the sub-servers are started HTTP, FTP, git, stopping at the first that raises |
| SlaveObjects.PsSlaveServers.Dispose | lib/ps_slave_servers.py:53-59 | the sub-servers' new state is `dispose`'s |
| OldFtp.HeaderOpensNothing | old/code.py:35-48 | the fixed ProFTPD header opens no `<VirtualHost>` and no `<Anonymous>` section |
| OldFtp.BlockOpens | old/code.py:59-72 | one block opens exactly the virtual host named after the domain and the anonymous section of its directory |
| OldFtp.ProFtpConfigHosts | old/code.py:34-72 | the configuration opens exactly one virtual host, for the selected domain, serving its directory anonymously, listening on the FTP port, and denies writes |
| OldFtp.ProFtpStartServesOne | old/code.py:21-26 | the ProFTPD start succeeds exactly when nothing runs, the FTP port is known and a directory is selectable (`fpemud-distfiles.local`, or the only one); it then runs with a configuration for that directory |
| OldFtp.AsWrittenProFtpStartFails | old/code.py:44 | with the constants as defined there is no FTP port, so the start raises `AttributeError` and changes nothing |
| OldFtp.ProFtpStopIdempotent | old/code.py:28-32 | after `stop` nothing runs, the directories are kept, and a second `stop` changes nothing |
| OldFtp.ProFtpServer.constructor | old/code.py:4-14 | a new ProFTPD server has no directory and no process |
| OldFtp.ProFtpServer.AddFileDir | old/code.py:16-19 | the object's new fields and outcome are `addFileDir`'s step |
| OldFtp.ProFtpServer.Start | old/code.py:21-26 | the object's new fields and outcome are `start`'s step |
| OldFtp.ProFtpServer.GenerateCfg | old/code.py:34-75 | the text the loop writes, or the failure it raises, is the one the start step computes |
| OldFtp.ProFtpServer.Stop | old/code.py:28-32 | the object's new fields are `stop`'s |
| PsServers.ServerIdStripsSuffix | lib/ps_server.py:17-18 | a server's id is its file's base name with the final `.server` removed |
| PsServers.PrivateBorderless | lib/ps_server.py:41 | `.private` cannot overlap itself, so replacing it everywhere turns the trailing `.private` into `.local` |
| PsServers.NewServerOkIff | lib/ps_server.py:24-51 | a server file is accepted if and only if its domain name is a string ending in `.private` and its server type names a loaded plugin |
| PsServers.NewServerAccepted | lib/ps_server.py:31-51 | an accepted server keeps its id, has its data directory under the var directory, a `.local` domain name, a known type, and the file's other keys unchanged |
| PsServers.NewServerErrorOrder | lib/ps_server.py:38-47 | a missing domain name raises `KeyError`, a domain name not ending in `.private` raises its exception, then a missing server type raises `KeyError`, in that order |
| PsServers.LoadAllKeepsInv | lib/ps_server.py:16-19 | loading keeps every stored server well formed, keeps the servers loaded before, and when it completes every file has its server under its id |
| PsServers.PutKeepsInv | lib/ps_server.py:19 | storing a well-formed server under its own id keeps the dictionary well formed |
| PsServers.ServerManager.constructor | lib/ps_server.py:13-14 | a new manager has no servers |
| PsServers.ServerManager.LoadServers | lib/ps_server.py:16-19 | the loop over the server files leaves the dictionary and outcome the loading function computes |
| PsServers.StopOnce | lib/ps_server.py:61-65 | `stop` hands the plugin's runtime data back exactly once, then forgets it; a second `stop`, or one before any start, does nothing |
| PsServers.PsServer.constructor | lib/ps_server.py:24-54 | a new server holds no runtime data |
| PsServers.PsServer.Start | lib/ps_server.py:56-59 | the server keeps the runtime data the plugin returned |
| PsServers.PsServer.Stop | lib/ps_server.py:61-65 | the object's new fields are `stop`'s |
| Ftpd.FirstMissing | libexec/ftpd.py:19-30 | the index of the first required key the configuration lacks, or none when all are present |
| Ftpd.LoadCfgReportsFirstMissing | libexec/ftpd.py:15-32 | loading raises the error naming the first missing key in the order `logFile`, `logMaxBytes`, `logBackupCount`, `ip`, `port`, `dir`; with all present it checks the directory |
| Ftpd.LoadCfgOkIff | libexec/ftpd.py:15-32 | loading succeeds if and only if all six keys are present and `dir` is an absolute path without a trailing slash |
| Ftpd.ExtraKeysIgnored | libexec/ftpd.py:15-32 | keys other than the six do not change the verdict |
| Ftpd.AbsentDirIsMissing | libexec/ftpd.py:29-32 | a configuration without `dir` fails on a missing key, never on an invalid directory |
| VirtualFs.Translate | old/virtualfs.py:143-160 | the shared search answers nothing exactly when the path lies at or below no directory of the pairs; otherwise the first pair in dictionary order whose first side holds the path decides, and the result is the path with that leading side replaced by the pair's other side, as `path.replace(prefix, real, 1)` does |
| VirtualFs.TranslateRoundTrip | old/virtualfs.py:143-160 | when the directories on both sides are apart, translating one way and back gives the path again |
| VirtualFs.FlipFlip | old/virtualfs.py:146-159 | swapping the sides of the pairs twice gives them back |
| VirtualFs.InRangeUnder | old/virtualfs.py:162-169 | a real path is in range exactly when it lies at or below some mounted real path |
| VirtualFs.RpathInRangeIff | old/virtualfs.py:153-169 | `_rpathInRange` holds exactly when `_rpath2path` does not fail its assertion |
| VirtualFs.PlainNamesApart | old/virtualfs.py:147-149 | site paths of two different names without `/` never overlap |
| VirtualFs.PathRoundTrip | old/virtualfs.py:143-160 | with non-overlapping real paths, a site path translated to its real path translates back to itself |
| VirtualFs.RpathRoundTrip | old/virtualfs.py:143-160 | a real path that translates to an FTP path gives an absolute non-root path that translates back to it |
| VirtualFs.CountOf | old/virtualfs.py:137 | `s.count(c)` is zero exactly when `c` does not occur, and at most the length |
| VirtualFs.SiteDirIff | old/virtualfs.py:134-137 | an absolute path other than the root is a site directory exactly when it has no further `/` |
| VirtualFs.SitePathsOfNames | old/virtualfs.py:134-137 | "/name" is a site directory and anything below it is not |
| VirtualFs.ListRootDirLists | old/virtualfs.py:139-141 | the root lists every site name exactly once, in ascending order |
| VirtualFs.VirtualDirsAnswer | old/virtualfs.py:75-122 | the root and the site directories are directories that exist, neither files nor links, and their own real path, whatever the real file system holds |
| VirtualFs.UnmappedNotFound | old/virtualfs.py:143-151 | a path under no site raises `FileNotFoundError` |
| VirtualFs.ValidPathIffRealPath | old/virtualfs.py:6-12 | the root is valid; any other non-virtual path is valid exactly when its real path resolves back into the tree |
| VirtualFs.RealPathIdentity | old/virtualfs.py:109-116 | a path whose real path is already resolved is its own `realpath` |
| PsClient.AsWrittenRegisterParamAlwaysFails | python3/pservers/client.py:163-169 | as written, every call fails an assertion: a string domain name is also checked to be an `int` as soon as a port is given, and one port must be given |
| PsClient.RegisterParamOkIff | python3/pservers/client.py:163-169 | corrected, the parameters are accepted if and only if the domain name is a string, at least one port is given, and every given port lies between 1 and 65535 |
| PsClient.RegisterParamContents | python3/pservers/client.py:171-179 | the message holds the domain name and exactly the ports that were given |
| PsClient.SimpleRegisterDelivers | python3/pservers/client.py:53-56 | as written, `SimpleClient.register` always raises; corrected, it sends the message exactly when the parameters are accepted and the send succeeds |
| PsClient.InitialInv | python3/pservers/client.py:76-83 | a new client satisfies the invariant: a socket exactly when a watch, and never a socket and a retry timer together |
| PsClient.CreateSocketFromIdle | python3/pservers/client.py:109-125 | from an idle client `_createSocket` never raises: it connects when the socket file exists and the connection succeeds, and arms the retry timer otherwise |
| PsClient.SendDataConnected | python3/pservers/client.py:135-147 | on a connected client `_register` never raises; corrected, a successful send delivers the message once |
| PsClient.CorrectedNeverFails | python3/pservers/client.py:85-157 | every enabled event keeps the invariant, and only `register` with bad parameters raises, changing nothing |
| PsClient.AsWrittenTimeoutFails | python3/pservers/client.py:153-157 | as written, a retry whose reconnection fails calls `_register` without a socket and fails its assertion; corrected, it does not |
| PsClient.AsWrittenSendDrops | python3/pservers/client.py:141-147 | as written, `.encode` on the message dictionary raises inside the `try`, so a connected client drops its connection and retries instead of sending |
| PsClient.RegisterDelivers | python3/pservers/client.py:98-101 | `register` records the message and, when connected and the send succeeds, delivers it |
| PsClient.StartDelivers | python3/pservers/client.py:85-88 | `start` on an idle client with a pending message connects and delivers it |
| PsClient.StopClears | python3/pservers/client.py:90-96 | `stop` drops the message, the timer, the socket and its watch, a second `stop` changes nothing, and `start` is enabled again |
| PsClientObject.PersistClientGLib.constructor | python3/pservers/client.py:76-83 | a new client has no socket, watch, timer or message |
| PsClientObject.PersistClientGLib.RetryCreateSocket | python3/pservers/client.py:149-151 | the object's new fields and outcome are `_retryCreateSocket`'s step |
| PsClientObject.PersistClientGLib.CloseSocket | python3/pservers/client.py:127-133 | the object's new fields are `_closeSocket`'s |
| PsClientObject.PersistClientGLib.CreateSocket | python3/pservers/client.py:109-125 | the object's new fields and outcome are `_createSocket`'s step |
| PsClientObject.PersistClientGLib.SendData | python3/pservers/client.py:135-147 | the object's new fields and outcome are `_register`'s step |
| PsClientObject.PersistClientGLib.Start | python3/pservers/client.py:85-88 | the object's new fields and outcome are `start`'s step |
| PsClientObject.PersistClientGLib.Stop | python3/pservers/client.py:90-96 | the object's new fields are `stop`'s |
| PsClientObject.PersistClientGLib.Register | python3/pservers/client.py:98-101 | the object's new fields and outcome are `register`'s step |
| PsClientObject.PersistClientGLib.OnRecv | python3/pservers/client.py:103-107 | the object's new fields and outcome are `onRecv`'s step: close and retry |
| PsClientObject.PersistClientGLib.TimeoutCreateSocket | python3/pservers/client.py:153-157 | the object's new fields and outcome are the retry timer's step |

The FTP and git server classes of old/slave.py are the same code as
`_MultiInstanceFtpServer` and `_MultiInstanceGitServer` in
lib/ps_slave_servers.py, except that the older FTP start waits on the
FTP port (old/slave.py:36). They are modelled once, in `SlaveServers`.
The older copy's wait is the `Corrected` variant of `FtpStart`. The older
copy waits through `waitSocketPortForProc` (old/slave.py:36, 73), which
lib/ps_util.py does not define either.

## Left out

- Process control is not modelled: launching and terminating Apache, ProFTPD, the FTP daemon and `git-daemon`, waiting for their ports, `os.kill` with `SIGUSR1`, `ensureDir` and `forceDelete`. A process is represented by the configuration or argument list it was launched with, and a reload by a counter.
- File writes are not modelled: each generated configuration is kept as the text written to the file, and the htdigest and WSGI files as their names.
- JSON encoding and decoding and the socket framing of `UnixDomainSocketApiServer` are not modelled. A client socket is its descriptor, and a notification is the two fields the handlers read.
- D-Bus and GLib: every answer of the Avahi daemon during one event is a `Daemon` parameter, and a pending GLib timer or watch is a boolean. Signal delivery is assumed to reach only the objects still held.
- IDNA `ToASCII` is treated as the identity on ASCII names, with its length limits (1 to 63 octets). Non-ASCII names, and the Punycode and nameprep they would need, are not modelled.
- lib/ps_param.py defines none of `PsConst.ftpPort`, `PsConst.gitPort` and `PsConst.libexecDir`. The three are a `Consts` parameter, each optional, and `DefinedConsts` (none defined) is the configuration as shipped; reading an absent one raises `AttributeError`.
- Plugin loading (lib/ps_plugin.py) is not part of this model. The plugin names are a parameter, and a plugin's `start` and `stop` exchange opaque runtime data.
- `loadServers` takes the globbed file names and their parsed contents as parameters, in the order given. The order `glob` returns is not modelled.
- The `VirtualFS` methods that delegate to pyftpdlib or `os` without translating paths are not modelled: `open`, `mkstemp`, `chdir`, `listdir`, `stat`, `getsize`, `getmtime`, the user and group names. The real file system's answers are a `RealFs` parameter.
- `SimpleClient`'s socket connection and `close` are not modelled. Only `register` is, over a send that succeeds or raises.
- PsClientObject.PersistClientGLib.OnRecv: the `False` returned to GLib, which removes the watch, is not modelled as a return value. The watch is dropped in the state instead.
- ApiObject.ApiServer.Dispose: the base class's own `dispose`, which closes the sockets, is not modelled.
- Logging, `print` helpers and the daemon's command line and signal handling (lib/ps_daemon.py) are not part of this model. The daemon's start-up (lib/ps_daemon.py:72-74) hands the main server a fragment per server through `startAndGetMainHttpServerCfgSegment` and `addCfgSeg`, which no class defines; the API server's invariant therefore allows any such fragments in the shared store, under keys that are neither `proxy-<fd>` nor sockets, as long as their module dependencies agree.

## Findings

| source | as written | input that shows it | evidently intended | confidence | as-written member | corrected member |
|---|---|---|---|---|---|---|
| lib/ps_api_server.py:47 | the proxy segment starts with its own `<VirtualHost *>` and ends with `</VirtualHost>`, and the main server wraps every segment in another section | any notification with both fields | the segment holds only the directives, and the main server supplies the one section | not executed | Api.AsWrittenNestsVirtualHosts | Api.CorrectedOpensOnce |
| lib/ps_api_server.py:33 | `_toApacheConfig` is declared without `self` but called as `self._toApacheConfig(data)`, which raises `TypeError` | any notification from a connected client | a static helper, so the fragment is added | not executed | Api.AsWrittenNotifyNeverRegisters | Api.NotifyKeepsInv |
| lib/ps_api_server.py:27 | a registered client's fragment is removed under `sock.fileno()`, but it was stored under `"proxy-%d"`, so `KeyError` and the fragment stays | a client that sent one notification and disconnects | remove under `"proxy-%d" % sock.fileno()` | not executed | Api.AsWrittenDisappearLeaks | Api.DisappearKeepsInv |
| lib/ps_api_server.py:16 | `dispose` passes the client dictionary's keys, which are sockets, as configuration ids | dispose with one client connected | pass the `proxy-<fd>` ids of the clients that registered | not executed | Api.AsWrittenDisposeFails | Api.DisposeClears |
| lib/ps_util.py:445-448 | the handler of `_createServer` calls `_releaseServer` without `_unregister`. After a successful registration its assertion escapes; after a failed one both retry timers stay armed and every retry fails again | Avahi running, group creation refused or the signal connection refused | unregister before releasing the server | not executed | Avahi.AsWrittenReachesTrap | Avahi.InvPreserved |
| lib/ps_slave_servers.py:22 | the loop reads `serverObj.advertiseTypeList`, which `PsServer` (lib/ps_server.py:24-53) never sets, so `AttributeError` is raised before any sub-server exists | any non-empty server dictionary | read the server's list of advertise types | not executed | SlaveServers.AsWrittenConstructFails | SlaveServers.RegisterAllPlaces |
| lib/ps_slave_servers.py:213, 215 | `PsConst.ftpPort`, `PsConst.gitPort` and `PsConst.libexecDir` are not defined in lib/ps_param.py, so starting an FTP or git sub-server raises `AttributeError`, the FTP one before its daemon is launched | one server advertised over FTP | the ports and the libexec directory defined as constants | not executed | SlaveServers.MissingConstsFailConstruct | SlaveServers.StartAllStarts |
| lib/ps_main_httpd.py:47 | `start` waits through `PsUtil.waitSocketPortForProc`, which lib/ps_util.py does not define, so after writing the configuration and launching Apache it raises `AttributeError`, and every later `start` fails its assertion | `start` on a server with no process and an empty store | wait with `waitTcpServiceForProc` (lib/ps_util.py:277) | not executed | MainHttpd.AsWrittenStartRaises | MainHttpd.StartEffect |
| lib/ps_slave_servers.py:216 | the FTP start waits for the git port, not the port it gave the FTP daemon | FTP port 21, git port 9418 | wait on the FTP port, as old/slave.py:36 does | not executed | SlaveServers.AsWrittenFtpProbesGitPort | SlaveServers.FtpProbesOwnPort |
| python3/pservers/client.py:167 | the port checks assert `isinstance(domain_name, int)` right after asserting it is a string | `register("a.local", 80)` | check the port, `isinstance(http_port, int)` | not executed | PsClient.AsWrittenRegisterParamAlwaysFails | PsClient.RegisterParamOkIff |
| python3/pservers/client.py:142 | `self._data.encode("utf-8")` is called on a dictionary, so sending always raises and the client reconnects forever | a connected client with a registered message | send the JSON encoding of the message | not executed | PsClient.AsWrittenSendDrops | PsClient.SendDataConnected |
| python3/pservers/client.py:155-156 | the retry timer calls `_register` even when `_createSocket` did not connect, failing `assert self._sock is not None` | the retry fires while the socket file is still missing | register only when a socket was created | not executed | PsClient.AsWrittenTimeoutFails | PsClient.CorrectedNeverFails |
