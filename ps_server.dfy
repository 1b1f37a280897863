/** lib/ps_server.py: how a server is identified from its file name, the
    checks and rewrites applied to its configuration when it is loaded, the
    loading loop of `PsServerManager`, and the stop bookkeeping of
    `PsServer`. File reading and JSON decoding are abstracted: each file
    comes with the object decoded from it. */
module PsServers {
  import opened Wrappers
  import opened Text
  import opened PyDict
  import opened PsConst
  import opened PsUtil

  const ServerSuffix := ".server"
  const PrivateSuffix := ".private"
  const LocalSuffix := ".local"

  /** `os.path.basename(fn)`: what follows the last slash. */
  function Basename(fn: string): string {
    match LastIndexOf(fn, "/")
    case None => fn
    case Some(i) => fn[i + 1..]
  }

  /** The server id `loadServers` derives from a file name. */
  function ServerIdOf(fn: string): string {
    RReplace(Basename(fn), ServerSuffix, "", 1)
  }

  /** For every file the glob matches, the id is the base name without its
      final ".server". */
  lemma ServerIdStripsSuffix(fn: string)
    requires EndsWith(Basename(fn), ServerSuffix)
    ensures ServerIdOf(fn) == Basename(fn)[..|Basename(fn)| - |ServerSuffix|]
  {
    RReplaceSuffix(Basename(fn), ServerSuffix, "");
  }

  /** The fields `PsServer.__init__` sets from its arguments and the
      decoded configuration. */
  datatype ServerInfo = ServerInfo(
    id: string,
    dataDir: string,
    domainName: string,
    serverType: string,
    cfgDict: map<string, Value>)

  /** What `%s` prints for a decoded value. */
  function ValueStr(v: Value): string {
    match v
    case Str(s) => s
    case Int(i) => if i < 0 then "-" + DecStr(-i) else DecStr(i)
    case Other(text) => text
  }

  /** `PsServer.__init__` on a decoded configuration and the plugin names. */
  function NewServer(id: string, cfg: map<string, Value>, plugins: seq<string>): Result<ServerInfo, Exc> {
    var dataDir := PathJoin(VarDir, id);
    if "domain-name" !in cfg then Err(KeyError)
    else
      var dn := cfg["domain-name"];
      if !dn.Str? then Err(AttributeError)
      else if !EndsWith(dn.s, PrivateSuffix) then Err(Failure("server " + id + ": invalid domain-name " + dn.s))
      else
        var domainName := ReplaceAll(dn.s, PrivateSuffix, LocalSuffix);
        if "server-type" !in cfg then Err(KeyError)
        else
          var st := cfg["server-type"];
          if !(st.Str? && st.s in plugins) then Err(Failure("server " + id + ": invalid server type " + ValueStr(st)))
          else Ok(ServerInfo(id, dataDir, domainName, st.s, cfg - {"domain-name", "server-type"}))
  }

  /** ".private" cannot overlap itself, so replacing all its occurrences
      replaces the final one. */
  lemma PrivateBorderless()
    ensures Borderless(PrivateSuffix)
  {
    var w := PrivateSuffix;
    forall k | 0 < k < |w| ensures w[k..] != w[..|w| - k] {
      assert w[k..][0] == w[k] != '.';
      assert w[..|w| - k][0] == '.';
    }
  }

  /** A server is accepted exactly when its domain name is a string ending
      in ".private" and its type is the name of a plugin. */
  lemma NewServerOkIff(id: string, cfg: map<string, Value>, plugins: seq<string>)
    ensures NewServer(id, cfg, plugins).Ok? <==>
      && "domain-name" in cfg && cfg["domain-name"].Str? && EndsWith(cfg["domain-name"].s, PrivateSuffix)
      && "server-type" in cfg && cfg["server-type"].Str? && cfg["server-type"].s in plugins
  {
  }

  /** An accepted server: its domain name ends in ".local", its type is a
      plugin name, its data directory is named after its id, and its
      configuration is the decoded one without the two keys consumed. */
  lemma NewServerAccepted(id: string, cfg: map<string, Value>, plugins: seq<string>)
    requires NewServer(id, cfg, plugins).Ok?
    ensures var s := NewServer(id, cfg, plugins).value;
      && s.id == id
      && s.dataDir == PathJoin(VarDir, id)
      && EndsWith(s.domainName, LocalSuffix)
      && s.serverType in plugins
      && s.cfgDict.Keys == cfg.Keys - {"domain-name", "server-type"}
      && forall k :: k in s.cfgDict ==> s.cfgDict[k] == cfg[k]
  {
    PrivateBorderless();
    ReplaceAllKeepsSuffix(cfg["domain-name"].s, PrivateSuffix, LocalSuffix);
  }

  /** The checks come in order: a missing domain name before anything
      else, and a missing type only after the domain name passed. */
  lemma NewServerErrorOrder(id: string, cfg: map<string, Value>, plugins: seq<string>)
    ensures "domain-name" !in cfg ==> NewServer(id, cfg, plugins) == Err(KeyError)
    ensures "domain-name" in cfg && cfg["domain-name"].Str? && !EndsWith(cfg["domain-name"].s, PrivateSuffix)
            ==> NewServer(id, cfg, plugins).Err? && NewServer(id, cfg, plugins).error.Failure?
    ensures ("domain-name" in cfg && cfg["domain-name"].Str? && EndsWith(cfg["domain-name"].s, PrivateSuffix)
             && "server-type" !in cfg) ==> NewServer(id, cfg, plugins) == Err(KeyError)
  {
  }

  /** `loadServers`: each file in turn becomes a server stored under its
      id; the first file that is refused stops the loop, the servers
      stored before it staying. `cfgs[i]` is the object decoded from
      `fns[i]`. */
  function LoadAll(d: Dict<string, ServerInfo>, fns: seq<string>, cfgs: seq<map<string, Value>>, plugins: seq<string>)
    : (r: (Dict<string, ServerInfo>, Outcome))
    requires |fns| == |cfgs|
    decreases |fns|
  {
    if |fns| == 0 then (d, Done)
    else
      var id := ServerIdOf(fns[0]);
      match NewServer(id, cfgs[0], plugins)
      case Err(e) => (d, Raised(e))
      case Ok(s) => LoadAll(d.Put(id, s), fns[1..], cfgs[1..], plugins)
  }

  /** What holds of every server the manager stores. */
  ghost predicate ServersInv(d: Dict<string, ServerInfo>, plugins: seq<string>) {
    && d.Valid()
    && forall id :: id in d.m ==>
         && d.m[id].id == id
         && d.m[id].dataDir == PathJoin(VarDir, id)
         && EndsWith(d.m[id].domainName, LocalSuffix)
         && d.m[id].serverType in plugins
  }

  /** Loading, whether it completes or not, keeps every stored server
      well formed; when it completes, every file has its server. */
  lemma {:induction false} LoadAllKeepsInv(d: Dict<string, ServerInfo>, fns: seq<string>,
                                           cfgs: seq<map<string, Value>>, plugins: seq<string>)
    requires |fns| == |cfgs| && ServersInv(d, plugins)
    ensures ServersInv(LoadAll(d, fns, cfgs, plugins).0, plugins)
    ensures LoadAll(d, fns, cfgs, plugins).1 == Done ==>
              forall i :: 0 <= i < |fns| ==> ServerIdOf(fns[i]) in LoadAll(d, fns, cfgs, plugins).0.m
    ensures forall id :: id in d.m ==> id in LoadAll(d, fns, cfgs, plugins).0.m
    decreases |fns|
  {
    if |fns| > 0 {
      var id := ServerIdOf(fns[0]);
      var r := NewServer(id, cfgs[0], plugins);
      if r.Ok? {
        var d' := d.Put(id, r.value);
        assert ServersInv(d', plugins) by {
          NewServerAccepted(id, cfgs[0], plugins);
          PutKeepsInv(d, id, r.value, plugins);
        }
        assert LoadAll(d, fns, cfgs, plugins) == LoadAll(d', fns[1..], cfgs[1..], plugins);
        LoadAllKeepsInv(d', fns[1..], cfgs[1..], plugins);
        forall i | 1 <= i < |fns| ensures fns[i] == fns[1..][i - 1] {
        }
      }
    }
  }

  /** Storing a server that satisfies the invariant under its own id keeps
      the invariant. */
  lemma PutKeepsInv(d: Dict<string, ServerInfo>, id: string, s: ServerInfo, plugins: seq<string>)
    requires ServersInv(d, plugins)
    requires s.id == id && s.dataDir == PathJoin(VarDir, id)
    requires EndsWith(s.domainName, LocalSuffix) && s.serverType in plugins
    ensures ServersInv(d.Put(id, s), plugins)
  {
  }

  /** `PsServerManager`: the `serverDict` it fills. */
  class ServerManager {
    var serverDict: Dict<string, ServerInfo>

    constructor ()
      ensures serverDict == Empty()
    {
      serverDict := Empty();
    }

    method LoadServers(fns: seq<string>, cfgs: seq<map<string, Value>>, plugins: seq<string>) returns (o: Outcome)
      requires |fns| == |cfgs|
      modifies this
      ensures (serverDict, o) == LoadAll(old(serverDict), fns, cfgs, plugins)
    {
      var i := 0;
      while i < |fns|
        invariant 0 <= i <= |fns|
        invariant LoadAll(serverDict, fns[i..], cfgs[i..], plugins) == LoadAll(old(serverDict), fns, cfgs, plugins)
      {
        var id := ServerIdOf(fns[i]);
        var r := NewServer(id, cfgs[i], plugins);
        assert fns[i..][1..] == fns[i + 1..] && cfgs[i..][1..] == cfgs[i + 1..];
        if r.Err? {
          return Raised(r.error);
        }
        serverDict := serverDict.Put(id, r.value);
        i := i + 1;
      }
      o := Done;
    }
  }

  /** `pluginRuntimeData`, and the runtime data the plugin's `stop` has been
      called with so far. */
  datatype Runtime = Runtime(data: Option<Value>, stopCalls: seq<Value>)

  /** `startAndGetMainHttpServerConfig`, for the runtime data the plugin's
      `start` returns. */
  function StartRuntime(r: Runtime, data: Value): Runtime {
    r.(data := Some(data))
  }

  /** `PsServer.stop` */
  function StopRuntime(r: Runtime): Runtime {
    if r.data.Some? then Runtime(None, r.stopCalls + [r.data.value]) else r
  }

  /** The plugin is stopped once with the data it gave, a second `stop`
      does nothing, and a stop before any start does nothing. */
  lemma StopOnce(r: Runtime)
    ensures StopRuntime(r).data.None?
    ensures r.data.Some? ==> StopRuntime(r).stopCalls == r.stopCalls + [r.data.value]
    ensures r.data.None? ==> StopRuntime(r) == r
    ensures StopRuntime(StopRuntime(r)) == StopRuntime(r)
  {
  }

  /** `PsServer`: its fixed fields and its runtime data. */
  class PsServer {
    const info: ServerInfo
    var runtimeData: Option<Value>
    var stopCalls: seq<Value>

    function Snapshot(): Runtime
      reads this
    {
      Runtime(runtimeData, stopCalls)
    }

    constructor (info: ServerInfo)
      ensures this.info == info && Snapshot() == Runtime(None, [])
    {
      this.info := info;
      runtimeData := None;
      stopCalls := [];
    }

    method Start(data: Value)
      modifies this
      ensures Snapshot() == StartRuntime(old(Snapshot()), data)
    {
      runtimeData := Some(data);
    }

    method Stop()
      modifies this
      ensures Snapshot() == StopRuntime(old(Snapshot()))
    {
      if runtimeData.Some? {
        stopCalls := stopCalls + [runtimeData.value];
        runtimeData := None;
      }
    }
  }
}
