/** The objects of lib/ps_slave_servers.py with their fields updated in
    place, each method proved to do what the matching function of module
    `SlaveServers` says. Launching, waiting for and terminating processes
    are not modelled; a process is represented by what it was given. */
module SlaveObjects {
  import opened Wrappers
  import opened Text
  import opened PyDict
  import opened SlaveServers

  /** `_HttpServer` */
  class HttpServer {
    var dirDict: Dict<string, string>
    var gitDirDict: Dict<string, string>
    var gitFilesDict: map<string, Option<GitFiles>>
    var running: bool
    var cfgFile: Option<string>

    function Snapshot(): Http
      reads this
    {
      Http(dirDict, gitDirDict, gitFilesDict, running, cfgFile)
    }

    constructor ()
      ensures Snapshot() == HttpInit
    {
      dirDict := Empty();
      gitDirDict := Empty();
      gitFilesDict := map[];
      running := false;
      cfgFile := None;
    }

    method AddFileDir(name: string, realPath: string) returns (o: Outcome)
      requires HttpValid(Snapshot())
      modifies this
      ensures Step(Snapshot(), o) == HttpAddFileDir(old(Snapshot()), name, realPath)
    {
      if running || !DirRegistry.CheckNameAndRealPath(dirDict, name, realPath) {
        return Raised(AssertionError);
      }
      dirDict := dirDict.Put(name, realPath);
      o := Done;
    }

    method AddGitDir(name: string, realPath: string) returns (o: Outcome)
      requires HttpValid(Snapshot())
      modifies this
      ensures Step(Snapshot(), o) == HttpAddGitDir(old(Snapshot()), name, realPath)
    {
      if running || !DirRegistry.CheckNameAndRealPath(gitDirDict, name, realPath) {
        return Raised(AssertionError);
      }
      gitDirDict := gitDirDict.Put(name, realPath);
      gitFilesDict := gitFilesDict[name := None];
      o := Done;
    }

    method Start() returns (o: Outcome)
      requires HttpValid(Snapshot())
      modifies this
      ensures Step(Snapshot(), o) == HttpStart(old(Snapshot()))
    {
      if running {
        return Raised(AssertionError);
      }
      GenerateFiles();
      GenerateCfg();
      running := true;
      o := Done;
    }

    method Stop()
      modifies this
      ensures Snapshot() == HttpStop(old(Snapshot()))
    {
      if running {
        running := false;
      }
    }

    /** `_generateFiles`: the file names of every git directory, in order. */
    method GenerateFiles()
      requires gitDirDict.Valid()
      modifies this
      ensures Snapshot() == old(Snapshot()).(gitFiles := GeneratedFiles(old(gitFilesDict), gitDirDict))
    {
      var gf := WithGitFiles(gitFilesDict, gitDirDict.keys);
      assert gf == GeneratedFiles(gitFilesDict, gitDirDict);
      gitFilesDict := gf;
    }

    /** `_generateCfgFn`: the header, then one block per file directory,
        then one per git directory. */
    method GenerateCfg()
      requires dirDict.Valid() && gitDirDict.Valid()
      requires forall n :: n in gitDirDict.m ==> n in gitFilesDict && gitFilesDict[n].Some?
      modifies this
      ensures Snapshot() == old(Snapshot()).(cfgFile := Some(HttpConfig(old(dirDict), old(gitDirDict), old(gitFilesDict))))
    {
      var head := HttpHeaderLines();
      var buf := Unlines(head);
      buf := AppendFileBlocks(buf, head, dirDict.keys, dirDict.m);
      buf := AppendGitBlocks(buf, head + FileBlocks(dirDict.keys, dirDict.m), gitDirDict.keys, gitFilesDict);
      cfgFile := Some(buf);
    }
  }

  /** The loop of `_generateFiles` over the git directories. */
  method WithGitFiles(gf0: map<string, Option<GitFiles>>, names: seq<string>)
    returns (gf: map<string, Option<GitFiles>>)
    ensures forall n :: n in gf <==> n in gf0 || n in names
    ensures forall n :: n in names ==> gf[n] == Some(GitFilesOf(n))
    ensures forall n :: n in gf0 && n !in names ==> gf[n] == gf0[n]
  {
    gf := gf0;
    var i := 0;
    while i < |names|
      invariant 0 <= i <= |names|
      invariant forall n :: n in gf <==> n in gf0 || n in names[..i]
      invariant forall n :: n in names[..i] ==> gf[n] == Some(GitFilesOf(n))
      invariant forall n :: n in gf0 && n !in names[..i] ==> gf[n] == gf0[n]
    {
      assert names[..i + 1] == names[..i] + [names[i]];
      gf := gf[names[i] := Some(GitFilesOf(names[i]))];
      i := i + 1;
    }
    assert names[..i] == names;
  }

  lemma FileBlocksSnoc(names: seq<string>, m: map<string, string>, i: nat)
    requires i < |names| && forall n :: n in names ==> n in m
    ensures FileBlocks(names[..i + 1], m) == FileBlocks(names[..i], m) + FileBlock(names[i], m[names[i]])
  {
    assert names[..i + 1][..i] == names[..i];
  }

  lemma GitBlocksSnoc(names: seq<string>, gf: map<string, Option<GitFiles>>, i: nat)
    requires i < |names| && forall n :: n in names ==> n in gf && gf[n].Some?
    ensures GitBlocks(names[..i + 1], gf) == GitBlocks(names[..i], gf) + GitBlock(names[i], gf[names[i]].value.wsgi)
  {
    assert names[..i + 1][..i] == names[..i];
  }

  /** The loop of `_generateCfgFn` over the file directories. */
  method AppendFileBlocks(buf0: string, front: seq<string>, names: seq<string>, m: map<string, string>)
    returns (buf: string)
    requires buf0 == Unlines(front)
    requires forall n :: n in names ==> n in m
    ensures buf == Unlines(front + FileBlocks(names, m))
  {
    buf := buf0;
    var i := 0;
    assert names[..0] == [] && front + [] == front;
    while i < |names|
      invariant 0 <= i <= |names|
      invariant buf == Unlines(front + FileBlocks(names[..i], m))
    {
      var name := names[i];
      var block := FileBlock(name, m[name]);
      FileBlocksSnoc(names, m, i);
      assert front + FileBlocks(names[..i + 1], m) == (front + FileBlocks(names[..i], m)) + block;
      UnlinesAppend(front + FileBlocks(names[..i], m), block);
      buf := buf + Unlines(block);
      i := i + 1;
    }
    assert names[..i] == names;
  }

  /** The loop of `_generateCfgFn` over the git directories. */
  method AppendGitBlocks(buf0: string, front: seq<string>, names: seq<string>, gf: map<string, Option<GitFiles>>)
    returns (buf: string)
    requires buf0 == Unlines(front)
    requires forall n :: n in names ==> n in gf && gf[n].Some?
    ensures buf == Unlines(front + GitBlocks(names, gf))
  {
    buf := buf0;
    var i := 0;
    assert names[..0] == [] && front + [] == front;
    while i < |names|
      invariant 0 <= i <= |names|
      invariant buf == Unlines(front + GitBlocks(names[..i], gf))
    {
      var name := names[i];
      var block := GitBlock(name, gf[name].value.wsgi);
      GitBlocksSnoc(names, gf, i);
      assert front + GitBlocks(names[..i + 1], gf) == (front + GitBlocks(names[..i], gf)) + block;
      UnlinesAppend(front + GitBlocks(names[..i], gf), block);
      buf := buf + Unlines(block);
      i := i + 1;
    }
    assert names[..i] == names;
  }

  /** `_MultiInstanceFtpServer` */
  class FtpServer {
    var dirDict: Dict<string, string>
    var procDict: Dict<string, map<string, Value>>

    function Snapshot(): Ftp
      reads this
    {
      Ftp(dirDict, procDict)
    }

    constructor ()
      ensures Snapshot() == FtpInit
    {
      dirDict := Empty();
      procDict := Empty();
    }

    method AddFileDir(name: string, realPath: string) returns (o: Outcome)
      requires FtpValid(Snapshot())
      modifies this
      ensures Step(Snapshot(), o) == FtpAddFileDir(old(Snapshot()), name, realPath)
    {
      if |procDict.m| != 0 || !DirRegistry.CheckNameAndRealPath(dirDict, name, realPath) {
        return Raised(AssertionError);
      }
      dirDict := dirDict.Put(name, realPath);
      o := Done;
    }

    method Start(ip: string, consts: Consts, v: Variant) returns (o: Outcome)
      requires FtpValid(Snapshot())
      modifies this
      ensures Step(Snapshot(), o) == FtpStart(old(Snapshot()), ip, consts, v)
    {
      if |procDict.m| != 0 {
        return Raised(AssertionError);
      }
      var tmp: Dict<string, string>;
      if Distfiles in dirDict.m {
        tmp := Dict([Distfiles], map[Distfiles := dirDict.m[Distfiles]]);
      } else {
        if |dirDict.m| != 1 {
          return Raised(AssertionError);
        }
        tmp := dirDict;
      }
      ghost var sel := FtpSelected(dirDict).value;
      TmpDictSelected(dirDict, tmp);
      var keys := tmp.keys;
      var i := 0;
      while i < |keys|
        invariant 0 <= i <= 1
        invariant dirDict == old(dirDict)
        invariant i == 0 ==> procDict == old(procDict)
        invariant i == 1 ==> consts.ftpPort.Some? && consts.libexecDir.Some? && FtpProbePort(consts, v).Some?
        invariant i == 1 ==> procDict == old(procDict).Put(sel, FtpCfg(sel, dirDict.m[sel], ip, consts.ftpPort.value))
      {
        var name := keys[i];
        if consts.ftpPort.None? {
          return Raised(AttributeError);
        }
        var cfg := FtpCfg(name, tmp.m[name], ip, consts.ftpPort.value);
        if consts.libexecDir.None? {
          return Raised(AttributeError);
        }
        procDict := procDict.Put(name, cfg);
        if FtpProbePort(consts, v).None? {
          return Raised(AttributeError);
        }
        i := i + 1;
      }
      o := Done;
    }

    method Stop()
      modifies this
      ensures Snapshot() == FtpStop(old(Snapshot()))
    {
      procDict := Empty();
    }
  }

  /** `_MultiInstanceGitServer` */
  class GitServer {
    var dirDict: Dict<string, string>
    var procDict: Dict<string, seq<string>>

    function Snapshot(): Git
      reads this
    {
      Git(dirDict, procDict)
    }

    constructor ()
      ensures Snapshot() == GitInit
    {
      dirDict := Empty();
      procDict := Empty();
    }

    method AddGitDir(name: string, realPath: string) returns (o: Outcome)
      requires GitValid(Snapshot())
      modifies this
      ensures Step(Snapshot(), o) == GitAddGitDir(old(Snapshot()), name, realPath)
    {
      if |procDict.m| != 0 || !DirRegistry.CheckNameAndRealPath(dirDict, name, realPath) {
        return Raised(AssertionError);
      }
      dirDict := dirDict.Put(name, realPath);
      o := Done;
    }

    method Start(ip: string, consts: Consts) returns (o: Outcome)
      requires GitValid(Snapshot())
      modifies this
      ensures Step(Snapshot(), o) == GitStart(old(Snapshot()), ip, consts)
    {
      if |procDict.m| != 0 || |dirDict.m| != 1 {
        return Raised(AssertionError);
      }
      DictSize(dirDict);
      var keys := dirDict.keys;
      var i := 0;
      while i < |keys|
        invariant 0 <= i <= 1
        invariant i == 0 ==> Snapshot() == old(Snapshot())
        invariant i == 1 ==> consts.gitPort.Some? && Snapshot() == GitStart(old(Snapshot()), ip, consts).next
      {
        var name := keys[i];
        if consts.gitPort.None? {
          return Raised(AttributeError);
        }
        procDict := procDict.Put(name, GitArgv(ip, consts.gitPort.value, dirDict.m[name]));
        i := i + 1;
      }
      o := Done;
    }

    method Stop()
      modifies this
      ensures Snapshot() == GitStop(old(Snapshot()))
    {
      procDict := Empty();
    }
  }

  /** `PsSlaveServers`: the three sub-servers, each created on first use. */
  class PsSlaveServers {
    var httpServer: HttpServer?
    var ftpServer: FtpServer?
    var gitServer: GitServer?

    function Snapshot(): Slaves
      reads this, httpServer, ftpServer, gitServer
    {
      Slaves(
        if httpServer != null then Some(httpServer.Snapshot()) else None,
        if ftpServer != null then Some(ftpServer.Snapshot()) else None,
        if gitServer != null then Some(gitServer.Snapshot()) else None)
    }

    constructor ()
      ensures Snapshot() == NoSlaves
    {
      httpServer := null;
      ftpServer := null;
      gitServer := null;
    }

    /** The body of `__init__`: registration of every server, then the
        start of each sub-server created. */
    method Setup(objs: seq<ServerObj>, ip: string, consts: Consts, v: Variant) returns (o: Outcome)
      requires Snapshot() == NoSlaves
      modifies this
      ensures Step(Snapshot(), o) == Construct(objs, ip, consts, v)
    {
      o := RegisterServers(objs, v);
      if o.Raised? {
        return;
      }
      o := StartEach(ip, consts, v);
    }

    /** The registration loop of `__init__`. As written, the advertise
        types are read through an attribute the server objects lack, so the
        first server raises. */
    method RegisterServers(objs: seq<ServerObj>, v: Variant) returns (o: Outcome)
      requires Snapshot() == NoSlaves
      modifies this
      ensures httpServer != null ==> fresh(httpServer)
      ensures ftpServer != null ==> fresh(ftpServer)
      ensures gitServer != null ==> fresh(gitServer)
      ensures SlavesValid(Snapshot())
      ensures Step(Snapshot(), o) ==
        if v == AsWritten && |objs| > 0 then Step(NoSlaves, Raised(AttributeError)) else RegisterAll(NoSlaves, objs)
    {
      o := Done;
      var i := 0;
      while i < |objs|
        invariant 0 <= i <= |objs|
        invariant httpServer != null ==> fresh(httpServer)
        invariant ftpServer != null ==> fresh(ftpServer)
        invariant gitServer != null ==> fresh(gitServer)
        invariant SlavesValid(Snapshot())
        invariant o == Done
        invariant RegisterAll(Snapshot(), objs[i..]) == RegisterAll(NoSlaves, objs)
        invariant v == AsWritten ==> i == 0 && Snapshot() == NoSlaves
      {
        if v == AsWritten {
          return Raised(AttributeError);
        }
        ghost var s0 := Snapshot();
        o := RegisterServer(objs[i]);
        if o.Raised? {
          assert RegisterAll(s0, objs[i..]) == RegisterAdvs(s0, objs[i], objs[i].advertiseTypes);
          return;
        }
        assert objs[i..][1..] == objs[i + 1..];
        i := i + 1;
      }
    }

    /** The inner loop over one server's advertise types. */
    method RegisterServer(obj: ServerObj) returns (o: Outcome)
      requires SlavesValid(Snapshot())
      modifies this, httpServer, ftpServer, gitServer
      ensures httpServer != old(httpServer) ==> fresh(httpServer)
      ensures ftpServer != old(ftpServer) ==> fresh(ftpServer)
      ensures gitServer != old(gitServer) ==> fresh(gitServer)
      ensures SlavesValid(Snapshot())
      ensures Step(Snapshot(), o) == RegisterAdvs(old(Snapshot()), obj, obj.advertiseTypes)
    {
      var advs := obj.advertiseTypes;
      o := Done;
      var j := 0;
      while j < |advs|
        invariant 0 <= j <= |advs|
        invariant httpServer != old(httpServer) ==> fresh(httpServer)
        invariant ftpServer != old(ftpServer) ==> fresh(ftpServer)
        invariant gitServer != old(gitServer) ==> fresh(gitServer)
        invariant SlavesValid(Snapshot())
        invariant o == Done
        invariant RegisterAdvs(Snapshot(), obj, advs[j..]) == RegisterAdvs(old(Snapshot()), obj, advs)
      {
        o := Dispatch(obj, advs[j]);
        if o.Raised? {
          return;
        }
        assert advs[j..][1..] == advs[j + 1..];
        j := j + 1;
      }
    }

    /** One pass of the inner registration loop. */
    method Dispatch(obj: ServerObj, adv: string) returns (o: Outcome)
      requires SlavesValid(Snapshot())
      modifies this, httpServer, ftpServer, gitServer
      ensures httpServer != old(httpServer) ==> fresh(httpServer)
      ensures ftpServer != old(ftpServer) ==> fresh(ftpServer)
      ensures gitServer != old(gitServer) ==> fresh(gitServer)
      ensures Step(Snapshot(), o) == Route(old(Snapshot()), obj, adv)
    {
      if obj.serverType == "file" && adv == "http" {
        o := HttpAdd(obj.domainName, obj.dataDir, false);
      } else if obj.serverType == "file" && adv == "ftp" {
        o := FtpAdd(obj.domainName, obj.dataDir);
      } else if obj.serverType == "git" && adv == "http" {
        o := HttpAdd(obj.domainName, obj.dataDir, true);
      } else if obj.serverType == "git" && adv == "git" {
        o := GitAdd(obj.domainName, obj.dataDir);
      } else {
        o := Raised(AssertionError);
      }
    }

    /** The HTTP branches of the registration: the HTTP server is created
        when absent and given a file or a git directory. */
    method HttpAdd(name: string, realPath: string, git: bool) returns (o: Outcome)
      requires httpServer != null ==> HttpValid(httpServer.Snapshot())
      modifies this`httpServer, httpServer
      ensures httpServer != old(httpServer) ==> fresh(httpServer)
      ensures httpServer != null
      ensures var h := if old(httpServer) != null then old(httpServer.Snapshot()) else HttpInit;
        Step(httpServer.Snapshot(), o) == if git then HttpAddGitDir(h, name, realPath) else HttpAddFileDir(h, name, realPath)
    {
      if httpServer == null {
        httpServer := new HttpServer();
      }
      if git {
        o := httpServer.AddGitDir(name, realPath);
      } else {
        o := httpServer.AddFileDir(name, realPath);
      }
    }

    /** The FTP branch of the registration. */
    method FtpAdd(name: string, realPath: string) returns (o: Outcome)
      requires ftpServer != null ==> FtpValid(ftpServer.Snapshot())
      modifies this`ftpServer, ftpServer
      ensures ftpServer != old(ftpServer) ==> fresh(ftpServer)
      ensures ftpServer != null
      ensures var f := if old(ftpServer) != null then old(ftpServer.Snapshot()) else FtpInit;
        Step(ftpServer.Snapshot(), o) == FtpAddFileDir(f, name, realPath)
    {
      if ftpServer == null {
        ftpServer := new FtpServer();
      }
      o := ftpServer.AddFileDir(name, realPath);
    }

    /** The git branch of the registration. */
    method GitAdd(name: string, realPath: string) returns (o: Outcome)
      requires gitServer != null ==> GitValid(gitServer.Snapshot())
      modifies this`gitServer, gitServer
      ensures gitServer != old(gitServer) ==> fresh(gitServer)
      ensures gitServer != null
      ensures var g := if old(gitServer) != null then old(gitServer.Snapshot()) else GitInit;
        Step(gitServer.Snapshot(), o) == GitAddGitDir(g, name, realPath)
    {
      if gitServer == null {
        gitServer := new GitServer();
      }
      o := gitServer.AddGitDir(name, realPath);
    }

    /** The start sequence of `__init__`. */
    method StartEach(ip: string, consts: Consts, v: Variant) returns (o: Outcome)
      requires SlavesValid(Snapshot())
      modifies httpServer, ftpServer, gitServer
      ensures Step(Snapshot(), o) == StartAll(old(Snapshot()), ip, consts, v)
    {
      o := Done;
      if httpServer != null {
        o := httpServer.Start();
        if o.Raised? {
          return;
        }
      }
      if ftpServer != null {
        o := ftpServer.Start(ip, consts, v);
        if o.Raised? {
          return;
        }
      }
      if gitServer != null {
        o := gitServer.Start(ip, consts);
      }
    }

    /** `dispose` */
    method Dispose()
      modifies httpServer, ftpServer, gitServer
      ensures Snapshot() == DisposeAll(old(Snapshot()))
    {
      if ftpServer != null {
        ftpServer.Stop();
      }
      if httpServer != null {
        httpServer.Stop();
      }
      if gitServer != null {
        gitServer.Stop();
      }
    }
  }
}
