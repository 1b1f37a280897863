/** The slave servers of lib/ps_slave_servers.py as values: the Apache
    server for file and git directories, the FTP and git daemons started one
    process per directory, and the dispatch of registered servers to them.
    Each operation is a function from the old state to the new state and
    how the call ended; module `SlaveObjects` holds the objects that
    implement them in place. */
module SlaveServers {
  import opened Wrappers
  import opened Text
  import opened PyDict
  import opened PsConst
  import opened DirRegistry
  import Ftpd

  datatype Step<S> = Step(next: S, outcome: Outcome)

  /** The one FTP site served when several are registered. */
  const Distfiles := "fpemud-distfiles.local"

  // ---------------------------------------------------------------------
  // _HttpServer

  /** `_gitFilesDict[name]` once generated: the htdigest file and the WSGI
      script. */
  datatype GitFiles = GitFiles(htdigest: string, wsgi: string)

  /** `_dirDict`, `_gitDirDict`, `_gitFilesDict`, whether `_proc` is held,
      and the text last written to `httpd.conf`. */
  datatype Http = Http(
    files: Dict<string, string>,
    gits: Dict<string, string>,
    gitFiles: map<string, Option<GitFiles>>,
    running: bool,
    cfgFile: Option<string>)

  const HttpInit := Http(Empty(), Empty(), map[], false, None)

  ghost predicate HttpValid(h: Http) {
    h.files.Valid() && h.gits.Valid()
  }

  /** What the source keeps between calls: both registries well formed,
      and a files entry for exactly the git directories. */
  ghost predicate HttpInv(h: Http) {
    WellFormed(h.files) && WellFormed(h.gits)
    && forall n :: n in h.gitFiles <==> n in h.gits.m
  }

  /** `_HttpServer.addFileDir` */
  function HttpAddFileDir(h: Http, name: string, realPath: string): Step<Http>
    requires HttpValid(h)
  {
    if h.running || !CheckNameAndRealPath(h.files, name, realPath) then Step(h, Raised(AssertionError))
    else Step(h.(files := h.files.Put(name, realPath)), Done)
  }

  /** `_HttpServer.addGitDir` */
  function HttpAddGitDir(h: Http, name: string, realPath: string): Step<Http>
    requires HttpValid(h)
  {
    if h.running || !CheckNameAndRealPath(h.gits, name, realPath) then Step(h, Raised(AssertionError))
    else Step(h.(gits := h.gits.Put(name, realPath), gitFiles := h.gitFiles[name := None]), Done)
  }

  function GitFilesOf(name: string): GitFiles {
    GitFiles(PathJoin(TmpDir, "auth-" + name + ".htdigest"), PathJoin(TmpDir, "wsgi-" + name + ".py"))
  }

  /** `_generateFiles`: the files written for every git directory. */
  function GeneratedFiles(gitFiles: map<string, Option<GitFiles>>, gits: Dict<string, string>)
    : (r: map<string, Option<GitFiles>>)
    ensures forall n :: n in r <==> n in gitFiles || n in gits.m
    ensures forall n :: n in gits.m ==> r[n] == Some(GitFilesOf(n))
    ensures forall n :: n in gitFiles && n !in gits.m ==> r[n] == gitFiles[n]
  {
    gitFiles + map n | n in gits.m :: Some(GitFilesOf(n))
  }

  /** `_HttpServer.start`, without the process launch and the port wait. */
  function HttpStart(h: Http): Step<Http>
    requires HttpValid(h)
  {
    if h.running then Step(h, Raised(AssertionError))
    else
      var gf := GeneratedFiles(h.gitFiles, h.gits);
      Step(h.(gitFiles := gf, cfgFile := Some(HttpConfig(h.files, h.gits, gf)), running := true), Done)
  }

  /** `_HttpServer.stop` */
  function HttpStop(h: Http): Http {
    h.(running := false)
  }

  // The text of httpd.conf

  const ModulesDir := "/usr/lib64/apache2/modules"
  const RootDir := TmpDir + "/httpd.root"
  const PidFile := TmpDir + "/httpd.pid"
  const ErrorLogFile := LogDir + "/httpd-error.log"
  const AccessLogFile := LogDir + "/httpd-access.log"

  /** The fixed lines before the virtual hosts, by position. */
  function HttpHeaderLine(i: nat): string {
    match i
    case 0 => "LoadModule log_config_module      " + ModulesDir + "/mod_log_config.so"
    case 1 => "LoadModule unixd_module           " + ModulesDir + "/mod_unixd.so"
    case 2 => "LoadModule alias_module           " + ModulesDir + "/mod_alias.so"
    case 3 => "LoadModule authz_core_module      " + ModulesDir + "/mod_authz_core.so"
    case 4 => "LoadModule autoindex_module       " + ModulesDir + "/mod_autoindex.so"
    case 5 => "LoadModule wsgi_module            " + ModulesDir + "/mod_wsgi.so"
    case 6 => ""
    case 7 => "PidFile \"" + PidFile + "\""
    case 8 => "ErrorLog \"" + ErrorLogFile + "\""
    case 9 => "LogFormat " + "\"%h %l %u %t \\\"%r\\\" %>s %b \\\"%{Referer}i\\\" \\\"%{User-Agent}i\\\"\" common"
    case 10 => "CustomLog \"" + AccessLogFile + "\" common"
    case 11 => ""
    case 12 => "Listen " + DecStr(HttpPort) + " http"
    case 13 => ""
    case 14 => "ServerName none"
    case 15 => "DocumentRoot \"" + RootDir + "\""
    case 16 => "<Directory \"" + RootDir + "\">"
    case 17 => "    Options Indexes"
    case 18 => "    Require all granted"
    case _ => "</Directory>"
  }

  /** The fixed lines before the virtual hosts, the last one blank. */
  function HttpHeaderLines(): seq<string> {
    seq(20, i requires 0 <= i => HttpHeaderLine(i)) + [""]
  }

  const VirtualHostOpen := "<VirtualHost *>"
  const ServerNamePrefix := "    ServerName "

  function FileBlock(name: string, realPath: string): seq<string> {
    [ VirtualHostOpen,
      ServerNamePrefix + name,
      "    DocumentRoot \"" + realPath + "\"",
      "    <Directory \"" + realPath + "\">",
      "        Options Indexes",
      "        Require all granted",
      "    </Directory>",
      "</VirtualHost>",
      "" ]
  }

  function GitBlock(name: string, wsgi: string): seq<string> {
    [ VirtualHostOpen,
      ServerNamePrefix + name,
      "    WSGIScriptAlias / " + wsgi,
      "</VirtualHost>",
      "" ]
  }

  function FileBlocks(names: seq<string>, m: map<string, string>): seq<string>
    requires forall n :: n in names ==> n in m
    decreases |names|
  {
    if |names| == 0 then []
    else
      var init := names[..|names| - 1];
      assert forall n :: n in init ==> n in names;
      FileBlocks(init, m) + FileBlock(names[|names| - 1], m[names[|names| - 1]])
  }

  function GitBlocks(names: seq<string>, gf: map<string, Option<GitFiles>>): seq<string>
    requires forall n :: n in names ==> n in gf && gf[n].Some?
    decreases |names|
  {
    if |names| == 0 then []
    else
      var init := names[..|names| - 1];
      assert forall n :: n in init ==> n in names;
      GitBlocks(init, gf) + GitBlock(names[|names| - 1], gf[names[|names| - 1]].value.wsgi)
  }

  /** The lines `_generateCfgFn` writes. */
  function HttpConfigLines(files: Dict<string, string>, gits: Dict<string, string>, gf: map<string, Option<GitFiles>>)
    : seq<string>
    requires files.Valid() && gits.Valid()
    requires forall n :: n in gits.m ==> n in gf && gf[n].Some?
  {
    HttpHeaderLines() + FileBlocks(files.keys, files.m) + GitBlocks(gits.keys, gf)
  }

  function HttpConfig(files: Dict<string, string>, gits: Dict<string, string>, gf: map<string, Option<GitFiles>>)
    : string
    requires files.Valid() && gits.Valid()
    requires forall n :: n in gits.m ==> n in gf && gf[n].Some?
  {
    Unlines(HttpConfigLines(files, gits, gf))
  }

  // ---------------------------------------------------------------------
  // The virtual hosts of httpd.conf

  /** The server names of the virtual hosts in a configuration: a
      `ServerName` line right after an opening `<VirtualHost *>`. */
  function VirtualHostNames(lines: seq<string>): seq<string>
    decreases |lines|
  {
    if |lines| < 2 then []
    else
      (if lines[0] == VirtualHostOpen && StartsWith(lines[1], ServerNamePrefix)
       then [lines[1][|ServerNamePrefix|..]] else [])
      + VirtualHostNames(lines[1..])
  }

  lemma {:induction false} NoVirtualHost(lines: seq<string>)
    requires forall i :: 0 <= i < |lines| ==> lines[i] != VirtualHostOpen
    ensures VirtualHostNames(lines) == []
    decreases |lines|
  {
    if |lines| >= 2 {
      NoVirtualHost(lines[1..]);
    }
  }

  lemma {:induction false} VirtualHostNamesAppend(a: seq<string>, b: seq<string>)
    requires |a| == 0 || a[|a| - 1] != VirtualHostOpen
    ensures VirtualHostNames(a + b) == VirtualHostNames(a) + VirtualHostNames(b)
    decreases |a|
  {
    if |a| == 1 {
      assert (a + b)[1..] == b;
      if |b| == 0 {
        assert a + b == a;
      }
    } else if |a| > 1 {
      assert (a + b)[1..] == a[1..] + b;
      VirtualHostNamesAppend(a[1..], b);
    } else {
      assert a + b == b;
    }
  }

  /** A block opens one virtual host, named on its second line. */
  lemma BlockNames(name: string, rest: seq<string>)
    requires |rest| >= 1 && rest[|rest| - 1] == ""
    requires forall i :: 0 <= i < |rest| ==> |rest[i]| == 0 || rest[i][0] != '<' || rest[i] == "</VirtualHost>"
    ensures VirtualHostNames([VirtualHostOpen, ServerNamePrefix + name] + rest) == [name]
  {
    var lines := [VirtualHostOpen, ServerNamePrefix + name] + rest;
    assert (ServerNamePrefix + name)[|ServerNamePrefix|..] == name;
    assert lines[1..] == [ServerNamePrefix + name] + rest;
    assert forall i :: 0 <= i < |lines[1..]| ==> lines[1..][i] != VirtualHostOpen by {
      forall i | 0 <= i < |lines[1..]| ensures lines[1..][i] != VirtualHostOpen {
        if i == 0 {
          assert lines[1..][0][0] == ' ';
        } else {
          assert lines[1..][i] == rest[i - 1];
        }
      }
    }
    NoVirtualHost(lines[1..]);
  }

  lemma FileBlockNames(name: string, realPath: string)
    ensures VirtualHostNames(FileBlock(name, realPath)) == [name]
  {
    var rest := FileBlock(name, realPath)[2..];
    assert FileBlock(name, realPath) == [VirtualHostOpen, ServerNamePrefix + name] + rest;
    BlockNames(name, rest);
  }

  lemma GitBlockNames(name: string, wsgi: string)
    ensures VirtualHostNames(GitBlock(name, wsgi)) == [name]
  {
    var rest := GitBlock(name, wsgi)[2..];
    assert GitBlock(name, wsgi) == [VirtualHostOpen, ServerNamePrefix + name] + rest;
    BlockNames(name, rest);
  }

  lemma {:induction false} FileBlocksNames(names: seq<string>, m: map<string, string>)
    requires forall n :: n in names ==> n in m
    ensures VirtualHostNames(FileBlocks(names, m)) == names
    ensures |FileBlocks(names, m)| > 0 ==> FileBlocks(names, m)[|FileBlocks(names, m)| - 1] == ""
    decreases |names|
  {
    if |names| > 0 {
      var init := names[..|names| - 1];
      assert forall n :: n in init ==> n in names;
      FileBlocksNames(init, m);
      FileBlocksStep(names, m);
    }
  }

  lemma FileBlocksStep(names: seq<string>, m: map<string, string>)
    requires |names| > 0
    requires forall n :: n in names ==> n in m
    requires var init := names[..|names| - 1];
      && (forall n :: n in init ==> n in names)
      && VirtualHostNames(FileBlocks(init, m)) == init
    ensures VirtualHostNames(FileBlocks(names, m)) == names
    ensures |FileBlocks(names, m)| > 0 && FileBlocks(names, m)[|FileBlocks(names, m)| - 1] == ""
  {
    var init := names[..|names| - 1];
    var last := names[|names| - 1];
    var prev := FileBlocks(init, m);
    assert FileBlocks(names, m) == prev + FileBlock(last, m[last]);
    FileBlockNames(last, m[last]);
    VirtualHostNamesAppend(prev, FileBlock(last, m[last]));
    assert init + [last] == names;
  }

  lemma {:induction false} GitBlocksNames(names: seq<string>, gf: map<string, Option<GitFiles>>)
    requires forall n :: n in names ==> n in gf && gf[n].Some?
    ensures VirtualHostNames(GitBlocks(names, gf)) == names
    ensures |GitBlocks(names, gf)| > 0 ==> GitBlocks(names, gf)[|GitBlocks(names, gf)| - 1] == ""
    decreases |names|
  {
    if |names| > 0 {
      var init := names[..|names| - 1];
      assert forall n :: n in init ==> n in names;
      GitBlocksNames(init, gf);
      GitBlocksStep(names, gf);
    }
  }

  lemma GitBlocksStep(names: seq<string>, gf: map<string, Option<GitFiles>>)
    requires |names| > 0
    requires forall n :: n in names ==> n in gf && gf[n].Some?
    requires var init := names[..|names| - 1];
      && (forall n :: n in init ==> n in names)
      && VirtualHostNames(GitBlocks(init, gf)) == init
      && (|GitBlocks(init, gf)| > 0 ==> GitBlocks(init, gf)[|GitBlocks(init, gf)| - 1] == "")
    ensures VirtualHostNames(GitBlocks(names, gf)) == names
    ensures |GitBlocks(names, gf)| > 0 && GitBlocks(names, gf)[|GitBlocks(names, gf)| - 1] == ""
  {
    var init := names[..|names| - 1];
    var last := names[|names| - 1];
    var w := gf[last].value.wsgi;
    var prev := GitBlocks(init, gf);
    assert GitBlocks(names, gf) == prev + GitBlock(last, w);
    GitBlockNames(last, w);
    VirtualHostNamesAppend(prev, GitBlock(last, w));
    assert init + [last] == names;
  }

  lemma HeaderNames()
    ensures VirtualHostNames(HttpHeaderLines()) == []
    ensures |HttpHeaderLines()| > 0 && HttpHeaderLines()[|HttpHeaderLines()| - 1] == ""
  {
    var hd := HttpHeaderLines();
    assert |hd| == 21 && hd[20] == "";
    forall i | 0 <= i < |hd| ensures hd[i] != VirtualHostOpen {
      if i < 20 {
        assert hd[i] == HttpHeaderLine(i);
        HeaderLineNotOpen(i);
      }
    }
    NoVirtualHost(hd);
  }

  lemma HeaderLineNotOpen(i: nat)
    ensures HttpHeaderLine(i) != VirtualHostOpen
  {
    if i <= 5 {
      ModuleLineNotOpen(i);
    } else if i <= 10 {
      LogLineNotOpen(i);
    } else if i <= 15 {
      ServerLineNotOpen(i);
    } else {
      DirectoryLineNotOpen(i);
    }
  }

  lemma ModuleLineNotOpen(i: nat)
    requires i <= 5
    ensures HttpHeaderLine(i) != VirtualHostOpen
  {
    assert HttpHeaderLine(i)[0] == 'L';
  }

  lemma LogLineNotOpen(i: nat)
    requires 6 <= i <= 10
    ensures HttpHeaderLine(i) != VirtualHostOpen
  {
    var l := HttpHeaderLine(i);
    if i == 7 {
      assert l[0] == 'P';
    } else if i == 8 {
      assert l[0] == 'E';
    } else if i == 9 {
      assert l[0] == 'L';
    } else if i == 10 {
      assert l[0] == 'C';
    }
  }

  lemma ServerLineNotOpen(i: nat)
    requires 11 <= i <= 15
    ensures HttpHeaderLine(i) != VirtualHostOpen
  {
    var l := HttpHeaderLine(i);
    if i == 12 {
      assert l[0] == 'L';
    } else if i == 14 {
      assert l[0] == 'S';
    } else if i == 15 {
      assert l[0] == 'D';
    }
  }

  lemma DirectoryLineNotOpen(i: nat)
    requires 16 <= i
    ensures HttpHeaderLine(i) != VirtualHostOpen
  {
    var l := HttpHeaderLine(i);
    if i == 16 || i >= 19 {
      assert l[1] != VirtualHostOpen[1];
    } else {
      assert l[0] == ' ';
    }
  }

  /** Names of three consecutive parts, none of which ends on an opening
      line. */
  lemma ThreePartNames(a: seq<string>, b: seq<string>, c: seq<string>, x: seq<string>, y: seq<string>)
    requires |a| > 0 && a[|a| - 1] == "" && VirtualHostNames(a) == []
    requires |b| > 0 ==> b[|b| - 1] == ""
    requires VirtualHostNames(b) == x && VirtualHostNames(c) == y
    ensures VirtualHostNames(a + b + c) == x + y
  {
    VirtualHostNamesAppend(a, b);
    if |b| == 0 {
      assert a + b == a;
    } else {
      assert (a + b)[|a + b| - 1] == b[|b| - 1];
    }
    VirtualHostNamesAppend(a + b, c);
    assert [] + x + y == x + y;
  }

  /** httpd.conf has one virtual host per file directory, then one per git
      directory, each in registration order and named by its domain. */
  lemma HttpConfigHosts(files: Dict<string, string>, gits: Dict<string, string>, gf: map<string, Option<GitFiles>>)
    requires files.Valid() && gits.Valid()
    requires forall n :: n in gits.m ==> n in gf && gf[n].Some?
    ensures VirtualHostNames(HttpConfigLines(files, gits, gf)) == files.keys + gits.keys
  {
    HeaderNames();
    FileBlocksNames(files.keys, files.m);
    GitBlocksNames(gits.keys, gf);
    ThreePartNames(HttpHeaderLines(), FileBlocks(files.keys, files.m), GitBlocks(gits.keys, gf), files.keys, gits.keys);
  }

  // ---------------------------------------------------------------------
  // Constants the FTP and git daemons need

  /** `PsConst.ftpPort`, `PsConst.gitPort` and `PsConst.libexecDir`; `None`
      where the attribute does not exist, so that reading it raises
      `AttributeError`. */
  datatype Consts = Consts(ftpPort: Option<nat>, gitPort: Option<nat>, libexecDir: Option<string>)

  /** lib/ps_param.py defines none of the three attributes. */
  const DefinedConsts := Consts(None, None, None)

  // ---------------------------------------------------------------------
  // _MultiInstanceFtpServer

  /** `_dirDict` and `_procDict`; a process is represented by the
      configuration it was launched with, before its JSON encoding. */
  datatype Ftp = Ftp(dirs: Dict<string, string>, procs: Dict<string, map<string, Value>>)

  const FtpInit := Ftp(Empty(), Empty())

  ghost predicate FtpValid(f: Ftp) {
    f.dirs.Valid() && f.procs.Valid()
  }

  /** `_MultiInstanceFtpServer.addFileDir` */
  function FtpAddFileDir(f: Ftp, name: string, realPath: string): Step<Ftp>
    requires FtpValid(f)
  {
    if |f.procs.m| != 0 || !CheckNameAndRealPath(f.dirs, name, realPath) then Step(f, Raised(AssertionError))
    else Step(f.(dirs := f.dirs.Put(name, realPath)), Done)
  }

  /** The one directory `start` serves: the distfiles site when registered,
      otherwise the only directory there is. */
  function FtpSelected(dirs: Dict<string, string>): (r: Result<string, Exc>)
    requires dirs.Valid()
    ensures r.Ok? <==> Distfiles in dirs.m || |dirs.m| == 1
    ensures r.Ok? ==> r.value in dirs.m
    ensures r.Ok? && Distfiles !in dirs.m ==> dirs.m.Keys == {r.value}
    ensures r.Err? ==> r.error == AssertionError
  {
    if Distfiles in dirs.m then Ok(Distfiles)
    else if |dirs.m| == 1 then
      DictSize(dirs);
      assert dirs.keys[0] in dirs.m;
      var k := dirs.keys[0];
      SingletonSet(dirs.m.Keys, k);
      Ok(k)
    else Err(AssertionError)
  }

  /** A set of one element holds only that element. */
  lemma SingletonSet<T>(s: set<T>, x: T)
    requires |s| == 1 && x in s
    ensures s == {x}
  {
    var rest := s - {x};
    assert s == rest + {x};
    assert |rest| == 0;
  }

  /** `tmpDict`, built as the FTP servers build it, holds exactly the
      selected directory. */
  lemma TmpDictSelected(dirs: Dict<string, string>, tmp: Dict<string, string>)
    requires dirs.Valid()
    requires Distfiles in dirs.m ==> tmp == Dict([Distfiles], map[Distfiles := dirs.m[Distfiles]])
    requires Distfiles !in dirs.m ==> |dirs.m| == 1 && tmp == dirs
    ensures FtpSelected(dirs).Ok?
    ensures tmp.keys == [FtpSelected(dirs).value]
    ensures tmp.m[FtpSelected(dirs).value] == dirs.m[FtpSelected(dirs).value]
  {
    if Distfiles !in dirs.m {
      DictSize(dirs);
      assert dirs.keys[0] in dirs.m.Keys;
    }
  }

  /** The configuration passed to one `ftpd.py` process. */
  function FtpCfg(name: string, realPath: string, ip: string, port: nat): map<string, Value> {
    map[
      "logFile" := Str(PathJoin(LogDir, "ftp." + name + ".log")),
      "logMaxBytes" := Int(UpdaterLogFileSize),
      "logBackupCount" := Int(UpdaterLogFileCount),
      "ip" := Str(ip),
      "port" := Int(port),
      "dir" := Str(realPath)]
  }

  /** The port `start` waits on after launching the process: as written the
      git port, corrected the FTP port the process was given. */
  function FtpProbePort(consts: Consts, v: Variant): Option<nat> {
    if v == AsWritten then consts.gitPort else consts.ftpPort
  }

  /** `_MultiInstanceFtpServer.start`: the loop runs once, over the one
      selected directory. The configuration reads the FTP port, the launch
      reads the libexec directory, and only then is the process recorded
      and its port waited on. */
  function FtpStart(f: Ftp, ip: string, consts: Consts, v: Variant): Step<Ftp>
    requires FtpValid(f)
  {
    if |f.procs.m| != 0 then Step(f, Raised(AssertionError))
    else
      match FtpSelected(f.dirs)
      case Err(e) => Step(f, Raised(e))
      case Ok(name) =>
        if consts.ftpPort.None? || consts.libexecDir.None? then Step(f, Raised(AttributeError))
        else
          var next := f.(procs := f.procs.Put(name, FtpCfg(name, f.dirs.m[name], ip, consts.ftpPort.value)));
          if FtpProbePort(consts, v).None? then Step(next, Raised(AttributeError))
          else Step(next, Done)
  }

  /** `_MultiInstanceFtpServer.stop` */
  function FtpStop(f: Ftp): Ftp {
    f.(procs := Empty())
  }

  /** A successful start launches exactly one process, for the distfiles
      site when it is registered, and the FTP helper accepts the
      configuration it is given. */
  lemma FtpStartServesOne(f: Ftp, ip: string, consts: Consts, v: Variant)
    requires FtpValid(f) && WellFormed(f.dirs)
    ensures var s := FtpStart(f, ip, consts, v);
      && (s.outcome == Done <==>
            |f.procs.m| == 0 && (Distfiles in f.dirs.m || |f.dirs.m| == 1)
            && consts.ftpPort.Some? && consts.libexecDir.Some? && FtpProbePort(consts, v).Some?)
      && (s.outcome == Done ==>
            && s.next.dirs == f.dirs
            && |s.next.procs.m| == 1
            && (Distfiles in f.dirs.m ==> Distfiles in s.next.procs.m)
            && forall n :: n in s.next.procs.m ==>
                 && n in f.dirs.m
                 && s.next.procs.m[n]["dir"] == Str(f.dirs.m[n])
                 && s.next.procs.m[n]["port"] == Int(consts.ftpPort.value)
                 && Ftpd.LoadCfg(s.next.procs.m[n]) == Done)
  {
    var s := FtpStart(f, ip, consts, v);
    if s.outcome == Done {
      var name := FtpSelected(f.dirs).value;
      var cfg := FtpCfg(name, f.dirs.m[name], ip, consts.ftpPort.value);
      assert f.procs.m == map[];
      assert s.next.procs.m == map[name := cfg];
      FtpCfgLoads(name, f.dirs.m[name], ip, consts.ftpPort.value);
    }
  }

  /** The FTP helper accepts the configuration built for a well-formed
      directory. */
  lemma FtpCfgLoads(name: string, realPath: string, ip: string, port: nat)
    requires IsAbs(realPath) && !EndsWith(realPath, "/")
    ensures var cfg := FtpCfg(name, realPath, ip, port);
      cfg["dir"] == Str(realPath) && cfg["port"] == Int(port) && Ftpd.LoadCfg(cfg) == Done
  {
    var cfg := FtpCfg(name, realPath, ip, port);
    Ftpd.LoadCfgOkIff(cfg);
    assert forall i :: 0 <= i < |Ftpd.CfgKeys| ==> Ftpd.CfgKeys[i] in cfg;
  }

  /** As written, the start waits on the git port, which is not the port
      the FTP process was told to listen on unless the two coincide. */
  lemma AsWrittenFtpProbesGitPort(f: Ftp, ip: string, consts: Consts)
    requires FtpValid(f) && consts.ftpPort.Some? && consts.gitPort.Some? && consts.ftpPort != consts.gitPort
    ensures var s := FtpStart(f, ip, consts, AsWritten);
      s.outcome == Done ==>
        forall n :: n in s.next.procs.m ==>
          "port" in s.next.procs.m[n] && Some(s.next.procs.m[n]["port"].i) != FtpProbePort(consts, AsWritten)
  {
    var s := FtpStart(f, ip, consts, AsWritten);
    if s.outcome == Done {
      assert f.procs.m == map[];
    }
  }

  /** Corrected, the start waits on the port in the configuration of the
      process it launched. */
  lemma FtpProbesOwnPort(f: Ftp, ip: string, consts: Consts)
    requires FtpValid(f)
    ensures var s := FtpStart(f, ip, consts, Corrected);
      s.outcome == Done ==>
        forall n :: n in s.next.procs.m ==>
          "port" in s.next.procs.m[n] && Some(s.next.procs.m[n]["port"].i) == FtpProbePort(consts, Corrected)
  {
    var s := FtpStart(f, ip, consts, Corrected);
    if s.outcome == Done {
      assert f.procs.m == map[];
    }
  }

  // ---------------------------------------------------------------------
  // _MultiInstanceGitServer

  /** `_dirDict` and `_procDict`; a process is represented by its
      argument vector. */
  datatype Git = Git(dirs: Dict<string, string>, procs: Dict<string, seq<string>>)

  const GitInit := Git(Empty(), Empty())

  ghost predicate GitValid(g: Git) {
    g.dirs.Valid() && g.procs.Valid()
  }

  /** `_MultiInstanceGitServer.addGitDir` */
  function GitAddGitDir(g: Git, name: string, realPath: string): Step<Git>
    requires GitValid(g)
  {
    if |g.procs.m| != 0 || !CheckNameAndRealPath(g.dirs, name, realPath) then Step(g, Raised(AssertionError))
    else Step(g.(dirs := g.dirs.Put(name, realPath)), Done)
  }

  const GitDaemon := "/usr/libexec/git-core/git-daemon"

  function GitArgv(ip: string, port: nat, realPath: string): seq<string> {
    [GitDaemon, "--export-all", "--listen=" + ip, "--port=" + DecStr(port), "--base-path=" + realPath]
  }

  /** `_MultiInstanceGitServer.start`: exactly one directory is served. */
  function GitStart(g: Git, ip: string, consts: Consts): Step<Git>
    requires GitValid(g)
  {
    if |g.procs.m| != 0 || |g.dirs.m| != 1 then Step(g, Raised(AssertionError))
    else if consts.gitPort.None? then Step(g, Raised(AttributeError))
    else
      DictSize(g.dirs);
      var name := g.dirs.keys[0];
      assert name in g.dirs.m;
      Step(g.(procs := g.procs.Put(name, GitArgv(ip, consts.gitPort.value, g.dirs.m[name]))), Done)
  }

  /** `_MultiInstanceGitServer.stop` */
  function GitStop(g: Git): Git {
    g.(procs := Empty())
  }

  /** A successful start launches one daemon, for the one registered
      directory, exporting that directory on the git port. */
  lemma GitStartServesOne(g: Git, ip: string, consts: Consts)
    requires GitValid(g)
    ensures var s := GitStart(g, ip, consts);
      && (s.outcome == Done <==> |g.procs.m| == 0 && |g.dirs.m| == 1 && consts.gitPort.Some?)
      && (s.outcome == Done ==>
            && s.next.dirs == g.dirs
            && s.next.procs.m.Keys == g.dirs.m.Keys
            && forall n :: n in s.next.procs.m ==>
                 && |s.next.procs.m[n]| == 5
                 && s.next.procs.m[n][0] == GitDaemon
                 && s.next.procs.m[n][3] == "--port=" + DecStr(consts.gitPort.value)
                 && s.next.procs.m[n][4] == "--base-path=" + g.dirs.m[n])
  {
    var s := GitStart(g, ip, consts);
    if s.outcome == Done {
      DictSize(g.dirs);
      var name := g.dirs.keys[0];
      assert name in g.dirs.m;
      SingletonSet(g.dirs.m.Keys, name);
      assert g.procs.m == map[];
    }
  }

  /** With the constants lib/ps_param.py defines, neither daemon can be
      started: the port attribute read raises. */
  lemma MissingPortsFailStart(f: Ftp, g: Git, ip: string, v: Variant)
    requires FtpValid(f) && GitValid(g)
    ensures FtpStart(f, ip, DefinedConsts, v).outcome != Done
    ensures GitStart(g, ip, DefinedConsts).outcome != Done
  {
  }

  // ---------------------------------------------------------------------
  // PsSlaveServers

  /** What the dispatch reads of a registered server object. The loop reads
      the advertise types as `advertiseTypeList`, which the `PsServer` of
      lib/ps_server.py does not define; `advertiseTypes` is the list the
      corrected construction reads. */
  datatype ServerObj = ServerObj(serverType: string, advertiseTypes: seq<string>, domainName: string, dataDir: string)

  /** `httpServer`, `ftpServer`, `gitServer`, each absent until needed. */
  datatype Slaves = Slaves(http: Option<Http>, ftp: Option<Ftp>, git: Option<Git>)

  const NoSlaves := Slaves(None, None, None)

  ghost predicate SlavesValid(s: Slaves) {
    && (s.http.Some? ==> HttpValid(s.http.value))
    && (s.ftp.Some? ==> FtpValid(s.ftp.value))
    && (s.git.Some? ==> GitValid(s.git.value))
  }

  /** Every registry present is well formed. */
  ghost predicate SlavesInv(s: Slaves) {
    && (s.http.Some? ==> HttpValid(s.http.value) && HttpInv(s.http.value))
    && (s.ftp.Some? ==> FtpValid(s.ftp.value) && WellFormed(s.ftp.value.dirs))
    && (s.git.Some? ==> GitValid(s.git.value) && WellFormed(s.git.value.dirs))
  }

  /** One pass of the inner loop of `__init__`: the sub-server for the pair
      of server type and advertise type is created when absent and given
      the directory; any other pair fails the final `assert False`. */
  function Route(s: Slaves, obj: ServerObj, adv: string): (r: Step<Slaves>)
    requires SlavesValid(s)
    ensures SlavesValid(r.next)
  {
    if obj.serverType == "file" && adv == "http" then
      var r := HttpAddFileDir(if s.http.Some? then s.http.value else HttpInit, obj.domainName, obj.dataDir);
      Step(s.(http := Some(r.next)), r.outcome)
    else if obj.serverType == "file" && adv == "ftp" then
      var r := FtpAddFileDir(if s.ftp.Some? then s.ftp.value else FtpInit, obj.domainName, obj.dataDir);
      Step(s.(ftp := Some(r.next)), r.outcome)
    else if obj.serverType == "git" && adv == "http" then
      var r := HttpAddGitDir(if s.http.Some? then s.http.value else HttpInit, obj.domainName, obj.dataDir);
      Step(s.(http := Some(r.next)), r.outcome)
    else if obj.serverType == "git" && adv == "git" then
      var r := GitAddGitDir(if s.git.Some? then s.git.value else GitInit, obj.domainName, obj.dataDir);
      Step(s.(git := Some(r.next)), r.outcome)
    else Step(s, Raised(AssertionError))
  }

  /** The inner loop over one server's advertise types, stopping at the
      first exception. */
  function RegisterAdvs(s: Slaves, obj: ServerObj, advs: seq<string>): (r: Step<Slaves>)
    requires SlavesValid(s)
    ensures SlavesValid(r.next)
    decreases |advs|
  {
    if |advs| == 0 then Step(s, Done)
    else
      var r := Route(s, obj, advs[0]);
      if r.outcome.Raised? then r else RegisterAdvs(r.next, obj, advs[1..])
  }

  /** The registration loop of `__init__` over `serverDict.values()`. */
  function RegisterAll(s: Slaves, objs: seq<ServerObj>): (r: Step<Slaves>)
    requires SlavesValid(s)
    ensures SlavesValid(r.next)
    decreases |objs|
  {
    if |objs| == 0 then Step(s, Done)
    else
      var r := RegisterAdvs(s, objs[0], objs[0].advertiseTypes);
      if r.outcome.Raised? then r else RegisterAll(r.next, objs[1..])
  }

  /** The start sequence of `__init__`: http, then ftp, then git, each when
      present, stopping at the first exception. */
  function StartAll(s: Slaves, ip: string, consts: Consts, v: Variant): (r: Step<Slaves>)
    requires SlavesValid(s)
  {
    var a :=
      if s.http.Some? then var x := HttpStart(s.http.value); Step(s.(http := Some(x.next)), x.outcome)
      else Step(s, Done);
    if a.outcome.Raised? then a
    else
      var b :=
        if s.ftp.Some? then var x := FtpStart(s.ftp.value, ip, consts, v); Step(a.next.(ftp := Some(x.next)), x.outcome)
        else a;
      if b.outcome.Raised? then b
      else if s.git.Some? then var x := GitStart(s.git.value, ip, consts); Step(b.next.(git := Some(x.next)), x.outcome)
      else b
  }

  /** `PsSlaveServers(param)` on the values of `param.serverDict`. As
      written, the first read of `serverObj.advertiseTypeList` raises
      `AttributeError` before any sub-server is created. */
  function Construct(objs: seq<ServerObj>, ip: string, consts: Consts, v: Variant): Step<Slaves> {
    var r := if v == AsWritten && |objs| > 0 then Step(NoSlaves, Raised(AttributeError))
             else RegisterAll(NoSlaves, objs);
    if r.outcome.Raised? then r else StartAll(r.next, ip, consts, v)
  }

  /** `dispose`: ftp, then http, then git, each stopped when present. */
  function DisposeAll(s: Slaves): Slaves {
    Slaves(
      if s.http.Some? then Some(HttpStop(s.http.value)) else None,
      if s.ftp.Some? then Some(FtpStop(s.ftp.value)) else None,
      if s.git.Some? then Some(GitStop(s.git.value)) else None)
  }

  // Properties of the dispatch

  ghost predicate SubMap(a: map<string, string>, b: map<string, string>) {
    forall k :: k in a ==> k in b && b[k] == a[k]
  }

  /** No registry is dropped and no entry lost or changed. */
  ghost predicate Grows(s: Slaves, t: Slaves) {
    && (s.http.Some? ==> t.http.Some? && SubMap(s.http.value.files.m, t.http.value.files.m)
                                      && SubMap(s.http.value.gits.m, t.http.value.gits.m))
    && (s.ftp.Some? ==> t.ftp.Some? && SubMap(s.ftp.value.dirs.m, t.ftp.value.dirs.m))
    && (s.git.Some? ==> t.git.Some? && SubMap(s.git.value.dirs.m, t.git.value.dirs.m))
  }

  /** The pairs of server type and advertise type the dispatch handles. */
  predicate KnownPair(serverType: string, adv: string) {
    || (serverType == "file" && (adv == "http" || adv == "ftp"))
    || (serverType == "git" && (adv == "http" || adv == "git"))
  }

  /** The pair is a known one, and the server's directory is registered,
      under its domain name, with the sub-server it calls for. */
  ghost predicate Placed(s: Slaves, obj: ServerObj, adv: string) {
    && KnownPair(obj.serverType, adv)
    && (obj.serverType == "file" && adv == "http" ==>
          s.http.Some? && obj.domainName in s.http.value.files.m
          && s.http.value.files.m[obj.domainName] == obj.dataDir)
    && (obj.serverType == "file" && adv == "ftp" ==>
          s.ftp.Some? && obj.domainName in s.ftp.value.dirs.m
          && s.ftp.value.dirs.m[obj.domainName] == obj.dataDir)
    && (obj.serverType == "git" && adv == "http" ==>
          s.http.Some? && obj.domainName in s.http.value.gits.m
          && s.http.value.gits.m[obj.domainName] == obj.dataDir)
    && (obj.serverType == "git" && adv == "git" ==>
          s.git.Some? && obj.domainName in s.git.value.dirs.m
          && s.git.value.dirs.m[obj.domainName] == obj.dataDir)
  }

  /** A pair outside the four known ones fails and changes nothing. */
  lemma RouteRejects(s: Slaves, obj: ServerObj, adv: string)
    requires SlavesValid(s)
    requires !KnownPair(obj.serverType, adv)
    ensures Route(s, obj, adv) == Step(s, Raised(AssertionError))
  {
  }

  /** A successful route places the directory and loses nothing. */
  lemma RoutePlaces(s: Slaves, obj: ServerObj, adv: string)
    requires SlavesValid(s)
    requires Route(s, obj, adv).outcome == Done
    ensures Grows(s, Route(s, obj, adv).next)
    ensures Placed(Route(s, obj, adv).next, obj, adv)
  {
    var t := Route(s, obj, adv).next;
    if obj.serverType == "file" && adv == "http" {
      assert t == s.(http := t.http);
    } else if obj.serverType == "file" && adv == "ftp" {
      assert t == s.(ftp := t.ftp);
    } else if obj.serverType == "git" && adv == "http" {
      assert t == s.(http := t.http);
    } else {
      assert t == s.(git := t.git);
    }
  }

  lemma GrowsTrans(s: Slaves, t: Slaves, u: Slaves)
    requires Grows(s, t) && Grows(t, u)
    ensures Grows(s, u)
  {
  }

  lemma PlacedGrows(s: Slaves, t: Slaves, obj: ServerObj, adv: string)
    requires Placed(s, obj, adv) && Grows(s, t)
    ensures Placed(t, obj, adv)
  {
  }

  lemma {:induction false} RegisterAdvsPlaces(s: Slaves, obj: ServerObj, advs: seq<string>)
    requires SlavesValid(s)
    requires RegisterAdvs(s, obj, advs).outcome == Done
    ensures Grows(s, RegisterAdvs(s, obj, advs).next)
    ensures forall j :: 0 <= j < |advs| ==> Placed(RegisterAdvs(s, obj, advs).next, obj, advs[j])
    decreases |advs|
  {
    if |advs| > 0 {
      var r := Route(s, obj, advs[0]);
      RoutePlaces(s, obj, advs[0]);
      var t := RegisterAdvs(r.next, obj, advs[1..]);
      assert t == RegisterAdvs(s, obj, advs);
      RegisterAdvsPlaces(r.next, obj, advs[1..]);
      GrowsTrans(s, r.next, t.next);
      PlacedGrows(r.next, t.next, obj, advs[0]);
      forall j | 0 < j < |advs| ensures Placed(t.next, obj, advs[j]) {
        assert advs[j] == advs[1..][j - 1];
      }
    }
  }

  /** When registration succeeds, every advertise type of every server
      has its directory in the matching sub-server. */
  lemma {:induction false} RegisterAllPlaces(s: Slaves, objs: seq<ServerObj>)
    requires SlavesValid(s)
    requires RegisterAll(s, objs).outcome == Done
    ensures Grows(s, RegisterAll(s, objs).next)
    ensures forall i, j :: 0 <= i < |objs| && 0 <= j < |objs[i].advertiseTypes| ==>
              Placed(RegisterAll(s, objs).next, objs[i], objs[i].advertiseTypes[j])
    decreases |objs|
  {
    if |objs| > 0 {
      var r := RegisterAdvs(s, objs[0], objs[0].advertiseTypes);
      RegisterAdvsPlaces(s, objs[0], objs[0].advertiseTypes);
      var t := RegisterAll(r.next, objs[1..]);
      assert t == RegisterAll(s, objs);
      RegisterAllPlaces(r.next, objs[1..]);
      GrowsTrans(s, r.next, t.next);
      forall i, j | 0 <= i < |objs| && 0 <= j < |objs[i].advertiseTypes|
        ensures Placed(t.next, objs[i], objs[i].advertiseTypes[j])
      {
        if i == 0 {
          PlacedGrows(r.next, t.next, objs[0], objs[0].advertiseTypes[j]);
        } else {
          assert objs[i] == objs[1..][i - 1];
        }
      }
    }
  }

  lemma HttpAddKeepsInv(h: Http, name: string, realPath: string)
    requires HttpValid(h) && HttpInv(h)
    ensures HttpValid(HttpAddFileDir(h, name, realPath).next) && HttpInv(HttpAddFileDir(h, name, realPath).next)
    ensures HttpValid(HttpAddGitDir(h, name, realPath).next) && HttpInv(HttpAddGitDir(h, name, realPath).next)
  {
    if name !in h.files.m {
      CheckIffWellFormed(h.files, name, realPath);
    }
    if name !in h.gits.m {
      CheckIffWellFormed(h.gits, name, realPath);
    }
  }

  /** Whatever a route does, it keeps every registry well formed. */
  lemma RouteKeepsInv(s: Slaves, obj: ServerObj, adv: string)
    requires SlavesInv(s)
    ensures SlavesInv(Route(s, obj, adv).next)
  {
    var t := Route(s, obj, adv).next;
    if obj.serverType == "file" && adv == "http" {
      HttpAddKeepsInv(if s.http.Some? then s.http.value else HttpInit, obj.domainName, obj.dataDir);
      assert t == s.(http := t.http);
    } else if obj.serverType == "file" && adv == "ftp" {
      var f := if s.ftp.Some? then s.ftp.value else FtpInit;
      if obj.domainName !in f.dirs.m {
        CheckIffWellFormed(f.dirs, obj.domainName, obj.dataDir);
      }
      assert t == s.(ftp := t.ftp);
    } else if obj.serverType == "git" && adv == "http" {
      HttpAddKeepsInv(if s.http.Some? then s.http.value else HttpInit, obj.domainName, obj.dataDir);
      assert t == s.(http := t.http);
    } else if obj.serverType == "git" && adv == "git" {
      var g := if s.git.Some? then s.git.value else GitInit;
      if obj.domainName !in g.dirs.m {
        CheckIffWellFormed(g.dirs, obj.domainName, obj.dataDir);
      }
      assert t == s.(git := t.git);
    }
  }

  lemma {:induction false} RegisterAdvsKeepsInv(s: Slaves, obj: ServerObj, advs: seq<string>)
    requires SlavesInv(s)
    ensures SlavesInv(RegisterAdvs(s, obj, advs).next)
    decreases |advs|
  {
    if |advs| > 0 {
      RouteKeepsInv(s, obj, advs[0]);
      if Route(s, obj, advs[0]).outcome.Done? {
        RegisterAdvsKeepsInv(Route(s, obj, advs[0]).next, obj, advs[1..]);
      }
    }
  }

  /** Registration, whether it succeeds or not, leaves every registry well
      formed. */
  lemma {:induction false} RegisterAllKeepsInv(s: Slaves, objs: seq<ServerObj>)
    requires SlavesInv(s)
    ensures SlavesInv(RegisterAll(s, objs).next)
    decreases |objs|
  {
    if |objs| > 0 {
      RegisterAdvsKeepsInv(s, objs[0], objs[0].advertiseTypes);
      var r := RegisterAdvs(s, objs[0], objs[0].advertiseTypes);
      if r.outcome.Done? {
        RegisterAllKeepsInv(r.next, objs[1..]);
      }
    }
  }

  /** A successful start leaves the web server running, and one FTP and one
      git process launched, for each sub-server present. */
  lemma StartAllStarts(s: Slaves, ip: string, consts: Consts, v: Variant)
    requires SlavesInv(s)
    requires StartAll(s, ip, consts, v).outcome == Done
    ensures var t := StartAll(s, ip, consts, v).next;
      && (s.http.Some? ==> t.http.Some? && t.http.value.running)
      && (s.ftp.Some? ==> t.ftp.Some? && |t.ftp.value.procs.m| == 1)
      && (s.git.Some? ==> t.git.Some? && |t.git.value.procs.m| == 1)
  {
    if s.ftp.Some? {
      FtpStartServesOne(s.ftp.value, ip, consts, v);
    }
    if s.git.Some? {
      GitStartServesOne(s.git.value, ip, consts);
      var t := StartAll(s, ip, consts, v).next;
      assert t.git.value.procs.m.Keys == s.git.value.dirs.m.Keys;
    }
  }

  /** As written, construction over any server fails on the advertise-type
      attribute, with no sub-server created, whatever the constants; with
      no server it starts nothing and succeeds. */
  lemma AsWrittenConstructFails(objs: seq<ServerObj>, ip: string, consts: Consts)
    ensures |objs| > 0 ==> Construct(objs, ip, consts, AsWritten) == Step(NoSlaves, Raised(AttributeError))
    ensures |objs| == 0 ==> Construct(objs, ip, consts, AsWritten) == Step(NoSlaves, Done)
  {
  }

  /** With the constants lib/ps_param.py defines, construction fails as
      soon as any server is advertised over FTP or git. */
  lemma MissingConstsFailConstruct(objs: seq<ServerObj>, ip: string, v: Variant)
    requires RegisterAll(NoSlaves, objs).outcome == Done
    requires exists i, j :: 0 <= i < |objs| && 0 <= j < |objs[i].advertiseTypes|
               && objs[i].advertiseTypes[j] in {"ftp", "git"}
    ensures Construct(objs, ip, DefinedConsts, v).outcome.Raised?
  {
    if v == AsWritten {
      return;
    }
    var i, j :| 0 <= i < |objs| && 0 <= j < |objs[i].advertiseTypes| && objs[i].advertiseTypes[j] in {"ftp", "git"};
    RegisterAllPlaces(NoSlaves, objs);
    var s := RegisterAll(NoSlaves, objs).next;
    assert Placed(s, objs[i], objs[i].advertiseTypes[j]);
    MissingPortsFailStartAll(s, ip, v);
  }

  lemma MissingPortsFailStartAll(s: Slaves, ip: string, v: Variant)
    requires SlavesValid(s) && (s.ftp.Some? || s.git.Some?)
    ensures StartAll(s, ip, DefinedConsts, v).outcome.Raised?
  {
    if s.ftp.Some? {
      MissingPortsFailStart(s.ftp.value, GitInit, ip, v);
    } else {
      MissingPortsFailStart(FtpInit, s.git.value, ip, v);
    }
  }

  /** Stopping leaves the web server idle and no FTP or git process, and
      keeps every registration. */
  lemma DisposeStopsAll(s: Slaves)
    ensures var t := DisposeAll(s);
      && (t.http.Some? <==> s.http.Some?) && (t.ftp.Some? <==> s.ftp.Some?) && (t.git.Some? <==> s.git.Some?)
      && (t.http.Some? ==> !t.http.value.running && t.http.value.files == s.http.value.files
                           && t.http.value.gits == s.http.value.gits)
      && (t.ftp.Some? ==> t.ftp.value.procs.m == map[] && t.ftp.value.dirs == s.ftp.value.dirs)
      && (t.git.Some? ==> t.git.value.procs.m == map[] && t.git.value.dirs == s.git.value.dirs)
  {
  }
}

