/** `_FtpServer` of old/code.py: one proftpd process serving a single
    anonymous, read-only virtual host, chosen among the registered file
    directories by the same rule as the multi-instance FTP server. The
    state is first written as functions on `ProFtp`; the class `ProFtpServer`
    updates real fields and is proved to follow them. */
module OldFtp {
  import opened Wrappers
  import opened Text
  import opened PyDict
  import opened PsConst
  import opened DirRegistry
  import opened SlaveServers

  /** `_dirDict`, whether `_proc` is held, and the text last written to
      `ftpd.conf`. */
  datatype ProFtp = ProFtp(dirs: Dict<string, string>, running: bool, cfgFile: Option<string>)

  const ProFtpInit := ProFtp(Empty(), false, None)

  /** `addFileDir` */
  function ProFtpAddFileDir(p: ProFtp, name: string, realPath: string): Step<ProFtp>
    requires p.dirs.Valid()
  {
    if p.running || !CheckNameAndRealPath(p.dirs, name, realPath) then Step(p, Raised(AssertionError))
    else Step(p.(dirs := p.dirs.Put(name, realPath)), Done)
  }

  /** `start`: the header needs `PsConst.ftpPort`, then the one virtual host
      is selected, the file written and the process launched. */
  function ProFtpStart(p: ProFtp, consts: Consts): Step<ProFtp>
    requires p.dirs.Valid()
  {
    if p.running then Step(p, Raised(AssertionError))
    else if consts.ftpPort.None? then Step(p, Raised(AttributeError))
    else
      match FtpSelected(p.dirs)
      case Err(e) => Step(p, Raised(e))
      case Ok(sel) =>
        var text := Unlines(ProFtpConfigLines(consts.ftpPort.value, sel, p.dirs.m[sel]));
        Step(p.(cfgFile := Some(text), running := true), Done)
  }

  /** `stop` */
  function ProFtpStop(p: ProFtp): ProFtp {
    p.(running := false)
  }

  // The text of ftpd.conf

  /** The fixed lines before the virtual host, by position. */
  function ProFtpHeaderLine(i: nat, port: nat): string {
    match i
    case 0 => "ServerName \"ProFTPD Default Server\""
    case 1 => "ServerType standalone"
    case 2 => "DefaultServer on"
    case 3 => "RequireValidShell off"
    case 4 => "User " + User
    case 5 => "Group " + Group
    case 6 => "AuthPAM off"
    case 7 => "WtmpLog off"
    case 8 => "Port " + DecStr(port)
    case 9 => "PidFile " + TmpDir + "/ftpd.pid"
    case 10 => "ScoreboardFile " + TmpDir + "/ftpd.scoreboard"
    case _ => "Umask 022"
  }

  /** The fixed lines, the last one blank. */
  function ProFtpHeaderLines(port: nat): seq<string> {
    seq(12, i requires 0 <= i => ProFtpHeaderLine(i, port)) + [""]
  }

  const VirtualHostPrefix := "<VirtualHost "
  const AnonymousPrefix := "    <Anonymous "
  const LimitWrite := "            <Limit WRITE>"
  const DenyAll := "                DenyAll"

  /** The lines of the virtual host for `name`, by position. */
  function ProFtpBlockLine(i: nat, name: string, realPath: string): string {
    match i
    case 0 => VirtualHostPrefix + name + ">"
    case 1 => AnonymousPrefix + realPath + ">"
    case 2 => "        User " + User
    case 3 => "        Group " + Group
    case 4 => "        UserAlias anonymous " + User
    case 5 => "        <Directory *>"
    case 6 => LimitWrite
    case 7 => DenyAll
    case 8 => "            </Limit>"
    case 9 => "        </Directory>"
    case 10 => "    </Anonymous>"
    case _ => "</VirtualHost>"
  }

  function ProFtpBlock(name: string, realPath: string): seq<string> {
    seq(12, i requires 0 <= i => ProFtpBlockLine(i, name, realPath)) + [""]
  }

  /** The lines `_generateCfgFn` writes for the selected directory. */
  function ProFtpConfigLines(port: nat, name: string, realPath: string): seq<string> {
    ProFtpHeaderLines(port) + ProFtpBlock(name, realPath)
  }

  // Sections opened in a configuration

  /** The argument of `line` when it opens a section with `prefix`
      (`<prefix ARG>`), as a sequence of zero or one element. */
  function OpenArg(line: string, prefix: string): seq<string> {
    if StartsWith(line, prefix) && |line| > |prefix| && line[|line| - 1] == '>'
    then [line[|prefix|..|line| - 1]]
    else []
  }

  /** The arguments of every section opened with `prefix`, in order. */
  function Opens(lines: seq<string>, prefix: string): seq<string>
    decreases |lines|
  {
    if |lines| == 0 then [] else OpenArg(lines[0], prefix) + Opens(lines[1..], prefix)
  }

  lemma {:induction false} OpensAppend(a: seq<string>, b: seq<string>, prefix: string)
    ensures Opens(a + b, prefix) == Opens(a, prefix) + Opens(b, prefix)
    decreases |a|
  {
    if |a| == 0 {
      assert a + b == b;
    } else {
      assert (a + b)[1..] == a[1..] + b;
      OpensAppend(a[1..], b, prefix);
    }
  }

  lemma {:induction false} NoOpens(lines: seq<string>, prefix: string)
    requires forall i :: 0 <= i < |lines| ==> OpenArg(lines[i], prefix) == []
    ensures Opens(lines, prefix) == []
    decreases |lines|
  {
    if |lines| > 0 {
      NoOpens(lines[1..], prefix);
    }
  }

  /** A line differing from the prefix at position `k` opens nothing. */
  lemma DiffersAt(line: string, prefix: string, k: nat)
    requires k < |prefix| && k < |line| && line[k] != prefix[k]
    ensures OpenArg(line, prefix) == []
  {
    if |prefix| <= |line| {
      assert line[..|prefix|][k] != prefix[k];
    }
  }

  lemma OpenArgOf(prefix: string, arg: string)
    ensures OpenArg(prefix + arg + ">", prefix) == [arg]
  {
    var l := prefix + arg + ">";
    assert l[..|prefix|] == prefix;
    assert l[|prefix|..|l| - 1] == arg;
  }

  lemma HeaderLineOpensNothing(i: nat, port: nat)
    ensures OpenArg(ProFtpHeaderLine(i, port), VirtualHostPrefix) == []
    ensures OpenArg(ProFtpHeaderLine(i, port), AnonymousPrefix) == []
  {
    var l := ProFtpHeaderLine(i, port);
    if i == 0 || i == 1 || i == 9 || i == 10 {
      assert l[0] == 'S' || l[0] == 'P';
    } else if i == 2 {
      assert l[0] == 'D';
    } else if i == 3 {
      assert l[0] == 'R';
    } else if i == 4 || i > 10 {
      assert l[0] == 'U';
    } else if i == 5 {
      assert l[0] == 'G';
    } else if i == 6 {
      assert l[0] == 'A';
    } else if i == 7 {
      assert l[0] == 'W';
    } else {
      assert l[0] == 'P';
    }
    DiffersAt(l, VirtualHostPrefix, 0);
    DiffersAt(l, AnonymousPrefix, 0);
  }

  lemma HeaderOpensNothing(port: nat)
    ensures Opens(ProFtpHeaderLines(port), VirtualHostPrefix) == []
    ensures Opens(ProFtpHeaderLines(port), AnonymousPrefix) == []
  {
    var hd := ProFtpHeaderLines(port);
    assert |hd| == 13 && hd[12] == "";
    forall i | 0 <= i < |hd|
      ensures OpenArg(hd[i], VirtualHostPrefix) == [] && OpenArg(hd[i], AnonymousPrefix) == []
    {
      if i < 12 {
        assert hd[i] == ProFtpHeaderLine(i, port);
        HeaderLineOpensNothing(i, port);
      }
    }
    NoOpens(hd, VirtualHostPrefix);
    NoOpens(hd, AnonymousPrefix);
  }

  /** Inside the block, the lines after the first two open nothing. */
  lemma BlockLineOpensNothing(i: nat, name: string, realPath: string)
    requires 2 <= i
    ensures OpenArg(ProFtpBlockLine(i, name, realPath), VirtualHostPrefix) == []
    ensures OpenArg(ProFtpBlockLine(i, name, realPath), AnonymousPrefix) == []
  {
    var l := ProFtpBlockLine(i, name, realPath);
    if i <= 9 {
      assert l[0] == ' ' && l[4] == ' ';
      DiffersAt(l, VirtualHostPrefix, 0);
      DiffersAt(l, AnonymousPrefix, 4);
    } else if i == 10 {
      assert l[0] == ' ' && l[5] == '/';
      DiffersAt(l, VirtualHostPrefix, 0);
      DiffersAt(l, AnonymousPrefix, 5);
    } else {
      assert l[0] == '<' && l[1] == '/';
      DiffersAt(l, VirtualHostPrefix, 1);
      DiffersAt(l, AnonymousPrefix, 0);
    }
  }

  lemma BlockOpens(name: string, realPath: string)
    ensures Opens(ProFtpBlock(name, realPath), VirtualHostPrefix) == [name]
    ensures Opens(ProFtpBlock(name, realPath), AnonymousPrefix) == [realPath]
  {
    var b := ProFtpBlock(name, realPath);
    BlockHeadOpens(name, realPath);
    BlockRestOpensNothing(name, realPath);
    assert b == b[..2] + b[2..];
    OpensAppend(b[..2], b[2..], VirtualHostPrefix);
    OpensAppend(b[..2], b[2..], AnonymousPrefix);
  }

  /** The first two lines of a block open the virtual host and its
      anonymous root. */
  lemma BlockHeadOpens(name: string, realPath: string)
    ensures Opens(ProFtpBlock(name, realPath)[..2], VirtualHostPrefix) == [name]
    ensures Opens(ProFtpBlock(name, realPath)[..2], AnonymousPrefix) == [realPath]
  {
    var b := ProFtpBlock(name, realPath);
    var first := b[0];
    var second := b[1];
    assert first == VirtualHostPrefix + name + ">";
    assert second == AnonymousPrefix + realPath + ">";
    OpenArgOf(VirtualHostPrefix, name);
    OpenArgOf(AnonymousPrefix, realPath);
    assert first[0] == '<';
    DiffersAt(first, AnonymousPrefix, 0);
    assert second[0] == ' ';
    DiffersAt(second, VirtualHostPrefix, 0);
    assert b[..2] == [first, second];
    OpensPair(first, second, VirtualHostPrefix);
    OpensPair(first, second, AnonymousPrefix);
  }

  lemma OpensPair(x: string, y: string, prefix: string)
    ensures Opens([x, y], prefix) == OpenArg(x, prefix) + OpenArg(y, prefix)
  {
    assert [x, y][1..] == [y];
    assert [y][1..] == [];
    assert Opens([y], prefix) == OpenArg(y, prefix) + Opens([], prefix);
  }

  /** The remaining lines of a block open nothing. */
  lemma BlockRestOpensNothing(name: string, realPath: string)
    ensures Opens(ProFtpBlock(name, realPath)[2..], VirtualHostPrefix) == []
    ensures Opens(ProFtpBlock(name, realPath)[2..], AnonymousPrefix) == []
  {
    var b := ProFtpBlock(name, realPath);
    assert |b| == 13 && b[12] == "";
    var rest := b[2..];
    forall i | 0 <= i < |rest|
      ensures OpenArg(rest[i], VirtualHostPrefix) == [] && OpenArg(rest[i], AnonymousPrefix) == []
    {
      if i < 10 {
        assert rest[i] == ProFtpBlockLine(i + 2, name, realPath);
        BlockLineOpensNothing(i + 2, name, realPath);
      }
    }
    NoOpens(rest, VirtualHostPrefix);
    NoOpens(rest, AnonymousPrefix);
  }

  /** ftpd.conf has exactly one virtual host, named by the selected domain,
      with exactly one anonymous root, its real path, where writing is
      denied to everyone; the header names the port. */
  lemma ProFtpConfigHosts(port: nat, name: string, realPath: string)
    ensures var lines := ProFtpConfigLines(port, name, realPath);
      && Opens(lines, VirtualHostPrefix) == [name]
      && Opens(lines, AnonymousPrefix) == [realPath]
      && lines[8] == "Port " + DecStr(port)
      && exists k :: 0 <= k < |lines| - 1 && lines[k] == LimitWrite && lines[k + 1] == DenyAll
  {
    var hd, b := ProFtpHeaderLines(port), ProFtpBlock(name, realPath);
    var lines := ProFtpConfigLines(port, name, realPath);
    assert Opens(lines, VirtualHostPrefix) == [name] by {
      HeaderOpensNothing(port);
      BlockOpens(name, realPath);
      OpensAppend(hd, b, VirtualHostPrefix);
    }
    assert Opens(lines, AnonymousPrefix) == [realPath] by {
      HeaderOpensNothing(port);
      BlockOpens(name, realPath);
      OpensAppend(hd, b, AnonymousPrefix);
    }
    assert |hd| == 13;
    assert lines[8] == hd[8] == ProFtpHeaderLine(8, port);
    assert lines[19] == b[6] == LimitWrite;
    assert lines[20] == b[7] == DenyAll;
  }

  /** A successful start writes a configuration for the distfiles site when
      it is registered, and otherwise for the only directory there is. */
  lemma ProFtpStartServesOne(p: ProFtp, consts: Consts)
    requires p.dirs.Valid()
    ensures var s := ProFtpStart(p, consts);
      && (s.outcome == Done <==>
            !p.running && consts.ftpPort.Some? && (Distfiles in p.dirs.m || |p.dirs.m| == 1))
      && (s.outcome == Done ==>
            && s.next.running && s.next.dirs == p.dirs
            && exists sel, lines ::
                 && sel in p.dirs.m
                 && (Distfiles in p.dirs.m ==> sel == Distfiles)
                 && (Distfiles !in p.dirs.m ==> p.dirs.m.Keys == {sel})
                 && s.next.cfgFile == Some(Unlines(lines))
                 && Opens(lines, VirtualHostPrefix) == [sel]
                 && Opens(lines, AnonymousPrefix) == [p.dirs.m[sel]])
  {
    var s := ProFtpStart(p, consts);
    if s.outcome == Done {
      var sel := FtpSelected(p.dirs).value;
      var lines := ProFtpConfigLines(consts.ftpPort.value, sel, p.dirs.m[sel]);
      ProFtpConfigHosts(consts.ftpPort.value, sel, p.dirs.m[sel]);
      assert s.next.cfgFile == Some(Unlines(lines));
    }
  }

  /** With the constants lib/ps_param.py defines, the server never starts. */
  lemma AsWrittenProFtpStartFails(p: ProFtp)
    requires p.dirs.Valid() && !p.running
    ensures ProFtpStart(p, DefinedConsts) == Step(p, Raised(AttributeError))
  {
  }

  /** After `stop` nothing runs, and a second `stop` changes nothing. */
  lemma ProFtpStopIdempotent(p: ProFtp)
    ensures !ProFtpStop(p).running && ProFtpStop(p).dirs == p.dirs
    ensures ProFtpStop(ProFtpStop(p)) == ProFtpStop(p)
  {
  }

  /** `_FtpServer` */
  class ProFtpServer {
    var dirDict: Dict<string, string>
    var running: bool
    var cfgFile: Option<string>

    function Snapshot(): ProFtp
      reads this
    {
      ProFtp(dirDict, running, cfgFile)
    }

    constructor ()
      ensures Snapshot() == ProFtpInit
    {
      dirDict := Empty();
      running := false;
      cfgFile := None;
    }

    method AddFileDir(name: string, realPath: string) returns (o: Outcome)
      requires dirDict.Valid()
      modifies this
      ensures Step(Snapshot(), o) == ProFtpAddFileDir(old(Snapshot()), name, realPath)
    {
      if running || !CheckNameAndRealPath(dirDict, name, realPath) {
        return Raised(AssertionError);
      }
      dirDict := dirDict.Put(name, realPath);
      o := Done;
    }

    method Start(consts: Consts) returns (o: Outcome)
      requires dirDict.Valid()
      modifies this
      ensures Step(Snapshot(), o) == ProFtpStart(old(Snapshot()), consts)
    {
      if running {
        return Raised(AssertionError);
      }
      var text;
      o, text := GenerateCfg(consts);
      if o.Raised? {
        return;
      }
      cfgFile := Some(text);
      running := true;
    }

    /** `_generateCfgFn`: the header, then the block of each selected
        directory; the text is returned rather than written. */
    method GenerateCfg(consts: Consts) returns (o: Outcome, text: string)
      requires dirDict.Valid() && !running
      ensures o.Raised? ==> Step(Snapshot(), o) == ProFtpStart(Snapshot(), consts)
      ensures o == Done ==> Step(Snapshot().(cfgFile := Some(text), running := true), o) == ProFtpStart(Snapshot(), consts)
    {
      if consts.ftpPort.None? {
        return Raised(AttributeError), "";
      }
      var port := consts.ftpPort.value;
      var head := ProFtpHeaderLines(port);
      text := Unlines(head);
      var tmp: Dict<string, string>;
      if Distfiles in dirDict.m {
        tmp := Dict([Distfiles], map[Distfiles := dirDict.m[Distfiles]]);
      } else {
        if |dirDict.m| != 1 {
          return Raised(AssertionError), "";
        }
        tmp := dirDict;
      }
      ghost var sel := FtpSelected(dirDict).value;
      TmpDictSelected(dirDict, tmp);
      var keys := tmp.keys;
      var i := 0;
      while i < |keys|
        invariant 0 <= i <= 1
        invariant i == 0 ==> text == Unlines(head)
        invariant i == 1 ==> text == Unlines(ProFtpConfigLines(port, sel, dirDict.m[sel]))
      {
        var name := keys[i];
        UnlinesAppend(head, ProFtpBlock(name, tmp.m[name]));
        text := text + Unlines(ProFtpBlock(name, tmp.m[name]));
        i := i + 1;
      }
      o := Done;
    }

    method Stop()
      modifies this
      ensures Snapshot() == ProFtpStop(old(Snapshot()))
    {
      if running {
        running := false;
      }
    }
  }
}
