/** `PsMainHttpServer` (lib/ps_main_httpd.py): the store of configuration
    fragments registered by the rest of the daemon, merged into the one
    Apache configuration the front end runs with. */
module MainHttpd {
  import opened Wrappers
  import opened Text
  import opened PyDict
  import PsConst

  /** The keys callers use for `_cfgDict`. Python compares dictionary keys
      by type and value, so a string, an integer and a socket object are
      three different keys even when they name the same connection. */
  datatype Key = StrKey(s: string) | IntKey(i: int) | SocketKey(fd: int)

  /** One stored configuration, `{"module-dependencies": ...,
      "config-segment": ...}`; the dependencies are the `items()` of their
      dict, module name to module file. */
  datatype Fragment = Fragment(deps: seq<(string, string)>, segment: string)

  const ModulesDir := "/usr/lib64/apache2/modules"
  const RootDir := PsConst.TmpDir + "/httpd.root"
  const PidFile := PsConst.TmpDir + "/httpd.pid"
  const ErrorLogFile := PsConst.LogDir + "/httpd-error.log"
  const AccessLogFile := PsConst.LogDir + "/httpd-access.log"

  const BaseNames := ["log_config_module", "unixd_module", "alias_module", "authz_core_module", "autoindex_module"]

  /** The module table every configuration starts from. */
  const BaseModules: Dict<string, string> := Dict(BaseNames, map[
    "log_config_module" := "mod_log_config.so",
    "unixd_module" := "mod_unixd.so",
    "alias_module" := "mod_alias.so",
    "authz_core_module" := "mod_authz_core.so",
    "autoindex_module" := "mod_autoindex.so"])

  lemma BaseModulesValid()
    ensures BaseModules.Valid() && |BaseModules.keys| == 5
  {
  }

  // ---------------------------------------------------------------------
  // Merging the module dependencies

  /** Every pair naming a module already in `table` names the same file. */
  predicate Agrees(table: Dict<string, string>, ps: seq<(string, string)>) {
    forall i :: 0 <= i < |ps| && ps[i].0 in table.m ==> table.m[ps[i].0] == ps[i].1
  }

  /** No module is paired with two different files. */
  predicate SelfConsistent(ps: seq<(string, string)>) {
    forall i, j :: 0 <= i < j < |ps| && ps[i].0 == ps[j].0 ==> ps[i].1 == ps[j].1
  }

  /** The first loop of `_generateCfgFn`: new names are added in the order
      they are met, a known name must come with the same file, and a
      different file is an assertion failure. */
  function Merge(table: Dict<string, string>, ps: seq<(string, string)>): Result<Dict<string, string>, Exc>
    decreases |ps|
  {
    if |ps| == 0 then Ok(table)
    else
      var (k, v) := ps[0];
      if k !in table.m then Merge(table.Put(k, v), ps[1..])
      else if table.m[k] == v then Merge(table, ps[1..])
      else Err(AssertionError)
  }

  /** The only way the merge fails is the assertion. */
  lemma {:induction false} MergeRaisesAssertion(table: Dict<string, string>, ps: seq<(string, string)>)
    ensures Merge(table, ps).Err? ==> Merge(table, ps).error == AssertionError
    decreases |ps|
  {
    if |ps| > 0 {
      var (k, v) := ps[0];
      if k !in table.m {
        MergeRaisesAssertion(table.Put(k, v), ps[1..]);
      } else if table.m[k] == v {
        MergeRaisesAssertion(table, ps[1..]);
      }
    }
  }

  /** The merge succeeds exactly when no module name is ever given two
      different files, by the table or by the pairs. */
  lemma {:induction false} MergeOkIff(table: Dict<string, string>, ps: seq<(string, string)>)
    ensures Merge(table, ps).Ok? <==> Agrees(table, ps) && SelfConsistent(ps)
    decreases |ps|
  {
    if |ps| > 0 {
      var (k, v) := ps[0];
      var rest := ps[1..];
      assert forall i :: 1 <= i < |ps| ==> ps[i] == rest[i - 1];
      if k !in table.m {
        var t := table.Put(k, v);
        MergeOkIff(t, rest);
        if Agrees(t, rest) && SelfConsistent(rest) {
          forall i, j | 0 <= i < j < |ps| && ps[i].0 == ps[j].0 ensures ps[i].1 == ps[j].1 {
            if i == 0 {
              assert rest[j - 1].0 in t.m;
            }
          }
        }
        if Agrees(table, ps) && SelfConsistent(ps) {
          forall i | 0 <= i < |rest| && rest[i].0 in t.m ensures t.m[rest[i].0] == rest[i].1 {
            assert ps[i + 1] == rest[i];
            if rest[i].0 == k {
              assert ps[0].0 == ps[i + 1].0;
            }
          }
          forall i, j | 0 <= i < j < |rest| && rest[i].0 == rest[j].0 ensures rest[i].1 == rest[j].1 {
            assert ps[i + 1] == rest[i] && ps[j + 1] == rest[j];
          }
        }
      } else if table.m[k] == v {
        MergeOkIff(table, rest);
        if Agrees(table, rest) && SelfConsistent(rest) {
          forall i, j | 0 <= i < j < |ps| && ps[i].0 == ps[j].0 ensures ps[i].1 == ps[j].1 {
            if i == 0 {
              assert rest[j - 1].0 in table.m;
            }
          }
        }
        if Agrees(table, ps) && SelfConsistent(ps) {
          forall i, j | 0 <= i < j < |rest| && rest[i].0 == rest[j].0 ensures rest[i].1 == rest[j].1 {
            assert ps[i + 1] == rest[i] && ps[j + 1] == rest[j];
          }
        }
      } else {
        assert !Agrees(table, ps) by {
          assert ps[0].0 in table.m && table.m[ps[0].0] != ps[0].1;
        }
      }
    }
  }

  /** A successful merge keeps a valid table, with the original one as its
      front. */
  lemma {:induction false} MergeExtends(table: Dict<string, string>, ps: seq<(string, string)>)
    requires table.Valid() && Merge(table, ps).Ok?
    ensures var r := Merge(table, ps).value;
      && r.Valid()
      && |table.keys| <= |r.keys| && r.keys[..|table.keys|] == table.keys
      && (forall k :: k in table.m ==> k in r.m && r.m[k] == table.m[k])
    decreases |ps|
  {
    if |ps| > 0 {
      var (k, v) := ps[0];
      var t := if k !in table.m then table.Put(k, v) else table;
      MergeExtends(t, ps[1..]);
      var r := Merge(table, ps).value;
      assert r == Merge(t, ps[1..]).value;
      assert t.keys[..|table.keys|] == table.keys;
      assert r.keys[..|t.keys|][..|table.keys|] == r.keys[..|table.keys|];
    }
  }

  /** ... maps every name of the pairs to its file ... */
  lemma {:induction false} MergeCovers(table: Dict<string, string>, ps: seq<(string, string)>)
    requires table.Valid() && Merge(table, ps).Ok?
    ensures var r := Merge(table, ps).value;
      forall i :: 0 <= i < |ps| ==> ps[i].0 in r.m && r.m[ps[i].0] == ps[i].1
    decreases |ps|
  {
    if |ps| > 0 {
      var (k, v) := ps[0];
      var rest := ps[1..];
      var t := if k !in table.m then table.Put(k, v) else table;
      MergeCovers(t, rest);
      MergeExtends(t, rest);
      var r := Merge(table, ps).value;
      assert r == Merge(t, rest).value;
      forall i | 0 <= i < |ps| ensures ps[i].0 in r.m && r.m[ps[i].0] == ps[i].1 {
        if i > 0 {
          assert ps[i] == rest[i - 1];
        }
      }
    }
  }

  /** ... and holds nothing else. */
  lemma {:induction false} MergeOnly(table: Dict<string, string>, ps: seq<(string, string)>)
    requires table.Valid() && Merge(table, ps).Ok?
    ensures var r := Merge(table, ps).value;
      forall k :: k in r.m ==> k in table.m || exists i :: 0 <= i < |ps| && ps[i].0 == k
    decreases |ps|
  {
    if |ps| > 0 {
      var (k, v) := ps[0];
      var rest := ps[1..];
      var t := if k !in table.m then table.Put(k, v) else table;
      MergeOnly(t, rest);
      var r := Merge(table, ps).value;
      assert r == Merge(t, rest).value;
      forall key | key in r.m ensures key in table.m || exists i :: 0 <= i < |ps| && ps[i].0 == key {
        if key !in t.m {
          var i :| 0 <= i < |rest| && rest[i].0 == key;
          assert ps[i + 1].0 == key;
        } else if key !in table.m {
          assert ps[0].0 == key;
        }
      }
    }
  }

  /** What a successful merge produces: a valid table that starts with the
      original one unchanged, maps every name of the pairs to its file, and
      holds nothing else. */
  lemma MergeTable(table: Dict<string, string>, ps: seq<(string, string)>)
    requires table.Valid() && Merge(table, ps).Ok?
    ensures var r := Merge(table, ps).value;
      && r.Valid()
      && |table.keys| <= |r.keys| && r.keys[..|table.keys|] == table.keys
      && (forall k :: k in table.m ==> k in r.m && r.m[k] == table.m[k])
      && (forall i :: 0 <= i < |ps| ==> ps[i].0 in r.m && r.m[ps[i].0] == ps[i].1)
      && (forall k :: k in r.m ==> k in table.m || exists i :: 0 <= i < |ps| && ps[i].0 == k)
  {
    MergeExtends(table, ps);
    MergeCovers(table, ps);
    MergeOnly(table, ps);
  }

  /** The dependencies of all fragments, fragment after fragment. */
  function Pairs(frags: seq<Fragment>): seq<(string, string)>
    decreases |frags|
  {
    if |frags| == 0 then [] else frags[0].deps + Pairs(frags[1..])
  }

  // ---------------------------------------------------------------------
  // The configuration text

  function LoadModuleLine(name: string, file: string): string {
    "LoadModule " + name + " " + PathJoin(ModulesDir, file)
  }

  function LoadModuleLines(keys: seq<string>, m: map<string, string>): (r: seq<string>)
    requires forall k :: k in keys ==> k in m
    ensures |r| == |keys|
    ensures forall i :: 0 <= i < |keys| ==> r[i] == LoadModuleLine(keys[i], m[keys[i]])
  {
    seq(|keys|, i requires 0 <= i < |keys| => LoadModuleLine(keys[i], m[keys[i]]))
  }

  const LogFormatLine := "LogFormat \"%h %l %u %t \\\"%r\\\" %>s %b \\\"%{Referer}i\\\" \\\"%{User-Agent}i\\\"\" common"

  /** The fixed lines between the module lines and the virtual hosts. */
  const HeaderLines: seq<string> := [
    "",
    "PidFile \"" + PidFile + "\"",
    "ErrorLog \"" + ErrorLogFile + "\"",
    LogFormatLine,
    "CustomLog \"" + AccessLogFile + "\" common",
    "",
    "Listen " + DecStr(PsConst.HttpPort) + " http",
    "",
    "ServerName none",
    "DocumentRoot \"" + RootDir + "\"",
    "<Directory \"" + RootDir + "\">",
    "    Options Indexes",
    "    Require all granted",
    "</Directory>",
    ""]

  /** `"    " + segment.replace("\n", "\n    ")` */
  function Indent(segment: string): string {
    "    " + ReplaceAll(segment, "\n", "\n    ")
  }

  function VhostBlock(segment: string): string {
    "<VirtualHost *>\n" + Indent(segment) + "</VirtualHost>\n" + "\n"
  }

  /** One virtual-host block per fragment, in order. */
  function Blocks(frags: seq<Fragment>): string
    decreases |frags|
  {
    if |frags| == 0 then "" else Blocks(frags[..|frags| - 1]) + VhostBlock(frags[|frags| - 1].segment)
  }

  function ConfigText(table: Dict<string, string>, frags: seq<Fragment>): string
    requires table.Valid()
  {
    Unlines(LoadModuleLines(table.keys, table.m)) + Unlines(HeaderLines) + Blocks(frags)
  }

  /** The text `_generateCfgFn` writes for a store, or the assertion
      failure it raises on conflicting module files. */
  function GenerateConfig(store: Dict<Key, Fragment>): Result<string, Exc>
    requires store.Valid()
  {
    var frags := store.Values();
    BaseModulesValid();
    match Merge(BaseModules, Pairs(frags))
    case Err(e) => Err(e)
    case Ok(t) =>
      MergeTable(BaseModules, Pairs(frags));
      Ok(ConfigText(t, frags))
  }

  /** The first loop of `_generateCfgFn`, over the stored fragments and
      then over each one's dependencies. */
  method MergeModules(ids: seq<Key>, cfg: map<Key, Fragment>) returns (r: Result<Dict<string, string>, Exc>)
    requires Dict(ids, cfg).Valid()
    ensures r == Merge(BaseModules, Pairs(Dict(ids, cfg).Values()))
  {
    var vals := Dict(ids, cfg).Values();
    BaseModulesValid();
    var table := BaseModules;
    var i := 0;
    assert vals[0..] == vals;
    while i < |ids|
      invariant 0 <= i <= |ids|
      invariant table.Valid()
      invariant Merge(BaseModules, Pairs(vals)) == Merge(table, Pairs(vals[i..]))
    {
      var deps := cfg[ids[i]].deps;
      assert vals[i..][1..] == vals[i + 1..];
      assert Pairs(vals[i..]) == deps + Pairs(vals[i + 1..]);
      var ok;
      ok, table := MergeDeps(table, deps, Pairs(vals[i + 1..]));
      if !ok {
        return Err(AssertionError);
      }
      i := i + 1;
    }
    assert vals[i..] == [];
    return Ok(table);
  }

  /** The inner loop of MergeModules: one fragment's dependencies merged
      into the table, `rest` being the pairs still to come. */
  method MergeDeps(table0: Dict<string, string>, deps: seq<(string, string)>, ghost rest: seq<(string, string)>)
    returns (ok: bool, table: Dict<string, string>)
    requires table0.Valid()
    ensures table.Valid()
    ensures ok ==> Merge(table0, deps + rest) == Merge(table, rest)
    ensures !ok ==> Merge(table0, deps + rest) == Err(AssertionError)
  {
    table := table0;
    var j := 0;
    assert deps[0..] == deps;
    while j < |deps|
      invariant 0 <= j <= |deps|
      invariant table.Valid()
      invariant Merge(table0, deps + rest) == Merge(table, deps[j..] + rest)
    {
      var (k, v) := deps[j];
      var ps := deps[j..] + rest;
      assert ps[0] == deps[j] && ps[1..] == deps[j + 1..] + rest;
      if k !in table.m {
        table := table.Put(k, v);
      } else if table.m[k] != v {
        return false, table;
      }
      j := j + 1;
    }
    assert deps[j..] + rest == rest;
    ok := true;
  }

  lemma UnlinesSnoc(lines: seq<string>, n: nat)
    requires n < |lines|
    ensures Unlines(lines[..n + 1]) == Unlines(lines[..n]) + lines[n] + "\n"
  {
    UnlinesAppend(lines[..n], [lines[n]]);
    assert lines[..n + 1] == lines[..n] + [lines[n]];
    assert Unlines([lines[n]]) == lines[n] + "\n" + Unlines([]);
  }

  /** The `LoadModule` lines of a merged table, appended one by one. */
  method WriteModuleLines(table: Dict<string, string>) returns (buf: string)
    requires table.Valid()
    ensures buf == Unlines(LoadModuleLines(table.keys, table.m))
  {
    var lines := LoadModuleLines(table.keys, table.m);
    buf := "";
    var n := 0;
    assert lines[..0] == [];
    while n < |table.keys|
      invariant 0 <= n <= |table.keys|
      invariant buf == Unlines(lines[..n])
    {
      var k := table.keys[n];
      buf := buf + LoadModuleLine(k, table.m[k]) + "\n";
      assert buf == Unlines(lines[..n + 1]) by {
        UnlinesSnoc(lines, n);
      }
      n := n + 1;
    }
    assert lines[..n] == lines;
  }

  lemma BlocksSnoc(frags: seq<Fragment>, i: nat)
    requires i < |frags|
    ensures Blocks(frags[..i + 1]) == Blocks(frags[..i]) + VhostBlock(frags[i].segment)
  {
    assert frags[..i + 1][..i] == frags[..i];
  }

  /** The four appends that write one block. */
  lemma AppendBlock(before: string, segment: string)
    ensures (((before + "<VirtualHost *>\n") + "    " + ReplaceAll(segment, "\n", "\n    "))
              + "</VirtualHost>\n") + "\n" == before + VhostBlock(segment)
  {
  }

  /** The virtual-host blocks, appended fragment by fragment. */
  method WriteBlocks(ids: seq<Key>, cfg: map<Key, Fragment>) returns (buf: string)
    requires Dict(ids, cfg).Valid()
    ensures buf == Blocks(Dict(ids, cfg).Values())
  {
    var vals := Dict(ids, cfg).Values();
    buf := "";
    var i := 0;
    assert vals[..0] == [];
    while i < |ids|
      invariant 0 <= i <= |ids|
      invariant buf == Blocks(vals[..i])
    {
      var segment := cfg[ids[i]].segment;
      ghost var before := buf;
      buf := buf + "<VirtualHost *>\n";
      buf := buf + "    " + ReplaceAll(segment, "\n", "\n    ");
      buf := buf + "</VirtualHost>\n";
      buf := buf + "\n";
      assert buf == before + VhostBlock(segment) by {
        AppendBlock(before, segment);
      }
      assert vals[i].segment == segment;
      assert buf == Blocks(vals[..i + 1]) by {
        BlocksSnoc(vals, i);
      }
      i := i + 1;
    }
    assert vals[..i] == vals;
  }

  /** `_generateCfgFn` without the file write. */
  method BuildConfig(ids: seq<Key>, cfg: map<Key, Fragment>) returns (r: Result<string, Exc>)
    requires Dict(ids, cfg).Valid()
    ensures r == GenerateConfig(Dict(ids, cfg))
  {
    var merged := MergeModules(ids, cfg);
    if merged.Err? {
      return Err(merged.error);
    }
    var table := merged.value;
    BaseModulesValid();
    MergeTable(BaseModules, Pairs(Dict(ids, cfg).Values()));
    var buf := WriteModuleLines(table);
    buf := buf + Unlines(HeaderLines);
    var blocks := WriteBlocks(ids, cfg);
    buf := buf + blocks;
    return Ok(buf);
  }

  // ---------------------------------------------------------------------
  // Properties of the generated text

  /** The module table a store merges into. */
  function MergedTable(store: Dict<Key, Fragment>): Result<Dict<string, string>, Exc>
    requires store.Valid()
  {
    Merge(BaseModules, Pairs(store.Values()))
  }

  /** Generation fails exactly when two fragments, or a fragment and the
      base table, give one module name two files. */
  lemma GenerateOkIff(store: Dict<Key, Fragment>)
    requires store.Valid()
    ensures GenerateConfig(store).Ok?
        <==> Agrees(BaseModules, Pairs(store.Values())) && SelfConsistent(Pairs(store.Values()))
  {
    MergeOkIff(BaseModules, Pairs(store.Values()));
  }

  /** A generated text is the one built from the merged table, which
      starts with the five base modules, keeps their files and maps every
      dependency of every fragment to its file. */
  lemma GeneratedTable(store: Dict<Key, Fragment>)
    requires store.Valid() && MergedTable(store).Ok?
    ensures var t := MergedTable(store).value;
      && t.Valid()
      && GenerateConfig(store) == Ok(ConfigText(t, store.Values()))
      && |t.keys| >= 5 && t.keys[..5] == BaseNames
      && (forall k :: k in BaseModules.m ==> k in t.m && t.m[k] == BaseModules.m[k])
      && (forall i :: 0 <= i < |Pairs(store.Values())| ==>
            Pairs(store.Values())[i].0 in t.m && t.m[Pairs(store.Values())[i].0] == Pairs(store.Values())[i].1)
  {
    BaseModulesValid();
    MergeTable(BaseModules, Pairs(store.Values()));
  }

  /** The text starts with one `LoadModule` line per table entry, in table
      order (provided no module name or file holds a newline). */
  lemma ConfigModuleLines(t: Dict<string, string>, frags: seq<Fragment>)
    requires t.Valid()
    requires forall i :: 0 <= i < |t.keys| ==> NoNewline(LoadModuleLine(t.keys[i], t.m[t.keys[i]]))
    ensures |Split(ConfigText(t, frags), '\n')| >= |t.keys|
    ensures Split(ConfigText(t, frags), '\n')[..|t.keys|] == LoadModuleLines(t.keys, t.m)
  {
    var lines := LoadModuleLines(t.keys, t.m);
    var rest := Unlines(HeaderLines) + Blocks(frags);
    assert ConfigText(t, frags) == Unlines(lines) + rest;
    SplitUnlinesThen(lines, rest);
    assert (lines + Split(rest, '\n'))[..|lines|] == lines;
  }

  /** Every line of a fragment's segment is indented by four spaces inside
      its virtual-host block. */
  lemma SegmentIndented(segment: string)
    ensures Split(Indent(segment), '\n') == PrefixEach("    ", Split(segment, '\n'))
  {
    assert "\n" + "    " == "\n    ";
    IndentLines("    ", segment);
  }

  const CloseTail := "</VirtualHost>\n" + "\n"

  lemma CloseLines()
    ensures Split(CloseTail, '\n') == ["</VirtualHost>", "", ""]
  {
    var close := "</VirtualHost>";
    var nl := ['\n'];
    assert '\n' !in close;
    assert CloseTail == close + nl + nl;
    SplitAtSeparator(close, nl, '\n');
    assert Split(nl, '\n') == [[]] + Split([], '\n');
    assert Split(nl, '\n') == [[], []];
  }

  lemma BlockHead(segment: string)
    ensures Split(VhostBlock(segment), '\n') == ["<VirtualHost *>"] + Split(Indent(segment) + CloseTail, '\n')
  {
    var open := "<VirtualHost *>";
    assert '\n' !in open;
    assert VhostBlock(segment) == open + ['\n'] + (Indent(segment) + CloseTail);
    SplitAtSeparator(open, Indent(segment) + CloseTail, '\n');
  }

  lemma BlockBody(segment: string)
    ensures var s := Split(segment, '\n');
      Split(Indent(segment) + CloseTail, '\n')
        == PrefixEach("    ", s[..|s| - 1]) + ["    " + s[|s| - 1] + "</VirtualHost>", "", ""]
  {
    var s := Split(segment, '\n');
    var glued := Glued(PrefixEach("    ", s), ["</VirtualHost>", "", ""]);
    assert Split(Indent(segment) + CloseTail, '\n') == glued by {
      BlockGlued(segment);
    }
    assert glued == PrefixEach("    ", s[..|s| - 1]) + ["    " + s[|s| - 1] + "</VirtualHost>", "", ""] by {
      GluedClose(s);
    }
  }

  lemma BlockGlued(segment: string)
    ensures Split(Indent(segment) + CloseTail, '\n')
         == Glued(PrefixEach("    ", Split(segment, '\n')), ["</VirtualHost>", "", ""])
  {
    SplitConcat(Indent(segment), CloseTail, '\n');
    SegmentIndented(segment);
    CloseLines();
  }

  /** The indented lines of a segment with the closing lines glued on. */
  lemma GluedClose(s: seq<string>)
    requires |s| >= 1
    ensures Glued(PrefixEach("    ", s), ["</VirtualHost>", "", ""])
         == PrefixEach("    ", s[..|s| - 1]) + ["    " + s[|s| - 1] + "</VirtualHost>", "", ""]
  {
    var p := PrefixEach("    ", s);
    var c := ["</VirtualHost>", "", ""];
    assert p[..|p| - 1] == PrefixEach("    ", s[..|s| - 1]);
    assert p[|p| - 1] + c[0] == "    " + s[|s| - 1] + "</VirtualHost>";
    assert [p[|p| - 1] + c[0]] + c[1..] == ["    " + s[|s| - 1] + "</VirtualHost>", "", ""];
  }

  /** The lines of one virtual-host block: the opening tag, then every line
      of the segment but the last indented by four spaces, then the last
      line running on into the closing tag, and a blank line. */
  lemma BlockLines(segment: string)
    ensures var s := Split(segment, '\n');
      Split(VhostBlock(segment), '\n')
        == ["<VirtualHost *>"] + PrefixEach("    ", s[..|s| - 1])
           + ["    " + s[|s| - 1] + "</VirtualHost>", "", ""]
  {
    BlockHead(segment);
    BlockBody(segment);
  }

  // ---------------------------------------------------------------------
  // The server object as a value

  /** The fields of the object: the dictionary, whether an Apache process
      is held, the number of reload signals sent to it, and the last text
      written to the configuration file. */
  datatype Httpd = Httpd(store: Dict<Key, Fragment>, running: bool, reloads: nat, cfgFile: Option<string>)

  datatype Step = Step(next: Httpd, outcome: Outcome)

  const Fresh := Httpd(Empty(), false, 0, None)

  /** `_refresh`: regenerate and signal, only while a process is held. */
  function Refresh(h: Httpd): Step
    requires h.store.Valid()
  {
    if !h.running then Step(h, Done)
    else
      match GenerateConfig(h.store)
      case Err(e) => Step(h, Raised(e))
      case Ok(text) => Step(h.(cfgFile := Some(text), reloads := h.reloads + 1), Done)
  }

  /** `addConfig` */
  function AddConfig(h: Httpd, id: Key, f: Fragment): Step
    requires h.store.Valid()
  {
    if id in h.store.m then Step(h, Raised(AssertionError))
    else Refresh(h.(store := h.store.Put(id, f)))
  }

  /** `updateConfig` */
  function UpdateConfig(h: Httpd, id: Key, f: Fragment): Step
    requires h.store.Valid()
  {
    Refresh(h.(store := h.store.Put(id, f)))
  }

  /** `removeConfig` */
  function RemoveConfig(h: Httpd, id: Key): Step
    requires h.store.Valid()
  {
    if id !in h.store.m then Step(h, Raised(KeyError))
    else Refresh(h.(store := h.store.Remove(id)))
  }

  /** The store after deleting `ids` in order, and how many were deleted
      before one was missing. */
  datatype Removal = Removal(store: Dict<Key, Fragment>, done: nat)

  function RemoveEach(d: Dict<Key, Fragment>, ids: seq<Key>): (r: Removal)
    requires d.Valid()
    ensures r.store.Valid() && r.done <= |ids|
    decreases |ids|
  {
    if |ids| == 0 || ids[0] !in d.m then Removal(d, 0)
    else
      var r := RemoveEach(d.Remove(ids[0]), ids[1..]);
      Removal(r.store, r.done + 1)
  }

  /** The ids of a sequence, as a set. */
  function Members(s: seq<Key>): (r: set<Key>)
    ensures forall k :: k in r <==> k in s
  {
    set k | k in s
  }

  lemma MinusTwice(m: map<Key, Fragment>, a: Key, s: set<Key>)
    ensures (m - {a}) - s == m - ({a} + s)
  {
  }

  lemma SetOfCons(ids: seq<Key>, n: nat)
    requires 0 < n <= |ids|
    ensures Members(ids[..n]) == {ids[0]} + Members(ids[1..][..n - 1])
  {
    assert ids[..n] == [ids[0]] + ids[1..][..n - 1];
  }

  /** The batch deletes exactly the ids before the one it stopped at. */
  lemma {:induction false} RemoveEachStore(d: Dict<Key, Fragment>, ids: seq<Key>)
    requires d.Valid()
    ensures var r := RemoveEach(d, ids);
      r.store.m == d.m - Members(ids[..r.done])
    decreases |ids|
  {
    if |ids| == 0 || ids[0] !in d.m {
      assert RemoveEach(d, ids) == Removal(d, 0);
      assert ids[..0] == [];
    } else {
      var d' := d.Remove(ids[0]);
      RemoveEachStore(d', ids[1..]);
      var r' := RemoveEach(d', ids[1..]);
      var r := RemoveEach(d, ids);
      assert r == Removal(r'.store, r'.done + 1);
      SetOfCons(ids, r.done);
      MinusTwice(d.m, ids[0], Members(ids[1..][..r'.done]));
    }
  }

  /** The ids the batch deleted were present and distinct, and it stops
      only at an id that is missing by then. */
  lemma {:induction false} RemoveEachStops(d: Dict<Key, Fragment>, ids: seq<Key>)
    requires d.Valid()
    ensures var r := RemoveEach(d, ids);
      && (forall i :: 0 <= i < r.done ==> ids[i] in d.m && ids[i] !in ids[..i])
      && (r.done < |ids| ==> ids[r.done] !in r.store.m)
    decreases |ids|
  {
    if |ids| == 0 || ids[0] !in d.m {
      assert RemoveEach(d, ids) == Removal(d, 0);
    } else {
      RemoveEachStops(d.Remove(ids[0]), ids[1..]);
      RemoveEachStopsStep(d, ids);
    }
  }

  /** The step of RemoveEachStops: the first id was present, and every later
      deleted id was present once it was gone, so it differs from it. */
  lemma RemoveEachStopsStep(d: Dict<Key, Fragment>, ids: seq<Key>)
    requires d.Valid() && |ids| > 0 && ids[0] in d.m
    requires forall i :: 0 <= i < RemoveEach(d.Remove(ids[0]), ids[1..]).done ==>
               ids[1..][i] in d.Remove(ids[0]).m && ids[1..][i] !in ids[1..][..i]
    requires RemoveEach(d.Remove(ids[0]), ids[1..]).done < |ids[1..]| ==>
               ids[1..][RemoveEach(d.Remove(ids[0]), ids[1..]).done] !in RemoveEach(d.Remove(ids[0]), ids[1..]).store.m
    ensures var r := RemoveEach(d, ids);
      && (forall i :: 0 <= i < r.done ==> ids[i] in d.m && ids[i] !in ids[..i])
      && (r.done < |ids| ==> ids[r.done] !in r.store.m)
  {
    var d' := d.Remove(ids[0]);
    var r' := RemoveEach(d', ids[1..]);
    var r := RemoveEach(d, ids);
    assert r == Removal(r'.store, r'.done + 1);
    forall i | 0 <= i < r.done ensures ids[i] in d.m && ids[i] !in ids[..i] {
      if i > 0 {
        StopsAt(ids, i, d.m, d'.m);
      }
    }
    if r.done < |ids| {
      assert ids[r.done] == ids[1..][r'.done];
    }
  }

  lemma StopsAt(ids: seq<Key>, i: nat, m: map<Key, Fragment>, m': map<Key, Fragment>)
    requires 0 < i < |ids| && m' == m - {ids[0]}
    requires ids[1..][i - 1] in m' && ids[1..][i - 1] !in ids[1..][..i - 1]
    ensures ids[i] in m && ids[i] !in ids[..i]
  {
    assert ids[..i] == [ids[0]] + ids[1..][..i - 1];
    assert ids[i] == ids[1..][i - 1];
  }

  lemma ConsTail(ids: seq<Key>, i: nat)
    requires 0 < i < |ids|
    ensures ids[i] == ids[1..][i - 1]
    ensures forall x :: x in ids[..i] <==> x == ids[0] || x in ids[1..][..i - 1]
  {
    assert ids[..i] == [ids[0]] + ids[1..][..i - 1];
  }

  /** `batchRemoveConfig`: a missing id aborts with the earlier deletions
      kept and no refresh. */
  function BatchRemoveConfig(h: Httpd, ids: seq<Key>): Step
    requires h.store.Valid()
  {
    var r := RemoveEach(h.store, ids);
    if r.done < |ids| then Step(h.(store := r.store), Raised(KeyError))
    else Refresh(h.(store := r.store))
  }

  /** `start`, without the process launch, and with the port wait the
      source evidently means (`waitTcpServiceForProc`) succeeding. */
  function Start(h: Httpd): Step
    requires h.store.Valid()
  {
    if h.running then Step(h, Raised(AssertionError))
    else
      match GenerateConfig(h.store)
      case Err(e) => Step(h, Raised(e))
      case Ok(text) => Step(h.(cfgFile := Some(text), running := true), Done)
  }

  /** `start` as written: after the configuration is written and the
      process launched, the port wait calls `PsUtil.waitSocketPortForProc`,
      which lib/ps_util.py does not define, so the call raises
      `AttributeError` with the process already held. */
  function AsWrittenStart(h: Httpd): Step
    requires h.store.Valid()
  {
    if h.running then Step(h, Raised(AssertionError))
    else
      match GenerateConfig(h.store)
      case Err(e) => Step(h, Raised(e))
      case Ok(text) => Step(h.(cfgFile := Some(text), running := true), Raised(AttributeError))
  }

  /** `stop`, without the process shutdown and the root removal. */
  function Stop(h: Httpd): Step {
    Step(h.(running := false), Done)
  }

  // ---------------------------------------------------------------------
  // Properties of the operations

  /** Without a process `_refresh` does nothing; with one it sends exactly
      one reload for a text that generates, and raises without sending one
      otherwise. The dictionary is never touched. */
  lemma RefreshEffect(h: Httpd)
    requires h.store.Valid()
    ensures !h.running ==> Refresh(h) == Step(h, Done)
    ensures var s := Refresh(h);
      && s.next.store == h.store && s.next.running == h.running
      && (h.running ==> (s.outcome == Done <==> GenerateConfig(h.store).Ok?))
      && (s.outcome == Done && h.running ==>
            s.next.reloads == h.reloads + 1 && s.next.cfgFile == Some(GenerateConfig(h.store).value))
      && (s.outcome.Raised? ==> s.next == h && s.outcome.exc == AssertionError)
  {
    BaseModulesValid();
    MergeRaisesAssertion(BaseModules, Pairs(h.store.Values()));
  }

  /** Regenerating with no mutation in between writes the same text. */
  lemma RefreshStable(h: Httpd)
    requires h.store.Valid() && h.running && Refresh(h).outcome == Done
    ensures Refresh(Refresh(h).next).next.cfgFile == Refresh(h).next.cfgFile
    ensures Refresh(Refresh(h).next).next.reloads == h.reloads + 2
  {
  }

  /** `addConfig` refuses a present id; otherwise the id is appended with
      its fragment, every other entry stays, and one refresh follows (the
      dictionary keeps the entry even if that refresh raises). */
  lemma AddConfigEffect(h: Httpd, id: Key, f: Fragment)
    requires h.store.Valid()
    ensures id in h.store.m ==> AddConfig(h, id, f) == Step(h, Raised(AssertionError))
    ensures id !in h.store.m ==>
      var s := AddConfig(h, id, f);
      && s.next.store.Valid()
      && s.next.store.keys == h.store.keys + [id]
      && s.next.store.m == h.store.m[id := f]
      && s == Refresh(h.(store := s.next.store))
  {
  }

  /** `updateConfig` overwrites in place, or appends an absent id. */
  lemma UpdateConfigEffect(h: Httpd, id: Key, f: Fragment)
    requires h.store.Valid()
    ensures var s := UpdateConfig(h, id, f);
      && s.next.store.Valid()
      && s.next.store.m == h.store.m[id := f]
      && s.next.store.keys == (if id in h.store.m then h.store.keys else h.store.keys + [id])
      && s == Refresh(h.(store := s.next.store))
  {
  }

  /** `removeConfig` raises KeyError for an absent id and changes nothing;
      otherwise only that id goes, the others keeping their order. */
  lemma RemoveConfigEffect(h: Httpd, id: Key)
    requires h.store.Valid()
    ensures id !in h.store.m ==> RemoveConfig(h, id) == Step(h, Raised(KeyError))
    ensures id in h.store.m ==>
      var s := RemoveConfig(h, id);
      && s.next.store.Valid()
      && s.next.store.m == h.store.m - {id}
      && s.next.store.keys == Without(h.store.keys, id)
      && s == Refresh(h.(store := s.next.store))
  {
  }

  /** `batchRemoveConfig` with present, distinct ids deletes exactly
      those and refreshes once. */
  lemma BatchRemoveAll(h: Httpd, ids: seq<Key>)
    requires h.store.Valid()
    requires forall i :: 0 <= i < |ids| ==> ids[i] in h.store.m
    requires Distinct(ids)
    ensures var s := BatchRemoveConfig(h, ids);
      && s.next.store.m == h.store.m - Members(ids)
      && s == Refresh(h.(store := s.next.store))
  {
    var r := RemoveEach(h.store, ids);
    RemoveEachStore(h.store, ids);
    RemoveEachStops(h.store, ids);
    if r.done < |ids| {
      DistinctNotBefore(ids, r.done);
    }
    assert ids[..r.done] == ids;
  }

  lemma DistinctNotBefore(ids: seq<Key>, n: nat)
    requires Distinct(ids) && n < |ids|
    ensures ids[n] !in ids[..n]
  {
    forall j | 0 <= j < n ensures ids[..n][j] != ids[n] {
      assert ids[..n][j] == ids[j];
    }
  }

  /** When `batchRemoveConfig` raises KeyError, the deletions before the
      failing id are kept and nothing is regenerated or signalled. */
  lemma BatchRemoveFails(h: Httpd, ids: seq<Key>)
    requires h.store.Valid()
    requires BatchRemoveConfig(h, ids).outcome == Raised(KeyError)
    ensures var s := BatchRemoveConfig(h, ids);
      && s.next.reloads == h.reloads && s.next.cfgFile == h.cfgFile && s.next.running == h.running
      && exists n :: 0 <= n < |ids| && ids[n] !in s.next.store.m
                  && s.next.store.m == h.store.m - Members(ids[..n])
  {
    var r := RemoveEach(h.store, ids);
    RemoveEachStore(h.store, ids);
    RemoveEachStops(h.store, ids);
    RefreshEffect(h.(store := r.store));
    assert r.done < |ids|;
  }

  /** A batch with every id present and distinct never fails. */
  lemma BatchRemoveFailsOnlyOnMissing(h: Httpd, ids: seq<Key>)
    requires h.store.Valid()
    requires BatchRemoveConfig(h, ids).outcome == Raised(KeyError)
    ensures !Distinct(ids) || exists i :: 0 <= i < |ids| && ids[i] !in h.store.m
  {
    var r := RemoveEach(h.store, ids);
    RefreshEffect(h.(store := r.store));
    if Distinct(ids) && forall i :: 0 <= i < |ids| ==> ids[i] in h.store.m {
      BatchRemoveAll(h, ids);
    }
  }

  /** After `stop` no process is held, so a refresh does nothing. */
  lemma StopThenRefresh(h: Httpd)
    requires h.store.Valid()
    ensures Refresh(Stop(h).next) == Step(Stop(h).next, Done)
    ensures Stop(Stop(h).next) == Stop(h)
  {
  }

  /** As written, `start` never succeeds. Where the corrected start
      succeeds, the written one leaves the same state behind, a launched
      process with the configuration written, and raises; any later start
      then fails its assertion until `stop`. */
  lemma AsWrittenStartRaises(h: Httpd)
    requires h.store.Valid()
    ensures AsWrittenStart(h).outcome != Done
    ensures AsWrittenStart(h).next == Start(h).next
    ensures Start(h).outcome == Done <==> AsWrittenStart(h).outcome == Raised(AttributeError)
    ensures Start(h).outcome.Raised? ==> AsWrittenStart(h) == Start(h)
    ensures AsWrittenStart(h).outcome == Raised(AttributeError) ==>
      && AsWrittenStart(h).next.running
      && AsWrittenStart(AsWrittenStart(h).next) == Step(AsWrittenStart(h).next, Raised(AssertionError))
  {
    BaseModulesValid();
    MergeRaisesAssertion(BaseModules, Pairs(h.store.Values()));
  }

  /** `start` with the port wait it evidently means, `waitTcpServiceForProc`:
      it asserts that no process is held, so a second `start` fails until
      `stop`; it succeeds exactly when the configuration generates, keeps
      the store, and a refresh right after it writes the same text. */
  lemma StartEffect(h: Httpd)
    requires h.store.Valid()
    ensures h.running ==> Start(h) == Step(h, Raised(AssertionError))
    ensures !h.running ==> (Start(h).outcome == Done <==> GenerateConfig(h.store).Ok?)
    ensures Start(h).outcome == Done ==>
      && Start(h).next.store == h.store
      && Start(Start(h).next).outcome == Raised(AssertionError)
      && Refresh(Start(h).next).next.cfgFile == Start(h).next.cfgFile
      && Start(Stop(Start(h).next).next) == Start(h)
  {
  }
}
