/** The registration handlers of `PsApiServer` (lib/ps_api_server.py): a
    client connection is first unregistered, its first message adds a
    reverse-proxy fragment to the main web server under `proxy-<fd>`, later
    messages update it, and a disconnect removes it. The socket framing of
    the base class is not part of this model; a socket is its descriptor. */
module Api {
  import opened Wrappers
  import opened Text
  import opened PyDict
  import M = MainHttpd

  /** The fields of a client's JSON notification that the handlers read;
      the entries of `url-map` are in the map's order. */
  datatype Message = Message(domainName: Option<string>, urlMap: Option<seq<(string, string)>>)

  const NoDomainName := Failure("\"domain-name\" field does not exist in notification")
  const NoUrlMap := Failure("\"url-map\" field does not exist in notification")

  /** The module dependencies of every proxy fragment. */
  const ProxyDeps: seq<(string, string)> :=
    [("proxy_module", "mod_proxy.so"), ("proxy_http_module", "mod_proxy_http.so")]

  function ProxyPassLine(src: string, dst: string): string {
    "ProxyPass \"" + src + "\" \"" + dst + "\""
  }

  function ProxyPassReverseLine(src: string, dst: string): string {
    "ProxyPassReverse \"" + src + "\" \"" + dst + "\""
  }

  /** One `ProxyPass` and one `ProxyPassReverse` line per url-map entry, in
      map order. */
  function ProxyLines(urlMap: seq<(string, string)>): (r: seq<string>)
    ensures |r| == 2 * |urlMap|
    ensures forall i :: 0 <= i < |urlMap| ==>
      r[2 * i] == ProxyPassLine(urlMap[i].0, urlMap[i].1)
      && r[2 * i + 1] == ProxyPassReverseLine(urlMap[i].0, urlMap[i].1)
    decreases |urlMap|
  {
    if |urlMap| == 0 then []
    else
      var (src, dst) := urlMap[|urlMap| - 1];
      ProxyLines(urlMap[..|urlMap| - 1]) + [ProxyPassLine(src, dst), ProxyPassReverseLine(src, dst)]
  }

  /** The directives of a proxy virtual host. */
  function DirectiveLines(domain: string, urlMap: seq<(string, string)>): seq<string> {
    ["ServerName " + domain] + ProxyLines(urlMap)
  }

  /** The segment `_toApacheConfig` builds: the directives indented inside
      a `<VirtualHost *>` section of its own, then a blank line. */
  function AsWrittenSegment(domain: string, urlMap: seq<(string, string)>): string {
    Unlines(["<VirtualHost *>"] + PrefixEach("    ", DirectiveLines(domain, urlMap)) + ["</VirtualHost>", ""])
  }

  /** The segment with the directives only, the section being supplied by
      the main server as for every other fragment. */
  function Segment(domain: string, urlMap: seq<(string, string)>): string {
    Unlines(DirectiveLines(domain, urlMap))
  }

  /** The body of `_toApacheConfig` as written: the two fields are checked
      in order, then the fragment is built. */
  function AsWrittenToApacheConfig(msg: Message): (r: Result<M.Fragment, Exc>)
    ensures msg.domainName.None? ==> r == Err(NoDomainName)
    ensures msg.domainName.Some? && msg.urlMap.None? ==> r == Err(NoUrlMap)
    ensures r.Ok? <==> msg.domainName.Some? && msg.urlMap.Some?
    ensures r.Ok? ==> r.value.deps == ProxyDeps
  {
    if msg.domainName.None? then Err(NoDomainName)
    else if msg.urlMap.None? then Err(NoUrlMap)
    else Ok(M.Fragment(ProxyDeps, AsWrittenSegment(msg.domainName.value, msg.urlMap.value)))
  }

  /** `_toApacheConfig` with the segment holding the directives only. */
  function ToApacheConfig(msg: Message): (r: Result<M.Fragment, Exc>)
    ensures msg.domainName.None? ==> r == Err(NoDomainName)
    ensures msg.domainName.Some? && msg.urlMap.None? ==> r == Err(NoUrlMap)
    ensures r.Ok? <==> msg.domainName.Some? && msg.urlMap.Some?
    ensures r.Ok? ==> r.value.deps == ProxyDeps
  {
    if msg.domainName.None? then Err(NoDomainName)
    else if msg.urlMap.None? then Err(NoUrlMap)
    else Ok(M.Fragment(ProxyDeps, Segment(msg.domainName.value, msg.urlMap.value)))
  }

  lemma PrefixEachAppend(p: string, a: seq<string>, b: seq<string>)
    ensures PrefixEach(p, a + b) == PrefixEach(p, a) + PrefixEach(p, b)
  {
  }

  /** One url-map entry more adds its two lines at the end. */
  lemma ProxyStep(urlMap: seq<(string, string)>, i: nat, indent: string)
    requires i < |urlMap|
    ensures var (src, dst) := urlMap[i];
      Unlines(PrefixEach(indent, ProxyLines(urlMap[..i + 1])))
        == Unlines(PrefixEach(indent, ProxyLines(urlMap[..i])))
           + (indent + ProxyPassLine(src, dst)) + "\n" + (indent + ProxyPassReverseLine(src, dst)) + "\n"
  {
    var (src, dst) := urlMap[i];
    var before := ProxyLines(urlMap[..i]);
    assert urlMap[..i + 1][..i] == urlMap[..i];
    var two := [ProxyPassLine(src, dst), ProxyPassReverseLine(src, dst)];
    assert ProxyLines(urlMap[..i + 1]) == before + two;
    PrefixEachAppend(indent, before, two);
    UnlinesAppend(PrefixEach(indent, before), PrefixEach(indent, two));
    var pass, reverse := indent + ProxyPassLine(src, dst), indent + ProxyPassReverseLine(src, dst);
    assert PrefixEach(indent, two) == [pass, reverse];
    UnlinesTwo(pass, reverse);
    var x := Unlines(PrefixEach(indent, before));
    assert x + (pass + "\n" + reverse + "\n") == x + pass + "\n" + reverse + "\n";
  }

  lemma UnlinesTwo(a: string, b: string)
    ensures Unlines([a, b]) == a + "\n" + b + "\n"
  {
    UnlinesCons(a, [b]);
    UnlinesCons(b, []);
    assert [a, b] == [a] + [b] && [b] == [b] + [];
    assert a + "\n" + (b + "\n" + "") == a + "\n" + b + "\n";
  }

  /** The loop over the url map, each line prefixed by `indent`. */
  method WriteProxyLines(urlMap: seq<(string, string)>, indent: string) returns (buf: string)
    ensures buf == Unlines(PrefixEach(indent, ProxyLines(urlMap)))
  {
    buf := "";
    var i := 0;
    while i < |urlMap|
      invariant 0 <= i <= |urlMap|
      invariant buf == Unlines(PrefixEach(indent, ProxyLines(urlMap[..i])))
    {
      var (src, dst) := urlMap[i];
      ProxyStep(urlMap, i, indent);
      buf := buf + (indent + ProxyPassLine(src, dst)) + "\n";
      buf := buf + (indent + ProxyPassReverseLine(src, dst)) + "\n";
      i := i + 1;
    }
    assert urlMap[..i] == urlMap;
  }

  /** `_toApacheConfig(data)` as written, building the segment step by
      step. */
  method AsWrittenBuildFragment(msg: Message) returns (r: Result<M.Fragment, Exc>)
    ensures r == AsWrittenToApacheConfig(msg)
  {
    if msg.domainName.None? {
      return Err(NoDomainName);
    }
    if msg.urlMap.None? {
      return Err(NoUrlMap);
    }
    var domain, urlMap := msg.domainName.value, msg.urlMap.value;
    var buf := "<VirtualHost *>" + "\n";
    buf := buf + ("    ServerName " + domain) + "\n";
    var proxies := WriteProxyLines(urlMap, "    ");
    buf := buf + proxies;
    buf := buf + "</VirtualHost>" + "\n";
    buf := buf + "\n";
    AsWrittenSegmentText(domain, urlMap);
    r := Ok(M.Fragment(ProxyDeps, buf));
  }

  lemma UnlinesCons(line: string, rest: seq<string>)
    ensures Unlines([line] + rest) == line + "\n" + Unlines(rest)
  {
    assert ([line] + rest)[1..] == rest;
  }

  /** Lines between an opening and a closing line, then a blank one. */
  lemma UnlinesWrapped(open: string, first: string, rest: seq<string>, close: string)
    ensures Unlines([open] + ([first] + rest) + [close, ""])
         == open + "\n" + first + "\n" + Unlines(rest) + close + "\n" + "\n"
  {
    assert [open] + ([first] + rest) + [close, ""] == [open] + ([first] + (rest + [close, ""]));
    UnlinesCons(open, [first] + (rest + [close, ""]));
    UnlinesCons(first, rest + [close, ""]);
    UnlinesAppend(rest, [close, ""]);
    UnlinesTwo(close, "");
  }

  /** The as-written segment, in the order the code appends to it. */
  lemma AsWrittenSegmentText(domain: string, urlMap: seq<(string, string)>)
    ensures AsWrittenSegment(domain, urlMap)
         == "<VirtualHost *>" + "\n" + ("    ServerName " + domain) + "\n"
            + Unlines(PrefixEach("    ", ProxyLines(urlMap))) + "</VirtualHost>" + "\n" + "\n"
  {
    var server := "    ServerName " + domain;
    var proxies := PrefixEach("    ", ProxyLines(urlMap));
    PrefixEachAppend("    ", ["ServerName " + domain], ProxyLines(urlMap));
    assert "    " + ("ServerName " + domain) == server;
    assert PrefixEach("    ", DirectiveLines(domain, urlMap)) == [server] + proxies;
    UnlinesWrapped("<VirtualHost *>", server, proxies, "</VirtualHost>");
  }

  /** `_toApacheConfig(data)` with the directives only. */
  method BuildFragment(msg: Message) returns (r: Result<M.Fragment, Exc>)
    ensures r == ToApacheConfig(msg)
  {
    if msg.domainName.None? {
      return Err(NoDomainName);
    }
    if msg.urlMap.None? {
      return Err(NoUrlMap);
    }
    var domain, urlMap := msg.domainName.value, msg.urlMap.value;
    var buf := "ServerName " + domain + "\n";
    var proxies := WriteProxyLines(urlMap, "");
    assert forall k :: 0 <= k < |ProxyLines(urlMap)| ==> "" + ProxyLines(urlMap)[k] == ProxyLines(urlMap)[k];
    assert PrefixEach("", ProxyLines(urlMap)) == ProxyLines(urlMap);
    UnlinesCons("ServerName " + domain, ProxyLines(urlMap));
    buf := buf + proxies;
    r := Ok(M.Fragment(ProxyDeps, buf));
  }

  // ---------------------------------------------------------------------
  // Properties of the fragments

  /** No url-map entry and no domain name holds a line break. */
  predicate SingleLine(msg: Message) {
    && (msg.domainName.Some? ==> NoNewline(msg.domainName.value))
    && (msg.urlMap.Some? ==> forall i :: 0 <= i < |msg.urlMap.value| ==>
          NoNewline(msg.urlMap.value[i].0) && NoNewline(msg.urlMap.value[i].1))
  }

  lemma ProxyLinesSingle(urlMap: seq<(string, string)>)
    requires forall i :: 0 <= i < |urlMap| ==> NoNewline(urlMap[i].0) && NoNewline(urlMap[i].1)
    ensures forall k :: 0 <= k < |ProxyLines(urlMap)| ==> NoNewline(ProxyLines(urlMap)[k])
  {
    var r := ProxyLines(urlMap);
    forall k | 0 <= k < |r| ensures NoNewline(r[k]) {
      var i := k / 2;
      var (src, dst) := urlMap[i];
      assert '\n' !in "ProxyPass \"" && '\n' !in "ProxyPassReverse \"" && '\n' !in "\" \"" && '\n' !in "\"";
      if k % 2 == 0 {
        assert k == 2 * i;
      } else {
        assert k == 2 * i + 1;
      }
    }
  }

  /** The corrected segment is the directive lines, one per line. */
  lemma SegmentLines(domain: string, urlMap: seq<(string, string)>)
    requires SingleLine(Message(Some(domain), Some(urlMap)))
    ensures Split(Segment(domain, urlMap), '\n') == DirectiveLines(domain, urlMap) + [""]
  {
    ProxyLinesSingle(urlMap);
    assert '\n' !in "ServerName ";
    SplitUnlines(DirectiveLines(domain, urlMap));
  }

  /** Inside the main server's configuration the corrected fragment of a
      message is one virtual host: its opening line, the `ServerName` line
      and the proxy lines indented, and the closing line. */
  lemma CorrectedBlockLines(msg: Message)
    requires ToApacheConfig(msg).Ok? && SingleLine(msg)
    ensures var d := DirectiveLines(msg.domainName.value, msg.urlMap.value);
      Split(M.VhostBlock(ToApacheConfig(msg).value.segment), '\n')
        == ["<VirtualHost *>"] + PrefixEach("    ", d) + ["    </VirtualHost>", "", ""]
  {
    var d := DirectiveLines(msg.domainName.value, msg.urlMap.value);
    var seg := ToApacheConfig(msg).value.segment;
    SegmentLines(msg.domainName.value, msg.urlMap.value);
    M.BlockLines(seg);
    var s := Split(seg, '\n');
    assert s[..|s| - 1] == d && s[|s| - 1] == "";
    assert "    " + "" + "</VirtualHost>" == "    </VirtualHost>";
  }

  /** A line with its leading spaces removed. */
  function Dedent(line: string): (r: string)
    ensures |r| == 0 || r[0] != ' '
    decreases |line|
  {
    if |line| > 0 && line[0] == ' ' then Dedent(line[1..]) else line
  }

  /** Apache reads a line as the start of a virtual-host section when,
      after its indentation, it begins with `<VirtualHost`. */
  predicate OpensVirtualHost(line: string) {
    StartsWith(Dedent(line), "<VirtualHost")
  }

  lemma DedentSpace(y: string)
    ensures Dedent(" " + y) == Dedent(y)
  {
    assert (" " + y)[0] == ' ' && (" " + y)[1..] == y;
  }

  lemma DedentIndented(x: string)
    requires |x| > 0 && x[0] != ' '
    ensures Dedent("    " + x) == x
  {
    var y := "    " + x;
    assert y[1..] == "   " + x;
    assert y[2..] == "  " + x;
    assert y[3..] == " " + x;
    assert y[4..] == x;
    assert Dedent(y[3..]) == x;
    assert Dedent(y[2..]) == x;
    assert Dedent(y[1..]) == x;
  }

  /** Every directive line starts with a letter. */
  lemma DirectiveStart(domain: string, urlMap: seq<(string, string)>, j: nat)
    requires j < |DirectiveLines(domain, urlMap)|
    ensures var x := DirectiveLines(domain, urlMap)[j];
      |x| > 0 && x[0] != '<' && x[0] != ' '
  {
    var d := DirectiveLines(domain, urlMap);
    if j > 0 {
      var pl := ProxyLines(urlMap);
      assert d[j] == pl[j - 1];
      var i := (j - 1) / 2;
      if (j - 1) % 2 == 0 {
        assert j - 1 == 2 * i;
        assert d[j] == ProxyPassLine(urlMap[i].0, urlMap[i].1);
      } else {
        assert j - 1 == 2 * i + 1;
        assert d[j] == ProxyPassReverseLine(urlMap[i].0, urlMap[i].1);
      }
    }
  }

  lemma NotOpening(x: string)
    requires |x| > 0 && x[0] != '<'
    ensures !StartsWith(x, "<VirtualHost")
  {
    if |x| >= 12 {
      assert x[..12][0] == x[0];
    }
  }

  lemma ClosingNotOpening()
    ensures !OpensVirtualHost("    </VirtualHost>")
  {
    var tag := "</VirtualHost>";
    assert "    </VirtualHost>" == "    " + tag by {
      IndentedClosingTag();
    }
    DedentIndented(tag);
    assert tag[..12][1] == '/';
  }

  lemma IndentedClosingTag()
    ensures "    " + "</VirtualHost>" == "    </VirtualHost>"
  {
  }

  /** A block whose inner lines start with a letter opens one virtual
      host only. */
  lemma OnlyFirstOpens(d: seq<string>)
    requires forall j :: 0 <= j < |d| ==> |d[j]| > 0 && d[j][0] != '<' && d[j][0] != ' '
    ensures var lines := ["<VirtualHost *>"] + PrefixEach("    ", d) + ["    </VirtualHost>", "", ""];
      && OpensVirtualHost(lines[0])
      && forall k :: 1 <= k < |lines| ==> !OpensVirtualHost(lines[k])
  {
    var pre := PrefixEach("    ", d);
    var lines := ["<VirtualHost *>"] + pre + ["    </VirtualHost>", "", ""];
    assert OpensVirtualHost(lines[0]) by {
      OpeningTags();
    }
    forall k | 1 <= k < |lines| ensures !OpensVirtualHost(lines[k]) {
      if k <= |d| {
        assert lines[k] == pre[k - 1] == "    " + d[k - 1];
        IndentedNotOpening(d[k - 1]);
      } else if k == |d| + 1 {
        assert lines[k] == "    </VirtualHost>";
        ClosingNotOpening();
      } else {
        assert lines[k] == "";
      }
    }
  }

  lemma IndentedNotOpening(x: string)
    requires |x| > 0 && x[0] != '<' && x[0] != ' '
    ensures !OpensVirtualHost("    " + x)
  {
    DedentIndented(x);
    NotOpening(x);
  }

  /** The corrected block opens exactly one virtual host, on its first
      line. */
  lemma CorrectedOpensOnce(msg: Message)
    requires ToApacheConfig(msg).Ok? && SingleLine(msg)
    ensures var lines := Split(M.VhostBlock(ToApacheConfig(msg).value.segment), '\n');
      && OpensVirtualHost(lines[0])
      && forall k :: 1 <= k < |lines| ==> !OpensVirtualHost(lines[k])
  {
    var domain, urlMap := msg.domainName.value, msg.urlMap.value;
    var d := DirectiveLines(domain, urlMap);
    CorrectedBlockLines(msg);
    forall j | 0 <= j < |d| ensures |d[j]| > 0 && d[j][0] != '<' && d[j][0] != ' ' {
      DirectiveStart(domain, urlMap, j);
    }
    OnlyFirstOpens(d);
  }

  /** The as-written segment's first line is its own opening tag. */
  lemma AsWrittenFirstLine(domain: string, urlMap: seq<(string, string)>)
    ensures var s := Split(AsWrittenSegment(domain, urlMap), '\n');
      |s| >= 2 && s[0] == "<VirtualHost *>"
  {
    var rest := PrefixEach("    ", DirectiveLines(domain, urlMap)) + ["</VirtualHost>", ""];
    assert ["<VirtualHost *>"] + PrefixEach("    ", DirectiveLines(domain, urlMap)) + ["</VirtualHost>", ""]
        == ["<VirtualHost *>"] + rest;
    UnlinesCons("<VirtualHost *>", rest);
    assert '\n' !in "<VirtualHost *>";
    SplitAtSeparator("<VirtualHost *>", Unlines(rest), '\n');
  }

  /** As written, the fragment's segment holds a `<VirtualHost *>` section
      of its own, so whatever the message, the main server's block opens a
      second virtual host on its second line, inside the first. */
  lemma AsWrittenNestsVirtualHosts(msg: Message)
    requires AsWrittenToApacheConfig(msg).Ok?
    ensures var lines := Split(M.VhostBlock(AsWrittenToApacheConfig(msg).value.segment), '\n');
      && |lines| >= 2
      && lines[0] == "<VirtualHost *>"
      && lines[1] == "    <VirtualHost *>"
      && OpensVirtualHost(lines[0]) && OpensVirtualHost(lines[1])
  {
    var seg := AsWrittenToApacheConfig(msg).value.segment;
    assert seg == AsWrittenSegment(msg.domainName.value, msg.urlMap.value);
    AsWrittenFirstLine(msg.domainName.value, msg.urlMap.value);
    NestedBlock(seg);
  }

  /** A segment that opens a virtual host on its first line puts a second
      opening inside the block that wraps it. */
  lemma NestedBlock(seg: string)
    requires var s := Split(seg, '\n'); |s| >= 2 && s[0] == "<VirtualHost *>"
    ensures var lines := Split(M.VhostBlock(seg), '\n');
      && |lines| >= 2
      && lines[0] == "<VirtualHost *>"
      && lines[1] == "    <VirtualHost *>"
      && OpensVirtualHost(lines[0]) && OpensVirtualHost(lines[1])
  {
    var s := Split(seg, '\n');
    var pre := PrefixEach("    ", s[..|s| - 1]);
    var lines := Split(M.VhostBlock(seg), '\n');
    assert lines == ["<VirtualHost *>"] + pre + ["    " + s[|s| - 1] + "</VirtualHost>", "", ""] by {
      M.BlockLines(seg);
    }
    assert |pre| >= 1 && pre[0] == "    <VirtualHost *>";
    assert lines[1] == pre[0];
    OpeningTags();
  }

  lemma OpeningTags()
    ensures OpensVirtualHost("<VirtualHost *>") && OpensVirtualHost("    <VirtualHost *>")
  {
    IndentedTag();
    DedentIndented("<VirtualHost *>");
  }

  lemma IndentedTag()
    ensures "    " + "<VirtualHost *>" == "    <VirtualHost *>"
  {
  }

  /** Every pair of a list of proxy fragments is one of the two proxy
      dependencies. */
  lemma {:induction false} ProxyPairs(frags: seq<M.Fragment>)
    requires forall i :: 0 <= i < |frags| ==> frags[i].deps == ProxyDeps
    ensures forall j :: 0 <= j < |M.Pairs(frags)| ==> M.Pairs(frags)[j] in ProxyDeps
    decreases |frags|
  {
    if |frags| > 0 {
      ProxyPairs(frags[1..]);
      assert M.Pairs(frags) == ProxyDeps + M.Pairs(frags[1..]);
    }
  }

  /** Proxy fragments never conflict, with each other or with the base
      modules: a store holding only proxy fragments always generates. */
  lemma ProxyStoreGenerates(store: Dict<M.Key, M.Fragment>)
    requires store.Valid()
    requires forall k :: k in store.m ==> store.m[k].deps == ProxyDeps
    ensures M.GenerateConfig(store).Ok?
  {
    var frags := store.Values();
    ProxyPairs(frags);
    ProxyPairsConsistent(M.Pairs(frags));
    M.GenerateOkIff(store);
  }

  /** Proxy dependencies agree with the base modules and with each
      other. */
  lemma ProxyPairsConsistent(ps: seq<(string, string)>)
    requires forall j :: 0 <= j < |ps| ==> ps[j] in ProxyDeps
    ensures M.Agrees(M.BaseModules, ps) && M.SelfConsistent(ps)
  {
    assert "proxy_module" !in M.BaseModules.m && "proxy_http_module" !in M.BaseModules.m;
    forall i, j | 0 <= i < j < |ps| && ps[i].0 == ps[j].0 ensures ps[i].1 == ps[j].1 {
      assert ps[i] in ProxyDeps && ps[j] in ProxyDeps;
    }
  }

  // ---------------------------------------------------------------------
  // The client handlers

  /** The client dictionary, keyed by socket descriptor in connection
      order (None until the first message), and the main server. */
  datatype ApiState = ApiState(clients: Dict<nat, Option<Message>>, httpd: M.Httpd)

  datatype Reply = Reply(next: ApiState, outcome: Outcome)

  ghost predicate Wf(a: ApiState) {
    a.clients.Valid() && a.httpd.store.Valid()
  }

  /** `"proxy-%d" % fd` */
  function ProxyId(fd: nat): string {
    "proxy-" + DecStr(fd)
  }

  function ProxyKey(fd: nat): M.Key {
    M.StrKey(ProxyId(fd))
  }

  lemma ProxyKeyInjective(a: nat, b: nat)
    ensures ProxyKey(a) == ProxyKey(b) ==> a == b
  {
    if ProxyKey(a) == ProxyKey(b) {
      assert DecStr(a) == ProxyId(a)[6..] == ProxyId(b)[6..] == DecStr(b);
      DecStrInjective(a, b);
    }
  }

  /** `_clientAppearFunc` */
  function ClientAppear(a: ApiState, fd: nat): Reply
    requires Wf(a)
  {
    if fd in a.clients.m then Reply(a, Raised(AssertionError))
    else Reply(a.(clients := a.clients.Put(fd, None)), Done)
  }

  /** `_clientNotifyFunc`, with `_toApacheConfig` called as a plain
      function: the fragment is built before the store is touched; a failed
      store call leaves the record as it was. */
  function ClientNotify(a: ApiState, fd: nat, msg: Message): Reply
    requires Wf(a)
  {
    if fd !in a.clients.m then Reply(a, Raised(KeyError))
    else
      match ToApacheConfig(msg)
      case Err(e) => Reply(a, Raised(e))
      case Ok(f) =>
        var s := if a.clients.m[fd].None? then M.AddConfig(a.httpd, ProxyKey(fd), f)
                 else M.UpdateConfig(a.httpd, ProxyKey(fd), f);
        if s.outcome.Raised? then Reply(a.(httpd := s.next), s.outcome)
        else Reply(ApiState(a.clients.Put(fd, Some(msg)), s.next), Done)
  }

  /** `_clientNotifyFunc` as written: `self._toApacheConfig(data)` hands two
      arguments to a function declared with one, which raises TypeError
      before any store call. */
  function AsWrittenClientNotify(a: ApiState, fd: nat, msg: Message): Reply {
    if fd !in a.clients.m then Reply(a, Raised(KeyError))
    else Reply(a, Raised(TypeError))
  }

  /** `_clientDisappearFunc` removing the fragment under the key it was
      added with. */
  function ClientDisappear(a: ApiState, fd: nat): Reply
    requires Wf(a)
  {
    if fd !in a.clients.m then Reply(a, Raised(AssertionError))
    else if a.clients.m[fd].None? then Reply(a.(clients := a.clients.Remove(fd)), Done)
    else
      var s := M.RemoveConfig(a.httpd, ProxyKey(fd));
      if s.outcome.Raised? then Reply(a.(httpd := s.next), s.outcome)
      else Reply(ApiState(a.clients.Remove(fd), s.next), Done)
  }

  /** `_clientDisappearFunc` as written: the removal key is the bare
      descriptor `sock.fileno()`. */
  function AsWrittenClientDisappear(a: ApiState, fd: nat): Reply
    requires Wf(a)
  {
    if fd !in a.clients.m then Reply(a, Raised(AssertionError))
    else if a.clients.m[fd].None? then Reply(a.(clients := a.clients.Remove(fd)), Done)
    else
      var s := M.RemoveConfig(a.httpd, M.IntKey(fd));
      if s.outcome.Raised? then Reply(a.(httpd := s.next), s.outcome)
      else Reply(ApiState(a.clients.Remove(fd), s.next), Done)
  }

  /** The store keys of the registered clients, in connection order. */
  function RegisteredKeys(fds: seq<nat>, m: map<nat, Option<Message>>): (r: seq<M.Key>)
    requires forall fd :: fd in fds ==> fd in m
    ensures forall k :: k in r <==> exists fd :: fd in fds && m[fd].Some? && k == ProxyKey(fd)
    decreases |fds|
  {
    if |fds| == 0 then []
    else
      var rest := RegisteredKeys(fds[..|fds| - 1], m);
      var fd := fds[|fds| - 1];
      assert forall x :: x in fds <==> x in fds[..|fds| - 1] || x == fd;
      if m[fd].Some? then rest + [ProxyKey(fd)] else rest
  }

  function SocketKeys(fds: seq<nat>): seq<M.Key> {
    seq(|fds|, i requires 0 <= i < |fds| => M.SocketKey(fds[i]))
  }

  /** `dispose` with the store keys of the registered clients (the base
      class's own disposal is not part of this model). */
  function Dispose(a: ApiState): Reply
    requires Wf(a)
  {
    var s := M.BatchRemoveConfig(a.httpd, RegisteredKeys(a.clients.keys, a.clients.m));
    Reply(a.(httpd := s.next), s.outcome)
  }

  /** `dispose` as written: the keys of the client dictionary are sockets,
      registered or not. */
  function AsWrittenDispose(a: ApiState): Reply
    requires Wf(a)
  {
    var s := M.BatchRemoveConfig(a.httpd, SocketKeys(a.clients.keys));
    Reply(a.(httpd := s.next), s.outcome)
  }

  // ---------------------------------------------------------------------
  // The invariant of the handlers

  /** A key the handlers write: `proxy-<fd>` for some descriptor. */
  ghost predicate IsProxyKey(k: M.Key) {
    exists fd: nat :: k == ProxyKey(fd)
  }

  /** The module dependencies of the fragments the handlers do not own,
      pooled with those every proxy fragment carries. */
  ghost function SharedPairs(store: Dict<M.Key, M.Fragment>): set<(string, string)> {
    (set k, p | k in store.m && !IsProxyKey(k) && p in store.m[k].deps :: p) + (set p | p in ProxyDeps)
  }

  /** The pooled dependencies agree with the base modules and pair no
      module with two files. */
  ghost predicate PairsAgree(ps: set<(string, string)>) {
    && (forall p :: p in ps && p.0 in M.BaseModules.m ==> M.BaseModules.m[p.0] == p.1)
    && (forall p, q :: p in ps && q in ps && p.0 == q.0 ==> p.1 == q.1)
  }

  /** The main server's store is shared with the fragments of the servers
      themselves. The handlers own the `proxy-<fd>` keys: one proxy
      fragment per client that has sent a message, built from its last
      message, and none for any other descriptor. The other fragments are
      not keyed by sockets, and their dependencies agree with each other
      and with the proxy modules. */
  ghost predicate Inv(a: ApiState) {
    && Wf(a)
    && (forall fd :: fd in a.clients.m ==> (a.clients.m[fd].Some? <==> ProxyKey(fd) in a.httpd.store.m))
    && (forall fd :: fd in a.clients.m && a.clients.m[fd].Some? ==>
          ToApacheConfig(a.clients.m[fd].value).Ok?
          && a.httpd.store.m[ProxyKey(fd)] == ToApacheConfig(a.clients.m[fd].value).value)
    && (forall fd: nat :: ProxyKey(fd) in a.httpd.store.m ==> fd in a.clients.m)
    && (forall k :: k in a.httpd.store.m ==> !k.SocketKey?)
    && PairsAgree(SharedPairs(a.httpd.store))
  }

  /** Every proxy fragment in the store carries the proxy modules. */
  ghost predicate ProxiesCarryProxyDeps(store: Dict<M.Key, M.Fragment>) {
    forall fd: nat :: ProxyKey(fd) in store.m ==> store.m[ProxyKey(fd)].deps == ProxyDeps
  }

  lemma InvProxyDeps(a: ApiState)
    requires Inv(a)
    ensures ProxiesCarryProxyDeps(a.httpd.store)
  {
    forall fd: nat | ProxyKey(fd) in a.httpd.store.m ensures a.httpd.store.m[ProxyKey(fd)].deps == ProxyDeps {
      assert fd in a.clients.m;
    }
  }

  /** When every dependency of every fragment lies in `S`, so does every
      pair the merge reads. */
  lemma {:induction false} PairsWithin(frags: seq<M.Fragment>, S: set<(string, string)>)
    requires forall j, p :: 0 <= j < |frags| && p in frags[j].deps ==> p in S
    ensures forall i :: 0 <= i < |M.Pairs(frags)| ==> M.Pairs(frags)[i] in S
    decreases |frags|
  {
    if |frags| > 0 {
      var rest := frags[1..];
      forall j, p | 0 <= j < |rest| && p in rest[j].deps ensures p in S {
        assert rest[j] == frags[j + 1];
      }
      PairsWithin(rest, S);
      var ps := M.Pairs(frags);
      assert ps == frags[0].deps + M.Pairs(rest);
      forall i | 0 <= i < |ps| ensures ps[i] in S {
        if i < |frags[0].deps| {
          assert ps[i] == frags[0].deps[i];
        } else {
          assert ps[i] == M.Pairs(rest)[i - |frags[0].deps|];
        }
      }
    }
  }

  /** A shared store generates when its proxy fragments carry the proxy
      modules and the pooled dependencies agree. */
  lemma SharedStoreGenerates(store: Dict<M.Key, M.Fragment>)
    requires store.Valid() && ProxiesCarryProxyDeps(store) && PairsAgree(SharedPairs(store))
    ensures M.GenerateConfig(store).Ok?
  {
    var frags := store.Values();
    var S := SharedPairs(store);
    forall j, p | 0 <= j < |frags| && p in frags[j].deps ensures p in S {
      var k := store.keys[j];
      assert k in store.keys;
      assert frags[j] == store.m[k];
      if IsProxyKey(k) {
        var fd: nat :| k == ProxyKey(fd);
        assert p in ProxyDeps;
      }
    }
    PairsWithin(frags, S);
    M.GenerateOkIff(store);
  }

  /** The fragments outside the handlers' keys decide the pooled
      dependencies. */
  lemma SharedPairsSame(s1: Dict<M.Key, M.Fragment>, s2: Dict<M.Key, M.Fragment>)
    requires forall k :: !IsProxyKey(k) ==> (k in s1.m <==> k in s2.m)
    requires forall k :: k in s1.m && !IsProxyKey(k) ==> s1.m[k] == s2.m[k]
    ensures SharedPairs(s1) == SharedPairs(s2)
  {
    var A := set k, p | k in s1.m && !IsProxyKey(k) && p in s1.m[k].deps :: p;
    var B := set k, p | k in s2.m && !IsProxyKey(k) && p in s2.m[k].deps :: p;
    forall p | p in A ensures p in B {
      var k :| k in s1.m && !IsProxyKey(k) && p in s1.m[k].deps;
      assert k in s2.m && p in s2.m[k].deps;
    }
    forall p | p in B ensures p in A {
      var k :| k in s2.m && !IsProxyKey(k) && p in s2.m[k].deps;
      assert k in s1.m && p in s1.m[k].deps;
    }
    assert A == B;
  }

  /** A socket that is not a client has no fragment in the store. */
  lemma NoStrayFragment(a: ApiState, fd: nat)
    requires Inv(a) && fd !in a.clients.m
    ensures ProxyKey(fd) !in a.httpd.store.m
  {
  }

  /** The fragments of the servers agree with each other, with the base
      modules and with the proxy modules: every dependency maps a base or
      proxy module to its own file, and no module is paired with two
      files. */
  ghost predicate ServersAgree(store: Dict<M.Key, M.Fragment>) {
    && (forall k, p :: k in store.m && p in store.m[k].deps ==>
          && (p.0 in M.BaseModules.m ==> M.BaseModules.m[p.0] == p.1)
          && (p.0 == "proxy_module" ==> p.1 == "mod_proxy.so")
          && (p.0 == "proxy_http_module" ==> p.1 == "mod_proxy_http.so"))
    && (forall k, l, p, q :: k in store.m && l in store.m && p in store.m[k].deps && q in store.m[l].deps ==>
          (p.0 == q.0 ==> p.1 == q.1))
  }

  /** The API server starts with no client over a main server whose
      fragments are the servers' own, under no `proxy-<fd>` or socket key,
      and agree; the empty store of a fresh main server is one. */
  lemma InitialInv(h: M.Httpd)
    requires h.store.Valid()
    requires forall fd: nat :: ProxyKey(fd) !in h.store.m
    requires forall k :: k in h.store.m ==> !k.SocketKey?
    requires ServersAgree(h.store)
    ensures Inv(ApiState(Empty(), h))
  {
    ServersPairsAgree(h.store);
  }

  /** The pooled dependencies of agreeing fragments agree. */
  lemma ServersPairsAgree(store: Dict<M.Key, M.Fragment>)
    requires ServersAgree(store)
    ensures PairsAgree(SharedPairs(store))
  {
    var F := set k, p | k in store.m && !IsProxyKey(k) && p in store.m[k].deps :: p;
    forall p | p in F
      ensures p.0 in M.BaseModules.m ==> M.BaseModules.m[p.0] == p.1
      ensures p.0 == "proxy_module" ==> p.1 == "mod_proxy.so"
      ensures p.0 == "proxy_http_module" ==> p.1 == "mod_proxy_http.so"
    {
      var k :| k in store.m && !IsProxyKey(k) && p in store.m[k].deps;
    }
    forall p, q | p in F && q in F && p.0 == q.0 ensures p.1 == q.1 {
      var k :| k in store.m && !IsProxyKey(k) && p in store.m[k].deps;
      var l :| l in store.m && !IsProxyKey(l) && q in store.m[l].deps;
    }
    AgreeWithProxy(F);
  }

  /** Dependencies that agree with each other, with the base modules and
      with the proxy modules' files still agree once the proxy modules are
      pooled in. */
  lemma AgreeWithProxy(F: set<(string, string)>)
    requires forall p :: p in F && p.0 in M.BaseModules.m ==> M.BaseModules.m[p.0] == p.1
    requires forall p :: p in F && p.0 == "proxy_module" ==> p.1 == "mod_proxy.so"
    requires forall p :: p in F && p.0 == "proxy_http_module" ==> p.1 == "mod_proxy_http.so"
    requires forall p, q :: p in F && q in F && p.0 == q.0 ==> p.1 == q.1
    ensures PairsAgree(F + set p | p in ProxyDeps)
  {
    BaseProxyApart();
  }

  /** The proxy modules are not among the base modules. */
  lemma BaseProxyApart()
    ensures "proxy_module" !in M.BaseModules.m && "proxy_http_module" !in M.BaseModules.m
  {
    assert "proxy_module" !in M.BaseModules.m && "proxy_http_module" !in M.BaseModules.m;
  }

  lemma ProxyKeysDistinct()
    ensures forall a: nat, b: nat :: ProxyKey(a) == ProxyKey(b) ==> a == b
  {
    forall a: nat, b: nat ensures ProxyKey(a) == ProxyKey(b) ==> a == b {
      ProxyKeyInjective(a, b);
    }
  }

  /** A refresh of a shared store whose proxy fragments carry the proxy
      modules and whose pooled dependencies agree always succeeds and keeps
      the store. */
  lemma RefreshSharedStore(h: M.Httpd)
    requires h.store.Valid() && ProxiesCarryProxyDeps(h.store) && PairsAgree(SharedPairs(h.store))
    ensures M.Refresh(h).outcome == Done
    ensures M.Refresh(h).next.store == h.store
  {
    SharedStoreGenerates(h.store);
    M.RefreshEffect(h);
  }

  /** Under the invariant the main server reloads without error. */
  lemma InvRefreshes(a: ApiState)
    requires Inv(a)
    ensures M.Refresh(a.httpd).outcome == Done
    ensures M.Refresh(a.httpd).next.store == a.httpd.store
  {
    InvProxyDeps(a);
    RefreshSharedStore(a.httpd);
  }

  /** A socket that connects is recorded without a fragment; one that is
      already recorded is refused. */
  lemma AppearKeepsInv(a: ApiState, fd: nat)
    requires Inv(a)
    ensures var r := ClientAppear(a, fd);
      && Inv(r.next)
      && (fd in a.clients.m ==> r == Reply(a, Raised(AssertionError)))
      && (fd !in a.clients.m ==>
            r.outcome == Done && r.next.httpd == a.httpd
            && r.next.clients.m == a.clients.m[fd := None]
            && r.next.clients.keys == a.clients.keys + [fd])
  {
    if fd !in a.clients.m {
      NoStrayFragment(a, fd);
    }
  }

  /** A notification from a client either fails on a missing field and
      changes nothing, or stores the fragment built from it under the
      client's key, records the message, and reloads without error. */
  lemma NotifyKeepsInv(a: ApiState, fd: nat, msg: Message)
    requires Inv(a) && fd in a.clients.m
    ensures var r := ClientNotify(a, fd, msg);
      && Inv(r.next)
      && (r.outcome == Done <==> ToApacheConfig(msg).Ok?)
      && (r.outcome.Raised? ==> r == Reply(a, Raised(ToApacheConfig(msg).error)))
      && (r.outcome == Done ==>
            r.next.clients.m == a.clients.m[fd := Some(msg)]
            && r.next.httpd.store.m == a.httpd.store.m[ProxyKey(fd) := ToApacheConfig(msg).value])
  {
    var c := ToApacheConfig(msg);
    if c.Ok? {
      var key := ProxyKey(fd);
      var h := a.httpd.(store := a.httpd.store.Put(key, c.value));
      var b := ApiState(a.clients.Put(fd, Some(msg)), h);
      NotifiedInv(a, fd, msg, b);
      var s := M.Refresh(h);
      assert s.outcome == Done && s.next.store == h.store by {
        InvRefreshes(b);
      }
      if a.clients.m[fd].None? {
        assert key !in a.httpd.store.m;
        assert M.AddConfig(a.httpd, key, c.value) == s;
      } else {
        assert M.UpdateConfig(a.httpd, key, c.value) == s;
      }
      var r := ClientNotify(a, fd, msg);
      assert r == Reply(ApiState(a.clients.Put(fd, Some(msg)), s.next), Done);
      NotifiedInv(a, fd, msg, r.next);
    }
  }

  lemma NotifiedInv(a: ApiState, fd: nat, msg: Message, b: ApiState)
    requires Inv(a) && fd in a.clients.m && ToApacheConfig(msg).Ok?
    requires b.clients == a.clients.Put(fd, Some(msg))
    requires b.httpd.store == a.httpd.store.Put(ProxyKey(fd), ToApacheConfig(msg).value)
    ensures Inv(b)
  {
    NotifiedRecords(a, fd, msg, b);
    NotifiedNoStray(a, fd, msg, b);
    assert IsProxyKey(ProxyKey(fd));
    SharedPairsSame(a.httpd.store, b.httpd.store);
  }

  /** After a notification every client's fragment is the one built from
      its last message. */
  lemma NotifiedRecords(a: ApiState, fd: nat, msg: Message, b: ApiState)
    requires Inv(a) && fd in a.clients.m && ToApacheConfig(msg).Ok?
    requires b.clients == a.clients.Put(fd, Some(msg))
    requires b.httpd.store == a.httpd.store.Put(ProxyKey(fd), ToApacheConfig(msg).value)
    ensures forall x :: x in b.clients.m ==> (b.clients.m[x].Some? <==> ProxyKey(x) in b.httpd.store.m)
    ensures forall x :: x in b.clients.m && b.clients.m[x].Some? ==>
          ToApacheConfig(b.clients.m[x].value).Ok?
          && b.httpd.store.m[ProxyKey(x)] == ToApacheConfig(b.clients.m[x].value).value
  {
    forall x | x in b.clients.m
      ensures b.clients.m[x].Some? <==> ProxyKey(x) in b.httpd.store.m
      ensures b.clients.m[x].Some? ==>
          ToApacheConfig(b.clients.m[x].value).Ok?
          && b.httpd.store.m[ProxyKey(x)] == ToApacheConfig(b.clients.m[x].value).value
    {
      ProxyKeyInjective(x, fd);
      RecordAfterPut(a.clients.m, a.httpd.store.m, fd, msg, x);
    }
  }

  /** One client's record after `fd`'s message is stored. */
  lemma RecordAfterPut(clients: map<nat, Option<Message>>, store: map<M.Key, M.Fragment>, fd: nat, msg: Message, x: nat)
    requires ToApacheConfig(msg).Ok?
    requires x == fd || x in clients
    requires x != fd ==> ProxyKey(x) != ProxyKey(fd)
    requires x != fd ==> (clients[x].Some? <==> ProxyKey(x) in store)
    requires x != fd && clients[x].Some? ==>
      ToApacheConfig(clients[x].value).Ok? && store[ProxyKey(x)] == ToApacheConfig(clients[x].value).value
    ensures var c, s := clients[fd := Some(msg)], store[ProxyKey(fd) := ToApacheConfig(msg).value];
      && (c[x].Some? <==> ProxyKey(x) in s)
      && (c[x].Some? ==> ToApacheConfig(c[x].value).Ok? && s[ProxyKey(x)] == ToApacheConfig(c[x].value).value)
  {
  }

  /** After a notification every fragment still belongs to a client. */
  lemma NotifiedNoStray(a: ApiState, fd: nat, msg: Message, b: ApiState)
    requires Inv(a) && fd in a.clients.m && ToApacheConfig(msg).Ok?
    requires b.clients == a.clients.Put(fd, Some(msg))
    requires b.httpd.store == a.httpd.store.Put(ProxyKey(fd), ToApacheConfig(msg).value)
    ensures forall x: nat :: ProxyKey(x) in b.httpd.store.m ==> x in b.clients.m
  {
    forall x: nat | ProxyKey(x) in b.httpd.store.m ensures x in b.clients.m {
      ProxyKeyInjective(x, fd);
    }
  }

  /** A client that goes away takes its fragment with it, and the reload
      succeeds. */
  lemma DisappearKeepsInv(a: ApiState, fd: nat)
    requires Inv(a) && fd in a.clients.m
    ensures var r := ClientDisappear(a, fd);
      && r.outcome == Done
      && Inv(r.next)
      && r.next.clients.m == a.clients.m - {fd}
      && r.next.httpd.store.m == a.httpd.store.m - {ProxyKey(fd)}
  {
    var key := ProxyKey(fd);
    var r := ClientDisappear(a, fd);
    if a.clients.m[fd].Some? {
      assert key in a.httpd.store.m;
      var h := a.httpd.(store := a.httpd.store.Remove(key));
      var b := ApiState(a.clients.Remove(fd), h);
      DisappearedInv(a, fd, b);
      var s := M.Refresh(h);
      assert s.outcome == Done && s.next.store == h.store by {
        InvRefreshes(b);
      }
      assert M.RemoveConfig(a.httpd, key) == s;
      assert r == Reply(ApiState(a.clients.Remove(fd), s.next), Done);
    } else {
      assert key !in a.httpd.store.m;
      assert r == Reply(a.(clients := a.clients.Remove(fd)), Done);
      assert a.httpd.store.m - {key} == a.httpd.store.m;
    }
    DisappearedInv(a, fd, r.next);
  }

  /** Dropping a client and its fragment keeps the invariant. */
  lemma DisappearedInv(a: ApiState, fd: nat, b: ApiState)
    requires Inv(a) && fd in a.clients.m
    requires b.clients == a.clients.Remove(fd) && b.httpd.store.Valid()
    requires b.httpd.store.m == a.httpd.store.m - {ProxyKey(fd)}
    ensures Inv(b)
  {
    forall x | x in b.clients.m ensures ProxyKey(x) != ProxyKey(fd) {
      ProxyKeyInjective(x, fd);
    }
    forall x: nat | ProxyKey(x) in b.httpd.store.m ensures x in b.clients.m {
      ProxyKeyInjective(x, fd);
    }
    assert IsProxyKey(ProxyKey(fd));
    SharedPairsSame(a.httpd.store, b.httpd.store);
  }

  lemma {:induction false} RegisteredKeysDistinct(fds: seq<nat>, m: map<nat, Option<Message>>)
    requires forall fd :: fd in fds ==> fd in m
    requires Distinct(fds)
    ensures Distinct(RegisteredKeys(fds, m))
    decreases |fds|
  {
    if |fds| > 0 {
      var init := fds[..|fds| - 1];
      var fd := fds[|fds| - 1];
      assert forall x :: x in init ==> x in fds;
      assert Distinct(init) by {
        forall i, j | 0 <= i < j < |init| ensures init[i] != init[j] {
          assert init[i] == fds[i] && init[j] == fds[j];
        }
      }
      RegisteredKeysDistinct(init, m);
      if m[fd].Some? {
        var rest := RegisteredKeys(init, m);
        ProxyKeysDistinct();
        assert fd !in init by {
          forall i | 0 <= i < |init| ensures init[i] != fd {
            assert init[i] == fds[i];
          }
        }
        assert ProxyKey(fd) !in rest;
        assert RegisteredKeys(fds, m) == rest + [ProxyKey(fd)];
      }
    }
  }

  /** Disposing of the server removes exactly the fragments of the clients
      that registered, keeps every other fragment of the shared store as it
      was, and reloads without error. */
  lemma DisposeClears(a: ApiState)
    requires Inv(a)
    ensures var r := Dispose(a);
      && r.outcome == Done
      && r.next.clients == a.clients
      && r.next.httpd.store.m == a.httpd.store.m - M.Members(RegisteredKeys(a.clients.keys, a.clients.m))
      && (forall k :: k in r.next.httpd.store.m <==> k in a.httpd.store.m && !IsProxyKey(k))
      && (forall k :: k in r.next.httpd.store.m ==> r.next.httpd.store.m[k] == a.httpd.store.m[k])
  {
    var keys := RegisteredKeys(a.clients.keys, a.clients.m);
    var s := M.BatchRemoveConfig(a.httpd, keys);
    var h := a.httpd.(store := s.next.store);
    assert s == M.Refresh(h) && s.next.store.m == a.httpd.store.m - M.Members(keys) by {
      RegisteredRemoved(a);
    }
    RegisteredCoverStore(a);
    InvProxyDeps(a);
    SharedPairsSame(a.httpd.store, h.store);
    RefreshSharedStore(h);
    assert Dispose(a) == Reply(a.(httpd := s.next), s.outcome);
  }

  /** The batch over the registered keys deletes each of them and then
      reloads. */
  lemma RegisteredRemoved(a: ApiState)
    requires Inv(a)
    ensures var keys := RegisteredKeys(a.clients.keys, a.clients.m);
      var s := M.BatchRemoveConfig(a.httpd, keys);
      && s.next.store.m == a.httpd.store.m - M.Members(keys)
      && s == M.Refresh(a.httpd.(store := s.next.store))
  {
    var keys := RegisteredKeys(a.clients.keys, a.clients.m);
    RegisteredKeysDistinct(a.clients.keys, a.clients.m);
    forall i | 0 <= i < |keys| ensures keys[i] in a.httpd.store.m {
      assert keys[i] in keys;
    }
    M.BatchRemoveAll(a.httpd, keys);
  }

  /** Of the stored fragments, the registered keys are exactly the proxy
      ones. */
  lemma RegisteredCoverStore(a: ApiState)
    requires Inv(a)
    ensures forall k :: k in a.httpd.store.m ==>
      (k in M.Members(RegisteredKeys(a.clients.keys, a.clients.m)) <==> IsProxyKey(k))
  {
    var keys := RegisteredKeys(a.clients.keys, a.clients.m);
    forall k | k in a.httpd.store.m ensures k in M.Members(keys) <==> IsProxyKey(k) {
      if IsProxyKey(k) {
        var fd: nat :| k == ProxyKey(fd);
        assert fd in a.clients.keys;
      }
    }
  }

  // ---------------------------------------------------------------------
  // The handlers as written

  /** As written, no notification ever reaches the store: where the
      intended handler registers the client's fragment, the written one
      raises and leaves everything as it was. */
  lemma AsWrittenNotifyNeverRegisters(a: ApiState, fd: nat, msg: Message)
    requires Inv(a) && fd in a.clients.m && ToApacheConfig(msg).Ok?
    ensures ClientNotify(a, fd, msg).outcome == Done
    ensures ProxyKey(fd) in ClientNotify(a, fd, msg).next.httpd.store.m
    ensures AsWrittenClientNotify(a, fd, msg) == Reply(a, Raised(TypeError))
  {
    NotifyKeepsInv(a, fd, msg);
  }

  /** As written, a registered client that goes away leaves its fragment
      in the store, because the removal is keyed by the bare descriptor.
      With no fragment stored under that number the call raises KeyError
      and changes nothing, record included; with one, that other fragment
      is deleted in its place. */
  lemma AsWrittenDisappearLeaks(a: ApiState, fd: nat)
    requires Inv(a) && fd in a.clients.m && a.clients.m[fd].Some?
    ensures ProxyKey(fd) in AsWrittenClientDisappear(a, fd).next.httpd.store.m
    ensures M.IntKey(fd) !in a.httpd.store.m ==> AsWrittenClientDisappear(a, fd) == Reply(a, Raised(KeyError))
    ensures M.IntKey(fd) in a.httpd.store.m ==>
      AsWrittenClientDisappear(a, fd).next.httpd.store.m == a.httpd.store.m - {M.IntKey(fd)}
  {
    var key := ProxyKey(fd);
    assert key in a.httpd.store.m;
    var r := AsWrittenClientDisappear(a, fd);
    var s := M.RemoveConfig(a.httpd, M.IntKey(fd));
    if M.IntKey(fd) in a.httpd.store.m {
      M.RemoveConfigEffect(a.httpd, M.IntKey(fd));
      assert r.next.httpd == s.next;
    } else {
      assert r == Reply(a, Raised(KeyError));
    }
  }

  /** As written, disposing with any client connected fails on the first
      socket and removes nothing. */
  lemma AsWrittenDisposeFails(a: ApiState)
    requires Inv(a) && |a.clients.keys| > 0
    ensures AsWrittenDispose(a) == Reply(a, Raised(KeyError))
  {
    var ids := SocketKeys(a.clients.keys);
    assert ids[0] !in a.httpd.store.m;
    assert M.RemoveEach(a.httpd.store, ids) == M.Removal(a.httpd.store, 0);
  }
}

