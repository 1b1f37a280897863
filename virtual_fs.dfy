/** old/virtualfs.py: the FTP file system that shows every mounted directory
    of `cfg["dirmap"]` (site name to real path) as a directory "/<name>"
    under a virtual root. The translation between FTP paths and real paths,
    the listing of the root, and the answers the virtual directories give
    are modelled; whatever the real file system answers is a parameter. */
module VirtualFs {
  import opened Wrappers
  import opened Text
  import opened PyDict
  import opened PsUtil

  // ---------------------------------------------------------------------
  // Prefix translation

  /** `x` is `b` itself or lies below it. */
  predicate Under(x: string, b: string) {
    x == b || StartsWith(x, b + "/")
  }

  /** The search shared by `_path2rpath` and `_rpath2path`: the first pair
      `(a, b)` in order with `s` at or below `a` decides, and `s` becomes `b`
      or has its leading `a` replaced by `b`. */
  function Translate(pairs: seq<(string, string)>, s: string): (r: Option<string>)
    ensures r.None? <==> forall j :: 0 <= j < |pairs| ==> !Under(s, pairs[j].0)
    ensures r.Some? ==> exists j :: 0 <= j < |pairs| && Under(s, pairs[j].0) && Under(r.value, pairs[j].1)
    ensures r.Some? ==> exists j :: FirstMatch(pairs, s, j) && r.value == pairs[j].1 + s[|pairs[j].0|..]
    decreases |pairs|
  {
    if |pairs| == 0 then None
    else
      var (a, b) := pairs[0];
      if s == a then
        assert FirstMatch(pairs, s, 0) && b == b + s[|a|..];
        Some(b)
      else if StartsWith(s, a + "/") then
        ReplaceFirstAtStart(s, a, b);
        SwapBack(a, b, s);
        assert FirstMatch(pairs, s, 0);
        Some(ReplaceFirst(s, a, b))
      else
        var r := Translate(pairs[1..], s);
        TranslateTail(pairs, s, r);
        r
  }

  /** Pair `j` is the first whose first side holds `s`. */
  predicate FirstMatch(pairs: seq<(string, string)>, s: string, j: int) {
    && 0 <= j < |pairs| && Under(s, pairs[j].0)
    && (forall i :: 0 <= i < j ==> !Under(s, pairs[i].0))
  }

  /** What the search over the tail tells about the whole sequence when the
      head does not match. */
  lemma TranslateTail(pairs: seq<(string, string)>, s: string, r: Option<string>)
    requires |pairs| > 0 && !Under(s, pairs[0].0)
    requires r.None? <==> forall j :: 0 <= j < |pairs[1..]| ==> !Under(s, pairs[1..][j].0)
    requires r.Some? ==> exists j :: 0 <= j < |pairs[1..]| && Under(s, pairs[1..][j].0) && Under(r.value, pairs[1..][j].1)
    requires r.Some? ==> exists j :: FirstMatch(pairs[1..], s, j) && r.value == pairs[1..][j].1 + s[|pairs[1..][j].0|..]
    ensures r.None? <==> forall j :: 0 <= j < |pairs| ==> !Under(s, pairs[j].0)
    ensures r.Some? ==> exists j :: 0 <= j < |pairs| && Under(s, pairs[j].0) && Under(r.value, pairs[j].1)
    ensures r.Some? ==> exists j :: FirstMatch(pairs, s, j) && r.value == pairs[j].1 + s[|pairs[j].0|..]
  {
    var tail := pairs[1..];
    assert forall j :: 1 <= j < |pairs| ==> pairs[j] == tail[j - 1];
    if r.Some? {
      var j :| 0 <= j < |tail| && Under(s, tail[j].0) && Under(r.value, tail[j].1);
      assert pairs[j + 1] == tail[j];
      var k :| FirstMatch(tail, s, k) && r.value == tail[k].1 + s[|tail[k].0|..];
      assert pairs[k + 1] == tail[k];
      assert FirstMatch(pairs, s, k + 1);
    }
  }

  /** The pairs with their two sides swapped. */
  function Flip(pairs: seq<(string, string)>): (r: seq<(string, string)>)
    ensures |r| == |pairs|
    ensures forall i :: 0 <= i < |pairs| ==> r[i] == (pairs[i].1, pairs[i].0)
  {
    seq(|pairs|, i requires 0 <= i < |pairs| => (pairs[i].1, pairs[i].0))
  }

  /** No two targets lie at or below one another. */
  predicate Apart(pairs: seq<(string, string)>) {
    forall i, j :: 0 <= i < j < |pairs| ==> !Overlap(pairs[i].1, pairs[j].1)
  }

  /** A path at or below two directories makes them overlap. */
  lemma UnderBoth(x: string, b: string, c: string)
    requires Under(x, b) && Under(x, c)
    ensures Overlap(b, c)
  {
    if x != b && x != c {
      if |b| < |c| {
        assert c[..|b| + 1] == x[..|b| + 1] == b + "/";
      } else if |c| < |b| {
        assert b[..|c| + 1] == x[..|c| + 1] == c + "/";
      } else {
        assert b == x[..|b|] == c;
      }
    }
  }

  /** Translating and then translating back with the swapped pairs gives
      the path back, when the targets are apart. */
  lemma {:induction false} TranslateRoundTrip(pairs: seq<(string, string)>, s: string)
    requires Apart(pairs)
    requires Translate(pairs, s).Some?
    ensures Translate(Flip(pairs), Translate(pairs, s).value) == Some(s)
    decreases |pairs|
  {
    if Under(s, pairs[0].0) {
      RoundTripHead(pairs, s);
    } else {
      var tail := pairs[1..];
      ApartTail(pairs);
      assert Translate(tail, s) == Translate(pairs, s);
      TranslateRoundTrip(tail, s);
      RoundTripTail(pairs, s);
    }
  }

  /** A path under the first pair's first side has that side replaced. */
  lemma TranslateHead(pairs: seq<(string, string)>, s: string)
    requires |pairs| > 0 && Under(s, pairs[0].0)
    ensures Translate(pairs, s) == Some(pairs[0].1 + s[|pairs[0].0|..])
  {
    var (a, b) := pairs[0];
    if s == a {
      assert s[|a|..] == [];
      assert b + s[|a|..] == b;
    } else {
      ReplaceFirstAtStart(s, a, b);
    }
  }

  /** A path the first pair does not hold is left to the others. */
  lemma TranslateSkip(pairs: seq<(string, string)>, s: string)
    requires |pairs| > 0 && !Under(s, pairs[0].0)
    ensures Translate(pairs, s) == Translate(pairs[1..], s)
  {
  }

  /** The first pair decides both ways. */
  lemma RoundTripHead(pairs: seq<(string, string)>, s: string)
    requires |pairs| > 0 && Under(s, pairs[0].0)
    ensures Translate(pairs, s).Some?
    ensures Translate(Flip(pairs), Translate(pairs, s).value) == Some(s)
  {
    var (a, b) := pairs[0];
    TranslateHead(pairs, s);
    SwapBack(a, b, s);
    assert Flip(pairs)[0] == (b, a);
    TranslateHead(Flip(pairs), b + s[|a|..]);
  }

  /** Replacing the leading `a` by `b` and then the leading `b` by `a`
      gives the path back. */
  lemma SwapBack(a: string, b: string, s: string)
    requires Under(s, a)
    ensures Under(b + s[|a|..], b)
    ensures a + (b + s[|a|..])[|b|..] == s
  {
    var r := b + s[|a|..];
    if s != a {
      assert s[..|a| + 1][|a|] == '/';
      assert r[|b|] == '/' && r[..|b|] == b;
      assert r[..|b| + 1] == r[..|b|] + [r[|b|]];
    }
    assert r[|b|..] == s[|a|..];
    assert a + s[|a|..] == s;
  }

  lemma ApartTail(pairs: seq<(string, string)>)
    requires |pairs| > 0 && Apart(pairs)
    ensures Apart(pairs[1..])
  {
    var tail := pairs[1..];
    forall i, j | 0 <= i < j < |tail| ensures !Overlap(tail[i].1, tail[j].1) {
      assert tail[i] == pairs[i + 1] && tail[j] == pairs[j + 1];
    }
  }

  /** A later pair decides, and the first swapped pair does not get in the
      way on the return, since its target is apart from the later one. */
  lemma RoundTripTail(pairs: seq<(string, string)>, s: string)
    requires |pairs| > 0 && Apart(pairs) && !Under(s, pairs[0].0)
    requires Translate(pairs[1..], s).Some?
    requires Translate(Flip(pairs[1..]), Translate(pairs[1..], s).value) == Some(s)
    ensures Translate(pairs, s) == Translate(pairs[1..], s)
    ensures Translate(Flip(pairs), Translate(pairs, s).value) == Some(s)
  {
    var tail := pairs[1..];
    TranslateSkip(pairs, s);
    var r := Translate(tail, s).value;
    var j :| 0 <= j < |tail| && Under(s, tail[j].0) && Under(r, tail[j].1);
    assert tail[j] == pairs[j + 1];
    NotUnderHead(pairs, r, j + 1);
    FlipTail(pairs);
    TranslateSkip(Flip(pairs), r);
  }

  /** A path under a later target is not under the first one, when the
      targets are apart. */
  lemma NotUnderHead(pairs: seq<(string, string)>, r: string, j: int)
    requires Apart(pairs) && 1 <= j < |pairs| && Under(r, pairs[j].1)
    ensures !Under(r, pairs[0].1)
  {
    assert !Overlap(pairs[0].1, pairs[j].1);
    if Under(r, pairs[0].1) {
      UnderBoth(r, pairs[0].1, pairs[j].1);
    }
  }

  lemma FlipTail(pairs: seq<(string, string)>)
    requires |pairs| > 0
    ensures Flip(pairs)[0] == (pairs[0].1, pairs[0].0)
    ensures Flip(pairs)[1..] == Flip(pairs[1..])
  {
  }

  lemma FlipFlip(pairs: seq<(string, string)>)
    ensures Flip(Flip(pairs)) == pairs
  {
  }

  // ---------------------------------------------------------------------
  // The dirmap

  /** `cfg["dirmap"].items()` */
  function Items(dirmap: Dict<string, string>): (r: seq<(string, string)>)
    requires dirmap.Valid()
    ensures |r| == |dirmap.keys|
  {
    seq(|dirmap.keys|, i requires 0 <= i < |dirmap.keys| => (dirmap.keys[i], dirmap.m[dirmap.keys[i]]))
  }

  /** The pairs `_path2rpath` tries: "/<name>" to the real path. */
  function SitePairs(dirmap: Dict<string, string>): (r: seq<(string, string)>)
    requires dirmap.Valid()
    ensures |r| == |dirmap.keys|
  {
    var items := Items(dirmap);
    seq(|items|, i requires 0 <= i < |items| => ("/" + items[i].0, items[i].1))
  }

  /** `_path2rpath`, for an absolute path other than the root. */
  function Path2Rpath(dirmap: Dict<string, string>, path: string): Result<string, Exc>
    requires dirmap.Valid()
    requires IsAbs(path) && path != "/"
  {
    match Translate(SitePairs(dirmap), path)
    case None => Err(FileNotFoundError)
    case Some(r) => Ok(r)
  }

  /** `_rpath2path`: the failing `assert False` is `AssertionError`. */
  function Rpath2Path(dirmap: Dict<string, string>, rpath: string): Result<string, Exc>
    requires dirmap.Valid()
  {
    match Translate(Flip(SitePairs(dirmap)), rpath)
    case None => Err(AssertionError)
    case Some(p) => Ok(p)
  }

  /** `_rpathInRange`, a search of its own over the items. */
  function InRange(items: seq<(string, string)>, rpath: string): bool
    decreases |items|
  {
    if |items| == 0 then false
    else if rpath == items[0].1 then true
    else if StartsWith(rpath, items[0].1 + "/") then true
    else InRange(items[1..], rpath)
  }

  function RpathInRange(dirmap: Dict<string, string>, rpath: string): bool
    requires dirmap.Valid()
  {
    InRange(Items(dirmap), rpath)
  }

  /** A real path is in range exactly when it lies at or below some real
      path of the dirmap. */
  lemma {:induction false} InRangeUnder(items: seq<(string, string)>, rpath: string)
    ensures InRange(items, rpath) <==> exists j :: 0 <= j < |items| && Under(rpath, items[j].1)
    decreases |items|
  {
    if |items| > 0 {
      InRangeUnder(items[1..], rpath);
      if InRange(items[1..], rpath) {
        var j :| 0 <= j < |items[1..]| && Under(rpath, items[1..][j].1);
        assert items[j + 1] == items[1..][j];
      }
      forall j | 1 <= j < |items| && Under(rpath, items[j].1) ensures InRange(items[1..], rpath) {
        assert items[1..][j - 1] == items[j];
      }
    }
  }

  /** `_rpathInRange` holds exactly on the real paths `_rpath2path` can
      translate back. */
  lemma RpathInRangeIff(dirmap: Dict<string, string>, rpath: string)
    requires dirmap.Valid()
    ensures RpathInRange(dirmap, rpath) <==> Rpath2Path(dirmap, rpath).Ok?
  {
    var items := Items(dirmap);
    var flipped := Flip(SitePairs(dirmap));
    InRangeUnder(items, rpath);
    assert forall j :: 0 <= j < |items| ==> flipped[j].0 == items[j].1;
  }

  /** No real path of the dirmap lies at or below another. */
  predicate RealPathsApart(dirmap: Dict<string, string>) {
    forall i, j :: 0 <= i < j < |dirmap.keys| && dirmap.keys[i] in dirmap.m && dirmap.keys[j] in dirmap.m
      ==> !Overlap(dirmap.m[dirmap.keys[i]], dirmap.m[dirmap.keys[j]])
  }

  /** A site name is a single non-empty path component. */
  predicate NamesPlain(dirmap: Dict<string, string>) {
    forall k :: k in dirmap.m ==> k != "" && '/' !in k
  }

  /** Two different plain names give site paths that do not overlap. */
  lemma PlainNamesApart(k: string, l: string)
    requires '/' !in k && '/' !in l && k != l
    ensures !Overlap("/" + k, "/" + l)
  {
    assert ("/" + k)[1..] == k && ("/" + l)[1..] == l;
    if |k| < |l| {
      assert ("/" + l)[|k| + 1] == l[|k|] != '/';
      assert ("/" + k + "/")[|k| + 1] == '/';
    } else if |l| < |k| {
      assert ("/" + k)[|l| + 1] == k[|l|] != '/';
      assert ("/" + l + "/")[|l| + 1] == '/';
    }
  }

  /** With real paths apart, an FTP path that maps to a real path maps back
      to itself. */
  lemma PathRoundTrip(dirmap: Dict<string, string>, path: string)
    requires dirmap.Valid() && RealPathsApart(dirmap)
    requires IsAbs(path) && path != "/" && Path2Rpath(dirmap, path).Ok?
    ensures Rpath2Path(dirmap, Path2Rpath(dirmap, path).value) == Ok(path)
  {
    TranslateRoundTrip(SitePairs(dirmap), path);
  }

  /** Plain site names give site paths that are apart. */
  lemma SitePathsApart(dirmap: Dict<string, string>)
    requires dirmap.Valid() && NamesPlain(dirmap)
    ensures Apart(Flip(SitePairs(dirmap)))
  {
    var flipped := Flip(SitePairs(dirmap));
    forall i, j | 0 <= i < j < |flipped| ensures !Overlap(flipped[i].1, flipped[j].1) {
      var k, l := dirmap.keys[i], dirmap.keys[j];
      assert flipped[i].1 == "/" + k && flipped[j].1 == "/" + l;
      assert k in dirmap.m && l in dirmap.m;
      PlainNamesApart(k, l);
    }
  }

  /** What `_rpath2path` returns is a path at or below some site. */
  lemma Rpath2PathAbs(dirmap: Dict<string, string>, rpath: string)
    requires dirmap.Valid() && NamesPlain(dirmap)
    requires Rpath2Path(dirmap, rpath).Ok?
    ensures IsAbs(Rpath2Path(dirmap, rpath).value) && Rpath2Path(dirmap, rpath).value != "/"
  {
    var flipped := Flip(SitePairs(dirmap));
    var p := Rpath2Path(dirmap, rpath).value;
    var j :| 0 <= j < |flipped| && Under(rpath, flipped[j].0) && Under(p, flipped[j].1);
    var k := dirmap.keys[j];
    assert k in dirmap.m;
    assert flipped[j].1 == "/" + k;
    assert p[..1] == "/";
    assert |p| > 1;
  }

  /** With site names plain, a real path that maps to an FTP path maps back
      to itself. */
  lemma RpathRoundTrip(dirmap: Dict<string, string>, rpath: string)
    requires dirmap.Valid() && NamesPlain(dirmap)
    requires Rpath2Path(dirmap, rpath).Ok?
    ensures var p := Rpath2Path(dirmap, rpath).value;
      IsAbs(p) && p != "/" && Path2Rpath(dirmap, p) == Ok(rpath)
  {
    var pairs := SitePairs(dirmap);
    SitePathsApart(dirmap);
    TranslateRoundTrip(Flip(pairs), rpath);
    FlipFlip(pairs);
    Rpath2PathAbs(dirmap, rpath);
  }

  // ---------------------------------------------------------------------
  // Virtual directories

  /** `_isVirtualRootDir`, whose assert demands an absolute path. */
  predicate IsVirtualRootDir(path: string)
    requires IsAbs(path)
  {
    path == "/"
  }

  /** `s.count(c)` for a single character. */
  function CountOf(s: string, c: char): (r: nat)
    ensures r == 0 <==> c !in s
    ensures r <= |s|
    decreases |s|
  {
    if |s| == 0 then 0
    else (if s[0] == c then 1 else 0) + CountOf(s[1..], c)
  }

  /** `_isVirtualSiteDir`, whose assert demands an absolute path other than
      the root. */
  predicate IsVirtualSiteDir(path: string)
    requires IsAbs(path) && path != "/"
  {
    CountOf(path, '/') == 1
  }

  /** A site directory is "/" followed by a single non-empty component. */
  lemma SiteDirIff(path: string)
    requires IsAbs(path) && path != "/"
    ensures IsVirtualSiteDir(path) <==> '/' !in path[1..]
    ensures IsVirtualSiteDir(path) ==> |path| > 1
  {
    assert path == [path[0]] + path[1..];
    assert path[0] == path[..1][0] == '/';
  }

  /** The directory of a plain site name is a site directory, and any
      path below it is not. */
  lemma SitePathsOfNames(k: string, rest: string)
    requires '/' !in k && k != ""
    ensures IsVirtualSiteDir("/" + k)
    ensures !IsVirtualSiteDir("/" + k + "/" + rest)
  {
    SiteDirIff("/" + k);
    assert ("/" + k)[1..] == k;
    var p := "/" + k + "/" + rest;
    SiteDirIff(p);
    assert p[1..][|k|] == '/';
  }

  /** `_listVirtualRootDir` */
  function ListVirtualRootDir(dirmap: Dict<string, string>): seq<string> {
    Sort(dirmap.keys)
  }

  /** The root lists every site name once, in ascending order. */
  lemma ListRootDirLists(dirmap: Dict<string, string>)
    requires dirmap.Valid()
    ensures Sorted(ListVirtualRootDir(dirmap))
    ensures |ListVirtualRootDir(dirmap)| == |dirmap.m|
    ensures forall k :: k in ListVirtualRootDir(dirmap) <==> k in dirmap.m
  {
    var r := ListVirtualRootDir(dirmap);
    DictSize(dirmap);
    assert |r| == |multiset(r)| == |multiset(dirmap.keys)| == |dirmap.keys|;
    forall k ensures k in r <==> k in dirmap.keys {
      assert k in r <==> k in multiset(r);
      assert k in dirmap.keys <==> k in multiset(dirmap.keys);
    }
  }

  // ---------------------------------------------------------------------
  // The queries

  /** What the real file system answers for a real path. */
  datatype RealFs = RealFs(
    isfile: string -> bool,
    islink: string -> bool,
    isdir: string -> bool,
    lexists: string -> bool,
    realpath: string -> string)

  /** A query on the real path, or the exception translating raised. */
  function Ask(rpath: Result<string, Exc>, query: string -> bool): Result<bool, Exc> {
    match rpath
    case Err(e) => Err(e)
    case Ok(r) => Ok(query(r))
  }

  predicate IsVirtual(path: string)
    requires IsAbs(path)
  {
    IsVirtualRootDir(path) || IsVirtualSiteDir(path)
  }

  /** `isfile`, `islink`, `isdir` and `lexists`: a virtual directory answers
      for itself, any other path asks the real file system about its real
      path. */
  function IsFile(dirmap: Dict<string, string>, fs: RealFs, path: string): Result<bool, Exc>
    requires dirmap.Valid() && IsAbs(path)
  {
    if IsVirtual(path) then Ok(false)
    else Ask(Path2Rpath(dirmap, path), fs.isfile)
  }

  function IsLink(dirmap: Dict<string, string>, fs: RealFs, path: string): Result<bool, Exc>
    requires dirmap.Valid() && IsAbs(path)
  {
    if IsVirtual(path) then Ok(false)
    else Ask(Path2Rpath(dirmap, path), fs.islink)
  }

  function IsDir(dirmap: Dict<string, string>, fs: RealFs, path: string): Result<bool, Exc>
    requires dirmap.Valid() && IsAbs(path)
  {
    if IsVirtual(path) then Ok(true)
    else Ask(Path2Rpath(dirmap, path), fs.isdir)
  }

  function LExists(dirmap: Dict<string, string>, fs: RealFs, path: string): Result<bool, Exc>
    requires dirmap.Valid() && IsAbs(path)
  {
    if IsVirtual(path) then Ok(true)
    else Ask(Path2Rpath(dirmap, path), fs.lexists)
  }

  /** `realpath`: the real path resolved and translated back. */
  function RealPath(dirmap: Dict<string, string>, fs: RealFs, path: string): Result<string, Exc>
    requires dirmap.Valid() && IsAbs(path)
  {
    if IsVirtual(path) then Ok(path)
    else
      match Path2Rpath(dirmap, path)
      case Err(e) => Err(e)
      case Ok(r) => Rpath2Path(dirmap, fs.realpath(r))
  }

  /** `validpath` */
  function ValidPath(dirmap: Dict<string, string>, fs: RealFs, path: string): Result<bool, Exc>
    requires dirmap.Valid() && IsAbs(path)
  {
    if IsVirtualRootDir(path) then Ok(true)
    else match Path2Rpath(dirmap, path)
      case Err(e) => Err(e)
      case Ok(r) => Ok(RpathInRange(dirmap, fs.realpath(r)))
  }

  /** The root and the site directories are directories that exist, are
      neither files nor links, and are their own real path, whatever the
      real file system holds. */
  lemma VirtualDirsAnswer(dirmap: Dict<string, string>, fs: RealFs, path: string)
    requires dirmap.Valid() && IsAbs(path) && IsVirtual(path)
    ensures IsDir(dirmap, fs, path) == Ok(true) && LExists(dirmap, fs, path) == Ok(true)
    ensures IsFile(dirmap, fs, path) == Ok(false) && IsLink(dirmap, fs, path) == Ok(false)
    ensures RealPath(dirmap, fs, path) == Ok(path)
  {
  }

  /** Any other path that no site covers is not found. */
  lemma UnmappedNotFound(dirmap: Dict<string, string>, fs: RealFs, path: string)
    requires dirmap.Valid() && IsAbs(path) && !IsVirtual(path)
    requires forall k :: k in dirmap.m ==> !Under(path, "/" + k)
    ensures IsDir(dirmap, fs, path) == Err(FileNotFoundError)
    ensures RealPath(dirmap, fs, path) == Err(FileNotFoundError)
  {
    var pairs := SitePairs(dirmap);
    forall j | 0 <= j < |pairs| ensures !Under(path, pairs[j].0) {
      assert dirmap.keys[j] in dirmap.m;
    }
  }

  /** For a path below a site, `validpath` accepts it exactly when
      `realpath` can translate its resolved real path back; the root is
      always valid. */
  lemma ValidPathIffRealPath(dirmap: Dict<string, string>, fs: RealFs, path: string)
    requires dirmap.Valid() && IsAbs(path) && !IsVirtual(path)
    ensures ValidPath(dirmap, fs, path) == Ok(true) <==> RealPath(dirmap, fs, path).Ok?
    ensures ValidPath(dirmap, fs, "/") == Ok(true)
  {
    if Path2Rpath(dirmap, path).Ok? {
      RpathInRangeIff(dirmap, fs.realpath(Path2Rpath(dirmap, path).value));
    }
  }

  /** When the real file system resolves a real path to itself (no links)
      and the real paths are apart, `realpath` is the identity on every
      mapped path. */
  lemma RealPathIdentity(dirmap: Dict<string, string>, fs: RealFs, path: string)
    requires dirmap.Valid() && RealPathsApart(dirmap) && IsAbs(path) && !IsVirtual(path)
    requires Path2Rpath(dirmap, path).Ok?
    requires fs.realpath(Path2Rpath(dirmap, path).value) == Path2Rpath(dirmap, path).value
    ensures RealPath(dirmap, fs, path) == Ok(path)
  {
    PathRoundTrip(dirmap, path);
  }
}
