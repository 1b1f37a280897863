/** The pure helpers of `PsUtil` (lib/ps_util.py): path overlap, replacing
    from the right, and trimming a configuration line. */
module PsUtil {
  import opened Wrappers
  import opened Text

  // ---------------------------------------------------------------------
  // isPathOverlap

  /** One iteration of the test in `isPathOverlap`: the paths are equal, or
      one is a directory strictly above the other. */
  predicate Overlap(a: string, b: string) {
    a == b || StartsWith(b, a + "/") || StartsWith(a, b + "/")
  }

  /** `PsUtil.isPathOverlap(path, pathList)`: scans the list in order and
      answers on the first element that overlaps. */
  function IsPathOverlap(path: string, pathList: seq<string>): (r: bool)
    ensures r <==> exists k :: 0 <= k < |pathList| && Overlap(path, pathList[k])
    ensures |pathList| == 0 ==> !r
    ensures path in pathList ==> r
    decreases |pathList|
  {
    if |pathList| == 0 then false
    else if Overlap(path, pathList[0]) then true
    else
      var rest := IsPathOverlap(path, pathList[1..]);
      assert forall k :: 1 <= k < |pathList| ==> pathList[k] == pathList[1..][k - 1];
      assert rest ==> exists k :: 0 <= k < |pathList| && Overlap(path, pathList[k]) by {
        if rest {
          var k :| 0 <= k < |pathList[1..]| && Overlap(path, pathList[1..][k]);
          assert Overlap(path, pathList[k + 1]);
        }
      }
      rest
  }

  /** Overlap does not depend on which path is the one being added. */
  lemma OverlapSymmetric(path: string, p: string)
    ensures IsPathOverlap(path, [p]) == IsPathOverlap(p, [path])
  {
    assert IsPathOverlap(path, [p]) == Overlap(path, [p][0]);
    assert IsPathOverlap(p, [path]) == Overlap(p, [path][0]);
  }

  // ---------------------------------------------------------------------
  // rreplace

  /** `PsUtil.rreplace(s, sub, dst, count)`, that is
      `dst.join(s.rsplit(sub, count))`: the last `count` non-overlapping
      occurrences of `sub`, searched from the right, become `dst`. */
  function RReplace(s: string, sub: string, dst: string, count: nat): string
    requires |sub| > 0
    decreases count
  {
    if count == 0 then s
    else
      match LastIndexOf(s, sub)
      case None => s
      case Some(i) => RReplace(s[..i], sub, dst, count - 1) + dst + s[i + |sub|..]
  }

  /** With a count of one only the last occurrence is replaced, and a string
      without `sub` comes back unchanged. */
  lemma RReplaceOnce(s: string, sub: string, dst: string)
    requires |sub| > 0
    ensures (forall j: nat :: !OccursAt(s, sub, j)) ==> RReplace(s, sub, dst, 1) == s
    ensures forall i: nat :: OccursAt(s, sub, i) && (forall j: nat :: i < j ==> !OccursAt(s, sub, j))
              ==> RReplace(s, sub, dst, 1) == s[..i] + dst + s[i + |sub|..]
  {
    match LastIndexOf(s, sub)
    case None =>
    case Some(m) =>
      forall i: nat | OccursAt(s, sub, i) && (forall j: nat :: i < j ==> !OccursAt(s, sub, j))
        ensures RReplace(s, sub, dst, 1) == s[..i] + dst + s[i + |sub|..]
      {
        assert !(i < m) && !(m < i);
      }
  }

  /** A string ending in `sub` loses exactly that suffix to `dst`. */
  lemma RReplaceSuffix(s: string, sub: string, dst: string)
    requires |sub| > 0 && EndsWith(s, sub)
    ensures RReplace(s, sub, dst, 1) == s[..|s| - |sub|] + dst
  {
    var i: nat := |s| - |sub|;
    assert OccursAt(s, sub, i);
    RReplaceOnce(s, sub, dst);
    assert s[i + |sub|..] == "";
  }

  // ---------------------------------------------------------------------
  // getLineWithoutBlankAndComment

  /** `c.isspace()` for Python 3 `str`. */
  predicate IsSpace(c: char) {
    c == ' ' || ('\t' <= c <= '\r') || ('\U{1c}' <= c <= '\U{1f}')
    || c == '\U{85}' || c == '\U{a0}' || c == '\U{1680}'
    || ('\U{2000}' <= c <= '\U{200a}') || c == '\U{2028}' || c == '\U{2029}'
    || c == '\U{202f}' || c == '\U{205f}' || c == '\U{3000}'
  }

  predicate AllSpace(s: string) {
    forall k :: 0 <= k < |s| ==> IsSpace(s[k])
  }

  function LeadingSpace(s: string): (n: nat)
    ensures n <= |s| && AllSpace(s[..n])
    ensures n < |s| ==> !IsSpace(s[n])
    ensures n == |s| <==> AllSpace(s)
    decreases |s|
  {
    if |s| == 0 || !IsSpace(s[0]) then 0
    else
      var m := LeadingSpace(s[1..]);
      assert s[..m + 1] == [s[0]] + s[1..][..m];
      m + 1
  }

  function TrailingSpace(s: string): (n: nat)
    ensures n <= |s| && AllSpace(s[|s| - n..])
    ensures n < |s| ==> !IsSpace(s[|s| - n - 1])
    ensures n == |s| <==> AllSpace(s)
    decreases |s|
  {
    if |s| == 0 || !IsSpace(s[|s| - 1]) then 0
    else
      var m := TrailingSpace(s[..|s| - 1]);
      assert s[|s| - (m + 1)..] == s[..|s| - 1][|s| - 1 - m..] + [s[|s| - 1]];
      m + 1
  }

  lemma StripBlank(s: string, i: nat, j: nat)
    requires i == LeadingSpace(s) && j == TrailingSpace(s[i..])
    ensures i + j <= |s|
    ensures i + j == |s| <==> AllSpace(s)
  {
    var t := s[i..];
    if i < |s| {
      assert t[0] == s[i];
      assert !AllSpace(t);
    }
  }

  lemma StripEnds(s: string, i: nat, j: nat)
    requires i == LeadingSpace(s) && j == TrailingSpace(s[i..]) && i + j < |s|
    ensures !IsSpace(s[i]) && !IsSpace(s[|s| - j - 1])
  {
    var t := s[i..];
    var m := |t| - j - 1;
    assert 0 <= m < |t|;
    assert t[m] == s[i + m];
    assert i + m == |s| - j - 1;
  }

  /** `s.strip()`: the text between the leading and the trailing run of
      whitespace. */
  function Strip(s: string): (r: string)
    ensures r == "" <==> AllSpace(s)
    ensures r != "" ==> !IsSpace(r[0]) && !IsSpace(r[|r| - 1])
    ensures forall c :: c in r ==> c in s
    ensures exists i, j :: 0 <= i <= j <= |s| && r == s[i..j] && AllSpace(s[..i]) && AllSpace(s[j..])
  {
    var i := LeadingSpace(s);
    var j := TrailingSpace(s[i..]);
    StripSlice(s, i, j);
    s[i..|s| - j]
  }

  /** The slice between the two blank runs is what `strip()` promises. */
  lemma StripSlice(s: string, i: nat, j: nat)
    requires i == LeadingSpace(s) && j == TrailingSpace(s[i..])
    ensures i + j <= |s|
    ensures var r := s[i..|s| - j];
      && (r == "" <==> AllSpace(s))
      && (r != "" ==> !IsSpace(r[0]) && !IsSpace(r[|r| - 1]))
      && (forall c :: c in r ==> c in s)
      && exists i', j' :: 0 <= i' <= j' <= |s| && r == s[i'..j'] && AllSpace(s[..i']) && AllSpace(s[j'..])
  {
    StripBlank(s, i, j);
    StripCuts(s, i, j);
    if i + j < |s| {
      StripEnds(s, i, j);
    }
    SliceBetween(s, i, |s| - j);
  }

  /** A slice with blank text on either side: its ends, its characters and
      the cut that gives it. */
  lemma SliceBetween(s: string, i: nat, k: nat)
    requires i <= k <= |s| && AllSpace(s[..i]) && AllSpace(s[k..])
    ensures var r := s[i..k];
      && (r != "" ==> r[0] == s[i] && r[|r| - 1] == s[k - 1])
      && (forall c :: c in r ==> c in s)
      && exists i', j' :: 0 <= i' <= j' <= |s| && r == s[i'..j'] && AllSpace(s[..i']) && AllSpace(s[j'..])
  {
    var r := s[i..k];
    forall c | c in r ensures c in s {
      var n :| 0 <= n < |r| && r[n] == c;
      assert s[i + n] == c;
    }
  }

  /** What `strip()` cuts off at either end is blank. */
  lemma StripCuts(s: string, i: nat, j: nat)
    requires i == LeadingSpace(s) && j == TrailingSpace(s[i..]) && i + j <= |s|
    ensures AllSpace(s[..i]) && AllSpace(s[|s| - j..])
  {
    assert s[i..][|s[i..]| - j..] == s[|s| - j..];
  }

  /** The part of `line` before its first `#`, or all of it. */
  function BeforeComment(line: string): (b: string)
    ensures '#' !in b
    ensures StartsWith(line, b)
    ensures |b| < |line| ==> line[|b|] == '#'
  {
    assert forall j: nat :: j < |line| ==> (OccursAt(line, "#", j) <==> line[j] == '#') by {
      forall j: nat | j < |line| ensures OccursAt(line, "#", j) <==> line[j] == '#' {
        assert line[j..j + 1] == [line[j]];
      }
    }
    match IndexOf(line, "#")
    case None => line
    case Some(i) =>
      assert forall k :: 0 <= k < i ==> line[..i][k] == line[k];
      line[..i]
  }

  /** `PsUtil.getLineWithoutBlankAndComment(line)`: the comment cut off,
      the rest stripped, and None for what is left blank. */
  function LineWithoutBlankAndComment(line: string): (r: Option<string>)
    ensures r.None? <==> AllSpace(BeforeComment(line))
    ensures r.Some? ==> r.value != "" && '#' !in r.value
    ensures r.Some? ==> !IsSpace(r.value[0]) && !IsSpace(r.value[|r.value| - 1])
    ensures r.Some? ==> var b := BeforeComment(line);
      exists i, j :: 0 <= i <= j <= |b| && r.value == b[i..j] && AllSpace(b[..i]) && AllSpace(b[j..])
  {
    var t := Strip(BeforeComment(line));
    if t == "" then None else Some(t)
  }
}
