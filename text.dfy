/** String operations of Python's `str` that the modelled code relies on,
    written out over `seq<char>`, with the facts about them that the rest of
    the model needs. */
module Text {
  import opened Wrappers

  // ---------------------------------------------------------------------
  // Prefixes, suffixes and occurrences

  /** `s.startswith(p)` */
  predicate StartsWith(s: string, p: string) {
    |p| <= |s| && s[..|p|] == p
  }

  /** `s.endswith(p)` */
  predicate EndsWith(s: string, p: string) {
    |p| <= |s| && s[|s| - |p|..] == p
  }

  /** `os.path.isabs(s)` on POSIX: the path begins with a slash. */
  predicate IsAbs(s: string) {
    StartsWith(s, "/")
  }

  /** `os.path.join(a, b)` on POSIX for two components. */
  function PathJoin(a: string, b: string): (r: string)
    ensures IsAbs(b) ==> r == b
    ensures !IsAbs(b) ==> EndsWith(r, b)
    ensures !IsAbs(b) ==> StartsWith(r, a) && (r == a + "/" + b <==> a != "" && !EndsWith(a, "/"))
    ensures !IsAbs(b) && (a == "" || EndsWith(a, "/")) ==> r == a + b
  {
    if IsAbs(b) then b
    else if a == "" || EndsWith(a, "/") then a + b
    else a + "/" + b
  }

  predicate OccursAt(s: string, sub: string, i: nat) {
    i + |sub| <= |s| && s[i..i + |sub|] == sub
  }

  /** The first index at which `sub` occurs in `s` (`s.find(sub)`). */
  function IndexOf(s: string, sub: string): (r: Option<nat>)
    ensures r.Some? ==> OccursAt(s, sub, r.value)
    ensures r.Some? ==> forall j: nat :: j < r.value ==> !OccursAt(s, sub, j)
    ensures r.None? ==> forall j: nat :: !OccursAt(s, sub, j)
    decreases |s|
  {
    if |s| < |sub| then None
    else if s[..|sub|] == sub then Some(0)
    else
      var rest := IndexOf(s[1..], sub);
      assert !OccursAt(s, sub, 0);
      assert forall j: nat :: OccursAt(s, sub, j + 1) <==> OccursAt(s[1..], sub, j) by {
        forall j: nat ensures OccursAt(s, sub, j + 1) <==> OccursAt(s[1..], sub, j) {
          if j + 1 + |sub| <= |s| {
            assert s[1..][j..j + |sub|] == s[j + 1..j + 1 + |sub|];
          }
        }
      }
      assert forall j: nat :: OccursAt(s, sub, j) ==> j > 0 && OccursAt(s[1..], sub, j - 1) by {
        forall j: nat | OccursAt(s, sub, j) ensures j > 0 && OccursAt(s[1..], sub, j - 1) {
          assert j > 0;
          assert OccursAt(s, sub, (j - 1) + 1);
        }
      }
      if rest.None? then None
      else Some(rest.value + 1)
  }

  /** The highest index at which `sub` occurs in `s` (`s.rfind(sub)`). */
  function LastIndexOf(s: string, sub: string): (r: Option<nat>)
    ensures r.Some? ==> OccursAt(s, sub, r.value)
    ensures r.Some? ==> forall j: nat :: r.value < j ==> !OccursAt(s, sub, j)
    ensures r.None? ==> forall j: nat :: !OccursAt(s, sub, j)
    decreases |s|
  {
    if |s| < |sub| then None
    else if s[|s| - |sub|..] == sub then Some(|s| - |sub|)
    else
      var rest := LastIndexOf(s[..|s| - 1], sub);
      assert forall j: nat :: OccursAt(s, sub, j) && j + |sub| < |s| ==> OccursAt(s[..|s| - 1], sub, j) by {
        forall j: nat | OccursAt(s, sub, j) && j + |sub| < |s| ensures OccursAt(s[..|s| - 1], sub, j) {
          assert s[..|s| - 1][j..j + |sub|] == s[j..j + |sub|];
        }
      }
      if rest.None? then None
      else
        assert s[..|s| - 1][rest.value..rest.value + |sub|] == s[rest.value..rest.value + |sub|];
        Some(rest.value)
  }

  /** `s.replace(pat, rep, 1)`: the first occurrence only. */
  function ReplaceFirst(s: string, pat: string, rep: string): (r: string)
  {
    match IndexOf(s, pat)
    case None => s
    case Some(i) => s[..i] + rep + s[i + |pat|..]
  }

  lemma ReplaceFirstAtStart(s: string, pat: string, rep: string)
    requires StartsWith(s, pat)
    ensures ReplaceFirst(s, pat, rep) == rep + s[|pat|..]
  {
    assert OccursAt(s, pat, 0);
  }

  /** `s.replace(pat, rep)` for a non-empty `pat`: occurrences are found
      from the left and do not overlap. */
  function ReplaceAll(s: string, pat: string, rep: string): string
    requires |pat| > 0
    decreases |s|
  {
    if |s| < |pat| then s
    else if s[..|pat|] == pat then rep + ReplaceAll(s[|pat|..], pat, rep)
    else [s[0]] + ReplaceAll(s[1..], pat, rep)
  }

  /** No proper suffix of `w` is also a prefix of it, so two occurrences of
      `w` can never overlap. */
  predicate Borderless(w: string) {
    forall k :: 0 < k < |w| ==> w[k..] != w[..|w| - k]
  }

  /** A word that both starts and ends a text shorter than twice its length
      overlaps itself. */
  lemma OverlapIsBorder(s: string, w: string)
    requires StartsWith(s, w) && EndsWith(s, w) && |w| < |s| < 2 * |w|
    ensures 0 < |s| - |w| < |w|
    ensures w[|s| - |w|..] == w[..|w| - (|s| - |w|)]
  {
    var k := |s| - |w|;
    assert w[k..] == s[k..|w|];
    assert s[k..|w|] == s[|s| - |w|..][..|w| - k];
  }

  /** Replacing every occurrence of a borderless word replaces a trailing one. */
  lemma {:induction false} ReplaceAllKeepsSuffix(s: string, pat: string, rep: string)
    requires |pat| > 0 && Borderless(pat) && EndsWith(s, pat)
    ensures EndsWith(ReplaceAll(s, pat, rep), rep)
    decreases |s|
  {
    if s[..|pat|] == pat {
      if |s| == |pat| {
        assert s[|pat|..] == [];
      } else if |s| < 2 * |pat| {
        OverlapIsBorder(s, pat);
        assert false;
      } else {
        assert s[|pat|..][|s[|pat|..]| - |pat|..] == s[|s| - |pat|..];
        ReplaceAllKeepsSuffix(s[|pat|..], pat, rep);
      }
    } else {
      assert |s| > |pat|;
      assert s[1..][|s[1..]| - |pat|..] == s[|s| - |pat|..];
      ReplaceAllKeepsSuffix(s[1..], pat, rep);
    }
  }

  // ---------------------------------------------------------------------
  // Splitting on one character, and lines

  /** `s.split(c)` for a one-character separator: always at least one part. */
  function Split<T(==)>(s: seq<T>, c: T): (r: seq<seq<T>>)
    ensures |r| >= 1
    decreases |s|
  {
    if |s| == 0 then [[]]
    else
      var rest := Split(s[1..], c);
      if s[0] == c then [[]] + rest else [[s[0]] + rest[0]] + rest[1..]
  }

  /** `c.join(parts)` */
  function Join<T>(parts: seq<seq<T>>, c: T): seq<T>
    requires |parts| >= 1
    decreases |parts|
  {
    if |parts| == 1 then parts[0] else parts[0] + [c] + Join(parts[1..], c)
  }

  lemma {:induction false} SplitNoSeparator<T>(s: seq<T>, c: T)
    requires c !in s
    ensures Split(s, c) == [s]
    decreases |s|
  {
    if |s| > 0 {
      SplitNoSeparator(s[1..], c);
      assert [s[0]] + s[1..] == s;
    }
  }

  /** A separator-free prefix extends the first part. */
  lemma {:induction false} SplitPrefix<T>(q: seq<T>, t: seq<T>, c: T)
    requires c !in q
    ensures Split(q + t, c) == [q + Split(t, c)[0]] + Split(t, c)[1..]
    decreases |q|
  {
    if |q| == 0 {
      assert q + t == t;
      assert q + Split(t, c)[0] == Split(t, c)[0];
      assert Split(t, c) == [Split(t, c)[0]] + Split(t, c)[1..];
    } else {
      assert q[0] in q;
      assert (q + t)[0] == q[0] != c;
      assert (q + t)[1..] == q[1..] + t;
      assert c !in q[1..] by {
        forall k | 0 <= k < |q[1..]| ensures q[1..][k] != c {
          assert q[1..][k] == q[k + 1];
        }
      }
      SplitPrefix(q[1..], t, c);
      var rest := Split(q[1..] + t, c);
      assert Split(q + t, c) == [[q[0]] + rest[0]] + rest[1..];
      assert [q[0]] + (q[1..] + Split(t, c)[0]) == q + Split(t, c)[0];
    }
  }

  /** A separator-free part followed by the separator is split off whole. */
  lemma SplitAtSeparator<T>(q: seq<T>, t: seq<T>, c: T)
    requires c !in q
    ensures Split(q + [c] + t, c) == [q] + Split(t, c)
  {
    assert q + [c] + t == q + ([c] + t);
    SplitPrefix(q, [c] + t, c);
    assert ([c] + t)[1..] == t;
    assert Split([c] + t, c) == [[]] + Split(t, c);
    assert q + [] == q;
  }

  lemma {:induction false} SplitParts<T>(s: seq<T>, c: T)
    ensures forall k :: 0 <= k < |Split(s, c)| ==> c !in Split(s, c)[k]
    ensures Join(Split(s, c), c) == s
    decreases |s|
  {
    if |s| > 0 {
      SplitParts(s[1..], c);
      var rest := Split(s[1..], c);
      if s[0] == c {
        assert Split(s, c)[1..] == rest;
        assert [s[0]] + s[1..] == s;
      } else {
        var r := Split(s, c);
        assert r[0] == [s[0]] + rest[0];
        if |rest| == 1 {
          assert [s[0]] + rest[0] == s;
        } else {
          assert r[1..] == rest[1..];
          assert Join(r, c) == r[0] + [c] + Join(rest[1..], c);
          assert [s[0]] + (rest[0] + [c] + Join(rest[1..], c)) == [s[0]] + Join(rest, c);
          assert [s[0]] + s[1..] == s;
        }
      }
    }
  }

  /** The parts of `l` and `r` with the last part of `l` run on into the
      first part of `r`. */
  function Glued<T>(l: seq<seq<T>>, r: seq<seq<T>>): seq<seq<T>>
    requires |l| >= 1 && |r| >= 1
  {
    l[..|l| - 1] + [l[|l| - 1] + r[0]] + r[1..]
  }

  /** Splitting a concatenation: the last part of the left side runs on
      into the first part of the right side. */
  lemma {:induction false} SplitConcat<T>(a: seq<T>, b: seq<T>, c: T)
    ensures var sa, sb := Split(a, c), Split(b, c);
      Split(a + b, c) == sa[..|sa| - 1] + [sa[|sa| - 1] + sb[0]] + sb[1..]
    decreases |a|
  {
    if |a| == 0 {
      SplitConcatEmpty(a, b, c);
    } else {
      SplitConcat(a[1..], b, c);
      SplitConcatStep(a, b, c);
    }
  }

  lemma SplitConcatEmpty<T>(a: seq<T>, b: seq<T>, c: T)
    requires |a| == 0
    ensures Split(a + b, c) == Glued(Split(a, c), Split(b, c))
  {
    var sa, sb := Split(a, c), Split(b, c);
    assert a + b == b;
    assert sa == [[]];
    assert sa[..|sa| - 1] == [] && sa[|sa| - 1] + sb[0] == sb[0];
    assert sb == [sb[0]] + sb[1..];
  }

  lemma SplitConcatStep<T>(a: seq<T>, b: seq<T>, c: T)
    requires |a| > 0
    requires Split(a[1..] + b, c) == Glued(Split(a[1..], c), Split(b, c))
    ensures Split(a + b, c) == Glued(Split(a, c), Split(b, c))
  {
    var sb := Split(b, c);
    var st := Split(a[1..], c);
    assert (a + b)[0] == a[0] && (a + b)[1..] == a[1..] + b;
    if a[0] == c {
      assert Split(a + b, c) == [[]] + Glued(st, sb);
      GluedCons([], st, sb);
    } else {
      JoinedFirst([a[0]], st, sb[0], sb[1..]);
    }
  }

  lemma GluedCons<T>(x: seq<T>, l: seq<seq<T>>, r: seq<seq<T>>)
    requires |l| >= 1 && |r| >= 1
    ensures Glued([x] + l, r) == [x] + Glued(l, r)
  {
    assert ([x] + l)[..|l|] == [x] + l[..|l| - 1];
  }

  /** The list algebra behind SplitConcat when the first element is not the
      separator: it is glued to the first part on both sides. */
  lemma JoinedFirst<T>(x: seq<T>, l: seq<seq<T>>, y: seq<T>, r: seq<seq<T>>)
    requires |l| >= 1
    ensures var m := l[..|l| - 1] + [l[|l| - 1] + y] + r;
      var l' := [x + l[0]] + l[1..];
      [x + m[0]] + m[1..] == l'[..|l'| - 1] + [l'[|l'| - 1] + y] + r
  {
    var m := l[..|l| - 1] + [l[|l| - 1] + y] + r;
    var l' := [x + l[0]] + l[1..];
    if |l| == 1 {
      assert m[0] == l[0] + y && m[1..] == r;
      assert x + (l[0] + y) == (x + l[0]) + y;
    } else {
      assert m[0] == l[0];
      assert m[1..] == l[1..][..|l| - 2] + [l[|l| - 1] + y] + r;
      assert l'[..|l'| - 1] == [x + l[0]] + l[1..][..|l| - 2];
    }
  }

  /** Text made of the given lines, each ended by a newline. */
  function Unlines(lines: seq<string>): string
    decreases |lines|
  {
    if |lines| == 0 then "" else lines[0] + "\n" + Unlines(lines[1..])
  }

  predicate NoNewline(s: string) {
    '\n' !in s
  }

  lemma UnlinesAppend(a: seq<string>, b: seq<string>)
    ensures Unlines(a + b) == Unlines(a) + Unlines(b)
  {
    if |a| > 0 {
      assert (a + b)[1..] == a[1..] + b;
      UnlinesAppend(a[1..], b);
    } else {
      assert a + b == b;
    }
  }

  /** Newline-free lines come back from the text they make, plus the empty
      remainder after the last newline. */
  lemma {:induction false} SplitUnlines(lines: seq<string>)
    requires forall k :: 0 <= k < |lines| ==> NoNewline(lines[k])
    ensures Split(Unlines(lines), '\n') == lines + [""]
    decreases |lines|
  {
    if |lines| > 0 {
      SplitUnlines(lines[1..]);
      SplitAtSeparator(lines[0], Unlines(lines[1..]), '\n');
      assert lines[0] + "\n" + Unlines(lines[1..]) == lines[0] + ['\n'] + Unlines(lines[1..]);
      assert lines == [lines[0]] + lines[1..];
    }
  }

  /** Newline-free lines at the front of a text are its first lines. */
  lemma {:induction false} SplitUnlinesThen(lines: seq<string>, rest: string)
    requires forall k :: 0 <= k < |lines| ==> NoNewline(lines[k])
    ensures Split(Unlines(lines) + rest, '\n') == lines + Split(rest, '\n')
    decreases |lines|
  {
    if |lines| == 0 {
      assert Unlines(lines) + rest == rest;
    } else {
      SplitUnlinesThen(lines[1..], rest);
      SplitUnlinesStep(lines, rest);
    }
  }

  lemma SplitUnlinesStep(lines: seq<string>, rest: string)
    requires |lines| > 0 && NoNewline(lines[0])
    requires Split(Unlines(lines[1..]) + rest, '\n') == lines[1..] + Split(rest, '\n')
    ensures Split(Unlines(lines) + rest, '\n') == lines + Split(rest, '\n')
  {
    var x, u := lines[0], Unlines(lines[1..]);
    calc {
      Split(Unlines(lines) + rest, '\n');
      == { assert Unlines(lines) == x + "\n" + u; LineThen(x, u, rest); }
      Split(x + ['\n'] + (u + rest), '\n');
      == { SplitAtSeparator(x, u + rest, '\n'); }
      [x] + Split(u + rest, '\n');
      [x] + (lines[1..] + Split(rest, '\n'));
      == { assert [x] + lines[1..] == lines; }
      lines + Split(rest, '\n');
    }
  }

  lemma LineThen(x: string, u: string, rest: string)
    ensures (x + "\n" + u) + rest == x + ['\n'] + (u + rest)
  {
    assert "\n" == ['\n'];
  }

  /** Every line of `s`, prefixed by `p`. */
  function PrefixEach(p: string, ls: seq<string>): (r: seq<string>)
    ensures |r| == |ls|
    ensures forall k :: 0 <= k < |ls| ==> r[k] == p + ls[k]
  {
    seq(|ls|, k requires 0 <= k < |ls| => p + ls[k])
  }

  lemma SplitHead<T>(s: seq<T>, c: T)
    requires |s| > 0
    ensures s[0] == c ==> Split(s, c) == [[]] + Split(s[1..], c)
    ensures s[0] != c ==> Split(s, c) == [[s[0]] + Split(s[1..], c)[0]] + Split(s[1..], c)[1..]
  {
  }

  lemma ReplaceNewlineHead(s: string, p: string)
    requires |s| > 0
    ensures s[0] == '\n' ==> ReplaceAll(s, "\n", "\n" + p) == "\n" + p + ReplaceAll(s[1..], "\n", "\n" + p)
    ensures s[0] != '\n' ==> ReplaceAll(s, "\n", "\n" + p) == [s[0]] + ReplaceAll(s[1..], "\n", "\n" + p)
  {
    assert s[..1] == [s[0]];
  }

  lemma PrefixEachCons(p: string, t: seq<string>)
    requires |t| > 0
    ensures PrefixEach(p, t) == [p + t[0]] + PrefixEach(p, t[1..])
  {
  }

  lemma ConsNewline(q: string, p: string, x: string)
    ensures q + ("\n" + p + x) == q + ['\n'] + (p + x)
  {
    assert "\n" == ['\n'];
  }

  lemma IndentNewlineSplit(q: string, p: string, s: string)
    requires NoNewline(q) && |s| > 0 && s[0] == '\n'
    ensures Split(q + ReplaceAll(s, "\n", "\n" + p), '\n')
         == [q] + Split(p + ReplaceAll(s[1..], "\n", "\n" + p), '\n')
  {
    var x := ReplaceAll(s[1..], "\n", "\n" + p);
    ReplaceNewlineHead(s, p);
    ConsNewline(q, p, x);
    SplitAtSeparator(q, p + x, '\n');
  }

  lemma IndentNewlineParts(q: string, p: string, s: string)
    requires |s| > 0 && s[0] == '\n'
    ensures [q] + ([p + Split(s[1..], '\n')[0]] + PrefixEach(p, Split(s[1..], '\n')[1..]))
         == [q + Split(s, '\n')[0]] + PrefixEach(p, Split(s, '\n')[1..])
  {
    var t := Split(s[1..], '\n');
    var whole := Split(s, '\n');
    SplitHead(s, '\n');
    assert whole[1..] == t;
    assert q + whole[0] == q;
    PrefixEachCons(p, t);
  }

  lemma IndentStepNewline(q: string, p: string, s: string)
    requires NoNewline(q) && |s| > 0 && s[0] == '\n'
    requires Split(p + ReplaceAll(s[1..], "\n", "\n" + p), '\n')
          == [p + Split(s[1..], '\n')[0]] + PrefixEach(p, Split(s[1..], '\n')[1..])
    ensures Split(q + ReplaceAll(s, "\n", "\n" + p), '\n')
         == [q + Split(s, '\n')[0]] + PrefixEach(p, Split(s, '\n')[1..])
  {
    IndentNewlineSplit(q, p, s);
    IndentNewlineParts(q, p, s);
  }

  lemma IndentOtherHead(q: string, p: string, s: string)
    requires |s| > 0 && s[0] != '\n'
    ensures q + ReplaceAll(s, "\n", "\n" + p) == (q + [s[0]]) + ReplaceAll(s[1..], "\n", "\n" + p)
  {
    ReplaceNewlineHead(s, p);
  }

  lemma IndentOtherParts<T>(q: seq<T>, s: seq<T>, c: T)
    requires |s| > 0 && s[0] != c
    ensures (q + [s[0]]) + Split(s[1..], c)[0] == q + Split(s, c)[0]
    ensures Split(s[1..], c)[1..] == Split(s, c)[1..]
  {
    var t := Split(s[1..], c);
    assert Split(s, c) == [[s[0]] + t[0]] + t[1..];
    assert (q + [s[0]]) + t[0] == q + ([s[0]] + t[0]);
  }

  lemma IndentStepOther(q: string, p: string, s: string)
    requires |s| > 0 && s[0] != '\n'
    requires Split((q + [s[0]]) + ReplaceAll(s[1..], "\n", "\n" + p), '\n')
          == [(q + [s[0]]) + Split(s[1..], '\n')[0]] + PrefixEach(p, Split(s[1..], '\n')[1..])
    ensures Split(q + ReplaceAll(s, "\n", "\n" + p), '\n')
         == [q + Split(s, '\n')[0]] + PrefixEach(p, Split(s, '\n')[1..])
  {
    IndentOtherHead(q, p, s);
    IndentOtherParts(q, s, '\n');
  }

  /** The generalised step behind IndentLines. */
  lemma {:induction false} IndentSplit(q: string, p: string, s: string)
    requires NoNewline(q) && NoNewline(p)
    ensures Split(q + ReplaceAll(s, "\n", "\n" + p), '\n')
         == [q + Split(s, '\n')[0]] + PrefixEach(p, Split(s, '\n')[1..])
    decreases |s|
  {
    if |s| == 0 {
      assert ReplaceAll(s, "\n", "\n" + p) == "";
      SplitNoSeparator(q, '\n');
      assert q + ReplaceAll(s, "\n", "\n" + p) == q;
      assert q + Split(s, '\n')[0] == q;
    } else if s[0] == '\n' {
      IndentSplit(p, p, s[1..]);
      IndentStepNewline(q, p, s);
    } else {
      assert NoNewline(q + [s[0]]);
      IndentSplit(q + [s[0]], p, s[1..]);
      IndentStepOther(q, p, s);
    }
  }

  /** Prefixing `p` and replacing every newline by a newline followed by `p`
      puts `p` in front of every line. */
  lemma IndentLines(p: string, s: string)
    requires NoNewline(p)
    ensures Split(p + ReplaceAll(s, "\n", "\n" + p), '\n') == PrefixEach(p, Split(s, '\n'))
  {
    IndentSplit(p, p, s);
  }

  // ---------------------------------------------------------------------
  // Decimal formatting (`"%d" % n` for n >= 0)

  function Digit(d: nat): char
    requires d < 10
  {
    "0123456789"[d]
  }

  function DigitValue(c: char): nat {
    if '0' <= c <= '9' then (c as int - '0' as int) as nat else 0
  }

  function DecStr(n: nat): (r: string)
    ensures |r| >= 1
    ensures forall k :: 0 <= k < |r| ==> '0' <= r[k] <= '9'
  {
    if n < 10 then [Digit(n)] else DecStr(n / 10) + [Digit(n % 10)]
  }

  lemma DigitValueOfDigit(d: nat)
    requires d < 10
    ensures DigitValue(Digit(d)) == d
  {
  }

  function DecValue(s: string): nat
    decreases |s|
  {
    if |s| == 0 then 0 else DecValue(s[..|s| - 1]) * 10 + DigitValue(s[|s| - 1])
  }

  lemma {:induction false} DecRoundTrip(n: nat)
    ensures DecValue(DecStr(n)) == n
    decreases n
  {
    if n < 10 {
      DigitValueOfDigit(n);
    } else {
      DecRoundTrip(n / 10);
      DigitValueOfDigit(n % 10);
      var s := DecStr(n);
      assert s == DecStr(n / 10) + [Digit(n % 10)];
      assert s[..|s| - 1] == DecStr(n / 10);
      assert DecValue(s) == (n / 10) * 10 + n % 10;
    }
  }

  /** Distinct numbers print differently. */
  lemma DecStrInjective(a: nat, b: nat)
    ensures DecStr(a) == DecStr(b) ==> a == b
  {
    DecRoundTrip(a);
    DecRoundTrip(b);
  }

  // ---------------------------------------------------------------------
  // Python's ordering of strings and `sorted`

  /** `a <= b` on Python strings: lexicographic by code point. */
  predicate LexLe(a: string, b: string)
    decreases |a|
  {
    |a| == 0 || (|b| > 0 && (a[0] < b[0] || (a[0] == b[0] && LexLe(a[1..], b[1..]))))
  }

  lemma {:induction false} LexLeTotal(a: string, b: string)
    ensures LexLe(a, b) || LexLe(b, a)
    decreases |a|
  {
    if |a| > 0 && |b| > 0 && a[0] == b[0] {
      LexLeTotal(a[1..], b[1..]);
    }
  }

  lemma {:induction false} LexLeTrans(a: string, b: string, c: string)
    requires LexLe(a, b) && LexLe(b, c)
    ensures LexLe(a, c)
    decreases |a|
  {
    if |a| > 0 && a[0] == b[0] && b[0] == c[0] {
      LexLeTrans(a[1..], b[1..], c[1..]);
    }
  }

  predicate Sorted(s: seq<string>) {
    forall i, j :: 0 <= i < j < |s| ==> LexLe(s[i], s[j])
  }

  lemma SortedFront(x: string, s: seq<string>)
    requires Sorted(s) && |s| > 0 && LexLe(x, s[0])
    ensures Sorted([x] + s)
  {
    forall j | 1 < j < |s| + 1 ensures LexLe(x, ([x] + s)[j]) {
      LexLeTrans(x, s[0], s[j - 1]);
    }
  }

  lemma SortedCons(h: string, tail: seq<string>)
    requires Sorted(tail)
    requires forall y :: y in multiset(tail) ==> LexLe(h, y)
    ensures Sorted([h] + tail)
  {
    forall k | 0 <= k < |tail| ensures LexLe(h, tail[k]) {
      assert tail[k] in multiset(tail);
    }
  }

  function Insert(x: string, s: seq<string>): (r: seq<string>)
    requires Sorted(s)
    ensures Sorted(r) && multiset(r) == multiset(s) + multiset{x}
    decreases |s|
  {
    if |s| == 0 then [x]
    else if LexLe(x, s[0]) then
      SortedFront(x, s);
      [x] + s
    else
      var tail := Insert(x, s[1..]);
      LexLeTotal(x, s[0]);
      assert s == [s[0]] + s[1..];
      assert forall y :: y in multiset(tail) ==> LexLe(s[0], y) by {
        forall y | y in multiset(tail) ensures LexLe(s[0], y) {
          if y != x {
            assert y in multiset(s[1..]);
            assert y in s[1..];
          }
        }
      }
      SortedCons(s[0], tail);
      [s[0]] + tail
  }

  /** `sorted(xs)`: an ascending permutation of `xs`. */
  function Sort(xs: seq<string>): (r: seq<string>)
    ensures Sorted(r) && multiset(r) == multiset(xs)
    decreases |xs|
  {
    if |xs| == 0 then []
    else
      assert xs == [xs[0]] + xs[1..];
      Insert(xs[0], Sort(xs[1..]))
  }
}
