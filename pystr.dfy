/**
 * The Python string and path operations the ingestion code relies on, written out with
 * their exact semantics: str.splitlines, str.split, str.join, str.strip, str.replace,
 * str.startswith / str.endswith, str.upper on ASCII letters, str(int), and
 * posixpath.basename / dirname / join.
 */
module PyStr {
  import opened Wrappers

  // ---------------------------------------------------------------- prefixes and suffixes

  predicate StartsWith(s: string, prefix: string) {
    |prefix| <= |s| && s[..|prefix|] == prefix
  }

  predicate EndsWith(s: string, suffix: string) {
    |suffix| <= |s| && s[|s| - |suffix|..] == suffix
  }

  /** str.endswith with a tuple of suffixes. */
  predicate EndsWithAny(s: string, suffixes: seq<string>) {
    exists i :: 0 <= i < |suffixes| && EndsWith(s, suffixes[i])
  }

  lemma EndsWithAppend(a: string, b: string, suffix: string)
    requires EndsWith(b, suffix)
    ensures EndsWith(a + b, suffix)
  {
    assert (a + b)[|a + b| - |suffix|..] == b[|b| - |suffix|..];
  }

  lemma EndsWithAnyAppend(a: string, b: string, suffixes: seq<string>)
    requires EndsWithAny(b, suffixes)
    ensures EndsWithAny(a + b, suffixes)
  {
    var i :| 0 <= i < |suffixes| && EndsWith(b, suffixes[i]);
    EndsWithAppend(a, b, suffixes[i]);
  }

  // ---------------------------------------------------------------- str.splitlines()

  /** The characters str.splitlines() treats as line boundaries. */
  predicate IsLineBoundary(c: char) {
    c == '\n' || c == '\r' || c == '\U{000B}' || c == '\U{000C}' || c == '\U{001C}' || c == '\U{001D}'
    || c == '\U{001E}' || c == '\U{0085}' || c == '\U{2028}' || c == '\U{2029}'
  }

  predicate NoLineBoundary(s: string) {
    forall i :: 0 <= i < |s| ==> !IsLineBoundary(s[i])
  }

  /** The index of the first line boundary of `s`, or |s| when there is none. */
  function LineEnd(s: string): (j: nat)
    ensures j <= |s|
    ensures NoLineBoundary(s[..j])
    ensures j < |s| ==> IsLineBoundary(s[j])
    decreases |s|
  {
    if s == [] then 0
    else if IsLineBoundary(s[0]) then 0
    else
      var j := LineEnd(s[1..]);
      assert s[..j + 1] == [s[0]] + s[1..][..j];
      j + 1
  }

  /** str.splitlines(): "\r\n" is one boundary, and no empty line follows a final boundary. */
  function SplitLines(s: string): (r: seq<string>)
    ensures r == [] <==> s == []
    ensures |r| <= |s|
    decreases |s|
  {
    if s == [] then []
    else
      var j := LineEnd(s);
      if j == |s| then [s]
      else
        var k := if s[j] == '\r' && j + 1 < |s| && s[j + 1] == '\n' then j + 2 else j + 1;
        [s[..j]] + SplitLines(s[k..])
  }

  /** The text of a file written one line at a time, each line followed by "\n". */
  function Unlines(lines: seq<string>): string {
    if lines == [] then "" else lines[0] + "\n" + Unlines(lines[1..])
  }

  lemma {:induction false} SplitLinesHaveNoBoundary(s: string)
    ensures forall i :: 0 <= i < |SplitLines(s)| ==> NoLineBoundary(SplitLines(s)[i])
    decreases |s|
  {
    if s != [] {
      var j := LineEnd(s);
      if j < |s| {
        var k := if s[j] == '\r' && j + 1 < |s| && s[j + 1] == '\n' then j + 2 else j + 1;
        SplitLinesHaveNoBoundary(s[k..]);
      }
    }
  }

  /** Reading back a file written line by line gives the lines, blank ones included. */
  lemma {:induction false} SplitLinesUnlines(lines: seq<string>)
    requires forall i :: 0 <= i < |lines| ==> NoLineBoundary(lines[i])
    ensures SplitLines(Unlines(lines)) == lines
  {
    if lines != [] {
      var s := Unlines(lines);
      var l := lines[0];
      assert s == l + ("\n" + Unlines(lines[1..]));
      assert s[|l|] == '\n';
      assert NoLineBoundary(s[..|l|]) by { assert s[..|l|] == l; }
      LineEndIs(s, |l|);
      assert s[..|l|] == l;
      assert s[|l| + 1..] == Unlines(lines[1..]);
      SplitLinesUnlines(lines[1..]);
    }
  }

  lemma {:induction false} LineEndIs(s: string, j: nat)
    requires j < |s| && NoLineBoundary(s[..j]) && IsLineBoundary(s[j])
    ensures LineEnd(s) == j
    decreases j
  {
    if j > 0 {
      assert s[..j][0] == s[0];
      assert s[1..][..j - 1] == s[..j][1..];
      LineEndIs(s[1..], j - 1);
    }
  }

  // ---------------------------------------------------------------- str.split(sep) and sep.join

  /** str.split(sep) for a one-character separator: every field, empty ones included. */
  function Split(s: string, sep: char): (fields: seq<string>)
    ensures |fields| >= 1
    decreases |s|
  {
    if s == [] then [[]]
    else
      var rest := Split(s[1..], sep);
      if s[0] == sep then [[]] + rest else [[s[0]] + rest[0]] + rest[1..]
  }

  /** sep.join(fields). */
  function Join(fields: seq<string>, sep: char): string
    requires |fields| >= 1
  {
    if |fields| == 1 then fields[0] else fields[0] + [sep] + Join(fields[1..], sep)
  }

  lemma {:induction false} JoinSplit(s: string, sep: char)
    ensures Join(Split(s, sep), sep) == s
    decreases |s|
  {
    if s != [] {
      var rest := Split(s[1..], sep);
      JoinSplit(s[1..], sep);
      if s[0] != sep {
        var fs := [[s[0]] + rest[0]] + rest[1..];
        if |rest| == 1 {
          assert Join(fs, sep) == [s[0]] + rest[0];
        } else {
          assert fs[1..] == rest[1..];
          assert Join(rest, sep) == rest[0] + [sep] + Join(rest[1..], sep);
        }
      }
    }
  }

  lemma {:induction false} SplitFieldsHaveNoSeparator(s: string, sep: char)
    ensures forall i :: 0 <= i < |Split(s, sep)| ==> sep !in Split(s, sep)[i]
    decreases |s|
  {
    if s != [] {
      SplitFieldsHaveNoSeparator(s[1..], sep);
    }
  }

  /** Splitting a separator-joined list of separator-free fields gives the fields back. */
  lemma {:induction false} SplitJoin(fields: seq<string>, sep: char)
    requires |fields| >= 1
    requires forall i :: 0 <= i < |fields| ==> sep !in fields[i]
    ensures Split(Join(fields, sep), sep) == fields
    decreases |fields|, |fields[0]|
  {
    var f := fields[0];
    if f == [] {
      if |fields| > 1 {
        var s := Join(fields, sep);
        assert s == [sep] + Join(fields[1..], sep);
        assert s[1..] == Join(fields[1..], sep);
        SplitJoin(fields[1..], sep);
        assert fields == [[]] + fields[1..];
      }
    } else {
      var fields' := [f[1..]] + fields[1..];
      var s := Join(fields, sep);
      assert s == [f[0]] + Join(fields', sep) by {
        if |fields| == 1 {
        } else {
          assert fields'[1..] == fields[1..];
          assert f == [f[0]] + f[1..];
        }
      }
      assert s[1..] == Join(fields', sep);
      assert f[0] in f;
      assert s != [] && s[0] == f[0] && s[0] != sep;
      SplitJoin(fields', sep);
      assert Split(s, sep) == [[f[0]] + fields'[0]] + fields'[1..];
      assert fields'[1..] == fields[1..];
      assert [f[0]] + f[1..] == f;
      assert fields == [f] + fields[1..];
    }
  }

  /** The prefix of `s` before the first `c`: all of `s` when it holds no `c`. */
  function TakeUntil(s: string, c: char): (r: string)
    ensures |r| <= |s|
    ensures c !in r
    ensures r == s[..|r|]
    ensures |r| < |s| ==> s[|r|] == c
    decreases |s|
  {
    if s == [] || s[0] == c then []
    else
      var r := TakeUntil(s[1..], c);
      assert ([s[0]] + r)[1..] == r;
      [s[0]] + r
  }

  lemma {:induction false} SplitHead(s: string, sep: char)
    ensures Split(s, sep)[0] == TakeUntil(s, sep)
    ensures sep in s ==> |Split(s, sep)| >= 2
    ensures sep !in s ==> Split(s, sep) == [s]
    decreases |s|
  {
    if s != [] {
      SplitHead(s[1..], sep);
      assert s == [s[0]] + s[1..];
    }
  }

  /** `s.split(sep)[1]`: None where Python raises IndexError (no separator at all). */
  function SecondField(s: string, sep: char): Option<string> {
    var fields := Split(s, sep);
    if |fields| >= 2 then Some(fields[1]) else None
  }

  /**
   * The second field is the text between the first and the second separator (or the end),
   * and it exists exactly when the separator occurs.
   */
  lemma {:induction false} SecondFieldBetweenSeparators(a: string, b: string, sep: char)
    requires sep !in a
    ensures SecondField(a + [sep] + b, sep) == Some(TakeUntil(b, sep))
    decreases |a|
  {
    var s := a + [sep] + b;
    if a == [] {
      assert s == [sep] + b;
      assert s[1..] == b;
      SplitHead(b, sep);
    } else {
      assert s[1..] == a[1..] + [sep] + b;
      SecondFieldBetweenSeparators(a[1..], b, sep);
      var rest := Split(s[1..], sep);
      assert |rest| >= 2;
    }
  }

  lemma SecondFieldAbsent(s: string, sep: char)
    requires sep !in s
    ensures SecondField(s, sep) == None
  {
    SplitHead(s, sep);
  }

  // ---------------------------------------------------------------- ' '.join

  /** ' '.join(texts). */
  function JoinSpace(texts: seq<string>): string {
    if texts == [] then "" else Join(texts, ' ')
  }

  function TotalLength(texts: seq<string>): nat {
    if texts == [] then 0 else |texts[0]| + TotalLength(texts[1..])
  }

  /** The joined text holds every entry and exactly one space between neighbours. */
  lemma {:induction false} JoinSpaceLength(texts: seq<string>)
    requires texts != []
    ensures |JoinSpace(texts)| == TotalLength(texts) + |texts| - 1
  {
    if |texts| > 1 {
      JoinSpaceLength(texts[1..]);
    }
  }

  /** The joined caption text is empty (falsy) exactly for no entries or one empty entry. */
  lemma JoinSpaceEmpty(texts: seq<string>)
    ensures JoinSpace(texts) == "" <==> texts == [] || texts == [""]
  {
    if texts != [] {
      JoinSpaceLength(texts);
      if |texts| == 1 {
        assert TotalLength(texts) == |texts[0]|;
      }
    }
  }

  // ---------------------------------------------------------------- str.strip()

  /** str.isspace() for one character: Python's whitespace set. */
  predicate IsSpace(c: char) {
    ('\U{0009}' <= c <= '\U{000D}') || ('\U{001C}' <= c <= '\U{0020}') || c == '\U{0085}'
    || c == '\U{00A0}' || c == '\U{1680}' || ('\U{2000}' <= c <= '\U{200A}') || c == '\U{2028}'
    || c == '\U{2029}' || c == '\U{202F}' || c == '\U{205F}' || c == '\U{3000}'
  }

  predicate AllSpace(s: string) {
    forall i :: 0 <= i < |s| ==> IsSpace(s[i])
  }

  /** The number of whitespace characters str.lstrip() removes. */
  function LeadingSpace(s: string): (n: nat)
    ensures n <= |s| && AllSpace(s[..n])
    ensures n < |s| ==> !IsSpace(s[n])
    decreases |s|
  {
    if s != [] && IsSpace(s[0]) then
      var n := LeadingSpace(s[1..]);
      assert s[..n + 1] == [s[0]] + s[1..][..n];
      n + 1
    else 0
  }

  /** The length str.rstrip() keeps. */
  function TrailingStart(s: string): (n: nat)
    ensures n <= |s| && AllSpace(s[n..])
    ensures n > 0 ==> !IsSpace(s[n - 1])
    decreases |s|
  {
    if s != [] && IsSpace(s[|s| - 1]) then
      var n := TrailingStart(s[..|s| - 1]);
      assert s[n..] == s[..|s| - 1][n..] + [s[|s| - 1]];
      n
    else |s|
  }

  /** str.strip(). */
  function Strip(s: string): (r: string)
    ensures |r| <= |s|
    ensures r == [] || (!IsSpace(r[0]) && !IsSpace(r[|r| - 1]))
  {
    var l := s[LeadingSpace(s)..];
    l[..TrailingStart(l)]
  }

  /**
   * Strip removes whitespace from both ends and nothing else: what is left is a slice of
   * the input framed by whitespace only, and it neither starts nor ends with whitespace.
   */
  lemma StripIsTrimmedSlice(s: string)
    ensures var r := Strip(s);
      exists i :: 0 <= i <= |s| - |r| && r == s[i..i + |r|]
        && AllSpace(s[..i]) && AllSpace(s[i + |r|..])
        && (r == [] || (!IsSpace(r[0]) && !IsSpace(r[|r| - 1])))
  {
    var i := LeadingSpace(s);
    var l := s[i..];
    var j := TrailingStart(l);
    var r := l[..j];
    assert r == Strip(s);
    assert r == s[i..i + j];
    assert s[i + j..] == l[j..];
    if i == 0 {
      assert s[..0] == [];
    }
    assert AllSpace(s[..i]) && AllSpace(s[i + |r|..]);
  }

  // ---------------------------------------------------------------- str.replace(old, new)

  /** No occurrence of `pat` starts at any index of `s`. */
  predicate NoOccurrence(s: string, pat: string) {
    forall i: nat :: i <= |s| ==> !OccursAt(s, pat, i)
  }

  /** An occurrence of `pat` starts at index `i` of `s`. */
  predicate OccursAt(s: string, pat: string, i: nat) {
    i + |pat| <= |s| && s[i..i + |pat|] == pat
  }

  /** str.replace(pat, rep): every non-overlapping occurrence, scanning left to right. */
  function ReplaceAll(s: string, pat: string, rep: string): (r: string)
    requires |pat| > 0
    ensures rep == [] ==> |r| <= |s| && forall c :: c in r ==> c in s
    decreases |s|
  {
    if |s| < |pat| then s
    else if s[..|pat|] == pat then rep + ReplaceAll(s[|pat|..], pat, rep)
    else [s[0]] + ReplaceAll(s[1..], pat, rep)
  }

  lemma {:induction false} ReplaceAllWithout(s: string, pat: string, rep: string)
    requires |pat| > 0 && NoOccurrence(s, pat)
    ensures ReplaceAll(s, pat, rep) == s
    decreases |s|
  {
    if |s| >= |pat| {
      assert !OccursAt(s, pat, 0);
      assert NoOccurrence(s[1..], pat) by {
        forall i: nat ensures !OccursAt(s[1..], pat, i) {
          if i + |pat| <= |s[1..]| {
            assert s[1..][i..i + |pat|] == s[i + 1..i + 1 + |pat|];
            assert !OccursAt(s, pat, i + 1);
          }
        }
      }
      ReplaceAllWithout(s[1..], pat, rep);
    }
  }

  /** Removing `pat` from `t + pat` leaves `t` when no occurrence starts inside `t`. */
  lemma {:induction false} RemoveTrailing(t: string, pat: string)
    requires |pat| > 0
    requires forall i: nat :: i < |t| ==> !OccursAt(t + pat, pat, i)
    ensures ReplaceAll(t + pat, pat, "") == t
    decreases |t|
  {
    var s := t + pat;
    if t == [] {
      assert s == pat;
      assert s[..|pat|] == pat;
      assert s[|pat|..] == [];
    } else {
      assert !OccursAt(s, pat, 0);
      assert s[1..] == t[1..] + pat;
      forall i: nat | i < |t[1..]| ensures !OccursAt(t[1..] + pat, pat, i) {
        assert (t[1..] + pat)[i..i + |pat|] == s[i + 1..i + 1 + |pat|];
        assert !OccursAt(s, pat, i + 1);
      }
      RemoveTrailing(t[1..], pat);
    }
  }

  /** Appending characters that do not occur in `pat` creates no occurrence of it. */
  lemma NoOccurrenceExtend(t: string, suffix: string, pat: string)
    requires |pat| > 0 && NoOccurrence(t, pat)
    requires forall i :: 0 <= i < |suffix| ==> suffix[i] !in pat
    ensures NoOccurrence(t + suffix, pat)
  {
    var s := t + suffix;
    forall i: nat | i <= |s| ensures !OccursAt(s, pat, i) {
      if i + |pat| <= |t| {
        assert s[i..i + |pat|] == t[i..i + |pat|];
        assert !OccursAt(t, pat, i);
      } else if i + |pat| <= |s| {
        var j := if i >= |t| then i else |t|;
        assert s[i..i + |pat|][j - i] == s[j] == suffix[j - |t|];
        assert pat[j - i] in pat;
      }
    }
  }

  /** An occurrence of `pat` starts with its first character, so none starts inside a `t` without it. */
  lemma NoEarlyOccurrence(t: string, pat: string)
    requires |pat| > 0 && pat[0] !in t
    ensures forall i: nat :: i < |t| ==> !OccursAt(t + pat, pat, i)
  {
    forall i: nat | i < |t| ensures !OccursAt(t + pat, pat, i) {
      assert (t + pat)[i] == t[i] != pat[0];
      if i + |pat| <= |t + pat| {
        assert (t + pat)[i..i + |pat|][0] == t[i];
      }
    }
  }

  lemma ReplaceAllLeading(t: string, pat: string, rep: string)
    requires |pat| > 0
    ensures ReplaceAll(pat + t, pat, rep) == rep + ReplaceAll(t, pat, rep)
  {
    assert (pat + t)[..|pat|] == pat;
    assert (pat + t)[|pat|..] == t;
  }

  // ---------------------------------------------------------------- posixpath

  /** The index just past the last '/' of `p` (0 when it has none). */
  function AfterLastSlash(p: string): (i: nat)
    ensures i <= |p|
    ensures i > 0 ==> p[i - 1] == '/'
    ensures '/' !in p[i..]
    decreases |p|
  {
    if p == [] then 0
    else if p[|p| - 1] == '/' then |p|
    else
      var i := AfterLastSlash(p[..|p| - 1]);
      assert p[i..] == p[..|p| - 1][i..] + [p[|p| - 1]];
      i
  }

  /** posixpath.basename. */
  function Basename(p: string): (r: string)
    ensures '/' !in r
    ensures |r| <= |p| && r == p[|p| - |r|..]
  {
    p[AfterLastSlash(p)..]
  }

  function RStripSlashes(h: string): (r: string)
    ensures |r| <= |h| && r == h[..|r|]
    decreases |h|
  {
    if h != [] && h[|h| - 1] == '/' then RStripSlashes(h[..|h| - 1]) else h
  }

  predicate AllSlashes(h: string) {
    forall i :: 0 <= i < |h| ==> h[i] == '/'
  }

  /** posixpath.dirname: trailing slashes are dropped unless the head is only slashes. */
  function Dirname(p: string): (r: string)
    ensures |r| <= |p| && r == p[..|r|]
  {
    var head := p[..AfterLastSlash(p)];
    if head != [] && !AllSlashes(head) then
      var r := RStripSlashes(head);
      assert head[..|r|] == p[..|r|];
      r
    else head
  }

  /** posixpath.join(a, b) for two components. */
  function PathJoin(a: string, b: string): string {
    if StartsWith(b, "/") then b
    else if a == [] || a[|a| - 1] == '/' then a + b
    else a + "/" + b
  }

  /** The joined path ends with `b`, and starts with `a` unless `b` is absolute. */
  lemma PathJoinParts(a: string, b: string)
    ensures var r := PathJoin(a, b);
            |b| <= |r| && r[|r| - |b|..] == b
            && (!StartsWith(b, "/") ==> |a| <= |r| && r[..|a|] == a)
  {
  }

  lemma BasenameAfterSlash(d: string, b: string)
    requires d == [] || d[|d| - 1] == '/'
    requires '/' !in b
    ensures Basename(d + b) == b
    ensures AfterLastSlash(d + b) == |d|
    decreases |b|
  {
    if b == [] {
      assert d + b == d;
    } else {
      assert (d + b)[..|d + b| - 1] == d + b[..|b| - 1];
      assert b[|b| - 1] in b;
      BasenameAfterSlash(d, b[..|b| - 1]);
    }
  }

  /** The base name of a joined path is the joined file name. */
  lemma BasenameOfJoin(root: string, name: string)
    requires '/' !in name
    ensures Basename(PathJoin(root, name)) == name
  {
    if name != [] {
      assert name[0] in name;
    }
    if root == [] || root[|root| - 1] == '/' {
      BasenameAfterSlash(root, name);
    } else {
      BasenameAfterSlash(root + "/", name);
      assert root + "/" + name == (root + "/") + name;
    }
  }

  /** The directory of `root/name` is `root` when `root` is non-empty and has no trailing slash. */
  lemma DirnameOfJoin(root: string, name: string)
    requires '/' !in name
    requires root != [] && root[|root| - 1] != '/'
    ensures PathJoin(root, name) == root + "/" + name
    ensures Dirname(PathJoin(root, name)) == root
  {
    if name != [] {
      assert name[0] in name;
    }
    var p := root + "/" + name;
    BasenameAfterSlash(root + "/", name);
    assert p[..AfterLastSlash(p)] == root + "/";
    assert !AllSlashes(root + "/") by {
      assert (root + "/")[|root| - 1] != '/';
    }
    assert (root + "/")[..|root|] == root;
    assert RStripSlashes(root) == root;
    assert RStripSlashes(root + "/") == root;
  }

  // ---------------------------------------------------------------- str(int)

  function DigitChar(d: nat): (c: char)
    requires d < 10
    ensures '0' <= c <= '9'
  {
    ('0' as int + d) as char
  }

  function DigitValue(c: char): (d: nat)
    requires '0' <= c <= '9'
    ensures d < 10
  {
    (c as int - '0' as int)
  }

  predicate IsDigits(s: string) {
    s != [] && forall i :: 0 <= i < |s| ==> '0' <= s[i] <= '9'
  }

  /** The decimal digits of a natural number, without leading zeros. */
  function NatToDecimal(n: nat): string
    decreases n
  {
    if n < 10 then [DigitChar(n)] else NatToDecimal(n / 10) + [DigitChar(n % 10)]
  }

  /** str(n) for a Python int. */
  function IntToDecimal(n: int): string {
    if n < 0 then "-" + NatToDecimal(-n) else NatToDecimal(n)
  }

  function DecimalValue(s: string): nat
    requires IsDigits(s)
    decreases |s|
  {
    if |s| == 1 then DigitValue(s[0])
    else DecimalValue(s[..|s| - 1]) * 10 + DigitValue(s[|s| - 1])
  }

  /** int(s) for an optional minus sign followed by decimal digits. */
  function ParseInt(s: string): Option<int> {
    if IsDigits(s) then Some(DecimalValue(s))
    else if |s| >= 2 && s[0] == '-' && IsDigits(s[1..]) then Some(0 - DecimalValue(s[1..]))
    else None
  }

  lemma {:induction false} NatToDecimalDigits(n: nat)
    ensures IsDigits(NatToDecimal(n))
    ensures DecimalValue(NatToDecimal(n)) == n
    decreases n
  {
    if n >= 10 {
      NatToDecimalDigits(n / 10);
      var s := NatToDecimal(n);
      assert s[..|s| - 1] == NatToDecimal(n / 10);
    }
  }

  /** str and int are inverse: a formatted integer parses back to itself. */
  lemma IntToDecimalRoundTrip(n: int)
    ensures ParseInt(IntToDecimal(n)) == Some(n)
  {
    if n < 0 {
      NatToDecimalDigits(-n);
      ParseNegative(NatToDecimal(-n));
    } else {
      NatToDecimalDigits(n);
    }
  }

  /** A minus sign before a run of digits parses to the negated value. */
  lemma ParseNegative(t: string)
    requires IsDigits(t)
    ensures ParseInt("-" + t) == Some(0 - DecimalValue(t))
  {
    var s := "-" + t;
    assert s[1..] == t;
    assert !IsDigits(s) by { assert s[0] == '-'; }
  }

  /** Distinct integers are formatted differently. */
  lemma IntToDecimalInjective(m: int, n: int)
    requires IntToDecimal(m) == IntToDecimal(n)
    ensures m == n
  {
    IntToDecimalRoundTrip(m);
    IntToDecimalRoundTrip(n);
  }

  // ---------------------------------------------------------------- str.upper()

  function UpperChar(c: char): char {
    if 'a' <= c <= 'z' then (c as int - 32) as char else c
  }

  /** str.upper() restricted to ASCII letters. */
  function UpperAscii(s: string): (r: string)
    ensures |r| == |s|
    ensures forall i :: 0 <= i < |s| && 'a' <= s[i] <= 'z' ==> r[i] as int == s[i] as int - 32 && 'A' <= r[i] <= 'Z'
    ensures forall i :: 0 <= i < |s| && !('a' <= s[i] <= 'z') ==> r[i] == s[i]
  {
    seq(|s|, i requires 0 <= i < |s| => UpperChar(s[i]))
  }

  /** Upper-casing a string with no ASCII lower-case letter leaves it as it is. */
  lemma UpperAsciiKeepsCapitals(s: string)
    requires forall i :: 0 <= i < |s| ==> !('a' <= s[i] <= 'z')
    ensures UpperAscii(s) == s
  {
    assert forall i :: 0 <= i < |s| ==> UpperAscii(s)[i] == s[i];
  }

  /** Upper-casing twice is upper-casing once. */
  lemma UpperAsciiIdempotent(s: string)
    ensures UpperAscii(UpperAscii(s)) == UpperAscii(s)
  {
    var r := UpperAscii(s);
    assert forall i :: 0 <= i < |r| ==> !('a' <= r[i] <= 'z');
    UpperAsciiKeepsCapitals(r);
  }
}
