/**
 * Dedup keys. A YouTube video is keyed by the text between the first and second '=' of its
 * URL, cross-checked against the first match of the regular expression `v=([^&]+)`; a local
 * file by the first 11 hex digits of the SHA-256 of its bytes; an M3U8 stream by the first 11
 * hex digits of the SHA-256 of its URL encoded as UTF-8. SHA-256 itself is an oracle.
 */
module Identity {
  import opened Wrappers
  import opened PyStr

  newtype byte = x: int | 0 <= x < 256

  predicate IsHexDigit(c: char) {
    ('0' <= c <= '9') || ('a' <= c <= 'f')
  }

  /** hashlib.sha256(...).hexdigest(): 64 lower-case hexadecimal digits. */
  type HexDigest = s: string | |s| == 64 && forall i :: 0 <= i < |s| ==> IsHexDigit(s[i])
    witness seq(64, _ => '0')

  /** The SHA-256 function, supplied by the environment. */
  type Sha256 = seq<byte> -> HexDigest

  /** Every content key is this many characters long. */
  const IdLength: nat := 11

  /** `hexdigest()[:11]`. */
  function HexPrefix(d: HexDigest): (id: string)
    ensures |id| == IdLength
    ensures forall i :: 0 <= i < |id| ==> IsHexDigit(id[i]) && id[i] == d[i]
  {
    d[..IdLength]
  }

  /** The key of a local file: it depends on the file's bytes only, never on its path. */
  function LocalVideoId(sha256: Sha256, contents: seq<byte>): (id: string)
    ensures |id| == IdLength && '=' !in id && '&' !in id
  {
    HexPrefix(sha256(contents))
  }

  /** The key of an M3U8 stream: a function of the URL string alone. */
  function StreamVideoId(sha256: Sha256, url: string): (id: string)
    ensures |id| == IdLength && '=' !in id && '&' !in id
  {
    HexPrefix(sha256(Utf8(url)))
  }

  // ---------------------------------------------------------------- str.encode() (UTF-8)

  function CharUtf8(c: char): (bs: seq<byte>)
    ensures 1 <= |bs| <= 4
  {
    var cp := c as int;
    if cp < 0x80 then [cp as byte]
    else if cp < 0x800 then [(0xC0 + cp / 64) as byte, (0x80 + cp % 64) as byte]
    else if cp < 0x10000 then
      [(0xE0 + cp / 4096) as byte, (0x80 + (cp / 64) % 64) as byte, (0x80 + cp % 64) as byte]
    else
      [(0xF0 + cp / 262144) as byte, (0x80 + (cp / 4096) % 64) as byte,
       (0x80 + (cp / 64) % 64) as byte, (0x80 + cp % 64) as byte]
  }

  /** The UTF-8 encoding of a string (Python's default `str.encode()`). */
  function Utf8(s: string): seq<byte> {
    if s == [] then [] else CharUtf8(s[0]) + Utf8(s[1..])
  }

  predicate IsScalar(cp: int) {
    (0 <= cp < 0xD800) || (0xE000 <= cp < 0x110000)
  }

  function Cont(b: byte): int {
    b as int - 0x80
  }

  /** The number of bytes of the sequence that starts with lead byte `b`. */
  function SeqLength(b: byte): nat {
    if b < 0x80 then 1 else if b < 0xE0 then 2 else if b < 0xF0 then 3 else 4
  }

  /** The code point of one byte sequence, read without validation. */
  function CodePoint(bs: seq<byte>): int
    requires |bs| >= 1 && |bs| >= SeqLength(bs[0])
  {
    var b := bs[0];
    if b < 0x80 then b as int
    else if b < 0xE0 then (b as int - 0xC0) * 64 + Cont(bs[1])
    else if b < 0xF0 then (b as int - 0xE0) * 4096 + Cont(bs[1]) * 64 + Cont(bs[2])
    else (b as int - 0xF0) * 262144 + Cont(bs[1]) * 4096 + Cont(bs[2]) * 64 + Cont(bs[3])
  }

  /** A decoder for what Utf8 produces; it is the left inverse that shows Utf8 injective. */
  function DecodeUtf8(bs: seq<byte>): Option<string>
    decreases |bs|
  {
    if bs == [] then Some([])
    else if |bs| < SeqLength(bs[0]) then None
    else
      var cp := CodePoint(bs);
      if !IsScalar(cp) then None
      else match DecodeUtf8(bs[SeqLength(bs[0])..])
        case None => None
        case Some(rest) => Some([cp as char] + rest)
  }

  lemma CharUtf8Decodes(c: char, rest: seq<byte>)
    ensures var bs := CharUtf8(c) + rest;
      |CharUtf8(c)| == SeqLength(bs[0]) && CodePoint(bs) == c as int
  {
    var cp := c as int;
    if cp < 0x80 {
    } else if cp < 0x800 {
      TwoByteDecodes(c, rest);
    } else if cp < 0x10000 {
      ThreeByteDecodes(c, rest);
    } else {
      FourByteDecodes(c, rest);
    }
  }

  /** Base-64 digits of a code point: each quotient is the next one's quotient and remainder put together. */
  lemma Base64Digits(cp: nat)
    ensures (cp / 64) * 64 + cp % 64 == cp
    ensures (cp / 4096) * 64 + (cp / 64) % 64 == cp / 64
    ensures (cp / 262144) * 64 + (cp / 4096) % 64 == cp / 4096
  {
    var q1 := cp / 64;
    var q2 := q1 / 64;
    assert cp / 4096 == q2;
    assert cp / 262144 == q2 / 64;
  }

  lemma TwoByteDecodes(c: char, rest: seq<byte>)
    requires 0x80 <= c as int < 0x800
    ensures var bs := CharUtf8(c) + rest;
      |CharUtf8(c)| == SeqLength(bs[0]) && CodePoint(bs) == c as int
  {
    var cp := c as int;
    var bs := CharUtf8(c) + rest;
    Base64Digits(cp);
    assert bs[0] as int == 0xC0 + cp / 64 && bs[1] as int == 0x80 + cp % 64;
  }

  lemma ThreeByteDecodes(c: char, rest: seq<byte>)
    requires 0x800 <= c as int < 0x10000
    ensures var bs := CharUtf8(c) + rest;
      |CharUtf8(c)| == SeqLength(bs[0]) && CodePoint(bs) == c as int
  {
    var cp := c as int;
    var bs := CharUtf8(c) + rest;
    Base64Digits(cp);
    assert bs[0] as int == 0xE0 + cp / 4096;
    assert bs[1] as int == 0x80 + (cp / 64) % 64 && bs[2] as int == 0x80 + cp % 64;
  }

  lemma FourByteDecodes(c: char, rest: seq<byte>)
    requires 0x10000 <= c as int
    ensures var bs := CharUtf8(c) + rest;
      |CharUtf8(c)| == SeqLength(bs[0]) && CodePoint(bs) == c as int
  {
    var cp := c as int;
    var bs := CharUtf8(c) + rest;
    Base64Digits(cp);
    assert bs[0] as int == 0xF0 + cp / 262144;
    assert bs[1] as int == 0x80 + (cp / 4096) % 64;
    assert bs[2] as int == 0x80 + (cp / 64) % 64 && bs[3] as int == 0x80 + cp % 64;
  }

  lemma {:induction false} Utf8RoundTrip(s: string)
    ensures DecodeUtf8(Utf8(s)) == Some(s)
  {
    if s != [] {
      var bs := Utf8(s);
      CharUtf8Decodes(s[0], Utf8(s[1..]));
      assert bs[|CharUtf8(s[0])|..] == Utf8(s[1..]);
      Utf8RoundTrip(s[1..]);
      assert s == [s[0]] + s[1..];
    }
  }

  /** Distinct URLs are hashed from distinct byte strings. */
  lemma Utf8Injective(s: string, t: string)
    requires Utf8(s) == Utf8(t)
    ensures s == t
  {
    Utf8RoundTrip(s);
    Utf8RoundTrip(t);
  }

  // ---------------------------------------------------------------- YouTube keys

  /** `url.split('=')[1]`; None where Python raises IndexError. */
  function SplitVideoId(url: string): (r: Option<string>)
    ensures r.Some? <==> '=' in url
    ensures r.Some? ==> '=' !in r.value
  {
    SplitHead(url, '=');
    SplitFieldsHaveNoSeparator(url, '=');
    SecondField(url, '=')
  }

  /** The pattern `v=([^&]+)` matches at index i of `url`. */
  predicate MatchesAt(url: string, i: nat) {
    i + 2 < |url| && url[i] == 'v' && url[i + 1] == '=' && url[i + 2] != '&'
  }

  /** The first match of `v=([^&]+)` at or after index i; the group is the longest '&'-free run. */
  function RegexFrom(url: string, i: nat): Option<string>
    decreases |url| - i
  {
    if i + 2 >= |url| then None
    else if MatchesAt(url, i) then Some(TakeUntil(url[i + 2..], '&'))
    else RegexFrom(url, i + 1)
  }

  /** `re.search(r'v=([^&]+)', url).group(1)`; None where the search finds nothing. */
  function RegexVideoId(url: string): (r: Option<string>)
    ensures r.Some? ==> r.value != [] && '&' !in r.value
  {
    var m := RegexFrom(url, 0);
    if m.Some? then RegexFromSome(url, 0, m.value); m else m
  }

  lemma {:induction false} RegexFromNone(url: string, i: nat)
    ensures RegexFrom(url, i) == None <==> forall j: nat :: i <= j ==> !MatchesAt(url, j)
    decreases |url| - i
  {
    if i + 2 < |url| && !MatchesAt(url, i) {
      RegexFromNone(url, i + 1);
    }
  }

  lemma {:induction false} RegexFromLeftmost(url: string, i: nat, k: nat)
    requires i <= k && MatchesAt(url, k)
    requires forall j: nat :: i <= j < k ==> !MatchesAt(url, j)
    ensures RegexFrom(url, i) == Some(TakeUntil(url[k + 2..], '&'))
    decreases k - i
  {
    if i < k {
      RegexFromLeftmost(url, i + 1, k);
    }
  }

  /** The search fails exactly when the pattern matches nowhere. */
  lemma RegexVideoIdNone(url: string)
    ensures RegexVideoId(url) == None <==> forall j: nat :: !MatchesAt(url, j)
  {
    RegexFromNone(url, 0);
  }

  /** The search reports the leftmost match, with the group running up to the next '&'. */
  lemma RegexVideoIdLeftmost(url: string, k: nat)
    requires MatchesAt(url, k)
    requires forall j: nat :: j < k ==> !MatchesAt(url, j)
    ensures RegexVideoId(url) == Some(TakeUntil(url[k + 2..], '&'))
  {
    RegexFromLeftmost(url, 0, k);
  }

  lemma TakeUntilAbsent(s: string, c: char)
    requires c !in s
    ensures TakeUntil(s, c) == s
  {
    var r := TakeUntil(s, c);
    assert forall i :: 0 <= i < |s| ==> s[i] != c;
    assert |r| == |s|;
  }

  lemma {:induction false} RegexFromSome(url: string, i: nat, g: string)
    requires RegexFrom(url, i) == Some(g)
    ensures g != [] && '&' !in g
    decreases |url| - i
  {
    if i + 2 < |url| && !MatchesAt(url, i) {
      RegexFromSome(url, i + 1, g);
    } else if i + 2 < |url| {
      var t := url[i + 2..];
      assert t[0] != '&';
      assert |TakeUntil(t, '&')| > 0;
    }
  }

  /** A key that passes the cross-check is non-empty and holds neither '=' nor '&'. */
  lemma CheckedYouTubeId(url: string, id: string)
    requires SplitVideoId(url) == Some(id) && RegexVideoId(url) == Some(id)
    ensures id != [] && '=' !in id && '&' !in id
  {
    RegexFromSome(url, 0, id);
    SplitFieldsHaveNoSeparator(url, '=');
  }

  lemma NoMatchInPrefix(p: string, rest: string)
    requires '=' !in p
    requires |rest| >= 2 && rest[0] == 'v' && rest[1] == '='
    ensures forall j: nat :: j < |p| ==> !MatchesAt(p + rest, j)
  {
    var u := p + rest;
    forall j: nat | j < |p| ensures !MatchesAt(u, j) {
      if j + 1 < |p| {
        assert u[j + 1] == p[j + 1];
        assert p[j + 1] in p;
      } else {
        assert u[j + 1] == rest[0];
      }
    }
  }

  /**
   * For a URL `p + "v=" + x` whose prefix holds no '=' and whose value is a non-empty run free
   * of '=' and '&', both derivations give exactly x.
   */
  lemma WatchUrlIds(p: string, x: string)
    requires '=' !in p && x != [] && '=' !in x && '&' !in x
    ensures SplitVideoId(p + "v=" + x) == Some(x)
    ensures RegexVideoId(p + "v=" + x) == Some(x)
  {
    var u := p + "v=" + x;
    assert '=' !in p + "v" by {
      assert forall i :: 0 <= i < |p| ==> (p + "v")[i] == p[i];
    }
    assert u == (p + "v") + ['='] + x;
    SecondFieldBetweenSeparators(p + "v", x, '=');
    TakeUntilAbsent(x, '=');
    NoMatchInPrefix(p, "v=" + x);
    assert u == p + ("v=" + x);
    assert x[0] in x;
    assert MatchesAt(u, |p|);
    RegexVideoIdLeftmost(u, |p|);
    assert u[|p| + 2..] == x;
    TakeUntilAbsent(x, '&');
  }

  /**
   * A further parameter after the video id (`...v=x&t=5`) makes the two derivations disagree:
   * the split keeps `x&t`, the regex stops at the '&'.
   */
  lemma TrailingParameterIds(p: string, x: string, rest: string)
    requires '=' !in p && x != [] && '=' !in x && '&' !in x
    ensures SplitVideoId(p + "v=" + x + "&" + rest) == Some(x + "&" + TakeUntil(rest, '='))
    ensures RegexVideoId(p + "v=" + x + "&" + rest) == Some(x)
    ensures SplitVideoId(p + "v=" + x + "&" + rest) != RegexVideoId(p + "v=" + x + "&" + rest)
  {
    TrailingSplitId(p, x, rest);
    TrailingRegexId(p, x, rest);
    assert |x + "&" + TakeUntil(rest, '=')| > |x|;
  }

  lemma TrailingSplitId(p: string, x: string, rest: string)
    requires '=' !in p && '=' !in x
    ensures SplitVideoId(p + "v=" + x + "&" + rest) == Some(x + "&" + TakeUntil(rest, '='))
  {
    var u := p + "v=" + x + "&" + rest;
    assert '=' !in p + "v" by {
      assert forall i :: 0 <= i < |p| ==> (p + "v")[i] == p[i];
    }
    var b := x + "&" + rest;
    assert u == (p + "v") + ['='] + b;
    SecondFieldBetweenSeparators(p + "v", b, '=');
    assert '=' !in x + "&" by {
      assert forall i :: 0 <= i < |x| ==> (x + "&")[i] == x[i];
    }
    assert b == (x + "&") + rest;
    TakeUntilPast(x + "&", rest, '=');
  }

  lemma TrailingRegexId(p: string, x: string, rest: string)
    requires '=' !in p && x != [] && '&' !in x
    ensures RegexVideoId(p + "v=" + x + "&" + rest) == Some(x)
  {
    var u := p + "v=" + x + "&" + rest;
    var b := x + "&" + rest;
    assert u == p + ("v=" + b);
    NoMatchInPrefix(p, "v=" + b);
    assert u[|p|] == 'v' && u[|p| + 1] == '=' && u[|p| + 2] == x[0];
    assert x[0] in x;
    assert MatchesAt(u, |p|);
    RegexVideoIdLeftmost(u, |p|);
    assert u[|p| + 2..] == x + ("&" + rest);
    TakeUntilStops(x, "&" + rest, '&');
  }

  lemma TakeUntilPast(a: string, b: string, c: char)
    requires c !in a
    ensures TakeUntil(a + b, c) == a + TakeUntil(b, c)
    decreases |a|
  {
    if a != [] {
      assert (a + b)[1..] == a[1..] + b;
      assert a[0] in a;
      TakeUntilPast(a[1..], b, c);
    } else {
      assert a + b == b;
    }
  }

  lemma TakeUntilStops(a: string, b: string, c: char)
    requires c !in a && b != [] && b[0] == c
    ensures TakeUntil(a + b, c) == a
  {
    TakeUntilPast(a, b, c);
    assert TakeUntil(b, c) == [];
  }
}
