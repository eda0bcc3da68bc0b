/**
 * Characters and strings as Python's `str` and `re` see them: the whitespace
 * class, the case folding of `re.IGNORECASE`, `str.strip`, `str.lower`,
 * `sep.join(...)`, `str.rstrip("/")` and the decimal rendering of a count.
 */
module Text {

  /** `str.isspace()`, which is also what `\s` matches in a `str` pattern. */
  predicate IsSpace(c: char)
  {
    ('\t' <= c <= '\r') || ('\U{1C}' <= c <= '\U{1F}') || c == ' '
    || c == '\U{85}' || c == '\U{A0}' || c == '\U{1680}'
    || ('\U{2000}' <= c <= '\U{200A}') || c == '\U{2028}' || c == '\U{2029}'
    || c == '\U{202F}' || c == '\U{205F}' || c == '\U{3000}'
  }

  /** `\w`, restricted to ASCII letters, digits and the underscore. */
  predicate IsWordChar(c: char)
  {
    ('a' <= c <= 'z') || ('A' <= c <= 'Z') || ('0' <= c <= '9') || c == '_'
  }

  predicate IsQuote(c: char)
  {
    c == '"' || c == '\''
  }

  /**
   * Character `x` of the subject matches the lower-case pattern character `c`
   * under `re.IGNORECASE`: itself, its upper-case ASCII form, and the four
   * non-ASCII letters U+0130 and U+0131 (for `i`), U+017F (for `s`) and
   * U+212A (for `k`).
   */
  predicate CiChar(x: char, c: char)
  {
    x == c
    || ('a' <= c <= 'z' && x as int == c as int - 32)
    || (c == 'i' && (x == '\U{0130}' || x == '\U{0131}'))
    || (c == 's' && x == '\U{017F}')
    || (c == 'k' && x == '\U{212A}')
  }

  /**
   * `str.lower()` as far as it can produce an ASCII letter: the upper-case
   * ASCII letters and the Kelvin sign. Other characters are kept.
   */
  function Lower(c: char): char
  {
    if 'A' <= c <= 'Z' then (c as int + 32) as char
    else if c == '\U{212A}' then 'k'
    else c
  }

  function LowerString(s: string): (r: string)
    ensures |r| == |s| && forall k :: 0 <= k < |s| ==> r[k] == Lower(s[k])
  {
    seq(|s|, k requires 0 <= k < |s| => Lower(s[k]))
  }

  /** The lower-case literal `w` occurs at position `p` of `s`, ignoring case. */
  predicate CiAt(s: string, p: nat, w: string)
  {
    p + |w| <= |s| && forall k :: 0 <= k < |w| ==> CiChar(s[p + k], w[k])
  }

  predicate OccursAt(hay: string, needle: string, i: nat)
  {
    i + |needle| <= |hay| && hay[i..i + |needle|] == needle
  }

  /** Matching a literal inside a slice is matching it at the shifted position of the whole. */
  lemma CiAtSlice(s: string, i: nat, e: nat, p: nat, w: string)
    requires i <= p && e <= |s| && i <= e
    requires p + |w| <= e
    ensures CiAt(s, p, w) <==> CiAt(s[i..e], p - i, w)
  {
    var t := s[i..e];
    assert forall k :: p <= k < p + |w| ==> t[k - i] == s[k];
  }

  /** Python's `needle in hay` for strings. */
  predicate Contains(hay: string, needle: string)
  {
    exists i: nat :: i <= |hay| && OccursAt(hay, needle, i)
  }

  /** Every character of `s[a..b]` is whitespace. */
  predicate AllSpaceIn(s: string, a: nat, b: nat)
  {
    a <= b <= |s| && forall k :: a <= k < b ==> IsSpace(s[k])
  }

  /** The end of the whitespace run starting at `p`. */
  function WsEnd(s: string, p: nat): (r: nat)
    requires p <= |s|
    ensures p <= r <= |s| && AllSpaceIn(s, p, r)
    ensures r < |s| ==> !IsSpace(s[r])
    decreases |s| - p
  {
    if p < |s| && IsSpace(s[p]) then WsEnd(s, p + 1) else p
  }

  /** A whitespace run that stops before a non-space character is the one `WsEnd` finds. */
  lemma WsEndUnique(s: string, p: nat, r: nat)
    requires AllSpaceIn(s, p, r) && (r < |s| ==> !IsSpace(s[r]))
    ensures WsEnd(s, p) == r
  {
  }

  /** The start of the whitespace run ending at `b`. */
  function WsStart(s: string, b: nat): (r: nat)
    requires b <= |s|
    ensures r <= b && AllSpaceIn(s, r, b)
    ensures r > 0 ==> !IsSpace(s[r - 1])
  {
    if b > 0 && IsSpace(s[b - 1]) then WsStart(s, b - 1) else b
  }

  lemma WsStartUnique(s: string, r: nat, b: nat)
    requires AllSpaceIn(s, r, b) && (r > 0 ==> !IsSpace(s[r - 1]))
    ensures WsStart(s, b) == r
    decreases b - r
  {
    if r < b {
      WsStartUnique(s, r, b - 1);
    }
  }

  /** `s.strip()`: what is left between the leading and the trailing whitespace. */
  function Strip(s: string): (r: string)
  {
    var a := WsEnd(s, 0);
    var b := WsStart(s, |s|);
    if a < b then s[a..b] else []
  }

  /** Strip gives a slice of its input framed by whitespace and bounded by non-whitespace. */
  lemma StripIsSlice(s: string)
    ensures exists a: nat, b: nat :: a <= b <= |s| && Strip(s) == s[a..b]
                                     && AllSpaceIn(s, 0, a) && AllSpaceIn(s, b, |s|)
    ensures Strip(s) == [] || (!IsSpace(Strip(s)[0]) && !IsSpace(Strip(s)[|Strip(s)| - 1]))
  {
    var a := WsEnd(s, 0);
    var b := WsStart(s, |s|);
    if a >= b {
      assert AllSpaceIn(s, 0, |s|) by {
        forall k | 0 <= k < |s| ensures IsSpace(s[k]) {
          if k >= a {
            assert k >= b;
          }
        }
      }
      assert Strip(s) == s[0..0];
    }
  }

  /** Stripping twice changes nothing. */
  lemma StripIdempotent(s: string)
    ensures Strip(Strip(s)) == Strip(s)
  {
    StripIsSlice(s);
    var r := Strip(s);
    if r != [] {
      WsEndUnique(r, 0, 0);
      WsStartUnique(r, |r|, |r|);
      assert r[0..|r|] == r;
    }
  }

  /** `sep.join(parts)`. */
  function Join(parts: seq<string>, sep: string): (r: string)
    decreases |parts|
  {
    if |parts| == 0 then ""
    else if |parts| == 1 then parts[0]
    else parts[0] + sep + Join(parts[1..], sep)
  }

  /** Joining one more part appends the separator and that part. */
  lemma {:induction false} JoinSnoc(parts: seq<string>, x: string, sep: string)
    requires |parts| > 0
    ensures Join(parts + [x], sep) == Join(parts, sep) + sep + x
    decreases |parts|
  {
    if |parts| == 1 {
      assert parts + [x] == [parts[0], x];
    } else {
      assert (parts + [x])[1..] == parts[1..] + [x];
      JoinSnoc(parts[1..], x, sep);
    }
  }

  /** A join of parts whose first part does not start with whitespace does not either. */
  lemma JoinStart(parts: seq<string>, sep: string)
    requires |parts| > 0 && (parts[0] == [] || !IsSpace(parts[0][0]))
    requires sep != [] && !IsSpace(sep[0])
    ensures Join(parts, sep) == [] || !IsSpace(Join(parts, sep)[0])
  {
    if |parts| > 1 {
      if parts[0] == [] {
        assert Join(parts, sep)[0] == sep[0];
      } else {
        assert Join(parts, sep)[0] == parts[0][0];
      }
    }
  }

  /** `str(n)` for a non-negative integer. */
  function NatToString(n: nat): (r: string)
    ensures |r| > 0 && forall k :: 0 <= k < |r| ==> '0' <= r[k] <= '9'
  {
    if n < 10 then [('0' as int + n) as char]
    else NatToString(n / 10) + [('0' as int + n % 10) as char]
  }

  /** The value a string of decimal digits denotes. */
  function DigitsValue(s: string): nat
    requires forall k :: 0 <= k < |s| ==> '0' <= s[k] <= '9'
  {
    if s == [] then 0
    else DigitsValue(s[..|s| - 1]) * 10 + (s[|s| - 1] as int - '0' as int)
  }

  /** The decimal rendering of a count reads back as that count. */
  lemma {:induction false} NatToStringValue(n: nat)
    ensures DigitsValue(NatToString(n)) == n
  {
    if n >= 10 {
      NatToStringValue(n / 10);
      var r := NatToString(n);
      assert r[..|r| - 1] == NatToString(n / 10);
    }
  }

  predicate StartsWith(s: string, prefix: string)
  {
    |prefix| <= |s| && s[..|prefix|] == prefix
  }

  predicate EndsWith(s: string, suffix: string)
  {
    |suffix| <= |s| && s[|s| - |suffix|..] == suffix
  }

  /** `s.rstrip(ch)` for one character: every trailing `ch` removed. */
  function RStripChar(s: string, ch: char): (r: string)
    ensures |r| <= |s| && r == s[..|r|]
    ensures forall k :: |r| <= k < |s| ==> s[k] == ch
    ensures r == [] || r[|r| - 1] != ch
    decreases |s|
  {
    if s != [] && s[|s| - 1] == ch then RStripChar(s[..|s| - 1], ch) else s
  }

  /** Python's `s[n:]` for `n >= 0`: empty when `n` is past the end. */
  function DropPrefix(s: string, n: nat): (r: string)
    ensures n <= |s| ==> r == s[n..]
    ensures n > |s| ==> r == []
  {
    if n <= |s| then s[n..] else []
  }
}
