/**
 * The pieces the compare and enroll prompt patterns are built from, besides
 * the image references of `Patterns`: whitespace runs `\s+`, keywords matched
 * ignoring case, the optional `(?:the\s+)?`, the word boundary `\b`, an
 * optional quote and a `[\w\-]+` name. Each piece has a declarative reading
 * (which slices it matches) and an engine reading (where the regex engine
 * lands after it); the lemmas show the two agree wherever the engine's
 * choice is forced by what follows.
 */
module Lexing {
  import opened Wrappers
  import opened Text
  import opened Patterns

  /** A character that matches a letter of a keyword, ignoring case, is neither whitespace, a quote nor a dot. */
  lemma LetterIsNotSeparator(x: char, c: char)
    requires 'a' <= c <= 'z' && CiChar(x, c)
    ensures !IsSpace(x) && !IsQuote(x) && x != '.'
  {
  }

  /** `\s+` followed by the keyword `kw`: `s[a..b]` with the keyword ending at `b`. */
  predicate SpaceThen(s: string, a: nat, kw: string, b: nat)
  {
    a + |kw| < b <= |s| && AllSpaceIn(s, a, b - |kw|) && CiAt(s, b - |kw|, kw)
  }

  /** The engine on `\s+kw`: where the keyword ends, if the whitespace run is followed by it. */
  function KwAfter(s: string, a: nat, kw: string): (r: Option<nat>)
    requires a <= |s|
    ensures r.Some? ==> SpaceThen(s, a, kw, r.value)
  {
    var w := WsEnd(s, a);
    if w > a && CiAt(s, w, kw) then Some(w + |kw|) else None
  }

  /** The engine finds `\s+kw` whenever it is there: the keyword starts with a letter, so the run is the greedy one. */
  lemma KwAfterComplete(s: string, a: nat, kw: string, b: nat)
    requires |kw| > 0 && 'a' <= kw[0] <= 'z'
    requires SpaceThen(s, a, kw, b)
    ensures KwAfter(s, a, kw) == Some(b)
  {
    var w := b - |kw|;
    assert CiChar(s[w], kw[0]);
    LetterIsNotSeparator(s[w], kw[0]);
    WsEndUnique(s, a, w);
  }

  /** `the` followed by whitespace at `p`. */
  predicate TheSpaceAt(s: string, p: nat)
  {
    CiAt(s, p, "the") && p + 3 < |s| && IsSpace(s[p + 3])
  }

  /**
   * `\s+(?:the\s+)?` is `s[x..y]`: a whitespace run, optionally followed by
   * `the` and a second whitespace run.
   */
  ghost predicate LeadIn(s: string, x: nat, y: nat)
  {
    exists m :: x < m <= y && AllSpaceIn(s, x, m)
                && (m == y || (CiAt(s, m, "the") && m + 3 < y && AllSpaceIn(s, m + 3, y)))
  }

  /** The greedy `(?:the\s+)?` at `w`. */
  function AfterThe(s: string, w: nat): (r: nat)
    requires w <= |s|
    ensures w <= r <= |s|
  {
    if TheSpaceAt(s, w) then WsEnd(s, w + 3) else w
  }

  /** The engine on `\s+(?:the\s+)?`: where the next element starts. */
  function LeadInEnd(s: string, x: nat): (r: Option<nat>)
    requires x <= |s|
    ensures r.Some? ==> LeadIn(s, x, r.value) && r.value <= |s|
  {
    var w := WsEnd(s, x);
    if w == x then None
    else
      var y := AfterThe(s, w);
      assert AllSpaceIn(s, x, w) && (w == y || (CiAt(s, w, "the") && w + 3 < y && AllSpaceIn(s, w + 3, y)));
      Some(y)
  }

  /**
   * A position where the next element can start: not whitespace, and not
   * `the` plus whitespace (which no element after `(?:the\s+)?` can begin with).
   */
  predicate StartsElement(s: string, y: nat)
  {
    y < |s| && !IsSpace(s[y]) && !TheSpaceAt(s, y)
  }

  /** The optional `the` is forced: before an element the engine's choice is the only one. */
  lemma LeadInEndComplete(s: string, x: nat, y: nat)
    requires LeadIn(s, x, y) && StartsElement(s, y)
    ensures LeadInEnd(s, x) == Some(y)
  {
    var m :| x < m <= y && AllSpaceIn(s, x, m)
             && (m == y || (CiAt(s, m, "the") && m + 3 < y && AllSpaceIn(s, m + 3, y)));
    if m == y {
      WsEndUnique(s, x, y);
    } else {
      assert CiChar(s[m + 0], "the"[0]);
      LetterIsNotSeparator(s[m], 't');
      WsEndUnique(s, x, m);
      assert TheSpaceAt(s, m);
      WsEndUnique(s, m + 3, y);
    }
  }

  /** A keyword that starts with a letter other than `t` can follow the optional `the`. */
  lemma KeywordStartsElement(s: string, y: nat, kw: string)
    requires |kw| > 0 && 'a' <= kw[0] <= 'z' && kw[0] != 't'
    requires CiAt(s, y, kw)
    ensures StartsElement(s, y)
  {
    assert CiChar(s[y + 0], kw[0]);
    LetterIsNotSeparator(s[y], kw[0]);
    assert !CiChar(s[y + 0], "the"[0]);
  }

  /** An image reference can follow the optional `the`: its run reaches a dot before any whitespace. */
  lemma SpanStartsElement(pat: Pattern, s: string, y: nat, e: nat)
    requires Span(pat, s, y, e)
    ensures StartsElement(s, y)
  {
    var j := y + PrefixLen(pat, s, y).value;
    var d := SpanDot(pat, s, y, e);
    if pat == Url {
      var lit := if PrefixLen(pat, s, y).value == 8 then "https://" else "http://";
      assert CiChar(s[y + 0], lit[0]);
      LetterIsNotSeparator(s[y], 'h');
      assert !CiChar(s[y + 0], "the"[0]);
    } else {
      assert InRun(pat, s[y]);
      if CiAt(s, y, "the") && y + 3 < |s| {
        assert CiChar(s[y + 1], "the"[1]) && CiChar(s[y + 2], "the"[2]);
        LetterIsNotSeparator(s[y + 1], 'h');
        LetterIsNotSeparator(s[y + 2], 'e');
        assert !IsSpace(s[y + 3]);
      }
    }
  }

  /** `\b` before a word character at `i` (word characters as ASCII `\w`). */
  predicate Boundary(s: string, i: nat)
  {
    i == 0 || (i <= |s| && !IsWordChar(s[i - 1]))
  }

  /** A character of `[\w\-]`. */
  predicate IsNameChar(c: char)
  {
    IsWordChar(c) || c == '-'
  }

  /** Whitespace and quotes end a name. */
  lemma SeparatorEndsName(c: char)
    requires IsSpace(c) || IsQuote(c)
    ensures !IsNameChar(c)
  {
  }

  /** `s[a..b]` is a non-empty run of `[\w\-]`. */
  predicate NameRun(s: string, a: nat, b: nat)
  {
    a < b <= |s| && forall k :: a <= k < b ==> IsNameChar(s[k])
  }

  /** The greedy `[\w\-]*` from `p`. */
  function NameRunEnd(s: string, p: nat): (r: nat)
    requires p <= |s|
    ensures p <= r <= |s| && (r < |s| ==> !IsNameChar(s[r]))
    ensures forall k :: p <= k < r ==> IsNameChar(s[k])
    decreases |s| - p
  {
    if p < |s| && IsNameChar(s[p]) then NameRunEnd(s, p + 1) else p
  }

  /** `['"]?` is `s[a..b]`. */
  predicate OptQuote(s: string, a: nat, b: nat)
  {
    b == a || (b == a + 1 && a < |s| && IsQuote(s[a]))
  }

  /** The greedy `['"]?` at `a`. */
  function SkipQuote(s: string, a: nat): (r: nat)
    requires a <= |s|
    ensures OptQuote(s, a, r) && r <= |s|
  {
    if a < |s| && IsQuote(s[a]) then a + 1 else a
  }

  /** `\s+['"]?` then a name `s[g1..g2]`, starting the whitespace at `z`. */
  ghost predicate QuotedName(s: string, z: nat, g1: nat, g2: nat)
  {
    exists q :: z < q && AllSpaceIn(s, z, q) && OptQuote(s, q, g1) && NameRun(s, g1, g2)
  }

  /** The engine on `\s+['"]?[\w\-]+`: the longest name there. */
  function NameAfter(s: string, z: nat): (r: Option<(nat, nat)>)
    requires z <= |s|
    ensures r.Some? ==> QuotedName(s, z, r.value.0, r.value.1) && r.value.1 <= |s|
    ensures r.Some? ==> r.value.1 == |s| || !IsNameChar(s[r.value.1])
  {
    var q := WsEnd(s, z);
    if q == z then None
    else
      var g1 := SkipQuote(s, q);
      var g2 := NameRunEnd(s, g1);
      if g2 == g1 then None else Some((g1, g2))
  }

  /** A quoted name is found with the same start, and at least as long. */
  lemma NameAfterComplete(s: string, z: nat, g1: nat, g2: nat)
    requires QuotedName(s, z, g1, g2)
    ensures NameAfter(s, z).Some? && NameAfter(s, z).value.0 == g1 && g2 <= NameAfter(s, z).value.1
  {
    var q :| z < q && AllSpaceIn(s, z, q) && OptQuote(s, q, g1) && NameRun(s, g1, g2);
    assert !IsSpace(s[q]) by {
      if q == g1 { assert IsNameChar(s[g1]); }
    }
    WsEndUnique(s, z, q);
    if q == g1 {
      assert IsNameChar(s[g1]);
    }
  }

  /** A quoted name followed by a character outside `[\w\-]` is exactly what the engine reads. */
  lemma NameAfterExact(s: string, z: nat, g1: nat, g2: nat)
    requires QuotedName(s, z, g1, g2) && (g2 < |s| ==> !IsNameChar(s[g2]))
    ensures NameAfter(s, z) == Some((g1, g2))
  {
    NameAfterComplete(s, z, g1, g2);
  }

  // ------------------------------------------------------------ comma split

  /** The first comma at or after `p`, or `|t|` when there is none. */
  function NextComma(t: string, p: nat): (c: nat)
    requires p <= |t|
    ensures p <= c <= |t| && (c < |t| ==> t[c] == ',')
    decreases |t| - p
  {
    if p == |t| || t[p] == ',' then p else NextComma(t, p + 1)
  }

  /** `t[a..b]` holds no comma. */
  predicate NoCommaIn(t: string, a: nat, b: nat)
  {
    a <= b <= |t| && forall k :: a <= k < b ==> t[k] != ','
  }

  lemma {:induction false} NextCommaBefore(t: string, p: nat)
    requires p <= |t|
    ensures NoCommaIn(t, p, NextComma(t, p))
    decreases |t| - p
  {
    if p < |t| && t[p] != ',' {
      NextCommaBefore(t, p + 1);
    }
  }

  /** A comma with none before it (from `p`) is the one found. */
  lemma {:induction false} NextCommaFirst(t: string, p: nat, c: nat)
    requires NoCommaIn(t, p, c) && (c < |t| ==> t[c] == ',')
    ensures NextComma(t, p) == c
    decreases c - p
  {
    if p < c {
      NextCommaFirst(t, p + 1, c);
    }
  }

  /** `re.split(r",\s*", t[p..])`: the pieces between commas, each comma taking the whitespace after it. */
  function SplitFrom(t: string, p: nat): seq<string>
    requires p <= |t|
    decreases |t| - p
  {
    var c := NextComma(t, p);
    if c == |t| then [t[p..]] else [t[p..c]] + SplitFrom(t, WsEnd(t, c + 1))
  }

  function SplitComma(t: string): seq<string>
  {
    SplitFrom(t, 0)
  }

  /** No piece of a split holds a comma. */
  predicate PiecesWithoutComma(r: seq<string>)
  {
    forall k :: 0 <= k < |r| ==> ',' !in r[k]
  }

  /** No piece after the first starts with whitespace. */
  predicate LaterPiecesTrimmed(r: seq<string>)
  {
    forall k :: 1 <= k < |r| ==> r[k] == [] || !IsSpace(r[k][0])
  }

  /** A stretch without commas gives a piece without commas. */
  lemma NoCommaSlice(t: string, a: nat, b: nat)
    requires NoCommaIn(t, a, b)
    ensures ',' !in t[a..b]
  {
    forall k | 0 <= k < b - a ensures t[a..b][k] != ',' {
      assert t[a..b][k] == t[a + k];
    }
  }

  /** Putting a comma-free piece in front keeps the split's shape. */
  lemma ConsPieces(x: string, rest: seq<string>)
    requires ',' !in x && |rest| >= 1 && PiecesWithoutComma(rest) && LaterPiecesTrimmed(rest)
    requires rest[0] == [] || !IsSpace(rest[0][0])
    ensures PiecesWithoutComma([x] + rest) && LaterPiecesTrimmed([x] + rest)
  {
    var r := [x] + rest;
    forall k | 1 <= k < |r| ensures r[k] == rest[k - 1] {
    }
  }

  /** The pieces of a split hold no comma and, after the first, start with no whitespace. */
  lemma {:induction false} SplitFromPieces(t: string, p: nat)
    requires p <= |t|
    ensures var r := SplitFrom(t, p);
      |r| >= 1 && PiecesWithoutComma(r) && LaterPiecesTrimmed(r)
      && (r[0] == t[p..NextComma(t, p)])
    decreases |t| - p
  {
    var c := NextComma(t, p);
    NextCommaBefore(t, p);
    NoCommaSlice(t, p, c);
    if c < |t| {
      var q := WsEnd(t, c + 1);
      SplitFromPieces(t, q);
      var rest := SplitFrom(t, q);
      assert SplitFrom(t, p) == [t[p..c]] + rest;
      assert rest[0] == [] || !IsSpace(rest[0][0]) by {
        if rest[0] != [] {
          assert rest[0][0] == t[q];
        }
      }
      ConsPieces(t[p..c], rest);
    } else {
      assert t[p..] == t[p..c];
    }
  }

  /** There is at least one piece, no piece holds a comma, and no piece after the first starts with whitespace. */
  lemma SplitCommaPieces(t: string)
    ensures var r := SplitComma(t); |r| >= 1 && PiecesWithoutComma(r) && LaterPiecesTrimmed(r)
  {
    SplitFromPieces(t, 0);
  }

  /** The split at a position whose next comma is at `c`: the piece up to it, then the split after the whitespace. */
  lemma SplitFromStep(t: string, p: nat, c: nat)
    requires p <= c < |t| && NextComma(t, p) == c
    ensures SplitFrom(t, p) == [t[p..c]] + SplitFrom(t, WsEnd(t, c + 1))
  {
  }

  /** The later items of a join keep the conditions the split needs. */
  lemma RestOfPieces(items: seq<string>)
    requires |items| >= 2 && PiecesWithoutComma(items) && LaterPiecesTrimmed(items)
    ensures PiecesWithoutComma(items[1..]) && LaterPiecesTrimmed(items[1..])
    ensures var j := Join(items[1..], ", "); j == [] || !IsSpace(j[0])
  {
    var rest := items[1..];
    forall k | 0 <= k < |rest| ensures rest[k] == items[k + 1] {
    }
    assert rest[0] == items[1];
    JoinStart(rest, ", ");
  }

  /** A comma-free piece at `p` is followed by `", "` and the join of the rest. */
  lemma JoinHeadAt(t: string, p: nat, items: seq<string>)
    requires |items| >= 2 && p <= |t| && t[p..] == Join(items, ", ")
    ensures var c := p + |items[0]|;
      c + 2 <= |t| && t[p..c] == items[0] && t[c] == ',' && t[c + 1] == ' '
      && t[c + 2..] == Join(items[1..], ", ")
  {
    var x := items[0];
    var j := Join(items[1..], ", ");
    var c := p + |x|;
    assert t[p..] == x + ", " + j;
    assert t[p..c] == t[p..][..|x|];
    assert t[c] == t[p..][|x|];
    assert t[c + 1] == t[p..][|x| + 1];
    assert t[c + 2..] == t[p..][|x| + 2..];
  }

  /** A slice without a comma leaves no comma in that range. */
  lemma SliceNoComma(t: string, a: nat, b: nat)
    requires a <= b <= |t| && ',' !in t[a..b]
    ensures NoCommaIn(t, a, b)
  {
    forall k | a <= k < b ensures t[k] != ',' {
      assert t[k] == t[a..b][k - a];
    }
  }

  /** After `", "`, the whitespace run ends where the next piece begins. */
  lemma SpaceAfterComma(t: string, c: nat)
    requires c + 2 <= |t| && t[c + 1] == ' '
    requires c + 2 == |t| || !IsSpace(t[c + 2])
    ensures WsEnd(t, c + 1) == c + 2
  {
    WsEndUnique(t, c + 1, c + 2);
  }

  /** The last piece of a join runs to the end of the text. */
  lemma SplitLastPiece(t: string, p: nat, x: string)
    requires p <= |t| && t[p..] == x && ',' !in x
    ensures SplitFrom(t, p) == [x]
  {
    SliceNoComma(t, p, |t|);
    NextCommaFirst(t, p, |t|);
  }

  /** A join of several items splits into its first item and the split after `", "`. */
  lemma SplitJoinHead(t: string, p: nat, items: seq<string>)
    requires |items| >= 2 && PiecesWithoutComma(items) && LaterPiecesTrimmed(items)
    requires p <= |t| && t[p..] == Join(items, ", ")
    ensures var c := p + |items[0]|;
      c + 2 <= |t| && t[c + 2..] == Join(items[1..], ", ")
      && SplitFrom(t, p) == [items[0]] + SplitFrom(t, c + 2)
  {
    var c := p + |items[0]|;
    JoinHeadAt(t, p, items);
    assert ',' !in items[0];
    SliceNoComma(t, p, c);
    NextCommaFirst(t, p, c);
    RestOfPieces(items);
    assert c + 2 == |t| || !IsSpace(t[c + 2]) by {
      if c + 2 < |t| {
        assert t[c + 2] == t[c + 2..][0];
      }
    }
    SpaceAfterComma(t, c);
    SplitFromStep(t, p, c);
  }

  /** The split of a join, read from the join's start `p` inside a longer text. */
  lemma {:induction false} SplitFromJoin(t: string, p: nat, items: seq<string>)
    requires |items| >= 1 && PiecesWithoutComma(items) && LaterPiecesTrimmed(items)
    requires p <= |t| && t[p..] == Join(items, ", ")
    ensures SplitFrom(t, p) == items
    decreases |items|
  {
    if |items| == 1 {
      SplitLastPiece(t, p, items[0]);
    } else {
      var c := p + |items[0]|;
      var rest := items[1..];
      RestOfPieces(items);
      SplitJoinHead(t, p, items);
      assert t[c + 2..] == Join(rest, ", ");
      SplitFromJoin(t, c + 2, rest);
      assert SplitFrom(t, c + 2) == rest;
      assert SplitFrom(t, p) == [items[0]] + rest;
      assert items == [items[0]] + rest;
    }
  }

  /**
   * Splitting undoes `", ".join(items)` for items without commas whose
   * later members do not start with whitespace (which the split would eat).
   */
  lemma SplitJoin(items: seq<string>)
    requires |items| >= 1 && PiecesWithoutComma(items) && LaterPiecesTrimmed(items)
    ensures SplitComma(Join(items, ", ")) == items
  {
    var t := Join(items, ", ");
    assert t[0..] == t;
    SplitFromJoin(t, 0, items);
  }
}
