/**
 * The two image-reference patterns of the prompt parser (prompt_parser.py):
 *
 *   URL   = https?://  \S+?       \.  (jpg|jpeg|png|bmp|gif|webp)
 *   LOCAL =            [^\s"']+?  \.  (jpg|jpeg|png|bmp|gif|webp)
 *
 * both under re.IGNORECASE. Each is a fixed prefix (the scheme, or nothing),
 * a lazy run of at least one character of a class, a dot and an extension.
 * `Span` says declaratively which slices of a string the pattern matches in
 * full; `FirstEnd` is how the regex engine matches at one start (the lazy
 * run is extended one character at a time until a dot and an extension
 * follow); `Search` is `re.search` (the leftmost start that matches).
 */
module Patterns {
  import opened Wrappers
  import opened Text
  import opened Scan

  datatype Pattern = Url | Local

  /** The letter at `p` is `c`, ignoring case. */
  predicate LetterAt(s: string, p: nat, c: char)
  {
    p < |s| && CiChar(s[p], c)
  }

  predicate Word3At(s: string, p: nat, x: char, y: char, z: char)
  {
    LetterAt(s, p, x) && LetterAt(s, p + 1, y) && LetterAt(s, p + 2, z)
  }

  predicate Word4At(s: string, p: nat, w: char, x: char, y: char, z: char)
  {
    Word3At(s, p, w, x, y) && LetterAt(s, p + 3, z)
  }

  /**
   * The extension alternatives `jpg|jpeg|png|bmp|gif|webp` tried in order at
   * position `p`: the length of the first one that matches there, ignoring
   * case, or 0.
   */
  function ExtAt(s: string, p: nat): (n: nat)
    ensures n == 0 || n == 3 || n == 4
    ensures n > 0 ==> p + n <= |s|
  {
    if Word3At(s, p, 'j', 'p', 'g') then 3
    else if Word4At(s, p, 'j', 'p', 'e', 'g') then 4
    else if Word3At(s, p, 'p', 'n', 'g') then 3
    else if Word3At(s, p, 'b', 'm', 'p') then 3
    else if Word3At(s, p, 'g', 'i', 'f') then 3
    else if Word4At(s, p, 'w', 'e', 'b', 'p') then 4
    else 0
  }

  /** `s[a..b]` is one of the six image extensions, ignoring case. */
  predicate IsExtSpan(s: string, a: nat, b: nat)
  {
    (b == a + 3 && (Word3At(s, a, 'j', 'p', 'g') || Word3At(s, a, 'p', 'n', 'g')
                    || Word3At(s, a, 'b', 'm', 'p') || Word3At(s, a, 'g', 'i', 'f')))
    || (b == a + 4 && (Word4At(s, a, 'j', 'p', 'e', 'g') || Word4At(s, a, 'w', 'e', 'b', 'p')))
  }

  /**
   * At most one extension matches at a position (`jpg` and `jpeg` part at
   * their third letter), so trying the alternatives in order finds exactly
   * the extension slices.
   */
  lemma ExtAtExact(s: string, p: nat, b: nat)
    ensures (ExtAt(s, p) > 0 && b == p + ExtAt(s, p)) <==> IsExtSpan(s, p, b)
  {
  }

  /** An extension starts with a letter, so never with a dot. */
  lemma ExtStartsWithLetter(s: string, p: nat)
    requires ExtAt(s, p) > 0
    ensures p < |s| && s[p] != '.'
  {
    
  }

  /** The characters the lazy run may consume. */
  predicate InRun(pat: Pattern, c: char)
  {
    !IsSpace(c) && (pat == Local ==> !IsQuote(c))
  }

  predicate RunOk(pat: Pattern, s: string, a: nat, b: nat)
  {
    a <= b <= |s| && forall k :: a <= k < b ==> InRun(pat, s[k])
  }

  /**
   * The fixed prefix at `i`: `https?://` for a URL (the greedy `s?` first
   * takes an `s`, and gives it back only when `://` does not follow it), the
   * empty prefix for a local path.
   */
  function PrefixLen(pat: Pattern, s: string, i: nat): (r: Option<nat>)
    ensures pat == Local ==> r == Some(0)
    ensures pat == Url && r.Some? ==> (r.value == 8 && CiAt(s, i, "https://"))
                                      || (r.value == 7 && CiAt(s, i, "http://"))
    ensures pat == Url && r.None? ==> !CiAt(s, i, "https://") && !CiAt(s, i, "http://")
  {
    if pat == Local then Some(0)
    else if CiAt(s, i, "https://") then Some(8)
    else if CiAt(s, i, "http://") then Some(7)
    else None
  }

  /** `s[i..e]` is matched in full by the pattern. */
  predicate Span(pat: Pattern, s: string, i: nat, e: nat)
  {
    e <= |s| && PrefixLen(pat, s, i).Some?
    && var j := i + PrefixLen(pat, s, i).value;
       exists d :: j < d < e && s[d] == '.' && IsExtSpan(s, d + 1, e) && RunOk(pat, s, j, d)
  }

  /** `re.fullmatch(_URL_RE, t, re.IGNORECASE)` succeeds. */
  predicate IsUrl(t: string)
  {
    Span(Url, t, 0, |t|)
  }

  /** `re.fullmatch(_LOCAL_IMG_RE, t, re.IGNORECASE)` succeeds. */
  predicate IsLocal(t: string)
  {
    Span(Local, t, 0, |t|)
  }

  /** A dot at `d` that can close a lazy run begun at `a`. */
  predicate DotAt(pat: Pattern, s: string, a: nat, d: nat)
  {
    a < d < |s| && s[d] == '.' && ExtAt(s, d + 1) > 0 && RunOk(pat, s, a, d)
  }

  /** Where the match closed by the dot at `d` ends. */
  function EndAfterDot(s: string, d: nat): nat
  {
    d + 1 + ExtAt(s, d + 1)
  }

  /**
   * The lazy run: from candidate position `d` on, the first dot that is
   * followed by an extension, as long as every character before it may be
   * consumed by the run.
   */
  function LazyDot(pat: Pattern, s: string, a: nat, d: nat): (r: Option<nat>)
    requires a < d <= |s| && RunOk(pat, s, a, d)
    ensures r.Some? ==> d <= r.value && DotAt(pat, s, a, r.value)
    ensures forall d': nat :: d <= d' && (r.Some? ==> d' < r.value) ==> !DotAt(pat, s, a, d')
    decreases |s| - d
  {
    if d == |s| then None
    else if s[d] == '.' && ExtAt(s, d + 1) > 0 then Some(d)
    else if InRun(pat, s[d]) then LazyDot(pat, s, a, d + 1)
    else None
  }

  /** The dot of a span: where its run stops and its extension begins. */
  lemma SpanDot(pat: Pattern, s: string, i: nat, e: nat) returns (d: nat)
    requires Span(pat, s, i, e)
    ensures var j := i + PrefixLen(pat, s, i).value;
      j < d < e && s[d] == '.' && IsExtSpan(s, d + 1, e) && RunOk(pat, s, j, d)
  {
    var j := i + PrefixLen(pat, s, i).value;
    d :| j < d < e && s[d] == '.' && IsExtSpan(s, d + 1, e) && RunOk(pat, s, j, d);
  }

  /** The spans at `i` are exactly the ends closed by a dot of the run. */
  lemma SpanIffDot(pat: Pattern, s: string, i: nat, e: nat)
    ensures Span(pat, s, i, e) <==>
      (PrefixLen(pat, s, i).Some? &&
       exists d :: DotAt(pat, s, i + PrefixLen(pat, s, i).value, d) && e == EndAfterDot(s, d))
  {
    if Span(pat, s, i, e) {
      var j := i + PrefixLen(pat, s, i).value;
      var d := SpanDot(pat, s, i, e);
      ExtAtExact(s, d + 1, e);
      assert DotAt(pat, s, j, d) && e == EndAfterDot(s, d);
    }
    if PrefixLen(pat, s, i).Some? {
      var j := i + PrefixLen(pat, s, i).value;
      if d: nat :| DotAt(pat, s, j, d) && e == EndAfterDot(s, d) {
        ExtAtExact(s, d + 1, e);
        assert j < d < e && s[d] == '.' && IsExtSpan(s, d + 1, e) && RunOk(pat, s, j, d);
      }
    }
  }

  /** A later dot closes a strictly longer match. */
  lemma DotOrderIsEndOrder(pat: Pattern, s: string, a: nat, d1: nat, d2: nat)
    requires DotAt(pat, s, a, d1) && DotAt(pat, s, a, d2) && d1 < d2
    ensures EndAfterDot(s, d1) < EndAfterDot(s, d2)
  {
    ExtStartsWithLetter(s, d1 + 1);
  }

  /** How the engine matches the pattern at one start: the shortest span there. */
  function FirstEnd(pat: Pattern, s: string, i: nat): Option<nat>
  {
    match PrefixLen(pat, s, i)
    case None => None
    case Some(j) =>
      if i + j < |s| && InRun(pat, s[i + j]) then
        match LazyDot(pat, s, i + j, i + j + 1)
        case None => None
        case Some(d) => Some(EndAfterDot(s, d))
      else None
  }

  lemma FirstEndSound(pat: Pattern, s: string, i: nat)
    requires FirstEnd(pat, s, i).Some?
    ensures Span(pat, s, i, FirstEnd(pat, s, i).value)
  {
    var j := i + PrefixLen(pat, s, i).value;
    var d := LazyDot(pat, s, j, j + 1).value;
    assert DotAt(pat, s, j, d);
    SpanIffDot(pat, s, i, EndAfterDot(s, d));
  }

  lemma FirstEndLeast(pat: Pattern, s: string, i: nat, e: nat)
    requires Span(pat, s, i, e)
    ensures FirstEnd(pat, s, i).Some? && FirstEnd(pat, s, i).value <= e
  {
    SpanIffDot(pat, s, i, e);
    var j := i + PrefixLen(pat, s, i).value;
    var d' :| DotAt(pat, s, j, d') && e == EndAfterDot(s, d');
    FirstEndBeforeDot(pat, s, i, d');
  }

  /** The engine's match at `i` ends no later than the one closed by any dot of the run. */
  lemma FirstEndBeforeDot(pat: Pattern, s: string, i: nat, d': nat)
    requires PrefixLen(pat, s, i).Some? && DotAt(pat, s, i + PrefixLen(pat, s, i).value, d')
    ensures FirstEnd(pat, s, i).Some? && FirstEnd(pat, s, i).value <= EndAfterDot(s, d')
  {
    var j := i + PrefixLen(pat, s, i).value;
    assert InRun(pat, s[j]);
    assert RunOk(pat, s, j, j + 1);
    var r := LazyDot(pat, s, j, j + 1);
    assert r.Some? && r.value <= d';
    if r.value < d' {
      DotOrderIsEndOrder(pat, s, j, r.value, d');
    }
  }

  /** The engine's match at `i` is the shortest span at `i`, and it fails only when there is none. */
  lemma FirstEndIsShortest(pat: Pattern, s: string, i: nat)
    ensures FirstEnd(pat, s, i).Some? ==> Span(pat, s, i, FirstEnd(pat, s, i).value)
    ensures forall e: nat :: Span(pat, s, i, e) ==> FirstEnd(pat, s, i).Some? && FirstEnd(pat, s, i).value <= e
  {
    if FirstEnd(pat, s, i).Some? {
      FirstEndSound(pat, s, i);
    }
    forall e: nat | Span(pat, s, i, e)
      ensures FirstEnd(pat, s, i).Some? && FirstEnd(pat, s, i).value <= e
    {
      FirstEndLeast(pat, s, i, e);
    }
  }

  /** `s[i..e]` is what `re.search` returns: the leftmost start, then the shortest span there. */
  ghost predicate IsFirstMatch(pat: Pattern, s: string, i: nat, e: nat)
  {
    Span(pat, s, i, e)
    && (forall i': nat, e': nat :: i' < i ==> !Span(pat, s, i', e'))
    && (forall e': nat :: e' < e ==> !Span(pat, s, i, e'))
  }

  /** The engine's match at each start. */
  function FirstEnds(pat: Pattern, s: string): nat -> Option<nat>
  {
    i => FirstEnd(pat, s, i)
  }

  /** `re.search`: try every start from `from` on, left to right. */
  function Search(pat: Pattern, s: string, from: nat): Option<(nat, nat)>
  {
    FirstFrom(FirstEnds(pat, s), from, |s|)
  }

  /** No span can start at the end of the string or beyond. */
  lemma NoSpanPastEnd(pat: Pattern, s: string, i: nat, e: nat)
    requires i >= |s|
    ensures !Span(pat, s, i, e)
  {
  }

  /** `Search` stops at the first start from `from` on where the engine matches. */
  lemma SearchByFirstEnd(pat: Pattern, s: string, from: nat)
    ensures Search(pat, s, from).Some? ==>
      var (i, e) := Search(pat, s, from).value;
      from <= i < |s| && FirstEnd(pat, s, i) == Some(e)
      && forall i': nat :: from <= i' < i ==> FirstEnd(pat, s, i').None?
    ensures Search(pat, s, from).None? ==> forall i': nat :: from <= i' < |s| ==> FirstEnd(pat, s, i').None?
  {
    var at := FirstEnds(pat, s);
    FirstFromSpec(at, from, |s|);
    forall i': nat | from <= i' < |s| && at(i').None?
      ensures FirstEnd(pat, s, i').None?
    {
    }
  }

  /** `Search` finds the leftmost, shortest match at or after `from`, and fails only when there is none. */
  lemma SearchIsLeftmostShortest(pat: Pattern, s: string, from: nat)
    ensures Search(pat, s, from).Some? ==>
      var (i, e) := Search(pat, s, from).value;
      from <= i && Span(pat, s, i, e)
      && (forall i': nat, e': nat :: from <= i' < i ==> !Span(pat, s, i', e'))
      && (forall e': nat :: e' < e ==> !Span(pat, s, i, e'))
    ensures Search(pat, s, from).None? ==> forall i': nat, e': nat :: from <= i' ==> !Span(pat, s, i', e')
  {
    SearchByFirstEnd(pat, s, from);
    forall i': nat, e': nat | from <= i' && Span(pat, s, i', e')
      ensures Search(pat, s, from).Some? && Search(pat, s, from).value.0 <= i'
    {
      if i' >= |s| {
        NoSpanPastEnd(pat, s, i', e');
      }
      FirstEndLeast(pat, s, i', e');
    }
    if Search(pat, s, from).Some? {
      FirstEndIsShortest(pat, s, Search(pat, s, from).value.0);
    }
  }

  /** A span lies inside the string and is not empty. */
  lemma SpanBounds(pat: Pattern, s: string, i: nat, e: nat)
    requires Span(pat, s, i, e)
    ensures i < e <= |s|
  {
  }

  /** The match `Search` reports is a non-empty slice of the string. */
  lemma SearchBounds(pat: Pattern, s: string, from: nat)
    ensures Search(pat, s, from).Some? ==> from <= Search(pat, s, from).value.0 < Search(pat, s, from).value.1 <= |s|
  {
    SearchByFirstEnd(pat, s, from);
    if Search(pat, s, from).Some? {
      var (i, e) := Search(pat, s, from).value;
      FirstEndSound(pat, s, i);
      SpanBounds(pat, s, i, e);
    }
  }

  /** `re.search` over the whole string is exactly the first match. */
  lemma SearchIsFirstMatch(pat: Pattern, s: string)
    ensures Search(pat, s, 0).Some? ==> IsFirstMatch(pat, s, Search(pat, s, 0).value.0, Search(pat, s, 0).value.1)
    ensures Search(pat, s, 0).None? <==> forall i: nat, e: nat :: !Span(pat, s, i, e)
  {
    SearchIsLeftmostShortest(pat, s, 0);
  }

  lemma ExtSpanSlice(s: string, i: nat, e: nat, a: nat, b: nat)
    requires i <= a <= b <= e <= |s|
    ensures IsExtSpan(s, a, b) <==> IsExtSpan(s[i..e], a - i, b - i)
  {
  }

  lemma PrefixLenSlice(pat: Pattern, s: string, i: nat, e: nat)
    requires i + 8 <= e <= |s|
    ensures PrefixLen(pat, s, i) == PrefixLen(pat, s[i..e], 0)
  {
    CiAtSlice(s, i, e, i, "https://");
    CiAtSlice(s, i, e, i, "http://");
  }

  /** A run inside a slice is a run of the whole, and conversely. */
  lemma RunOkUp(pat: Pattern, s: string, i: nat, e: nat, a: nat, b: nat)
    requires i <= e <= |s| && RunOk(pat, s[i..e], a, b)
    ensures RunOk(pat, s, i + a, i + b)
  {
    var t := s[i..e];
    forall k | i + a <= k < i + b ensures InRun(pat, s[k]) {
      assert s[k] == t[k - i];
    }
  }

  lemma RunOkDown(pat: Pattern, s: string, i: nat, e: nat, a: nat, b: nat)
    requires i <= a <= b <= e <= |s| && RunOk(pat, s, a, b)
    ensures RunOk(pat, s[i..e], a - i, b - i)
  {
    var t := s[i..e];
    forall k | a - i <= k < b - i ensures InRun(pat, t[k]) {
      assert t[k] == s[i + k];
    }
  }

  lemma ExtSpanUp(s: string, i: nat, e: nat, a: nat, b: nat)
    requires i <= e <= |s| && a <= b <= e - i && IsExtSpan(s[i..e], a, b)
    ensures IsExtSpan(s, i + a, i + b)
  {
    ExtSpanSlice(s, i, e, i + a, i + b);
  }

  lemma ExtSpanDown(s: string, i: nat, e: nat, a: nat, b: nat)
    requires i <= a <= b <= e <= |s| && IsExtSpan(s, a, b)
    ensures IsExtSpan(s[i..e], a - i, b - i)
  {
    ExtSpanSlice(s, i, e, a, b);
  }

  /** A span from its pieces: the prefix, the run up to the dot, and the extension. */
  lemma SpanIntro(pat: Pattern, s: string, i: nat, d: nat, e: nat)
    requires PrefixLen(pat, s, i).Some? && i + PrefixLen(pat, s, i).value < d < e <= |s|
    requires s[d] == '.' && IsExtSpan(s, d + 1, e) && RunOk(pat, s, i + PrefixLen(pat, s, i).value, d)
    ensures Span(pat, s, i, e)
  {
  }

  lemma SpanSliceDown(pat: Pattern, s: string, i: nat, e: nat)
    requires i <= e <= |s| && Span(pat, s, i, e)
    ensures Span(pat, s[i..e], 0, e - i)
  {
    var t := s[i..e];
    var j := PrefixLen(pat, s, i).value;
    var d := SpanDot(pat, s, i, e);
    ExtSpanLength(s, d + 1, e);
    ExtSpanDown(s, i, e, d + 1, e);
    if pat == Url {
      PrefixLenSlice(pat, s, i, e);
    }
    assert PrefixLen(pat, t, 0) == Some(j);
    RunOkDown(pat, s, i, e, i + j, d);
    assert t[d - i] == '.';
    SpanIntro(pat, t, 0, d - i, e - i);
  }

  lemma SpanSliceUp(pat: Pattern, s: string, i: nat, e: nat)
    requires i <= e <= |s| && Span(pat, s[i..e], 0, e - i)
    ensures Span(pat, s, i, e)
  {
    var t := s[i..e];
    var j := PrefixLen(pat, t, 0).value;
    var d := SpanDot(pat, t, 0, e - i);
    ExtSpanLength(t, d + 1, e - i);
    ExtSpanUp(s, i, e, d + 1, e - i);
    if pat == Url {
      PrefixLenSlice(pat, s, i, e);
    }
    assert PrefixLen(pat, s, i) == Some(j);
    RunOkUp(pat, s, i, e, j, d);
    assert s[i + d] == t[d];
    SpanIntro(pat, s, i, i + d, e);
  }

  /**
   * A span re-tested in isolation, as `re.fullmatch` does on the captured
   * text, is a full match, and conversely.
   */
  lemma SpanSlice(pat: Pattern, s: string, i: nat, e: nat)
    requires i <= e <= |s|
    ensures Span(pat, s, i, e) <==> Span(pat, s[i..e], 0, e - i)
  {
    if Span(pat, s, i, e) {
      SpanSliceDown(pat, s, i, e);
    }
    if Span(pat, s[i..e], 0, e - i) {
      SpanSliceUp(pat, s, i, e);
    }
  }

  lemma ExtSpanLength(s: string, a: nat, b: nat)
    requires IsExtSpan(s, a, b)
    ensures a + 3 <= b <= |s|
  {
  }

  /** Every URL span is also a local span unless its run holds a quote. */
  lemma UrlSpanIsLocalSpan(s: string, i: nat, e: nat)
    requires Span(Url, s, i, e)
    requires forall k :: i <= k < e ==> !IsQuote(s[k])
    ensures Span(Local, s, i, e)
  {
    var j := PrefixLen(Url, s, i).value;
    var d := SpanDot(Url, s, i, e);
    assert RunOk(Local, s, i, d) by {
      forall k | i <= k < d ensures InRun(Local, s[k]) {
        if k < i + j {
          assert CiChar(s[k], (if j == 8 then "https://" else "http://")[k - i]);
        }
      }
    }
  }

  /**
   * Backtracking into a lazy run begun at `j`: the candidate dots from `d`
   * on are tried in ascending order, and the first whose match end lets the
   * rest of the pattern (`next`) succeed wins.
   */
  function Candidates<T>(pat: Pattern, s: string, j: nat, d: nat, next: nat -> Option<T>): (r: Option<(nat, T)>)
    requires j < d <= |s| && RunOk(pat, s, j, d)
    ensures r.Some? ==> d <= r.value.0 && DotAt(pat, s, j, r.value.0)
                        && next(EndAfterDot(s, r.value.0)) == Some(r.value.1)
    ensures forall d': nat :: d <= d' && (r.Some? ==> d' < r.value.0) && DotAt(pat, s, j, d') ==>
              next(EndAfterDot(s, d')).None?
    decreases |s| - d
  {
    match LazyDot(pat, s, j, d)
    case None => None
    case Some(d1) =>
      var n := next(EndAfterDot(s, d1));
      if n.Some? then Some((d1, n.value))
      else
        assert RunOk(pat, s, j, d1 + 1) by { assert InRun(pat, s[d1]); }
        Candidates(pat, s, j, d1 + 1, next)
  }

  /**
   * The pattern at `a` followed by the rest of the pattern: the shortest
   * span at `a` after which `next` succeeds, with what `next` gave there.
   */
  function StartRun<T>(pat: Pattern, s: string, a: nat, next: nat -> Option<T>): (r: Option<(nat, T)>)
    requires a <= |s|
  {
    match PrefixLen(pat, s, a)
    case None => None
    case Some(k) =>
      if a + k < |s| && InRun(pat, s[a + k]) then
        var c := Candidates(pat, s, a + k, a + k + 1, next);
        if c.Some? then Some((EndAfterDot(s, c.value.0), c.value.1)) else None
      else None
  }

  lemma StartRunFound<T>(pat: Pattern, s: string, a: nat, next: nat -> Option<T>)
    requires a <= |s| && StartRun(pat, s, a, next).Some?
    ensures Span(pat, s, a, StartRun(pat, s, a, next).value.0)
    ensures next(StartRun(pat, s, a, next).value.0) == Some(StartRun(pat, s, a, next).value.1)
  {
    var j := a + PrefixLen(pat, s, a).value;
    var d := Candidates(pat, s, j, j + 1, next).value.0;
    assert DotAt(pat, s, j, d);
    SpanIffDot(pat, s, a, EndAfterDot(s, d));
  }

  lemma CandidatesEarlierFail<T>(pat: Pattern, s: string, j: nat, d': nat, next: nat -> Option<T>)
    requires DotAt(pat, s, j, d') && RunOk(pat, s, j, j + 1)
    requires Candidates(pat, s, j, j + 1, next).Some? ==>
               EndAfterDot(s, d') < EndAfterDot(s, Candidates(pat, s, j, j + 1, next).value.0)
    ensures next(EndAfterDot(s, d')).None?
  {
    var c := Candidates(pat, s, j, j + 1, next);
    if c.Some? && c.value.0 < d' {
      DotOrderIsEndOrder(pat, s, j, c.value.0, d');
    }
  }

  /** The dot that closes a span, and the run it closes. */
  lemma SpanRunDot(pat: Pattern, s: string, a: nat, e: nat) returns (j: nat, d: nat)
    requires Span(pat, s, a, e)
    ensures PrefixLen(pat, s, a).Some? && j == a + PrefixLen(pat, s, a).value
    ensures DotAt(pat, s, j, d) && e == EndAfterDot(s, d)
    ensures j < |s| && InRun(pat, s[j])
  {
    j := a + PrefixLen(pat, s, a).value;
    d := SpanDot(pat, s, a, e);
    ExtAtExact(s, d + 1, e);
    assert RunOk(pat, s, j, d);
  }

  /** After its prefix, `StartRun` tries the candidate dots from the second character of the run on. */
  lemma StartRunIsCandidates<T>(pat: Pattern, s: string, a: nat, next: nat -> Option<T>, j: nat)
    requires a <= |s| && PrefixLen(pat, s, a).Some? && j == a + PrefixLen(pat, s, a).value
    requires j < |s| && InRun(pat, s[j])
    ensures RunOk(pat, s, j, j + 1)
    ensures var c := Candidates(pat, s, j, j + 1, next);
      StartRun(pat, s, a, next) == if c.Some? then Some((EndAfterDot(s, c.value.0), c.value.1)) else None
  {
    assert RunOk(pat, s, j, j + 1);
  }

  lemma StartRunEarlierFails<T>(pat: Pattern, s: string, a: nat, next: nat -> Option<T>, e: nat)
    requires a <= |s| && Span(pat, s, a, e)
    requires StartRun(pat, s, a, next).Some? ==> e < StartRun(pat, s, a, next).value.0
    ensures next(e).None?
  {
    var j, d' := SpanRunDot(pat, s, a, e);
    StartRunIsCandidates(pat, s, a, next, j);
    CandidatesEarlierFail(pat, s, j, d', next);
  }

  /** `StartRun` is lazy matching followed by the rest: the least span end that lets the rest succeed, or failure when none does. */
  lemma StartRunSpec<T>(pat: Pattern, s: string, a: nat, next: nat -> Option<T>)
    requires a <= |s|
    ensures StartRun(pat, s, a, next).Some? ==>
      var (e, t) := StartRun(pat, s, a, next).value;
      Span(pat, s, a, e) && next(e) == Some(t)
      && forall e': nat :: e' < e && Span(pat, s, a, e') ==> next(e').None?
    ensures StartRun(pat, s, a, next).None? ==>
      forall e: nat :: Span(pat, s, a, e) ==> next(e).None?
  {
    if StartRun(pat, s, a, next).Some? {
      StartRunFound(pat, s, a, next);
    }
    forall e: nat | Span(pat, s, a, e) && (StartRun(pat, s, a, next).Some? ==> e < StartRun(pat, s, a, next).value.0)
      ensures next(e).None?
    {
      StartRunEarlierFails(pat, s, a, next, e);
    }
  }
}
